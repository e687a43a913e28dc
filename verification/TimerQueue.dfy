/** The timer queue (LibCommons/TimerQueue.cpp), one step per atomic operation, map section or
    thread-pool call, under any number of threads.

    The Windows thread pool is the environment: it queues and starts callbacks of an armed timer,
    may run several callbacks of one timer at once, and a wait for callbacks ends only when none of
    that timer runs. A thread runs at most one callback; from its body, as from outside, it may
    cancel any timer, and Shutdown is a row of cancels. Scheduling is one step: ids become known
    when it returns. */
module TimerQueues {

  type ThreadId = nat
  type TimerId = nat

  datatype EntryState = Scheduled | Running | Completed | Cancelled

  /** Who must still close the handle of a timer. */
  datatype Claim =
    | InMap                      // whoever cancels it
    | HeldBy(t: ThreadId)        // the thread that took it out of the map
    | DeferredTo(t: ThreadId)    // a callback of the timer that cancelled it: closeAfterCallback is set
    | ClosingBy(t: ThreadId)     // the callback that swapped closeAfterCallback back
    | Closed

  datatype Runner = NoRunner | Runner(t: ThreadId)

  datatype Winner = Nobody | Won(t: ThreadId, self: bool)

  datatype Timer = Timer(
    periodic: bool,
    state: EntryState,
    hasHandle: bool,
    closeAfterCallback: bool,
    // the thread pool's side
    armed: bool,
    queued: nat,        // callbacks queued and not started
    runner: Runner,     // who started its last callback
    // history
    claim: Claim,
    winner: Winner,     // the Cancel that returns true, and whether it came from a callback of this timer
    cancels: nat,       // Cancel calls that return true
    closes: nat,        // CloseThreadpoolTimer calls on the handle
    stored: bool,       // the Cancelled store has happened
    lateBodies: nat,    // bodies begun by a callback whose state check came after that store
    drained: bool)      // a wait for its callbacks has ended

  datatype CallbackAt = Start | Body | CloseCheck | Closing
  datatype Callback = NoCallback | Callback(id: TimerId, at: CallbackAt)

  datatype CancelAt = Lookup | Store | Unset | Defer | Wait | Close
  datatype Cancel = NoCancel | Cancel(id: TimerId, at: CancelAt, self: bool)

  datatype Thread = Thread(cb: Callback, op: Cancel)

  datatype State = State(timers: map<TimerId, Timer>, threads: map<ThreadId, Thread>)

  datatype Step =
    | Schedule(id: TimerId, periodic: bool)
    | PoolQueue(id: TimerId)                      // the timer comes due
    | PoolStart(t: ThreadId, id: TimerId)         // the pool runs a queued callback
    | CallbackStep(t: ThreadId)                   // RunEntry goes on
    | BeginCancel(t: ThreadId, id: TimerId)
    | CancelStep(t: ThreadId, dropQueued: bool)   // CancelImpl goes on

  // ---- Steps ----------------------------------------------------------------------------

  function Fresh(periodic: bool): Timer
  {
    Timer(periodic, Scheduled, true, false, true, 0, NoRunner, InMap, Nobody, 0, 0, false, 0, false)
  }

  predicate RunsCallbackOf(s: State, t: ThreadId, id: TimerId)
    requires t in s.threads
  {
    s.threads[t].cb.Callback? && s.threads[t].cb.id == id
  }

  function SetTimer(s: State, id: TimerId, e: Timer): State
  {
    s.(timers := s.timers[id := e])
  }

  function SetThread(s: State, t: ThreadId, th: Thread): State
  {
    s.(threads := s.threads[t := th])
  }

  /** RunEntry: where the callback stands after its next step. */
  function CallbackNext(cb: Callback, e: Timer): Callback
    requires cb.Callback?
  {
    match cb.at
    case Start => if e.state == Cancelled then NoCallback else cb.(at := Body)
    case Body => cb.(at := CloseCheck)
    case CloseCheck => if e.closeAfterCallback then cb.(at := Closing) else NoCallback
    case Closing => NoCallback
  }

  /** RunEntry: what the step does to the timer. */
  function CallbackTimer(e: Timer, at: CallbackAt, t: ThreadId): Timer
  {
    match at
    case Start =>
      // compare-exchange Scheduled -> Running; the body is skipped if it found Cancelled
      if e.state == Cancelled then e
      else e.(state := if e.state == Scheduled then Running else e.state,
              lateBodies := e.lateBodies + if e.stored then 1 else 0)
    case Body =>
      // one-shot: store Completed; periodic: compare-exchange Running -> Scheduled
      e.(state := if !e.periodic then Completed else if e.state == Running then Scheduled else e.state)
    case CloseCheck =>
      // closeAfterCallback.exchange(false)
      if e.closeAfterCallback then e.(closeAfterCallback := false, claim := ClosingBy(t)) else e
    case Closing =>
      if e.hasHandle then e.(hasHandle := false, closes := e.closes + 1, claim := Closed) else e
  }

  function CallbackDo(s: State, t: ThreadId): State
    requires t in s.threads && s.threads[t].cb.Callback? && s.threads[t].cb.id in s.timers
  {
    var th := s.threads[t];
    var e := s.timers[th.cb.id];
    SetTimer(SetThread(s, t, th.(cb := CallbackNext(th.cb, e))), th.cb.id, CallbackTimer(e, th.cb.at, t))
  }

  predicate MayWaitEnd(s: State, id: TimerId, dropQueued: bool)
    requires id in s.timers
  {
    (dropQueued || s.timers[id].queued == 0) && forall t <- s.threads :: !RunsCallbackOf(s, t, id)
  }

  /** CancelImpl gives up: the id is not in the map, or the timer has no handle. */
  predicate GivesUp(e: Timer, at: CancelAt)
  {
    (at == Lookup && !e.claim.InMap?) || (at == Unset && !e.hasHandle)
  }

  /** CancelImpl: where the cancel stands after its next step. */
  function CancelNext(c: Cancel): Cancel
    requires c.Cancel?
  {
    match c.at
    case Lookup => c.(at := Store)
    case Store => c.(at := Unset)
    case Unset => c.(at := if c.self then Defer else Wait)
    case Defer => NoCancel
    case Wait => c.(at := Close)
    case Close => NoCancel
  }

  /** CancelImpl: what the step does to the timer. */
  function CancelTimer(e: Timer, c: Cancel, t: ThreadId): Timer
    requires c.Cancel?
  {
    match c.at
    case Lookup => e.(claim := HeldBy(t), winner := Won(t, c.self), cancels := e.cancels + 1)
    case Store => e.(state := Cancelled, stored := true)
    case Unset => e.(armed := false)
    case Defer => e.(closeAfterCallback := true, claim := DeferredTo(t))
    case Wait => e.(queued := 0, drained := true)
    case Close => e.(closes := e.closes + 1, hasHandle := false, claim := Closed)
  }

  function CancelDo(s: State, t: ThreadId, dropQueued: bool): State
    requires t in s.threads && s.threads[t].op.Cancel?
  {
    var th := s.threads[t];
    var c := th.op;
    if c.id !in s.timers || GivesUp(s.timers[c.id], c.at) then SetThread(s, t, th.(op := NoCancel))
    else if c.at == Wait && !MayWaitEnd(s, c.id, dropQueued) then s
    else SetTimer(SetThread(s, t, th.(op := CancelNext(c))), c.id, CancelTimer(s.timers[c.id], c, t))
  }

  predicate Enabled(s: State, a: Step)
  {
    match a
    case Schedule(id, _) => id !in s.timers
    case PoolQueue(id) => id in s.timers && s.timers[id].armed
    case PoolStart(t, id) =>
      && t in s.threads && s.threads[t] == Thread(NoCallback, NoCancel)
      && id in s.timers && s.timers[id].queued > 0
    case CallbackStep(t) =>
      t in s.threads && s.threads[t].cb.Callback? && s.threads[t].op.NoCancel? && s.threads[t].cb.id in s.timers
    case BeginCancel(t, id) =>
      && t in s.threads && s.threads[t].op.NoCancel?
      && (s.threads[t].cb.Callback? ==> s.threads[t].cb.at == Body)
    case CancelStep(t, _) => t in s.threads && s.threads[t].op.Cancel?
  }

  /** One step; a step that is not enabled does nothing. */
  function Do(s: State, a: Step): State
  {
    if !Enabled(s, a) then s else
    match a
    case Schedule(id, periodic) => SetTimer(s, id, Fresh(periodic))
    case PoolQueue(id) =>
      var e := s.timers[id];
      SetTimer(s, id, e.(queued := e.queued + 1, armed := e.periodic))
    case PoolStart(t, id) =>
      var e := s.timers[id];
      SetTimer(SetThread(s, t, Thread(Callback(id, Start), NoCancel)), id, e.(queued := e.queued - 1, runner := Runner(t)))
    case CallbackStep(t) => CallbackDo(s, t)
    case BeginCancel(t, id) =>
      // IsCurrentCallbackEntry decides whether this is a self-cancel
      SetThread(s, t, s.threads[t].(op := Cancel(id, Lookup, RunsCallbackOf(s, t, id))))
    case CancelStep(t, dropQueued) => CancelDo(s, t, dropQueued)
  }

  function Run(s: State, steps: seq<Step>): State
    decreases |steps|
  {
    if steps == [] then s else Run(Do(s, steps[0]), steps[1..])
  }

  function Init(threads: set<ThreadId>): State
  {
    State(map[], map t | t in threads :: Thread(NoCallback, NoCancel))
  }

  // ---- Invariant --------------------------------------------------------------------------

  /** A one-shot timer has one callback, and until it is cancelled its state says how far that is; while
      it is before the end of its body, Cancelled stays. */
  predicate RunnerOk(e: Timer, t: ThreadId, at: CallbackAt)
  {
    !e.periodic ==>
      && e.runner == Runner(t)
      && (e.stored && e.state != Cancelled ==> at == CloseCheck || at == Closing)
      && (!e.stored ==> e.state == match at case Start => Scheduled case Body => Running case _ => Completed)
  }

  /** Of a one-shot timer: not queued again once queued, and overwritten only by its callback. */
  predicate OnceOk(e: Timer)
  {
    !e.periodic ==>
      && (e.armed ==> e.queued == 0 && e.runner == NoRunner)
      && e.queued <= 1 && (e.queued == 1 ==> e.runner == NoRunner)
      && (e.stored && e.state != Cancelled ==> e.runner != NoRunner)
      && (!e.stored && e.runner == NoRunner ==> e.state == Scheduled)
  }

  /** Nobody has cancelled it: a periodic timer stays armed, a one-shot one is armed, queued or was run. */
  predicate NotLost(e: Timer)
  {
    e.claim.InMap? ==> e.armed || (!e.periodic && (e.queued > 0 || e.runner != NoRunner))
  }

  /** What a thread is doing agrees with the timers it does it to. */
  predicate ThreadOk(s: State, t: ThreadId)
    requires t in s.threads
  {
    var th := s.threads[t];
    && (th.cb.Callback? ==>
          && th.cb.id in s.timers && !s.timers[th.cb.id].drained
          && (th.cb.at == Closing ==> s.timers[th.cb.id].claim == ClosingBy(t))
          && RunnerOk(s.timers[th.cb.id], t, th.cb.at))
    && (th.op.Cancel? ==>
          && (th.cb.Callback? ==> th.cb.at == Body)
          && (th.op.self == RunsCallbackOf(s, t, th.op.id))
          && (th.op.at != Lookup ==> th.op.id in s.timers && s.timers[th.op.id].claim == HeldBy(t)))
  }

  /** The handle of a timer is closed once, by whoever holds the claim. */
  predicate ClaimOk(s: State, id: TimerId)
    requires id in s.timers
  {
    var e := s.timers[id];
    match e.claim
    case InMap => e.hasHandle && e.closes == 0 && !e.closeAfterCallback && e.winner == Nobody && !e.stored && !e.drained
    case HeldBy(t) =>
      && e.hasHandle && e.closes == 0 && !e.closeAfterCallback
      && t in s.threads && s.threads[t].op.Cancel? && s.threads[t].op.id == id && s.threads[t].op.at != Lookup
      && e.winner == Won(t, s.threads[t].op.self)
      && (e.stored <==> s.threads[t].op.at != Store)
      && (s.threads[t].op.at == Defer ==> s.threads[t].op.self)
      && (s.threads[t].op.at in {Wait, Close} ==> !s.threads[t].op.self)
      && (s.threads[t].op.at in {Defer, Wait, Close} ==> !e.armed)
      && (e.drained <==> s.threads[t].op.at == Close)
    case DeferredTo(t) =>
      && e.hasHandle && e.closes == 0 && e.closeAfterCallback && e.winner == Won(t, true) && !e.armed && e.stored && !e.drained
      && t in s.threads && RunsCallbackOf(s, t, id) && s.threads[t].cb.at in {Body, CloseCheck}
    case ClosingBy(t) =>
      && e.hasHandle && e.closes == 0 && !e.closeAfterCallback && e.winner.Won? && e.winner.self && !e.armed && e.stored && !e.drained
      && t in s.threads && RunsCallbackOf(s, t, id) && s.threads[t].cb.at == Closing
    case Closed =>
      && !e.hasHandle && e.closes == 1 && !e.closeAfterCallback && e.winner.Won? && !e.armed && e.stored
      && (e.winner.self || e.drained)
  }

  /** What holds of a timer whatever the threads do. */
  predicate HistoryOk(e: Timer)
  {
    && e.cancels == (if e.claim.InMap? then 0 else 1)
    && (e.drained ==> !e.armed && e.queued == 0)
    && (e.periodic && e.stored ==> e.state == Cancelled)
    && (e.periodic && !e.stored ==> e.state == Scheduled || e.state == Running)
    && (e.state == Cancelled ==> e.stored)
    && OnceOk(e) && NotLost(e)
    && e.lateBodies == 0
  }

  predicate TimerOk(s: State, id: TimerId)
    requires id in s.timers
  {
    ClaimOk(s, id) && HistoryOk(s.timers[id])
  }

  ghost predicate Inv(s: State)
  {
    && (forall t <- s.threads :: ThreadOk(s, t))
    && (forall id <- s.timers :: TimerOk(s, id))
  }

  // ---- Every step keeps it ------------------------------------------------------------------

  /** A step of thread `t` on timer `id` touches nothing else, and at most that part of the thread
      which deals with `id`. */
  ghost predicate Local(s: State, s': State, t: ThreadId, id: TimerId)
  {
    && t in s.threads && t in s'.threads && s'.threads == s.threads[t := s'.threads[t]]
    && (if id in s.timers then id in s'.timers && s'.timers == s.timers[id := s'.timers[id]] else s'.timers == s.timers)
    && (s'.threads[t].cb == s.threads[t].cb || RunsCallbackOf(s, t, id))
    && (s'.threads[t].op == s.threads[t].op || (s.threads[t].op.Cancel? && s.threads[t].op.id == id))
  }

  /** It takes no other thread's claim, and ends a wait only while no one is in a callback. */
  ghost predicate Polite(s: State, s': State, t: ThreadId, id: TimerId)
    requires Local(s, s', t, id) && id in s.timers
  {
    var e, e' := s.timers[id], s'.timers[id];
    && (forall t' <- s.threads :: t' != t && e.claim in {HeldBy(t'), ClosingBy(t')} ==> e'.claim == e.claim)
    && (e'.drained != e.drained ==> forall t' <- s.threads :: !RunsCallbackOf(s, t', id))
    && e'.periodic == e.periodic && e'.runner == e.runner && (e.stored ==> e'.stored)
    && (e'.stored && e'.state != Cancelled ==> (e.stored && e.state != Cancelled) || RunsCallbackOf(s, t, id))
    && (!e'.stored && !e.periodic ==> e'.state == e.state || RunsCallbackOf(s, t, id))
  }

  lemma OtherThreadsKept(s: State, s': State, t: ThreadId, id: TimerId, t': ThreadId)
    requires Inv(s) && Local(s, s', t, id) && (id in s.timers ==> Polite(s, s', t, id))
    requires t' in s.threads && t' != t
    ensures ThreadOk(s', t')
  {
    assert ThreadOk(s, t') && ThreadOk(s, t);
  }

  lemma OtherTimersKept(s: State, s': State, t: ThreadId, id: TimerId, id': TimerId)
    requires Inv(s) && Local(s, s', t, id) && id' in s.timers && id' != id
    ensures TimerOk(s', id')
  {
    assert TimerOk(s, id');
  }

  lemma LocalKeepsInv(s: State, s': State, t: ThreadId, id: TimerId)
    requires Inv(s) && Local(s, s', t, id) && (id in s.timers ==> Polite(s, s', t, id))
    requires ThreadOk(s', t) && (id in s.timers ==> TimerOk(s', id))
    ensures Inv(s')
  {
    forall t' | t' in s'.threads ensures ThreadOk(s', t') {
      if t' != t {
        OtherThreadsKept(s, s', t, id, t');
      }
    }
    forall id' | id' in s'.timers ensures TimerOk(s', id') {
      if id' != id {
        OtherTimersKept(s, s', t, id, id');
      }
    }
  }

  lemma CallbackKeepsHistory(e: Timer, at: CallbackAt, t: ThreadId)
    requires HistoryOk(e) && RunnerOk(e, t, at) && (e.claim.InMap? || e.closeAfterCallback ==> at != Closing)
    requires e.closeAfterCallback ==> !e.claim.InMap?
    ensures HistoryOk(CallbackTimer(e, at, t))
  {
  }

  /** Up to the end of the body the claim is not touched. */
  lemma BodyKeepsClaim(s: State, t: ThreadId)
    requires Enabled(s, CallbackStep(t)) && ThreadOk(s, t) && ClaimOk(s, s.threads[t].cb.id)
    requires s.threads[t].cb.at == Start || s.threads[t].cb.at == Body
    ensures ClaimOk(CallbackDo(s, t), s.threads[t].cb.id)
  {
  }

  lemma CloseKeepsClaim(s: State, t: ThreadId)
    requires Enabled(s, CallbackStep(t)) && ThreadOk(s, t) && ClaimOk(s, s.threads[t].cb.id)
    requires s.threads[t].cb.at == CloseCheck || s.threads[t].cb.at == Closing
    ensures ClaimOk(CallbackDo(s, t), s.threads[t].cb.id)
  {
  }

  lemma CallbackKeepsItsTimer(s: State, t: ThreadId)
    requires Inv(s) && Enabled(s, CallbackStep(t))
    ensures TimerOk(CallbackDo(s, t), s.threads[t].cb.id)
  {
    assert ThreadOk(s, t) && TimerOk(s, s.threads[t].cb.id);
    if s.threads[t].cb.at == Start || s.threads[t].cb.at == Body {
      BodyKeepsClaim(s, t);
    } else {
      CloseKeepsClaim(s, t);
    }
    CallbackKeepsHistory(s.timers[s.threads[t].cb.id], s.threads[t].cb.at, t);
  }

  lemma CallbackKeepsItsThread(s: State, t: ThreadId)
    requires Enabled(s, CallbackStep(t)) && ThreadOk(s, t) && TimerOk(s, s.threads[t].cb.id)
    ensures ThreadOk(CallbackDo(s, t), t)
  {
  }

  lemma CallbackIsPolite(s: State, t: ThreadId)
    requires Enabled(s, CallbackStep(t)) && ThreadOk(s, t) && TimerOk(s, s.threads[t].cb.id)
    ensures var s', id := CallbackDo(s, t), s.threads[t].cb.id;
            Local(s, s', t, id) && Polite(s, s', t, id)
  {
  }

  lemma CallbackKeepsInv(s: State, t: ThreadId)
    requires Inv(s) && Enabled(s, CallbackStep(t))
    ensures Inv(CallbackDo(s, t))
  {
    assert ThreadOk(s, t) && TimerOk(s, s.threads[t].cb.id);
    CallbackKeepsItsTimer(s, t);
    CallbackKeepsItsThread(s, t);
    CallbackIsPolite(s, t);
    LocalKeepsInv(s, CallbackDo(s, t), t, s.threads[t].cb.id);
  }

  lemma CancelIsLocal(s: State, t: ThreadId, dropQueued: bool)
    requires Enabled(s, CancelStep(t, dropQueued))
    ensures Local(s, CancelDo(s, t, dropQueued), t, s.threads[t].op.id)
  {
  }

  lemma CancelIsPolite(s: State, t: ThreadId, dropQueued: bool)
    requires Enabled(s, CancelStep(t, dropQueued)) && ThreadOk(s, t)
    requires s.threads[t].op.id in s.timers && TimerOk(s, s.threads[t].op.id)
    requires Local(s, CancelDo(s, t, dropQueued), t, s.threads[t].op.id)
    ensures Polite(s, CancelDo(s, t, dropQueued), t, s.threads[t].op.id)
  {
    var s', id := CancelDo(s, t, dropQueued), s.threads[t].op.id;
    assert s'.timers[id].drained != s.timers[id].drained ==> MayWaitEnd(s, id, dropQueued);
  }

  lemma CancelKeepsItsThread(s: State, t: ThreadId, dropQueued: bool)
    requires Enabled(s, CancelStep(t, dropQueued)) && ThreadOk(s, t)
    requires forall id <- s.timers :: TimerOk(s, id)
    ensures ThreadOk(CancelDo(s, t, dropQueued), t)
  {
    assert s.threads[t].op.id in s.timers ==> TimerOk(s, s.threads[t].op.id);
  }

  lemma EarlyCancelKeepsItsTimer(s: State, t: ThreadId, dropQueued: bool)
    requires Inv(s) && Enabled(s, CancelStep(t, dropQueued)) && s.threads[t].op.id in s.timers
    requires s.threads[t].op.at in {Lookup, Store, Unset}
    ensures TimerOk(CancelDo(s, t, dropQueued), s.threads[t].op.id)
  {
    assert TimerOk(s, s.threads[t].op.id) && ThreadOk(s, t);
  }

  lemma LateCancelKeepsItsTimer(s: State, t: ThreadId, dropQueued: bool)
    requires Inv(s) && Enabled(s, CancelStep(t, dropQueued)) && s.threads[t].op.id in s.timers
    requires s.threads[t].op.at in {Defer, Wait, Close}
    ensures TimerOk(CancelDo(s, t, dropQueued), s.threads[t].op.id)
  {
    assert TimerOk(s, s.threads[t].op.id) && ThreadOk(s, t);
  }

  lemma CancelKeepsInv(s: State, t: ThreadId, dropQueued: bool)
    requires Inv(s) && Enabled(s, CancelStep(t, dropQueued))
    ensures Inv(CancelDo(s, t, dropQueued))
  {
    assert ThreadOk(s, t);
    CancelIsLocal(s, t, dropQueued);
    CancelKeepsItsThread(s, t, dropQueued);
    if s.threads[t].op.id in s.timers {
      assert TimerOk(s, s.threads[t].op.id);
      CancelIsPolite(s, t, dropQueued);
      if s.threads[t].op.at in {Lookup, Store, Unset} {
        EarlyCancelKeepsItsTimer(s, t, dropQueued);
      } else {
        LateCancelKeepsItsTimer(s, t, dropQueued);
      }
    }
    LocalKeepsInv(s, CancelDo(s, t, dropQueued), t, s.threads[t].op.id);
  }

  /** Scheduling, and a timer coming due: no thread moves. */
  lemma PoolKeepsTimers(s: State, a: Step)
    requires Inv(s) && Enabled(s, a) && (a.Schedule? || a.PoolQueue?)
    ensures Inv(Do(s, a))
  {
    var s' := Do(s, a);
    forall t | t in s'.threads ensures ThreadOk(s', t) {
      assert ThreadOk(s, t);
    }
    forall id | id in s'.timers ensures TimerOk(s', id) {
      if id in s.timers {
        assert TimerOk(s, id);
      }
    }
  }

  /** The pool starts a queued callback. */
  lemma PoolStartKeeps(s: State, t: ThreadId, id: TimerId)
    requires Inv(s) && Enabled(s, PoolStart(t, id))
    ensures Inv(Do(s, PoolStart(t, id)))
  {
    var s' := Do(s, PoolStart(t, id));
    assert TimerOk(s, id);
    forall t' | t' in s'.threads ensures ThreadOk(s', t') {
      StartKeepsThread(s, t, id, t');
    }
    forall id' | id' in s'.timers ensures TimerOk(s', id') {
      StartKeepsTimer(s, t, id, id');
    }
  }

  lemma StartKeepsTimer(s: State, t: ThreadId, id: TimerId, id': TimerId)
    requires Inv(s) && Enabled(s, PoolStart(t, id)) && id' in s.timers
    ensures TimerOk(Do(s, PoolStart(t, id)), id')
  {
    assert TimerOk(s, id');
  }

  lemma StartKeepsThread(s: State, t: ThreadId, id: TimerId, t': ThreadId)
    requires Inv(s) && Enabled(s, PoolStart(t, id)) && TimerOk(s, id) && t' in s.threads
    ensures ThreadOk(Do(s, PoolStart(t, id)), t')
  {
    assert ThreadOk(s, t');
  }

  /** A cancel begins. */
  lemma BeginCancelKeeps(s: State, t: ThreadId, id: TimerId)
    requires Inv(s) && Enabled(s, BeginCancel(t, id))
    ensures Inv(Do(s, BeginCancel(t, id)))
  {
    var s' := Do(s, BeginCancel(t, id));
    forall t' | t' in s'.threads ensures ThreadOk(s', t') {
      assert ThreadOk(s, t');
    }
    forall id' | id' in s'.timers ensures TimerOk(s', id') {
      assert TimerOk(s, id');
    }
  }

  lemma DoKeepsInv(s: State, a: Step)
    requires Inv(s)
    ensures Inv(Do(s, a))
  {
    if Enabled(s, a) {
      match a
      case CallbackStep(t) => CallbackKeepsInv(s, t);
      case CancelStep(t, dropQueued) => CancelKeepsInv(s, t, dropQueued);
      case Schedule(_, _) => PoolKeepsTimers(s, a);
      case PoolQueue(_) => PoolKeepsTimers(s, a);
      case PoolStart(t, id) => PoolStartKeeps(s, t, id);
      case BeginCancel(t, id) => BeginCancelKeeps(s, t, id);
    }
  }

  lemma {:induction false} RunKeepsInv(s: State, steps: seq<Step>)
    requires Inv(s)
    ensures Inv(Run(s, steps))
    decreases |steps|
  {
    if steps != [] {
      DoKeepsInv(s, steps[0]);
      RunKeepsInv(Do(s, steps[0]), steps[1..]);
    }
  }

  // ---- What it means --------------------------------------------------------------------------

  /** A thread is at work on a timer: in one of its callbacks, or cancelling it. */
  predicate BusyWith(s: State, t: ThreadId, id: TimerId)
    requires t in s.threads
  {
    RunsCallbackOf(s, t, id) || (s.threads[t].op.Cancel? && s.threads[t].op.id == id)
  }

  /** No callback of the timer runs, is queued or can be queued. */
  ghost predicate Silent(s: State, id: TimerId)
    requires id in s.timers
  {
    && (forall t <- s.threads :: !RunsCallbackOf(s, t, id))
    && s.timers[id].queued == 0 && !s.timers[id].armed
  }

  /** Under every interleaving: a timer is cancelled successfully at most once and its handle closed
      at most once; a timer that left the map and that no thread is busy with has been closed exactly
      once. No callback whose state check follows the Cancelled store runs its body. And once a Cancel from outside the timer's callbacks has returned true, the timer is
      silent. */
  lemma EveryInterleaving(threads: set<ThreadId>, steps: seq<Step>, id: TimerId)
    requires id in Run(Init(threads), steps).timers
    ensures var s := Run(Init(threads), steps);
            var e := s.timers[id];
            && e.cancels <= 1 && e.closes <= 1
            && (!e.claim.InMap? && (forall t <- s.threads :: !BusyWith(s, t, id)) ==> e.closes == 1)
            && e.lateBodies == 0
            && (e.winner.Won? && !e.winner.self && e.winner.t in s.threads && !BusyWith(s, e.winner.t, id)
                ==> Silent(s, id))
  {
    RunKeepsInv(Init(threads), steps);
    var s := Run(Init(threads), steps);
    assert TimerOk(s, id);
    forall t | t in s.threads ensures ThreadOk(s, t) {
    }
  }

  /** What stays once it is so. */
  predicate Later(e: Timer, e': Timer)
  {
    && e'.periodic == e.periodic
    && (e.stored ==> e'.stored)
    && (e.drained ==> e'.drained)
    && (e.winner.Won? ==> e'.winner == e.winner)
  }

  lemma CancelKeepsLater(s: State, t: ThreadId, dropQueued: bool, id: TimerId)
    requires Inv(s) && Enabled(s, CancelStep(t, dropQueued)) && id in s.timers
    ensures var s' := CancelDo(s, t, dropQueued); id in s'.timers && Later(s.timers[id], s'.timers[id])
  {
    assert TimerOk(s, id);
  }

  lemma CallbackKeepsLater(s: State, t: ThreadId, id: TimerId)
    requires Inv(s) && Enabled(s, CallbackStep(t)) && id in s.timers
    ensures var s' := CallbackDo(s, t); id in s'.timers && Later(s.timers[id], s'.timers[id])
  {
  }

  lemma DoKeepsLater(s: State, a: Step, id: TimerId)
    requires Inv(s) && id in s.timers
    ensures id in Do(s, a).timers && Later(s.timers[id], Do(s, a).timers[id])
  {
    if Enabled(s, a) {
      match a
      case CancelStep(t, dropQueued) => CancelKeepsLater(s, t, dropQueued, id);
      case CallbackStep(t) => CallbackKeepsLater(s, t, id);
      case _ =>
    }
  }

  /** Cancelled is absorbing for periodic timers. */
  lemma {:induction false} CancelledAbsorbing(s: State, steps: seq<Step>, id: TimerId)
    requires Inv(s) && id in s.timers && s.timers[id].periodic && s.timers[id].stored
    ensures id in Run(s, steps).timers && Run(s, steps).timers[id].state == Cancelled
    decreases |steps|
  {
    if steps == [] {
      assert TimerOk(s, id);
    } else {
      DoKeepsInv(s, steps[0]);
      DoKeepsLater(s, steps[0], id);
      CancelledAbsorbing(Do(s, steps[0]), steps[1..], id);
    }
  }

  /** A callback of a one-shot timer ends its body and stores Completed. */
  predicate Overwrites(s: State, a: Step, id: TimerId)
  {
    && a.CallbackStep? && Enabled(s, a)
    && s.threads[a.t].cb == Callback(id, Body) && !s.timers[id].periodic
  }

  predicate SomeOverwrites(s: State, steps: seq<Step>, id: TimerId)
    decreases |steps|
  {
    steps != [] && (Overwrites(s, steps[0], id) || SomeOverwrites(Do(s, steps[0]), steps[1..], id))
  }

  lemma CallbackOverwritesIff(s: State, t: ThreadId, id: TimerId)
    requires Enabled(s, CallbackStep(t)) && ThreadOk(s, t) && id in s.timers && TimerOk(s, id) && s.timers[id].stored
    ensures CallbackDo(s, t).timers[id].state == Cancelled
       <==> s.timers[id].state == Cancelled && !Overwrites(s, CallbackStep(t), id)
  {
  }

  lemma CancelOverwritesNothing(s: State, t: ThreadId, dropQueued: bool, id: TimerId)
    requires Enabled(s, CancelStep(t, dropQueued)) && ThreadOk(s, t)
    requires id in s.timers && TimerOk(s, id) && s.timers[id].stored
    ensures CancelDo(s, t, dropQueued).timers[id].state == s.timers[id].state
  {
  }

  lemma StepOverwritesIff(s: State, a: Step, id: TimerId)
    requires Inv(s) && id in s.timers && s.timers[id].stored
    ensures id in Do(s, a).timers
    ensures Do(s, a).timers[id].state == Cancelled <==> s.timers[id].state == Cancelled && !Overwrites(s, a, id)
  {
    assert TimerOk(s, id);
    if Enabled(s, a) {
      match a
      case CallbackStep(t) =>
        assert ThreadOk(s, t);
        CallbackOverwritesIff(s, t, id);
      case CancelStep(t, dropQueued) =>
        assert ThreadOk(s, t);
        CancelOverwritesNothing(s, t, dropQueued, id);
      case _ =>
    }
  }

  /** Over every run from the Cancelled store on: the timer is still Cancelled if and only if no
      callback of a one-shot timer ended its body meanwhile. */
  lemma {:induction false} CancelledIffNotOverwritten(s: State, steps: seq<Step>, id: TimerId)
    requires Inv(s) && id in s.timers && s.timers[id].stored
    ensures id in Run(s, steps).timers
    ensures Run(s, steps).timers[id].state == Cancelled
       <==> s.timers[id].state == Cancelled && !SomeOverwrites(s, steps, id)
    decreases |steps|
  {
    if steps != [] {
      DoKeepsInv(s, steps[0]);
      DoKeepsLater(s, steps[0], id);
      StepOverwritesIff(s, steps[0], id);
      CancelledIffNotOverwritten(Do(s, steps[0]), steps[1..], id);
    }
  }

  /** Some thread is in the body of a callback of the timer. */
  ghost predicate InBody(s: State, id: TimerId)
  {
    exists t <- s.threads :: s.threads[t].cb == Callback(id, Body)
  }

  /** No body of a Cancelled timer begins. */
  lemma NoBodyBegins(s: State, a: Step, id: TimerId)
    requires Inv(s) && id in s.timers && s.timers[id].state == Cancelled && !InBody(s, id)
    ensures !InBody(Do(s, a), id) && !Overwrites(s, a, id)
  {
    var s' := Do(s, a);
    forall t | t in s'.threads ensures s'.threads[t].cb != Callback(id, Body) {
      assert t in s.threads && s.threads[t].cb != Callback(id, Body);
    }
  }

  lemma {:induction false} NoBodyNoOverwrite(s: State, steps: seq<Step>, id: TimerId)
    requires Inv(s) && id in s.timers && s.timers[id].stored && s.timers[id].state == Cancelled && !InBody(s, id)
    ensures !SomeOverwrites(s, steps, id)
    decreases |steps|
  {
    if steps != [] {
      DoKeepsInv(s, steps[0]);
      DoKeepsLater(s, steps[0], id);
      NoBodyBegins(s, steps[0], id);
      StepOverwritesIff(s, steps[0], id);
      NoBodyNoOverwrite(Do(s, steps[0]), steps[1..], id);
    }
  }

  /** Stored while no thread is in the body of its callback, Cancelled stays for ever, one-shot or not. */
  lemma StaysCancelledOutsideBody(s: State, steps: seq<Step>, id: TimerId)
    requires Inv(s) && id in s.timers && s.timers[id].stored && s.timers[id].state == Cancelled && !InBody(s, id)
    ensures id in Run(s, steps).timers && Run(s, steps).timers[id].state == Cancelled
  {
    NoBodyNoOverwrite(s, steps, id);
    CancelledIffNotOverwritten(s, steps, id);
  }

  // ---- Bodies run ------------------------------------------------------------------------------

  /** Until the timer is stored as Cancelled, a callback that starts enters the body, periodic or one-shot,
      alone or beside others; and the state no longer says Scheduled. */
  lemma StartEntersBody(s: State, t: ThreadId)
    requires Inv(s) && Enabled(s, CallbackStep(t)) && s.threads[t].cb.at == Start
    ensures var s', id := Do(s, CallbackStep(t)), s.threads[t].cb.id;
            if s.timers[id].stored && s.timers[id].state == Cancelled then s'.threads[t].cb == NoCallback
            else s'.threads[t].cb == Callback(id, Body) && s'.timers[id].state != Scheduled
    ensures !s.timers[s.threads[t].cb.id].stored ==> Do(s, CallbackStep(t)).threads[t].cb == Callback(s.threads[t].cb.id, Body)
  {
    assert ThreadOk(s, t) && TimerOk(s, s.threads[t].cb.id);
  }

  datatype Stretch = InCallback | PastBody

  predicate IsIn(th: Thread, id: TimerId, p: Stretch)
  {
    && th.cb.Callback? && th.cb.id == id
    && match p
       case InCallback => true
       case PastBody => th.cb.at == CloseCheck || th.cb.at == Closing
  }

  /** The threads in a callback of the timer, or past its body. */
  function Those(threads: map<ThreadId, Thread>, id: TimerId, p: Stretch): set<ThreadId>
  {
    set t | t in threads && IsIn(threads[t], id, p)
  }

  function Flag(b: bool): nat { if b then 1 else 0 }

  lemma CardWithout(a: set<ThreadId>, t: ThreadId)
    ensures |a - {t}| == |a| - Flag(t in a)
  {
    if t !in a {
      assert a - {t} == a;
    }
  }

  lemma CountStep(threads: map<ThreadId, Thread>, threads': map<ThreadId, Thread>, t: ThreadId, id: TimerId, p: Stretch)
    requires t in threads && t in threads' && threads' == threads[t := threads'[t]]
    ensures |Those(threads', id, p)| == |Those(threads, id, p)| - Flag(IsIn(threads[t], id, p)) + Flag(IsIn(threads'[t], id, p))
  {
    var before, after := Those(threads, id, p), Those(threads', id, p);
    assert before - {t} == after - {t};
    CardWithout(before, t);
    CardWithout(after, t);
  }

  /** The timer comes due; a step starts a callback of it, ends its body, or returns from it. */
  predicate ComesDue(s: State, a: Step, id: TimerId)
  {
    a.PoolQueue? && Enabled(s, a) && a.id == id
  }

  predicate Starts(s: State, a: Step, id: TimerId)
  {
    a.PoolStart? && Enabled(s, a) && a.id == id
  }

  predicate EndsBody(s: State, a: Step, id: TimerId)
  {
    a.CallbackStep? && Enabled(s, a) && s.threads[a.t].cb == Callback(id, Body)
  }

  predicate Returns(s: State, a: Step, id: TimerId)
  {
    a.CallbackStep? && Enabled(s, a) && s.threads[a.t].cb.id == id && Do(s, a).threads[a.t].cb == NoCallback
  }

  datatype What = Due | Started | Ended | Returned

  /** How often that happens in a run. */
  function Times(s: State, steps: seq<Step>, id: TimerId, w: What): nat
    decreases |steps|
  {
    if steps == [] then 0
    else Times(Do(s, steps[0]), steps[1..], id, w)
         + Flag(match w
                case Due => ComesDue(s, steps[0], id)
                case Started => Starts(s, steps[0], id)
                case Ended => EndsBody(s, steps[0], id)
                case Returned => Returns(s, steps[0], id))
  }

  /** What one step does to the threads in a callback, and past its body. */
  lemma StretchStep(s: State, a: Step, id: TimerId)
    requires Inv(s) && (id in s.timers ==> !s.timers[id].stored)
    ensures var s' := Do(s, a);
            && |Those(s'.threads, id, InCallback)|
               == |Those(s.threads, id, InCallback)| + Flag(Starts(s, a, id)) - Flag(Returns(s, a, id))
            && |Those(s'.threads, id, PastBody)|
               == |Those(s.threads, id, PastBody)| + Flag(EndsBody(s, a, id)) - Flag(Returns(s, a, id))
  {
    var s' := Do(s, a);
    if Enabled(s, a) && !a.Schedule? && !a.PoolQueue? {
      OneThreadMoves(s, a);
      CountStep(s.threads, s'.threads, a.t, id, InCallback);
      CountStep(s.threads, s'.threads, a.t, id, PastBody);
      ThreadStretch(s, a, id);
    }
  }

  lemma OneThreadMoves(s: State, a: Step)
    requires Enabled(s, a) && !a.Schedule? && !a.PoolQueue?
    ensures a.t in s.threads && a.t in Do(s, a).threads && Do(s, a).threads == s.threads[a.t := Do(s, a).threads[a.t]]
  {
  }

  lemma ThreadStretch(s: State, a: Step, id: TimerId)
    requires Inv(s) && (id in s.timers ==> !s.timers[id].stored) && Enabled(s, a) && !a.Schedule? && !a.PoolQueue?
    ensures var th, th' := s.threads[a.t], Do(s, a).threads[a.t];
            && Flag(IsIn(th', id, InCallback)) == Flag(IsIn(th, id, InCallback)) + Flag(Starts(s, a, id)) - Flag(Returns(s, a, id))
            && Flag(IsIn(th', id, PastBody)) == Flag(IsIn(th, id, PastBody)) + Flag(EndsBody(s, a, id)) - Flag(Returns(s, a, id))
  {
    if a.CallbackStep? {
      CallbackStretch(s, a.t, id);
    } else if a.CancelStep? {
      CancelLeavesCallback(s, a.t, a.dropQueued);
    }
  }

  lemma CallbackStretch(s: State, t: ThreadId, id: TimerId)
    requires Inv(s) && (id in s.timers ==> !s.timers[id].stored) && Enabled(s, CallbackStep(t))
    ensures var th, th', a := s.threads[t], CallbackDo(s, t).threads[t], CallbackStep(t);
            && Flag(IsIn(th', id, InCallback)) == Flag(IsIn(th, id, InCallback)) - Flag(Returns(s, a, id))
            && Flag(IsIn(th', id, PastBody)) == Flag(IsIn(th, id, PastBody)) + Flag(EndsBody(s, a, id)) - Flag(Returns(s, a, id))
  {
    assert ThreadOk(s, t) && TimerOk(s, s.threads[t].cb.id);
  }

  lemma CancelLeavesCallback(s: State, t: ThreadId, dropQueued: bool)
    requires Enabled(s, CancelStep(t, dropQueued))
    ensures CancelDo(s, t, dropQueued).threads[t].cb == s.threads[t].cb
  {
  }

  /** `stored` goes one way, so a timer not stored at the end never was. */
  lemma {:induction false} NotStoredBefore(s: State, steps: seq<Step>, id: TimerId)
    requires Inv(s) && id in Run(s, steps).timers && !Run(s, steps).timers[id].stored
    ensures id in s.timers ==> !s.timers[id].stored
    decreases |steps|
  {
    if steps != [] {
      DoKeepsInv(s, steps[0]);
      NotStoredBefore(Do(s, steps[0]), steps[1..], id);
      if id in s.timers {
        DoKeepsLater(s, steps[0], id);
      }
    }
  }

  lemma {:induction false} BodiesAdd(s: State, steps: seq<Step>, id: TimerId)
    requires Inv(s) && id in Run(s, steps).timers && !Run(s, steps).timers[id].stored
    ensures var s' := Run(s, steps);
            && Times(s, steps, id, Started) + |Those(s.threads, id, InCallback)|
               == Times(s, steps, id, Returned) + |Those(s'.threads, id, InCallback)|
            && Times(s, steps, id, Ended) + |Those(s.threads, id, PastBody)|
               == Times(s, steps, id, Returned) + |Those(s'.threads, id, PastBody)|
    decreases |steps|
  {
    if steps != [] {
      NotStoredBefore(s, steps, id);
      DoKeepsInv(s, steps[0]);
      StretchStep(s, steps[0], id);
      BodiesAdd(Do(s, steps[0]), steps[1..], id);
    }
  }

  /** Callbacks queued: none before the timer is there. */
  function Queued(s: State, id: TimerId): nat { if id in s.timers then s.timers[id].queued else 0 }

  lemma QueueStep(s: State, a: Step, id: TimerId)
    requires Inv(s) && (id in s.timers ==> !s.timers[id].stored)
    ensures Queued(Do(s, a), id) == Queued(s, id) + Flag(ComesDue(s, a, id)) - Flag(Starts(s, a, id))
  {
    assert id in s.timers ==> TimerOk(s, id);
    if Enabled(s, a) && a.CancelStep? {
      assert ThreadOk(s, a.t);
    }
  }

  lemma {:induction false} QueueAdds(s: State, steps: seq<Step>, id: TimerId)
    requires Inv(s) && id in Run(s, steps).timers && !Run(s, steps).timers[id].stored
    ensures Queued(s, id) + Times(s, steps, id, Due) == Times(s, steps, id, Started) + Queued(Run(s, steps), id)
    decreases |steps|
  {
    if steps != [] {
      NotStoredBefore(s, steps, id);
      DoKeepsInv(s, steps[0]);
      QueueStep(s, steps[0], id);
      QueueAdds(Do(s, steps[0]), steps[1..], id);
    }
  }

  /** The pool is free: an armed timer may come due however many of its callbacks are queued or running, and
      a queued callback may start on any thread at rest. */
  lemma PoolIsFree(s: State, t: ThreadId, id: TimerId)
    requires Inv(s) && id in s.timers && t in s.threads
    ensures Enabled(s, PoolQueue(id)) <==> s.timers[id].armed
    ensures Enabled(s, PoolStart(t, id)) <==> s.timers[id].queued > 0 && s.threads[t] == Thread(NoCallback, NoCancel)
    ensures Enabled(s, BeginCancel(t, id)) <==>
              s.threads[t].op.NoCancel? && (s.threads[t].cb.Callback? ==> s.threads[t].cb.at == Body)
  {
  }

  /** Over every run, of a timer that has not been stored as Cancelled: each time it came due a callback was
      started or is queued; the callbacks started are those returned and those under way; and each that
      has returned or is past its body has run the body. */
  lemma EveryCallbackRunsItsBody(threads: set<ThreadId>, steps: seq<Step>, id: TimerId)
    requires id in Run(Init(threads), steps).timers && !Run(Init(threads), steps).timers[id].stored
    ensures var s0, s := Init(threads), Run(Init(threads), steps);
            && Times(s0, steps, id, Due) == Times(s0, steps, id, Started) + s.timers[id].queued
            && Times(s0, steps, id, Started) == Times(s0, steps, id, Returned) + |Those(s.threads, id, InCallback)|
            && Times(s0, steps, id, Ended) == Times(s0, steps, id, Returned) + |Those(s.threads, id, PastBody)|
  {
    BodiesAdd(Init(threads), steps, id);
    QueueAdds(Init(threads), steps, id);
    assert Those(Init(threads).threads, id, InCallback) == {} && Those(Init(threads).threads, id, PastBody) == {};
  }

  /** Where a callback goes on: to its body unless Cancelled, to the close check, to the close if a
      self-cancel left it one, and back. */
  lemma CallbackOrder(s: State, t: ThreadId)
    requires Inv(s) && Enabled(s, CallbackStep(t))
    ensures var cb, cb' := s.threads[t].cb, Do(s, CallbackStep(t)).threads[t].cb;
            var e := s.timers[cb.id];
            match cb.at
            case Start => cb' == if e.state == Cancelled then NoCallback else Callback(cb.id, Body)
            case Body => cb' == Callback(cb.id, CloseCheck)
            case CloseCheck => cb' == if e.claim.DeferredTo? then Callback(cb.id, Closing) else NoCallback
            case Closing => cb' == NoCallback && e.closes == 0 && Do(s, CallbackStep(t)).timers[cb.id].closes == 1
  {
    assert ThreadOk(s, t) && TimerOk(s, s.threads[t].cb.id);
  }

  /** A timer nobody has cancelled goes on: a periodic one is armed, a one-shot one armed, queued or was
      started; and until it is stored as Cancelled a one-shot timer's state says how far its callback is. */
  lemma UncancelledGoesOn(threads: set<ThreadId>, steps: seq<Step>, id: TimerId)
    requires id in Run(Init(threads), steps).timers && Run(Init(threads), steps).timers[id].claim.InMap?
    ensures var s := Run(Init(threads), steps);
            var e := s.timers[id];
            && (e.periodic ==> e.armed && (e.state == Scheduled || e.state == Running))
            && (!e.periodic ==> e.armed || e.queued > 0 || e.runner != NoRunner)
            && (!e.periodic ==> forall t <- s.threads :: RunsCallbackOf(s, t, id) ==>
                  e.state == match s.threads[t].cb.at case Start => Scheduled case Body => Running case _ => Completed)
  {
    RunKeepsInv(Init(threads), steps);
    var s := Run(Init(threads), steps);
    assert TimerOk(s, id);
    forall t | t in s.threads ensures ThreadOk(s, t) {
    }
  }

  /** A cancel goes through: the lookup finds the timer exactly while it is in the map; then the state is
      stored, the timer unset and, from one of its callbacks, the close deferred; from outside, the wait
      ends exactly when no callback runs and none is queued or queued ones are dropped, and the handle is
      closed. */
  lemma CancelOrder(s: State, t: ThreadId, dropQueued: bool)
    requires Inv(s) && Enabled(s, CancelStep(t, dropQueued)) && s.threads[t].op.id in s.timers
    ensures var c, s' := s.threads[t].op, Do(s, CancelStep(t, dropQueued));
            var op', e, e' := s'.threads[t].op, s.timers[c.id], s'.timers[c.id];
            match c.at
            case Lookup => if e.claim.InMap? then op' == c.(at := Store) && e'.cancels == 1 else op' == NoCancel && s'.timers == s.timers
            case Store => op' == c.(at := Unset) && e'.state == Cancelled
            case Unset => op' == c.(at := if RunsCallbackOf(s, t, c.id) then Defer else Wait) && !e'.armed
            case Defer => op' == NoCancel && e'.closeAfterCallback && e'.closes == 0
            case Wait => if (dropQueued || e.queued == 0) && (forall t' <- s.threads :: !RunsCallbackOf(s, t', c.id))
                         then op' == c.(at := Close) && e'.queued == 0 else s' == s
            case Close => op' == NoCancel && e'.closes == 1
  {
    assert ThreadOk(s, t) && TimerOk(s, s.threads[t].op.id);
  }

  /** The state says Running only while some callback is in its body. */
  ghost predicate RunningOk(s: State, id: TimerId)
  {
    id in s.timers && s.timers[id].state == Running ==> InBody(s, id)
  }

  lemma BodyStays(s: State, a: Step, id: TimerId)
    requires Inv(s) && InBody(s, id) && id in s.timers && !EndsBody(s, a, id)
    ensures InBody(Do(s, a), id)
  {
    var t :| t in s.threads && s.threads[t].cb == Callback(id, Body);
    assert t in Do(s, a).threads && Do(s, a).threads[t].cb == s.threads[t].cb;
  }

  lemma EndedIsNotRunning(s: State, t: ThreadId, id: TimerId)
    requires Enabled(s, CallbackStep(t)) && s.threads[t].cb == Callback(id, Body)
    ensures CallbackDo(s, t).timers[id].state != Running
  {
  }

  lemma NewlyRunning(s: State, a: Step, id: TimerId)
    requires Inv(s) && id in Do(s, a).timers && Do(s, a).timers[id].state == Running
    ensures id in s.timers && (s.timers[id].state == Running || InBody(Do(s, a), id))
  {
    if Enabled(s, a) && a.CallbackStep? && s.threads[a.t].cb == Callback(id, Start) {
      assert Do(s, a).threads[a.t].cb == Callback(id, Body);
    }
  }

  lemma DoKeepsRunning(s: State, a: Step, id: TimerId)
    requires Inv(s) && RunningOk(s, id)
    ensures RunningOk(Do(s, a), id)
  {
    var s' := Do(s, a);
    if id in s'.timers && s'.timers[id].state == Running {
      NewlyRunning(s, a, id);
      if s.timers[id].state == Running {
        if EndsBody(s, a, id) {
          EndedIsNotRunning(s, a.t, id);
        } else {
          BodyStays(s, a, id);
        }
      }
    }
  }

  lemma {:induction false} RunningMeansBody(s: State, steps: seq<Step>, id: TimerId)
    requires Inv(s) && RunningOk(s, id)
    ensures RunningOk(Run(s, steps), id)
    decreases |steps|
  {
    if steps != [] {
      DoKeepsInv(s, steps[0]);
      DoKeepsRunning(s, steps[0], id);
      RunningMeansBody(Do(s, steps[0]), steps[1..], id);
    }
  }

  // ---- A run that overwrites Cancelled ------------------------------------------------------------

  /** Some run of two threads leads here. */
  ghost predicate Reachable(s: State)
  {
    exists steps :: Run(Init({0, 1}), steps) == s
  }

  lemma {:induction false} RunSnoc(s: State, steps: seq<Step>, a: Step)
    ensures Run(s, steps + [a]) == Do(Run(s, steps), a)
    decreases |steps|
  {
    if steps == [] {
      assert ([] + [a])[1..] == [];
    } else {
      RunSnoc(Do(s, steps[0]), steps[1..], a);
      assert (steps + [a])[1..] == steps[1..] + [a];
    }
  }

  lemma Reach(s: State, a: Step)
    requires Reachable(s)
    ensures Reachable(Do(s, a))
  {
    var steps :| Run(Init({0, 1}), steps) == s;
    RunSnoc(Init({0, 1}), steps, a);
  }

  predicate Stands(s: State, th0: Thread, th1: Thread, e: Timer)
  {
    s.threads.Keys == {0, 1} && s.threads[0] == th0 && s.threads[1] == th1 && 7 in s.timers && s.timers[7] == e
  }

  /** A one-shot timer has come due. */
  lemma ReachQueued() returns (s: State)
    ensures Reachable(s)
    ensures Stands(s, Thread(NoCallback, NoCancel), Thread(NoCallback, NoCancel), Fresh(false).(armed := false, queued := 1))
  {
    s := Init({0, 1});
    assert Run(s, []) == s;
    Reach(s, Schedule(7, false));
    s := Do(s, Schedule(7, false));
    Reach(s, PoolQueue(7));
    s := Do(s, PoolQueue(7));
  }

  /** Thread 0 is in the body of its callback. */
  lemma ReachBody() returns (s: State)
    ensures Reachable(s)
    ensures Stands(s, Thread(Callback(7, Body), NoCancel), Thread(NoCallback, NoCancel),
                   Fresh(false).(state := Running, armed := false, runner := Runner(0)))
  {
    s := ReachQueued();
    Reach(s, PoolStart(0, 7));
    s := Do(s, PoolStart(0, 7));
    Reach(s, CallbackStep(0));
    s := Do(s, CallbackStep(0));
  }

  /** Meanwhile thread 1 has cancelled the timer, up to the store. */
  lemma ReachStored() returns (s: State)
    ensures Reachable(s)
    ensures Stands(s, Thread(Callback(7, Body), NoCancel), Thread(NoCallback, Cancel(7, Unset, false)),
                   Fresh(false).(state := Cancelled, armed := false, runner := Runner(0),
                                 claim := HeldBy(1), winner := Won(1, false), cancels := 1, stored := true))
  {
    s := ReachBody();
    Reach(s, BeginCancel(1, 7));
    s := Do(s, BeginCancel(1, 7));
    Reach(s, CancelStep(1, true));
    s := Do(s, CancelStep(1, true));
    Reach(s, CancelStep(1, true));
    s := Do(s, CancelStep(1, true));
  }

  /** Cancelled is not absorbing for a one-shot timer: the callback that was running overwrites it. */
  lemma OneShotOverwritesCancelled() returns (s: State)
    ensures Reachable(s) && 7 in s.timers && s.timers[7].stored && s.timers[7].state == Completed
  {
    s := ReachStored();
    Reach(s, CallbackStep(0));
    s := Do(s, CallbackStep(0));
  }

  // ---- Stopping a periodic job ------------------------------------------------------------------

  /** Thread `t` is on its way to cancel `id` and nobody can get there first, or it already won;
      `self` says that it does so from a callback of the timer. */
  ghost predicate Stopping(s: State, t: ThreadId, id: TimerId, self: bool)
  {
    && t in s.threads && id in s.timers
    && ((s.timers[id].claim.InMap? && s.threads[t].op == Cancel(id, Lookup, self))
        || s.timers[id].winner == Won(t, self))
  }

  /** Another thread looks the timer up: a second Cancel of it, or a Shutdown. */
  predicate Interferes(s: State, a: Step, t: ThreadId, id: TimerId)
  {
    a.CancelStep? && a.t != t && a.t in s.threads && s.threads[a.t].op.Cancel?
    && s.threads[a.t].op.id == id && s.threads[a.t].op.at == Lookup
  }

  ghost predicate Undisturbed(s: State, steps: seq<Step>, t: ThreadId, id: TimerId)
    decreases |steps|
  {
    steps == [] || (!Interferes(s, steps[0], t, id) && Undisturbed(Do(s, steps[0]), steps[1..], t, id))
  }

  lemma DoKeepsThreads(s: State, a: Step)
    ensures Do(s, a).threads.Keys == s.threads.Keys
  {
  }

  lemma CancelKeepsWay(s: State, a: Step, t: ThreadId, id: TimerId, self: bool)
    requires Inv(s) && t in s.threads && id in s.timers && !Interferes(s, a, t, id) && Enabled(s, a)
    requires s.timers[id].claim.InMap? && s.threads[t].op == Cancel(id, Lookup, self) && a.CancelStep?
    ensures Stopping(CancelDo(s, a.t, a.dropQueued), t, id, self)
  {
    assert TimerOk(s, id) && ThreadOk(s, a.t);
  }

  /** The way to the lookup is kept by every step that is not another thread's lookup. */
  lemma DoKeepsWay(s: State, a: Step, t: ThreadId, id: TimerId, self: bool)
    requires Inv(s) && t in s.threads && id in s.timers && !Interferes(s, a, t, id) && Enabled(s, a)
    requires s.timers[id].claim.InMap? && s.threads[t].op == Cancel(id, Lookup, self)
    ensures Stopping(Do(s, a), t, id, self)
  {
    match a
    case CancelStep(_, _) => CancelKeepsWay(s, a, t, id, self);
    case CallbackStep(t') => assert TimerOk(s, id) && ThreadOk(s, t');
    case _ =>
  }

  lemma DoKeepsStopping(s: State, a: Step, t: ThreadId, id: TimerId, self: bool)
    requires Inv(s) && Stopping(s, t, id, self) && !Interferes(s, a, t, id)
    ensures Stopping(Do(s, a), t, id, self)
  {
    if Enabled(s, a) {
      if s.timers[id].winner == Won(t, self) {
        DoKeepsLater(s, a, id);
        DoKeepsThreads(s, a);
      } else {
        DoKeepsWay(s, a, t, id, self);
      }
    }
  }

  /** The thread's Cancel of this timer has not returned. */
  predicate Cancelling(s: State, t: ThreadId, id: TimerId)
    requires t in s.threads
  {
    s.threads[t].op.Cancel? && s.threads[t].op.id == id
  }

  lemma StoppedIsStored(s: State, t: ThreadId, id: TimerId, self: bool)
    requires Inv(s) && Stopping(s, t, id, self) && !Cancelling(s, t, id)
    ensures s.timers[id].winner == Won(t, self) && s.timers[id].stored
    ensures !self ==> s.timers[id].drained && Silent(s, id)
  {
    assert TimerOk(s, id);
    if !self {
      forall t' | t' in s.threads ensures !RunsCallbackOf(s, t', id) {
        assert ThreadOk(s, t');
      }
    }
  }

  /** SessionIdleChecker::Stop, while no one else cancels the timer or shuts the queue down: when its
      Cancel has returned, Cancelled is stored; and if it was made from outside the tick, no tick runs and
      none ever will. */
  lemma {:induction false} StopLeavesNoTick(s: State, steps: seq<Step>, t: ThreadId, id: TimerId, self: bool)
    requires Inv(s) && Stopping(s, t, id, self) && Undisturbed(s, steps, t, id)
    ensures var s' := Run(s, steps);
            && Inv(s') && t in s'.threads && id in s'.timers
            && (!Cancelling(s', t, id) ==>
                  && s'.timers[id].winner == Won(t, self) && s'.timers[id].stored
                  && (!self ==> s'.timers[id].drained && Silent(s', id)))
    decreases |steps|
  {
    if steps == [] {
      if !Cancelling(s, t, id) {
        StoppedIsStored(s, t, id, self);
      }
    } else {
      DoKeepsInv(s, steps[0]);
      DoKeepsStopping(s, steps[0], t, id, self);
      StopLeavesNoTick(Do(s, steps[0]), steps[1..], t, id, self);
    }
  }

  lemma {:induction false} SilentForever(s: State, steps: seq<Step>, id: TimerId)
    requires Inv(s) && id in s.timers && s.timers[id].drained
    ensures id in Run(s, steps).timers && Silent(Run(s, steps), id)
    decreases |steps|
  {
    if steps == [] {
      assert TimerOk(s, id);
      forall t | t in s.threads ensures !RunsCallbackOf(s, t, id) {
        assert ThreadOk(s, t);
      }
    } else {
      DoKeepsInv(s, steps[0]);
      DoKeepsLater(s, steps[0], id);
      SilentForever(Do(s, steps[0]), steps[1..], id);
    }
  }
}
