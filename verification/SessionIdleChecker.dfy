/** The idle checker (LibNetworks/SessionIdleChecker.cpp), a client of the timer queue. */
module SessionIdleCheckers {
  import opened TimerQueues

  const INVALID_TIMER_ID: TimerId := 0

  // ---- One tick -------------------------------------------------------------------------

  /** What the snapshot provider returns, or that it threw. */
  datatype Snapshot = Threw | Took(entries: seq<Entry>)
  datatype Entry = Null | Session(id: nat, lastRecvTimeMs: int)

  /** `requested` are the ids of exactly those entries, in their order and each once, that hold a session
      which has received data and has not done so for the threshold; `ks` are their places. */
  predicate AsksAt(entries: seq<Entry>, nowMs: int, thresholdMs: int, requested: seq<nat>, ks: seq<nat>)
  {
    && |ks| == |requested|
    && (forall i, j :: 0 <= i < j < |ks| ==> ks[i] < ks[j])
    && (forall j :: 0 <= j < |ks| ==> ks[j] < |entries| && entries[ks[j]].Session? && entries[ks[j]].id == requested[j])
    && (forall k :: 0 <= k < |entries| ==>
          (k in ks <==> entries[k].Session? && entries[k].lastRecvTimeMs != 0 && nowMs - entries[k].lastRecvTimeMs >= thresholdMs))
  }

  /** One entry more: asked if idle, passed over if not. */
  lemma AskNext(entries: seq<Entry>, nowMs: int, thresholdMs: int, requested: seq<nat>, ks: seq<nat>, i: nat)
    requires i < |entries| && AsksAt(entries[..i], nowMs, thresholdMs, requested, ks)
    ensures var e := entries[i];
            if e.Session? && e.lastRecvTimeMs != 0 && nowMs - e.lastRecvTimeMs >= thresholdMs
            then AsksAt(entries[..i + 1], nowMs, thresholdMs, requested + [e.id], ks + [i])
            else AsksAt(entries[..i + 1], nowMs, thresholdMs, requested, ks)
  {
    forall j | 0 <= j < |ks| ensures ks[j] < i && entries[..i + 1][ks[j]] == entries[..i][ks[j]] {
    }
    assert i !in ks;
    forall k | 0 <= k < i ensures entries[..i + 1][k] == entries[..i][k] {
    }
  }

  /** A session is asked if and only if one of its entries is idle. */
  lemma IdleIdsExact(entries: seq<Entry>, nowMs: int, thresholdMs: int, requested: seq<nat>, ks: seq<nat>, id: nat)
    requires AsksAt(entries, nowMs, thresholdMs, requested, ks)
    ensures id in requested <==>
            exists k :: 0 <= k < |entries| && entries[k].Session? && entries[k].id == id
                        && entries[k].lastRecvTimeMs != 0 && nowMs - entries[k].lastRecvTimeMs >= thresholdMs
  {
    if id in requested {
      var j :| 0 <= j < |requested| && requested[j] == id;
      assert ks[j] in ks;
    }
    if k :| 0 <= k < |entries| && entries[k].Session? && entries[k].id == id
            && entries[k].lastRecvTimeMs != 0 && nowMs - entries[k].lastRecvTimeMs >= thresholdMs {
      assert k in ks;
      var j :| 0 <= j < |ks| && ks[j] == k;
      assert requested[j] == id;
    }
  }

  /** The places of those asked whose RequestDisconnect does not throw. */
  function Heard(requested: seq<nat>, throws: set<nat>): set<nat>
  {
    set j: nat | j < |requested| && requested[j] !in throws
  }

  lemma HeardNext(requested: seq<nat>, id: nat, throws: set<nat>)
    ensures |Heard(requested + [id], throws)| == |Heard(requested, throws)| + (if id in throws then 0 else 1)
  {
    var before, after := Heard(requested, throws), Heard(requested + [id], throws);
    assert after == if id in throws then before else before + {|requested|};
  }

  // ---- Start and Stop, whole calls ----------------------------------------------------------

  /** The timer was cancelled: no tick whose state check comes later runs its body. */
  predicate Halted(s: State, id: TimerId)
  {
    id in s.timers && s.timers[id].periodic && s.timers[id].stored
  }

  /** It was waited for as well: no tick runs, is queued or will be. */
  predicate Waited(s: State, id: TimerId)
  {
    id in s.timers && s.timers[id].drained
  }

  lemma {:induction false} HaltedStays(s: State, steps: seq<Step>, id: TimerId)
    requires Inv(s) && id in s.timers
    ensures Halted(s, id) ==> Halted(Run(s, steps), id)
    ensures Waited(s, id) ==> Waited(Run(s, steps), id)
    decreases |steps|
  {
    if steps != [] {
      DoKeepsInv(s, steps[0]);
      DoKeepsLater(s, steps[0], id);
      HaltedStays(Do(s, steps[0]), steps[1..], id);
    }
  }

  /** No thread looks the timer up: none cancels it and the queue is not shut down. */
  ghost predicate LeftAlone(s: State, steps: seq<Step>, id: TimerId)
    decreases |steps|
  {
    steps == [] || (!LooksUp(s, steps[0], id) && LeftAlone(Do(s, steps[0]), steps[1..], id))
  }

  predicate LooksUp(s: State, a: Step, id: TimerId)
  {
    a.CancelStep? && a.t in s.threads && s.threads[a.t].op.Cancel?
    && s.threads[a.t].op.id == id && s.threads[a.t].op.at == Lookup
  }

  ghost predicate Ticking(s: State, id: TimerId)
  {
    id in s.timers && s.timers[id].claim.InMap? && s.timers[id].periodic
  }

  lemma CancelKeepsTicking(s: State, t: ThreadId, dropQueued: bool, id: TimerId)
    requires Inv(s) && Ticking(s, id) && Enabled(s, CancelStep(t, dropQueued))
    requires !LooksUp(s, CancelStep(t, dropQueued), id)
    ensures Ticking(CancelDo(s, t, dropQueued), id)
  {
    assert ThreadOk(s, t);
  }

  lemma DoKeepsTicking(s: State, a: Step, id: TimerId)
    requires Inv(s) && Ticking(s, id) && !LooksUp(s, a, id)
    ensures Ticking(Do(s, a), id)
  {
    if Enabled(s, a) {
      match a
      case CancelStep(t, dropQueued) => CancelKeepsTicking(s, t, dropQueued, id);
      case CallbackStep(t) => assert TimerOk(s, id) && ThreadOk(s, t);
      case _ =>
    }
  }

  lemma {:induction false} StaysTicking(s: State, steps: seq<Step>, id: TimerId)
    requires Inv(s) && Ticking(s, id) && LeftAlone(s, steps, id)
    ensures Ticking(Run(s, steps), id)
    decreases |steps|
  {
    if steps != [] {
      DoKeepsInv(s, steps[0]);
      DoKeepsTicking(s, steps[0], id);
      StaysTicking(Do(s, steps[0]), steps[1..], id);
    }
  }

  /** All timers in `ticks` but `current` have been cancelled, and those in `waited` waited for. */
  ghost predicate Retired(s: State, ticks: set<TimerId>, waited: set<TimerId>, current: TimerId)
  {
    && (forall id <- ticks :: id != current ==> Halted(s, id))
    && (forall id <- waited :: Waited(s, id))
  }

  lemma RetiredStays(s: State, steps: seq<Step>, ticks: set<TimerId>, waited: set<TimerId>, current: TimerId)
    requires Inv(s) && Retired(s, ticks, waited, current)
    ensures Retired(Run(s, steps), ticks, waited, current)
  {
    forall id | id in ticks && id != current ensures Halted(Run(s, steps), id) {
      HaltedStays(s, steps, id);
    }
    forall id | id in waited ensures Waited(Run(s, steps), id) {
      HaltedStays(s, steps, id);
    }
  }

  lemma WaitedSilent(s: State, waited: set<TimerId>)
    requires Inv(s) && forall id <- waited :: Waited(s, id)
    ensures forall id <- waited :: id in s.timers && Silent(s, id)
  {
    forall id | id in waited ensures id in s.timers && Silent(s, id) {
      SilentForever(s, [], id);
    }
  }

  lemma HaltedCancelled(s: State, ticks: set<TimerId>)
    requires Inv(s) && forall id <- ticks :: Halted(s, id)
    ensures forall id <- ticks :: id in s.timers && s.timers[id].state == Cancelled && s.timers[id].lateBodies == 0
  {
    forall id | id in ticks ensures id in s.timers && s.timers[id].state == Cancelled && s.timers[id].lateBodies == 0 {
      assert TimerOk(s, id);
    }
  }

  /** A thread that may call in: it is in no Cancel, and in a callback only in its body. */
  predicate MayCall(s: State, t: ThreadId)
  {
    t in s.threads && s.threads[t].op.NoCancel? && (s.threads[t].cb.Callback? ==> s.threads[t].cb.at == Body)
  }

  /** A Cancel of a ticking timer, left to run to its end. */
  lemma CancelRetires(s: State, t: ThreadId, id: TimerId, steps: seq<Step>)
    requires Inv(s) && Ticking(s, id) && MayCall(s, t)
    requires var s1 := Do(s, BeginCancel(t, id));
             Undisturbed(s1, steps, t, id) && t in Run(s1, steps).threads && !Cancelling(Run(s1, steps), t, id)
    ensures var s' := Run(Do(s, BeginCancel(t, id)), steps);
            && Inv(s') && Halted(s', id)
            && (!RunsCallbackOf(s, t, id) ==> Waited(s', id))
  {
    var s1 := Do(s, BeginCancel(t, id));
    DoKeepsInv(s, BeginCancel(t, id));
    StopLeavesNoTick(s1, steps, t, id, RunsCallbackOf(s, t, id));
    PeriodicStays(s1, steps, id);
  }

  lemma {:induction false} PeriodicStays(s: State, steps: seq<Step>, id: TimerId)
    requires Inv(s) && id in s.timers
    ensures id in Run(s, steps).timers && Run(s, steps).timers[id].periodic == s.timers[id].periodic
    decreases |steps|
  {
    if steps != [] {
      DoKeepsInv(s, steps[0]);
      DoKeepsLater(s, steps[0], id);
      PeriodicStays(Do(s, steps[0]), steps[1..], id);
    }
  }

  class SessionIdleChecker {
    const enabled: bool
    const thresholdMs: int
    var running: bool
    var timerId: TimerId
    var disconnectCount: nat
    var queue: State                // the process-wide timer queue
    ghost var ticks: set<TimerId>   // every timer this checker has scheduled
    ghost var waited: set<TimerId>  // those it stopped from outside their ticks

    ghost predicate Valid()
      reads this
    {
      && Inv(queue)
      && (!running ==> timerId == INVALID_TIMER_ID)
      && INVALID_TIMER_ID !in ticks
      && (timerId != INVALID_TIMER_ID ==> timerId in ticks && Ticking(queue, timerId))
      && Retired(queue, ticks, waited, timerId) && waited <= ticks && timerId !in waited
    }

    constructor (enabled: bool, thresholdMs: int, queue: State)
      requires Inv(queue)
      ensures Valid() && !running && ticks == waited == {} && disconnectCount == 0 && this.queue == queue
      ensures this.enabled == enabled && this.thresholdMs == thresholdMs
    {
      this.enabled, this.thresholdMs, this.queue := enabled, thresholdMs, queue;
      running, timerId, disconnectCount, ticks, waited := false, INVALID_TIMER_ID, 0, {}, {};
    }

    /** `id` is what SchedulePeriodic hands out: a fresh id, or the invalid one if it fails. */
    method Start(id: TimerId)
      requires Valid() && id !in queue.timers
      modifies this
      ensures Valid() && disconnectCount == old(disconnectCount) && waited == old(waited)
      ensures running == (old(running) || enabled)
      ensures if old(running) || !enabled || id == INVALID_TIMER_ID
              then queue == old(queue) && ticks == old(ticks) && timerId == old(timerId)
              else timerId == id && ticks == old(ticks) + {id} && queue == Do(old(queue), Schedule(id, true))
    {
      if enabled && !running {
        running := true;
        if id != INVALID_TIMER_ID {
          DoKeepsInv(queue, Schedule(id, true));
          RetiredStays(queue, [Schedule(id, true)], ticks, waited, INVALID_TIMER_ID);
          assert Run(queue, [Schedule(id, true)]) == Do(queue, Schedule(id, true));
          queue := Do(queue, Schedule(id, true));
          ticks := ticks + {id};
          timerId := id;
        }
      }
    }

    /** The rest of the process moves, and does not touch the checker's timer. */
    method Elapse(steps: seq<Step>)
      requires Valid() && (timerId != INVALID_TIMER_ID ==> LeftAlone(queue, steps, timerId))
      modifies this`queue
      ensures Valid() && queue == Run(old(queue), steps)
    {
      RunKeepsInv(queue, steps);
      RetiredStays(queue, steps, ticks, waited, timerId);
      if timerId != INVALID_TIMER_ID {
        StaysTicking(queue, steps, timerId);
      }
      queue := Run(queue, steps);
    }

    /** Stop on thread `t`, with everything that happens until its Cancel returns. Every timer the checker
        ever scheduled is then Cancelled and begins no more ticks. A Stop from outside the tick, be it
        from a callback of another timer, also leaves none running, queued or to come. */
    method Stop(t: ThreadId, steps: seq<Step>)
      requires Valid() && MayCall(queue, t)
      requires timerId != INVALID_TIMER_ID ==>
                 var s1 := Do(queue, BeginCancel(t, timerId));
                 Undisturbed(s1, steps, t, timerId)
                 && t in Run(s1, steps).threads && !Cancelling(Run(s1, steps), t, timerId)
      modifies this
      ensures Valid() && !running && ticks == old(ticks) && disconnectCount == old(disconnectCount)
      ensures queue == if old(timerId) == INVALID_TIMER_ID then old(queue)
                       else Run(Do(old(queue), BeginCancel(t, old(timerId))), steps)
      ensures forall id <- ticks ::
                id in queue.timers && queue.timers[id].state == Cancelled && queue.timers[id].lateBodies == 0
      ensures waited == old(waited) + if old(timerId) == INVALID_TIMER_ID || RunsCallbackOf(old(queue), t, old(timerId))
                                      then {} else {old(timerId)}
      ensures forall id <- waited :: id in queue.timers && Silent(queue, id)
    {
      var wasRunning := running;
      running := false;
      if wasRunning {
        var id := timerId;
        timerId := INVALID_TIMER_ID;
        if id != INVALID_TIMER_ID {
          CancelTick(t, id, steps);
        }
      }
      HaltedCancelled(queue, ticks);
      WaitedSilent(queue, waited);
    }

    /** TimerQueue::Cancel on the checker's timer. */
    method CancelTick(t: ThreadId, id: TimerId, steps: seq<Step>)
      requires Inv(queue) && Retired(queue, ticks, waited, id) && Ticking(queue, id) && MayCall(queue, t)
      requires var s1 := Do(queue, BeginCancel(t, id));
               Undisturbed(s1, steps, t, id) && t in Run(s1, steps).threads && !Cancelling(Run(s1, steps), t, id)
      modifies `queue, `waited
      ensures Inv(queue) && Retired(queue, ticks, waited, INVALID_TIMER_ID)
      ensures queue == Run(Do(old(queue), BeginCancel(t, id)), steps)
      ensures waited == old(waited) + if RunsCallbackOf(old(queue), t, id) then {} else {id}
    {
      var s1 := Do(queue, BeginCancel(t, id));
      CancelRetires(queue, t, id, steps);
      RetiredStays(queue, [BeginCancel(t, id)] + steps, ticks, waited, id);
      assert ([BeginCancel(t, id)] + steps)[1..] == steps;
      if !RunsCallbackOf(queue, t, id) {
        waited := waited + {id};
      }
      queue := Run(s1, steps);
    }

    /** `throws` are the sessions whose RequestDisconnect throws; `ks` the places of those asked. */
    method OnTick(snapshot: Snapshot, nowMs: int, throws: set<nat>) returns (requested: seq<nat>, ghost ks: seq<nat>)
      requires Valid()
      modifies this`disconnectCount
      ensures Valid()
      ensures if running && snapshot.Took? then AsksAt(snapshot.entries, nowMs, thresholdMs, requested, ks)
              else requested == []
      ensures disconnectCount == old(disconnectCount) + |Heard(requested, throws)|
    {
      requested, ks := [], [];
      assert Heard([], throws) == {};
      if running && snapshot.Took? {
        var entries, i := snapshot.entries, 0;
        while i < |entries|
          invariant i <= |entries|
          invariant AsksAt(entries[..i], nowMs, thresholdMs, requested, ks)
          invariant disconnectCount == old(disconnectCount) + |Heard(requested, throws)|
        {
          var e := entries[i];
          AskNext(entries, nowMs, thresholdMs, requested, ks, i);
          if e.Session? && e.lastRecvTimeMs != 0 && nowMs - e.lastRecvTimeMs >= thresholdMs {
            HeardNext(requested, e.id, throws);
            requested, ks := requested + [e.id], ks + [i];
            if e.id !in throws {
              disconnectCount := disconnectCount + 1;
            }
          }
          i := i + 1;
        }
        assert entries[..i] == entries;
      }
    }
  }
}

/** Start and Stop of the idle checker racing each other, one step per atomic operation. A timer is
    armed from its scheduling to its cancel; a schedule may fail and then hands out the invalid id. */
module IdleCheckerRaces {

  type TimerId = nat

  datatype State = State(
    running: bool,
    timerId: TimerId,             // 0: none
    armed: set<TimerId>,
    scheduling: nat,              // Starts past their exchange of running, before they schedule
    storing: set<TimerId>,        // ids scheduled, before the Start stores them
    storingNone: nat,             // Starts whose schedule failed, before they store the invalid id
    taking: nat,                  // Stops past their exchange of running, before they exchange timerId
    cancelling: set<TimerId>,     // ids taken, before the Stop cancels them
    misses: nat,                  // Stops whose exchange found no id
    failures: nat)                // Starts whose schedule failed

  datatype Step =
    | StartClaim
    | StartSchedule(id: TimerId)
    | StartScheduleFails
    | StartStore(id: TimerId)
    | StartStoreNone
    | StopClaim
    | StopTake
    | StopCancel(id: TimerId)

  const INIT := State(false, 0, {}, 0, {}, 0, 0, {}, 0, 0)

  predicate Enabled(s: State, a: Step)
  {
    match a
    case StartClaim => !s.running
    case StartSchedule(id) => s.scheduling > 0 && id != 0 && id !in s.armed
    case StartScheduleFails => s.scheduling > 0
    case StartStore(id) => id in s.storing
    case StartStoreNone => s.storingNone > 0
    case StopClaim => s.running
    case StopTake => s.taking > 0
    case StopCancel(id) => id in s.cancelling
  }

  /** One step; a step that is not enabled does nothing. */
  function Do(s: State, a: Step): State
  {
    if !Enabled(s, a) then s else
    match a
    case StartClaim => s.(running := true, scheduling := s.scheduling + 1)
    case StartSchedule(id) =>
      s.(scheduling := s.scheduling - 1, armed := s.armed + {id}, storing := s.storing + {id})
    case StartScheduleFails =>
      s.(scheduling := s.scheduling - 1, storingNone := s.storingNone + 1, failures := s.failures + 1)
    case StartStore(id) => s.(storing := s.storing - {id}, timerId := id)
    case StartStoreNone => s.(storingNone := s.storingNone - 1, timerId := 0)
    case StopClaim => s.(running := false, taking := s.taking + 1)
    case StopTake =>
      if s.timerId == 0 then s.(taking := s.taking - 1, misses := s.misses + 1)
      else s.(taking := s.taking - 1, cancelling := s.cancelling + {s.timerId}, timerId := 0)
    case StopCancel(id) => s.(cancelling := s.cancelling - {id}, armed := s.armed - {id})
  }

  function Run(s: State, steps: seq<Step>): State
    decreases |steps|
  {
    if steps == [] then s else Run(Do(s, steps[0]), steps[1..])
  }

  function Flag(b: bool): nat { if b then 1 else 0 }

  predicate Inv(s: State)
  {
    && |s.armed| + s.scheduling + s.failures == Flag(s.running) + s.taking + |s.cancelling| + s.misses
    && 0 !in s.armed && s.storing <= s.armed && s.cancelling <= s.armed && s.storing !! s.cancelling
    && (s.timerId != 0 ==> s.timerId in s.armed && s.timerId !in s.storing && s.timerId !in s.cancelling)
  }

  lemma DoKeepsInv(s: State, a: Step)
    requires Inv(s)
    ensures Inv(Do(s, a))
  {
  }

  lemma {:induction false} RunKeepsInv(s: State, steps: seq<Step>)
    requires Inv(s)
    ensures Inv(Run(s, steps))
    decreases |steps|
  {
    if steps != [] {
      DoKeepsInv(s, steps[0]);
      RunKeepsInv(Do(s, steps[0]), steps[1..]);
    }
  }

  datatype Kind = Claims | Schedules | Fails | Stores | StoresNone | Stops | Takes | Cancels

  function KindOf(a: Step): Kind
  {
    match a
    case StartClaim => Claims
    case StartSchedule(_) => Schedules
    case StartScheduleFails => Fails
    case StartStore(_) => Stores
    case StartStoreNone => StoresNone
    case StopClaim => Stops
    case StopTake => Takes
    case StopCancel(_) => Cancels
  }

  /** How many steps of a kind a run makes. */
  function Made(s: State, steps: seq<Step>, k: Kind): nat
    decreases |steps|
  {
    if steps == [] then 0
    else Made(Do(s, steps[0]), steps[1..], k) + Flag(Enabled(s, steps[0]) && KindOf(steps[0]) == k)
  }

  /** How a step changes the numbers. */
  lemma StepCounts(s: State, a: Step)
    requires Inv(s) && Enabled(s, a)
    ensures var s', k := Do(s, a), KindOf(a);
            && Flag(s'.running) == Flag(s.running) + Flag(k == Claims) - Flag(k == Stops)
            && |s'.armed| == |s.armed| + Flag(k == Schedules) - Flag(k == Cancels)
            && s'.failures == s.failures + Flag(k == Fails)
            && s'.misses + |s'.cancelling| == s.misses + |s.cancelling| + Flag(k == Takes) - Flag(k == Cancels)
            && |s'.storing| == |s.storing| + Flag(k == Schedules) - Flag(k == Stores)
  {
  }

  /** Over every run: the checker runs as often as a Start has claimed it and no Stop has; the timers armed
      are those scheduled and not cancelled; and every Stop's take has cancelled a timer, is about to, or
      missed. */
  lemma {:induction false} RunCounts(s: State, steps: seq<Step>)
    requires Inv(s)
    ensures var s' := Run(s, steps);
            && Flag(s'.running) == Flag(s.running) + Made(s, steps, Claims) - Made(s, steps, Stops)
            && |s'.armed| == |s.armed| + Made(s, steps, Schedules) - Made(s, steps, Cancels)
            && s'.failures == s.failures + Made(s, steps, Fails)
            && s'.misses + |s'.cancelling| == s.misses + |s.cancelling| + Made(s, steps, Takes) - Made(s, steps, Cancels)
            && |s'.storing| == |s.storing| + Made(s, steps, Schedules) - Made(s, steps, Stores)
    decreases |steps|
  {
    if steps != [] {
      DoKeepsInv(s, steps[0]);
      if Enabled(s, steps[0]) {
        StepCounts(s, steps[0]);
      }
      RunCounts(Do(s, steps[0]), steps[1..]);
    }
  }

  /** No Start or Stop is under way. */
  predicate Settled(s: State)
  {
    s.scheduling == 0 && s.storing == {} && s.storingNone == 0 && s.taking == 0 && s.cancelling == {}
  }

  /** Stopped and settled, the checker has left armed as many timers as Stops found no id, less the Starts
      whose schedule failed: none if and only if the two numbers are the same. */
  lemma StoppedIsSilentIff(steps: seq<Step>)
    requires var s := Run(INIT, steps); Settled(s) && !s.running
    ensures var s := Run(INIT, steps);
            |s.armed| == s.misses - s.failures && (s.armed == {} <==> s.misses == s.failures)
  {
    RunKeepsInv(INIT, steps);
  }

  /** A whole Start, up to the store of its id. */
  function Started(s: State, id: TimerId): State
  {
    Do(Do(Do(s, StartClaim), StartSchedule(id)), StartStore(id))
  }

  /** Calls made in turn do not miss: from any settled, stopped state, a whole Start makes the checker run
      with its timer armed and known, and a whole Stop then leaves what was armed before. */
  lemma CallsInTurnDoNotMiss(s: State, id: TimerId)
    requires Inv(s) && Settled(s) && !s.running && id != 0 && id !in s.armed
    ensures var s1 := Started(s, id);
            && s1.running && Settled(s1) && s1.timerId == id && s1.armed == s.armed + {id}
            && var s2 := Do(Do(Do(s1, StopClaim), StopTake), StopCancel(id));
               !s2.running && Settled(s2) && s2.armed == s.armed && s2.misses == s.misses
  {
    var s1 := Started(s, id);
    assert s1.storing == {};
    var s2 := Do(Do(s1, StopClaim), StopTake);
    assert s2.cancelling == {id};
  }

  ghost predicate Reachable(s: State)
  {
    exists steps :: Run(INIT, steps) == s
  }

  lemma {:induction false} RunSnoc(s: State, steps: seq<Step>, a: Step)
    ensures Run(s, steps + [a]) == Do(Run(s, steps), a)
    decreases |steps|
  {
    if steps == [] {
      assert ([] + [a])[1..] == [];
    } else {
      RunSnoc(Do(s, steps[0]), steps[1..], a);
      assert (steps + [a])[1..] == steps[1..] + [a];
    }
  }

  lemma Reach(s: State, a: Step)
    requires Reachable(s)
    ensures Reachable(Do(s, a))
  {
    var steps :| Run(INIT, steps) == s;
    RunSnoc(INIT, steps, a);
  }

  /** Where a run with one Start and one Stop stands. */
  predicate Stands(s: State, running: bool, scheduling: nat, taking: nat, armed: set<TimerId>, storing: set<TimerId>)
  {
    && s.running == running && s.scheduling == scheduling && s.taking == taking
    && s.armed == armed && s.storing == storing && s.timerId == 0 && s.storingNone == 0 && s.cancelling == {}
  }

  lemma ReachStarting() returns (s: State)
    ensures Reachable(s) && Stands(s, true, 1, 0, {}, {})
  {
    s := INIT;
    assert Run(s, []) == s;
    Reach(s, StartClaim);
    s := Do(s, StartClaim);
  }

  lemma ReachMissed() returns (s: State)
    ensures Reachable(s) && Stands(s, false, 1, 0, {}, {})
  {
    s := ReachStarting();
    Reach(s, StopClaim);
    s := Do(s, StopClaim);
    Reach(s, StopTake);
    s := Do(s, StopTake);
  }

  /** A Stop between a Start's exchange and its store misses the timer, which stays armed. */
  lemma StopCanMissTheTimer() returns (s: State)
    ensures Reachable(s) && Settled(s) && !s.running && s.armed == {1}
  {
    s := ReachMissed();
    Reach(s, StartSchedule(1));
    s := Do(s, StartSchedule(1));
    Reach(s, StartStore(1));
    s := Do(s, StartStore(1));
  }
}
