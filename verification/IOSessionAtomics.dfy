/** The outstanding-I/O counter, the disconnect flag and the fired-once flag of IOSession
    (LibNetworks/IOSession.cpp), one step per atomic operation, under any number of threads.

    A thread runs at most one completion handler. From inside it, as from outside, it may start
    posting an operation or call RequestDisconnect any number of times. A refused receive makes its
    thread call RequestDisconnect next; a refused send or connect does not. None of these calls has
    anything left to do once it has fired the disconnect callback, so calls made by that callback
    are further calls of the same thread. */
module IOSessionAtomics {

  type ThreadId = nat
  type OpId = nat   // operations are numbered in the order in which their posting began

  datatype Phase = BeingPosted(who: ThreadId) | InKernel | InHandler(who: ThreadId)

  /** Where a thread stands between two atomic operations. `saw` is the number of the next operation
      at the moment the thread saw the counter at zero. */
  datatype At =
    | Idle
    | Posting(op: OpId, recv: bool)   // fetch_add done, the kernel has not answered
    | MustRequest                     // a receive was refused: RequestDisconnect comes next
    | RequestLoad                     // RequestDisconnect: flag set, counter not yet loaded
    | GuardCheck(saw: OpId)           // guard: fetch_sub returned 1, flag not yet loaded
    | FireCas(saw: OpId)              // about to compare-exchange the fired flag

  datatype Handling = NoHandler | Handler(op: OpId)

  datatype Thread = Thread(handling: Handling, at: At)

  datatype State = State(
    counter: int,
    disconnect: bool,
    fired: bool,
    threads: map<ThreadId, Thread>,
    ops: map<OpId, Phase>,   // the operations that exist and where they are
    nextOp: OpId,
    firings: nat)            // times OnDisconnected ran

  datatype Step =
    | BeginPost(t: ThreadId, recv: bool)
    | Accept(t: ThreadId)               // the kernel takes the operation
    | Undo(t: ThreadId)                 // the kernel refuses it: UndoOutstandingOnFailure
    | Complete(t: ThreadId, op: OpId)   // a completion is dequeued
    | GuardSub(t: ThreadId)
    | GuardLoad(t: ThreadId)
    | Request(t: ThreadId)              // RequestDisconnect's compare-exchange
    | Load(t: ThreadId)
    | Fire(t: ThreadId)

  predicate Enabled(s: State, a: Step)
  {
    && a.t in s.threads
    && var th := s.threads[a.t];
       match a
       case BeginPost(_, _) => th.at == Idle
       case Accept(_) => th.at.Posting?
       case Undo(_) => th.at.Posting?
       case Complete(_, op) => th == Thread(NoHandler, Idle) && op in s.ops && s.ops[op] == InKernel
       case GuardSub(_) => th.at == Idle && th.handling.Handler?
       case GuardLoad(_) => th.at.GuardCheck?
       case Request(_) => th.at == Idle || th.at == MustRequest
       case Load(_) => th.at == RequestLoad
       case Fire(_) => th.at.FireCas?
  }

  function Goto(s: State, t: ThreadId, at: At): State
    requires t in s.threads
  {
    s.(threads := s.threads[t := s.threads[t].(at := at)])
  }

  /** One atomic operation; a step that is not enabled does nothing. */
  function Do(s: State, a: Step): State
  {
    if !Enabled(s, a) then s else
    var th := s.threads[a.t];
    match a
    case BeginPost(t, recv) =>
      Goto(s, t, Posting(s.nextOp, recv)).(
        counter := s.counter + 1, ops := s.ops[s.nextOp := BeingPosted(t)], nextOp := s.nextOp + 1)
    case Accept(t) => Goto(s, t, Idle).(ops := s.ops[th.at.op := InKernel])
    case Undo(t) =>
      Goto(s, t, if th.at.recv then MustRequest else Idle).(counter := s.counter - 1, ops := s.ops - {th.at.op})
    case Complete(t, op) => s.(threads := s.threads[t := Thread(Handler(op), Idle)], ops := s.ops[op := InHandler(t)])
    case GuardSub(t) =>
      s.(threads := s.threads[t := Thread(NoHandler, if s.counter == 1 then GuardCheck(s.nextOp) else Idle)],
         counter := s.counter - 1, ops := s.ops - {th.handling.op})
    case GuardLoad(t) => Goto(s, t, if s.disconnect then FireCas(th.at.saw) else Idle)
    case Request(t) => Goto(s, t, RequestLoad).(disconnect := true)
    case Load(t) => Goto(s, t, if s.counter == 0 then FireCas(s.nextOp) else Idle)
    case Fire(t) =>
      if s.fired then Goto(s, t, Idle)
      else Goto(s, t, Idle).(fired := true, firings := s.firings + 1)
  }

  function Init(threads: set<ThreadId>): State
  {
    State(0, false, false, map t | t in threads :: Thread(NoHandler, Idle), map[], 0, 0)
  }

  /** A whole run, step after step. */
  function Run(s: State, steps: seq<Step>): State
    decreases |steps|
  {
    if steps == [] then s else Do(Run(s, Front(steps)), Last(steps))
  }

  function Front(steps: seq<Step>): seq<Step>
    requires steps != []
  {
    steps[..|steps| - 1]
  }

  function Last(steps: seq<Step>): Step
    requires steps != []
  {
    steps[|steps| - 1]
  }

  // ---- Invariant ------------------------------------------------------------------

  /** A thread's operations are where the thread says they are, and it fires only on a request and
      never from inside a handler. */
  predicate ThreadOk(s: State, t: ThreadId)
    requires t in s.threads
  {
    var th := s.threads[t];
    && (th.at.Posting? ==> th.at.op in s.ops && s.ops[th.at.op] == BeingPosted(t))
    && (th.handling.Handler? ==> th.handling.op in s.ops && s.ops[th.handling.op] == InHandler(t))
    && (th.at.RequestLoad? || th.at.FireCas? ==> s.disconnect)
    && (AboutToFire(th.at) ==> th.handling == NoHandler && th.at.saw <= s.nextOp)
  }

  /** Past the moment it saw the counter at zero. */
  predicate AboutToFire(at: At) { at.GuardCheck? || at.FireCas? }

  /** An operation being posted or handled has the thread that does it. */
  predicate OpOk(s: State, op: OpId)
    requires op in s.ops
  {
    && op < s.nextOp
    && match s.ops[op]
       case BeingPosted(t) => t in s.threads && s.threads[t].at.Posting? && s.threads[t].at.op == op
       case InKernel => true
       case InHandler(t) => t in s.threads && s.threads[t].handling == Handler(op)
  }

  /** What exists began after every moment at which a thread now about to fire saw zero. */
  predicate Newer(s: State, t: ThreadId, op: OpId)
    requires t in s.threads
  {
    AboutToFire(s.threads[t].at) ==> s.threads[t].at.saw <= op
  }

  ghost predicate Inv(s: State)
  {
    && s.counter == |s.ops|
    && (forall t <- s.threads :: ThreadOk(s, t))
    && (forall op <- s.ops :: OpOk(s, op))
    && (forall t <- s.threads, op <- s.ops :: Newer(s, t, op))
    && s.firings == (if s.fired then 1 else 0)
    && (s.fired ==> s.disconnect)
  }

  lemma RemoveOne<K, V>(m: map<K, V>, k: K)
    requires k in m
    ensures |m - {k}| == |m| - 1
  {
    assert (m - {k}).Keys == m.Keys - {k};
    assert |m.Keys - {k}| == |m.Keys| - 1;
  }

  lemma DoKeepsCount(s: State, a: Step)
    requires Inv(s) && Enabled(s, a)
    ensures Do(s, a).counter == |Do(s, a).ops|
  {
    var th := s.threads[a.t];
    assert ThreadOk(s, a.t);
    match a
    case BeginPost(_, _) => assert s.nextOp !in s.ops by { assert s.nextOp in s.ops ==> OpOk(s, s.nextOp); }
    case Undo(_) => RemoveOne(s.ops, th.at.op);
    case GuardSub(_) => RemoveOne(s.ops, th.handling.op);
    case Accept(_) => assert s.ops[th.at.op := InKernel].Keys == s.ops.Keys;
    case Complete(t, op) => assert s.ops[op := InHandler(t)].Keys == s.ops.Keys;
    case _ =>
  }

  /** The moving thread itself. A thread inside a handler finds the counter above zero. */
  lemma DoKeepsMover(s: State, a: Step)
    requires Inv(s) && Enabled(s, a)
    ensures ThreadOk(Do(s, a), a.t)
  {
    assert ThreadOk(s, a.t);
    if a.Load? && s.threads[a.t].handling.Handler? {
      assert s.threads[a.t].handling.op in s.ops && s.counter > 0;
    }
  }

  lemma DoKeepsOthers(s: State, a: Step, t: ThreadId)
    requires Inv(s) && Enabled(s, a) && t in s.threads && t != a.t
    ensures ThreadOk(Do(s, a), t)
  {
    assert ThreadOk(s, t) && ThreadOk(s, a.t);
  }

  lemma DoKeepsOp(s: State, a: Step, op: OpId)
    requires Inv(s) && Enabled(s, a) && op in Do(s, a).ops
    ensures OpOk(Do(s, a), op)
  {
    assert ThreadOk(s, a.t) && (op in s.ops ==> OpOk(s, op));
  }

  lemma OthersKeepNewer(s: State, a: Step, t: ThreadId, op: OpId)
    requires Enabled(s, a) && t in s.threads && t != a.t && op in Do(s, a).ops
    requires ThreadOk(s, t) && (op in s.ops ==> Newer(s, t, op)) && (a.Accept? ==> s.threads[a.t].at.op in s.ops)
    ensures Newer(Do(s, a), t, op)
  {
  }

  /** A thread that comes to be about to fire finds no operation. */
  lemma MoverIsNewer(s: State, a: Step, op: OpId)
    requires Enabled(s, a) && op in Do(s, a).ops && (op in s.ops ==> Newer(s, a.t, op))
    requires Do(s, a).counter == |Do(s, a).ops|
    ensures Newer(Do(s, a), a.t, op)
  {
  }

  lemma DoKeepsInv(s: State, a: Step)
    requires Inv(s)
    ensures Inv(Do(s, a))
  {
    if Enabled(s, a) {
      var s' := Do(s, a);
      assert ThreadOk(s, a.t);
      DoKeepsCount(s, a);
      DoKeepsMover(s, a);
      forall t | t in s'.threads ensures ThreadOk(s', t) {
        if t != a.t {
          DoKeepsOthers(s, a, t);
        }
      }
      forall op | op in s'.ops ensures OpOk(s', op) {
        DoKeepsOp(s, a, op);
      }
      forall t, op | t in s'.threads && op in s'.ops ensures Newer(s', t, op) {
        assert ThreadOk(s, t) && (op in s.ops ==> Newer(s, t, op));
        if t == a.t {
          MoverIsNewer(s, a, op);
        } else {
          OthersKeepNewer(s, a, t, op);
        }
      }
    }
  }

  lemma {:induction false} RunKeepsInv(s: State, steps: seq<Step>)
    requires Inv(s)
    ensures Inv(Run(s, steps))
    decreases |steps|
  {
    if steps != [] {
      RunKeepsInv(s, Front(steps));
      DoKeepsInv(Run(s, Front(steps)), Last(steps));
    }
  }

  // ---- What it means ---------------------------------------------------------------

  datatype Place = Posted | Held | Handled

  predicate IsIn(ph: Phase, p: Place)
  {
    match p
    case Posted => ph.BeingPosted?
    case Held => ph.InKernel?
    case Handled => ph.InHandler?
  }

  /** The operations being posted, in the kernel or in a handler. */
  function OpsIn(ops: map<OpId, Phase>, p: Place): set<OpId>
  {
    set op | op in ops && IsIn(ops[op], p)
  }

  lemma ThreePhases(s: State)
    ensures |s.ops| == |OpsIn(s.ops, Posted)| + |OpsIn(s.ops, Held)| + |OpsIn(s.ops, Handled)|
  {
    var a, b, c := OpsIn(s.ops, Posted), OpsIn(s.ops, Held), OpsIn(s.ops, Handled);
    assert s.ops.Keys == (a + b) + c;
    assert |a + b| == |a| + |b|;
    assert |(a + b) + c| == |a + b| + |c|;
  }

  /** Under every interleaving: the counter is the number of operations being posted, in the kernel
      and in a handler; OnDisconnected runs at most once and only after a request; and no thread
      inside a completion handler ever comes to fire it. */
  lemma EveryInterleaving(threads: set<ThreadId>, steps: seq<Step>)
    ensures var s := Run(Init(threads), steps);
            && s.counter == |OpsIn(s.ops, Posted)| + |OpsIn(s.ops, Held)| + |OpsIn(s.ops, Handled)|
            && s.firings <= 1 && (s.firings == 1 ==> s.disconnect)
            && (forall t <- s.threads :: s.threads[t].handling.Handler? ==> !s.threads[t].at.FireCas?)
  {
    RunKeepsInv(Init(threads), steps);
    assert forall t <- Run(Init(threads), steps).threads :: ThreadOk(Run(Init(threads), steps), t);
    ThreePhases(Run(Init(threads), steps));
  }

  // ---- Every step has its effect -------------------------------------------------------

  function Flag(b: bool): nat { if b then 1 else 0 }

  datatype Kind = Begins | Accepts | Undoes | Completes | Guards | Requests | Triggers | Loads

  function KindOf(a: Step): Kind
  {
    match a
    case BeginPost(_, _) => Begins
    case Accept(_) => Accepts
    case Undo(_) => Undoes
    case Complete(_, _) => Completes
    case GuardSub(_) => Guards
    case GuardLoad(_) => Loads
    case Request(_) => Requests
    case Load(_) => Loads
    case Fire(_) => Triggers
  }

  /** How many steps of a kind the run has made. */
  function Made(s: State, steps: seq<Step>, k: Kind): nat
    decreases |steps|
  {
    if steps == [] then 0
    else Made(s, Front(steps), k) + Flag(Enabled(Run(s, Front(steps)), Last(steps)) && KindOf(Last(steps)) == k)
  }

  lemma CardWithout(a: set<OpId>, op: OpId)
    ensures |a - {op}| == |a| - Flag(op in a)
  {
    if op !in a {
      assert a - {op} == a;
    }
  }

  /** One operation moves, appears or goes. */
  lemma PlaceStep(ops: map<OpId, Phase>, ops': map<OpId, Phase>, op: OpId, p: Place)
    requires ops - {op} == ops' - {op}
    ensures |OpsIn(ops', p)| == |OpsIn(ops, p)| - Flag(op in ops && IsIn(ops[op], p)) + Flag(op in ops' && IsIn(ops'[op], p))
  {
    var before, after := OpsIn(ops, p), OpsIn(ops', p);
    forall o | o != op ensures o in before <==> o in after {
      assert o in ops <==> o in ops - {op};
      assert o in ops' <==> o in ops' - {op};
      if o in ops {
        assert (ops - {op})[o] == ops[o];
        assert (ops' - {op})[o] == ops'[o];
      }
    }
    assert before - {op} == after - {op};
    CardWithout(before, op);
    CardWithout(after, op);
  }

  /** The operation a step is about. */
  function OpOf(s: State, a: Step): OpId
    requires Enabled(s, a)
  {
    match a
    case BeginPost(_, _) => s.nextOp
    case Accept(t) => s.threads[t].at.op
    case Undo(t) => s.threads[t].at.op
    case Complete(_, op) => op
    case GuardSub(t) => s.threads[t].handling.op
    case _ => s.nextOp
  }

  lemma OnlyItsOp(s: State, a: Step)
    requires Inv(s) && Enabled(s, a)
    ensures s.ops - {OpOf(s, a)} == Do(s, a).ops - {OpOf(s, a)}
  {
    assert ThreadOk(s, a.t);
  }

  /** How a step moves its operation. */
  lemma ItsOpMoves(s: State, a: Step)
    requires Inv(s) && Enabled(s, a)
    ensures var op, ops, ops' := OpOf(s, a), s.ops, Do(s, a).ops;
            match KindOf(a)
            case Begins => op !in ops && op in ops' && ops'[op].BeingPosted?
            case Accepts => op in ops && ops[op].BeingPosted? && op in ops' && ops'[op].InKernel?
            case Undoes => op in ops && ops[op].BeingPosted? && op !in ops'
            case Completes => op in ops && ops[op].InKernel? && op in ops' && ops'[op].InHandler?
            case Guards => op in ops && ops[op].InHandler? && op !in ops'
            case _ => ops' == ops
  {
    assert ThreadOk(s, a.t);
    assert s.nextOp in s.ops ==> OpOk(s, s.nextOp);
  }

  /** What the steps of a run add up to. */
  ghost predicate Accounted(s0: State, steps: seq<Step>)
  {
    var s := Run(s0, steps);
    && |OpsIn(s.ops, Posted)| == Made(s0, steps, Begins) - Made(s0, steps, Accepts) - Made(s0, steps, Undoes)
    && |OpsIn(s.ops, Held)| == Made(s0, steps, Accepts) - Made(s0, steps, Completes)
    && |OpsIn(s.ops, Handled)| == Made(s0, steps, Completes) - Made(s0, steps, Guards)
    && (s.disconnect <==> Made(s0, steps, Requests) > 0)
    && (s.fired <==> Made(s0, steps, Triggers) > 0)
  }

  lemma StepAccounted(s0: State, steps: seq<Step>)
    requires steps != [] && Inv(Run(s0, Front(steps))) && Accounted(s0, Front(steps))
    requires Enabled(Run(s0, Front(steps)), Last(steps))
    ensures Accounted(s0, steps)
  {
    var s, a := Run(s0, Front(steps)), Last(steps);
    PlacesStep(s, a);
    FlagsStep(s, a);
  }

  lemma PlacesStep(s: State, a: Step)
    requires Inv(s) && Enabled(s, a)
    ensures var k, ops, ops' := KindOf(a), s.ops, Do(s, a).ops;
            && |OpsIn(ops', Posted)| == |OpsIn(ops, Posted)| + Flag(k == Begins) - Flag(k == Accepts) - Flag(k == Undoes)
            && |OpsIn(ops', Held)| == |OpsIn(ops, Held)| + Flag(k == Accepts) - Flag(k == Completes)
            && |OpsIn(ops', Handled)| == |OpsIn(ops, Handled)| + Flag(k == Completes) - Flag(k == Guards)
  {
    OnlyItsOp(s, a);
    ItsOpMoves(s, a);
    PlaceStep(s.ops, Do(s, a).ops, OpOf(s, a), Posted);
    PlaceStep(s.ops, Do(s, a).ops, OpOf(s, a), Held);
    PlaceStep(s.ops, Do(s, a).ops, OpOf(s, a), Handled);
  }

  lemma FlagsStep(s: State, a: Step)
    requires Enabled(s, a)
    ensures Do(s, a).disconnect <==> s.disconnect || a.Request?
    ensures Do(s, a).fired <==> s.fired || a.Fire?
  {
  }

  /** Over every run: operations being posted are those begun and neither accepted nor refused, those in the
      kernel accepted and not completed, those in a handler completed and not yet let go; the flag is set if
      and only if some thread has requested a disconnect, and the callback has run if and only if some
      thread has come to fire. */
  lemma {:induction false} RunAccounted(threads: set<ThreadId>, steps: seq<Step>)
    ensures Accounted(Init(threads), steps)
    decreases |steps|
  {
    if steps == [] {
      assert OpsIn(Init(threads).ops, Posted) == OpsIn(Init(threads).ops, Held) == OpsIn(Init(threads).ops, Handled) == {};
    } else {
      RunAccounted(threads, Front(steps));
      RunKeepsInv(Init(threads), Front(steps));
      if Enabled(Run(Init(threads), Front(steps)), Last(steps)) {
        StepAccounted(Init(threads), steps);
      } else {
        StandsStill(Init(threads), steps);
      }
    }
  }

  lemma StandsStill(s0: State, steps: seq<Step>)
    requires steps != [] && !Enabled(Run(s0, Front(steps)), Last(steps)) && Accounted(s0, Front(steps))
    ensures Accounted(s0, steps)
  {
    assert forall k :: Made(s0, steps, k) == Made(s0, Front(steps), k);
  }

  /** A request made anywhere in a run, inside a handler or not, has set the flag for good. */
  lemma {:induction false} RequestSticks(threads: set<ThreadId>, steps: seq<Step>, i: nat)
    requires i < |steps| && steps[i].Request? && Enabled(Run(Init(threads), steps[..i]), steps[i])
    ensures Run(Init(threads), steps).disconnect
    decreases |steps|
  {
    var before := Run(Init(threads), Front(steps));
    if i == |steps| - 1 {
      FlagsStep(before, Last(steps));
    } else {
      assert Front(steps)[..i] == steps[..i];
      RequestSticks(threads, Front(steps), i);
      if Enabled(before, Last(steps)) {
        FlagsStep(before, Last(steps));
      }
    }
  }

  // ---- Program order -------------------------------------------------------------------

  /** The thread runs a completion handler. */
  ghost predicate InHandlerOf(s: State, t: ThreadId)
  {
    exists op <- s.ops :: s.ops[op] == InHandler(t)
  }

  /** What a thread that is in the middle of nothing may do. */
  ghost predicate FreeTo(s: State, b: Step)
  {
    match KindOf(b)
    case Begins => true
    case Requests => true
    case Guards => InHandlerOf(s, b.t)
    case Completes => !InHandlerOf(s, b.t) && b.Complete? && b.op in s.ops && s.ops[b.op] == InKernel
    case _ => false
  }

  /** What the source lets a thread do next, after step `a` made in `s` and leading to `s'`. */
  ghost predicate Follows(s: State, a: Step, s': State, b: Step)
    requires Enabled(s, a)
  {
    match a
    case BeginPost(_, _) => b.Accept? || b.Undo?
    case Accept(_) => FreeTo(s', b)
    case Undo(t) => if s.threads[t].at.recv then b.Request? else FreeTo(s', b)
    case Complete(_, _) => FreeTo(s', b)
    case GuardSub(_) => if s.counter == 1 then b.GuardLoad? else FreeTo(s', b)
    case GuardLoad(_) => if s.disconnect then b.Fire? else FreeTo(s', b)
    case Request(_) => b.Load?
    case Load(_) => if s.counter == 0 then b.Fire? else FreeTo(s', b)
    case Fire(_) => FreeTo(s', b)
  }

  lemma HandlingIsInHandler(s: State, t: ThreadId)
    requires Inv(s) && t in s.threads
    ensures InHandlerOf(s, t) <==> s.threads[t].handling.Handler?
  {
    assert ThreadOk(s, t);
    if InHandlerOf(s, t) {
      var op :| op in s.ops && s.ops[op] == InHandler(t);
      assert OpOk(s, op);
    }
  }

  lemma FreeIsIdle(s: State, b: Step)
    requires Inv(s) && b.t in s.threads && s.threads[b.t].at == Idle
    ensures Enabled(s, b) <==> FreeTo(s, b)
  {
    HandlingIsInHandler(s, b.t);
  }

  /** What a thread in the middle of something does next. */
  lemma BusyNext(s: State, b: Step)
    requires b.t in s.threads && s.threads[b.t].at != Idle
    ensures Enabled(s, b) <==>
            match s.threads[b.t].at
            case Posting(_, _) => b.Accept? || b.Undo?
            case MustRequest => b.Request?
            case RequestLoad => b.Load?
            case GuardCheck(_) => b.GuardLoad?
            case FireCas(_) => b.Fire?
            case Idle => false
  {
  }

  /** After every step of a thread, its next steps are exactly those the source makes next. */
  lemma ProgramOrder(s: State, a: Step, b: Step)
    requires Inv(s) && Enabled(s, a) && b.t == a.t
    ensures Enabled(Do(s, a), b) <==> Follows(s, a, Do(s, a), b)
  {
    DoKeepsInv(s, a);
    GoesOn(s, a);
    NextInOrder(s, a, Do(s, a), b);
  }

  lemma NextInOrder(s: State, a: Step, s': State, b: Step)
    requires Enabled(s, a) && b.t == a.t && Inv(s') && a.t in s'.threads && Leaves(s, a, s'.threads[a.t].at)
    ensures Enabled(s', b) <==> Follows(s, a, s', b)
  {
    if s'.threads[a.t].at == Idle {
      FreeIsIdle(s', b);
    } else {
      BusyNext(s', b);
    }
  }

  /** Where a step leaves its thread. */
  predicate Leaves(s: State, a: Step, at: At)
    requires Enabled(s, a)
  {
    match a
    case BeginPost(_, _) => at.Posting?
    case Undo(t) => at == if s.threads[t].at.recv then MustRequest else Idle
    case GuardSub(_) => if s.counter == 1 then at.GuardCheck? else at == Idle
    case GuardLoad(_) => if s.disconnect then at.FireCas? else at == Idle
    case Request(_) => at == RequestLoad
    case Load(_) => if s.counter == 0 then at.FireCas? else at == Idle
    case _ => at == Idle
  }

  lemma GoesOn(s: State, a: Step)
    requires Enabled(s, a)
    ensures a.t in Do(s, a).threads && Leaves(s, a, Do(s, a).threads[a.t].at)
  {
  }

  /** A step of one thread leaves every other where it was. */
  lemma OthersStay(s: State, a: Step, t: ThreadId)
    requires t in s.threads && t != a.t
    ensures t in Do(s, a).threads && Do(s, a).threads[t] == s.threads[t]
  {
  }

  // ---- When a requested disconnect is lost -------------------------------------------

  ghost predicate Quiescent(s: State)
  {
    s.ops == map[] && forall t <- s.threads :: s.threads[t] == Thread(NoHandler, Idle)
  }

  /** All is quiet, a disconnect was requested and its callback has not run: it never will unless
      someone calls in again. */
  ghost predicate Lost(s: State)
  {
    Quiescent(s) && s.disconnect && !s.fired
  }

  /** A thread on its way to the compare-exchange of the fired flag, if the counter stays at zero. */
  predicate OnItsWay(at: At) { at.MustRequest? || at.RequestLoad? || AboutToFire(at) }

  ghost predicate FirePending(s: State)
  {
    exists t <- s.threads :: OnItsWay(s.threads[t].at)
  }

  /** A send or connect is refused as the last outstanding operation, after the request, before the
      callback has run, and with no thread on its way to run it. */
  ghost predicate StrandingUndo(s: State, a: Step)
  {
    && Enabled(s, a) && a.Undo? && !s.threads[a.t].at.recv
    && s.counter == 1 && s.disconnect && !s.fired && !FirePending(s)
  }

  /** With one operation left, being posted by `t`, no other thread has one. */
  lemma LastOneOut(s: State, t: ThreadId, t': ThreadId)
    requires Inv(s) && s.counter == 1 && t in s.threads && s.threads[t].at.Posting? && t' in s.threads
    ensures s.threads[t'].handling == NoHandler && (t' != t ==> !s.threads[t'].at.Posting?)
  {
    assert ThreadOk(s, t) && ThreadOk(s, t');
    var op := s.threads[t].at.op;
    RemoveOne(s.ops, op);
    assert forall o <- s.ops :: o == op by {
      forall o | o in s.ops ensures o == op {
        assert o != op ==> o in s.ops - {op};
      }
    }
  }

  lemma StrandingLoses(s: State, a: Step)
    requires Inv(s) && StrandingUndo(s, a)
    ensures Lost(Do(s, a))
  {
    var s' := Do(s, a);
    DoKeepsCount(s, a);
    forall t | t in s'.threads ensures s'.threads[t] == Thread(NoHandler, Idle) {
      LastOneOut(s, a.t, t);
      assert !OnItsWay(s.threads[t].at);
    }
  }

  lemma LosingStrands(s: State, a: Step)
    requires Inv(s) && Enabled(s, a) && Lost(Do(s, a))
    ensures StrandingUndo(s, a)
  {
    var s' := Do(s, a);
    DoKeepsCount(s, a);
    assert ThreadOk(s, a.t);
    assert s'.threads[a.t] == Thread(NoHandler, Idle);
    forall t | t in s.threads ensures !OnItsWay(s.threads[t].at) {
      assert t != a.t ==> s'.threads[t] == s.threads[t];
    }
  }

  /** The last step of the run that did anything was a stranding undo. */
  ghost predicate LastMoveStrands(s: State, steps: seq<Step>)
    decreases |steps|
  {
    && steps != []
    && var before := Run(s, Front(steps));
       if Enabled(before, Last(steps)) then StrandingUndo(before, Last(steps)) else LastMoveStrands(s, Front(steps))
  }

  lemma {:induction false} LostIffStranded(s: State, steps: seq<Step>)
    requires Inv(s) && !Lost(s)
    ensures Lost(Run(s, steps)) <==> LastMoveStrands(s, steps)
    decreases |steps|
  {
    if steps != [] {
      var before, a := Run(s, Front(steps)), Last(steps);
      RunKeepsInv(s, Front(steps));
      LostIffStranded(s, Front(steps));
      if StrandingUndo(before, a) {
        StrandingLoses(before, a);
      } else if Enabled(before, a) && Lost(Do(before, a)) {
        LosingStrands(before, a);
      }
    }
  }

  /** Under every interleaving: once all is quiet, a requested disconnect has fired if and only if the
      last move was not a stranding undo. */
  lemma FiredIffNotStranded(threads: set<ThreadId>, steps: seq<Step>)
    ensures var s := Run(Init(threads), steps);
            Quiescent(s) && s.disconnect ==> (s.fired <==> !LastMoveStrands(Init(threads), steps))
  {
    LostIffStranded(Init(threads), steps);
  }

  /** A run in which only receives are refused. */
  predicate OnlyReceivesRefused(s: State, steps: seq<Step>)
    decreases |steps|
  {
    steps == [] ||
    (var before, a := Run(s, Front(steps)), Last(steps);
     (a.Undo? && Enabled(before, a) ==> before.threads[a.t].at.recv) && OnlyReceivesRefused(s, Front(steps)))
  }

  lemma {:induction false} ReceivesDoNotStrand(s: State, steps: seq<Step>)
    requires OnlyReceivesRefused(s, steps)
    ensures !LastMoveStrands(s, steps)
    decreases |steps|
  {
    if steps != [] {
      ReceivesDoNotStrand(s, Front(steps));
    }
  }

  /** A refused receive never loses the callback: if no other post is refused, every requested disconnect
      has fired by the time all is quiet. */
  lemma DrainsWithoutLateUndo(threads: set<ThreadId>, steps: seq<Step>)
    requires OnlyReceivesRefused(Init(threads), steps)
    ensures var s := Run(Init(threads), steps); Quiescent(s) && s.disconnect ==> s.fired
  {
    ReceivesDoNotStrand(Init(threads), steps);
    FiredIffNotStranded(threads, steps);
  }

  // ---- When the callback overtakes a post ----------------------------------------------

  /** This step runs the callback. */
  predicate Fires(s: State, a: Step)
  {
    a.Fire? && Enabled(s, a) && !s.fired
  }

  /** Under every interleaving: the callback runs with an operation outstanding if and only if an
      operation whose posting began after the firing thread saw the counter at zero still exists. */
  lemma OvertakesIff(threads: set<ThreadId>, steps: seq<Step>, a: Step)
    requires Fires(Run(Init(threads), steps), a)
    ensures var s := Run(Init(threads), steps);
            s.counter > 0 <==> exists op <- s.ops :: s.threads[a.t].at.saw <= op
  {
    RunKeepsInv(Init(threads), steps);
    var s := Run(Init(threads), steps);
    if s.counter > 0 {
      var op :| op in s.ops;
      assert Newer(s, a.t, op);
    }
  }

  /** A post begins while some thread, having seen zero, is about to fire. */
  ghost predicate PostsIntoFire(s: State, a: Step)
  {
    a.BeginPost? && Enabled(s, a) && exists t <- s.threads :: AboutToFire(s.threads[t].at)
  }

  ghost predicate NoPostIntoFire(s: State, steps: seq<Step>)
    decreases |steps|
  {
    steps == [] || (!PostsIntoFire(Run(s, Front(steps)), Last(steps)) && NoPostIntoFire(s, Front(steps)))
  }

  /** No thread is about to fire while something is outstanding. */
  ghost predicate FireIsClear(s: State)
  {
    forall t <- s.threads :: AboutToFire(s.threads[t].at) ==> s.counter == 0
  }

  /** With nothing outstanding only a new post changes the counter. */
  lemma ZeroStays(s: State, a: Step)
    requires Enabled(s, a) && ThreadOk(s, a.t) && s.counter == 0 && s.ops == map[] && !a.BeginPost?
    ensures Do(s, a).counter == 0
  {
  }

  /** A thread comes to be about to fire only by seeing zero. */
  lemma SeesZero(s: State, a: Step)
    requires Enabled(s, a) && AboutToFire(Do(s, a).threads[a.t].at)
    ensures AboutToFire(s.threads[a.t].at) || Do(s, a).counter == 0
  {
  }

  lemma DoKeepsFireClear(s: State, a: Step)
    requires Inv(s) && FireIsClear(s) && !PostsIntoFire(s, a) && Enabled(s, a)
    ensures FireIsClear(Do(s, a))
  {
    var s' := Do(s, a);
    assert ThreadOk(s, a.t);
    forall t | t in s'.threads && AboutToFire(s'.threads[t].at) ensures s'.counter == 0 {
      assert t != a.t ==> s'.threads[t] == s.threads[t];
      if AboutToFire(s.threads[t].at) {
        ZeroStays(s, a);
      } else {
        SeesZero(s, a);
      }
    }
  }

  /** If no post begins while a thread is about to fire, every callback runs with nothing outstanding. */
  lemma {:induction false} NoOvertaking(threads: set<ThreadId>, steps: seq<Step>)
    requires NoPostIntoFire(Init(threads), steps)
    ensures var s := Run(Init(threads), steps);
            FireIsClear(s) && forall a :: Fires(s, a) ==> s.counter == 0 && s.ops == map[]
    decreases |steps|
  {
    RunKeepsInv(Init(threads), steps);
    if steps != [] {
      NoOvertaking(threads, Front(steps));
      RunKeepsInv(Init(threads), Front(steps));
      if Enabled(Run(Init(threads), Front(steps)), Last(steps)) {
        DoKeepsFireClear(Run(Init(threads), Front(steps)), Last(steps));
      }
    }
  }

  // ---- Runs that show both -----------------------------------------------------------------

  /** Some run of two threads leads here. */
  ghost predicate Reachable(s: State)
  {
    exists steps :: Run(Init({0, 1}), steps) == s
  }

  lemma Reach(s: State, a: Step)
    requires Reachable(s)
    ensures Reachable(Do(s, a))
  {
    var steps :| Run(Init({0, 1}), steps) == s;
    assert Front(steps + [a]) == steps;
    assert Run(Init({0, 1}), steps + [a]) == Do(s, a);
  }

  /** Where the two threads stand and which operations exist, before the callback has run. */
  predicate Stands(s: State, disconnect: bool, th0: Thread, at1: At, ops: map<OpId, Phase>, nextOp: OpId)
  {
    && s.threads.Keys == {0, 1} && s.threads[0] == th0 && s.threads[1] == Thread(NoHandler, at1)
    && s.disconnect == disconnect && !s.fired && s.ops == ops && s.nextOp == nextOp && s.counter == |ops|
  }

  /** The first thread has begun to post a send. */
  lemma ReachPosting() returns (s: State)
    ensures Reachable(s)
    ensures Stands(s, false, Thread(NoHandler, Posting(0, false)), Idle, map[0 := BeingPosted(0)], 1)
  {
    s := Init({0, 1});
    assert Run(s, []) == s;
    Reach(s, BeginPost(0, false));
    s := Do(s, BeginPost(0, false));
  }

  /** A request by the second thread meanwhile finds the counter above zero. */
  lemma ReachRequested() returns (s: State)
    ensures Reachable(s)
    ensures Stands(s, true, Thread(NoHandler, Posting(0, false)), Idle, map[0 := BeingPosted(0)], 1)
  {
    s := ReachPosting();
    Reach(s, Request(1));
    s := Do(s, Request(1));
    Reach(s, Load(1));
    s := Do(s, Load(1));
  }

  /** The undo of a refused send does not fire: a request that overlaps such a post leaves the session
      idle, disconnected and without its callback. */
  lemma UndoCanStrand() returns (s: State)
    ensures Reachable(s) && Lost(s)
  {
    s := ReachRequested();
    Reach(s, Undo(0));
    s := Do(s, Undo(0));
  }

  /** The first thread handles the completion of its operation. */
  lemma ReachHandler() returns (s: State)
    ensures Reachable(s) && Stands(s, false, Thread(Handler(0), Idle), Idle, map[0 := InHandler(0)], 1)
  {
    s := ReachPosting();
    Reach(s, Accept(0));
    s := Do(s, Accept(0));
    assert s.ops == map[0 := InKernel];
    Reach(s, Complete(0, 0));
    s := Do(s, Complete(0, 0));
    assert s.ops == map[0 := InHandler(0)];
  }

  /** Its guard has taken the counter to zero and not yet looked at the flag, and the second thread
      begins to post. */
  lemma ReachGuard() returns (s: State)
    ensures Reachable(s)
    ensures Stands(s, false, Thread(NoHandler, GuardCheck(1)), Posting(1, false), map[1 := BeingPosted(1)], 2)
  {
    s := ReachHandler();
    Reach(s, GuardSub(0));
    s := Do(s, GuardSub(0));
    assert s.ops == map[];
    Reach(s, BeginPost(1, false));
    s := Do(s, BeginPost(1, false));
    assert s.ops == map[1 := BeingPosted(1)];
  }

  lemma ReachRequestedGuard() returns (s: State)
    ensures Reachable(s)
    ensures Stands(s, true, Thread(NoHandler, GuardCheck(1)), RequestLoad, map[1 := InKernel], 2)
  {
    s := ReachGuard();
    Reach(s, Accept(1));
    s := Do(s, Accept(1));
    assert s.ops == map[1 := InKernel];
    Reach(s, Request(1));
    s := Do(s, Request(1));
  }

  /** The callback can overtake a post: such a guard fires although the other thread posted before it
      requested the disconnect. */
  lemma FireCanOvertakePost() returns (s: State)
    ensures Reachable(s) && Fires(s, Fire(0)) && 1 in s.ops && s.ops[1] == InKernel
  {
    s := ReachRequestedGuard();
    Reach(s, GuardLoad(0));
    s := Do(s, GuardLoad(0));
  }
}
