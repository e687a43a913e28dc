/** Any number of threads sending on one RIO session while completions arrive: one step per section
    under m_SendQueueMutex, and one for each unlocked load before it
    (LibNetworksRIO/RIOSession.cpp). */
module RioInterleaving {
  import opened Rings
  import opened Packets
  import opened RioSend

  type ThreadId = nat

  datatype At =
    | Idle
    | Entered(m: Message)   // SendMessage saw the session connected
    | Checked(m: Message)   // and found the pending total within the limit
    | MustFlush             // queued a packet or consumed a completion; FlushPendingSendQueue comes next

  datatype System = System(
    send: Sender,
    disconnected: bool,
    threads: map<ThreadId, At>,
    accepted: seq<Message>,     // messages queued, in the order of their sections
    completed: seq<Byte>,       // bytes whose send completed
    faulty: bool)               // RIOSend was refused, or a completion failed

  datatype Step =
    | Begin(t: ThreadId, m: Message)
    | Check(t: ThreadId)
    | Queue(t: ThreadId)
    | DoFlush(t: ThreadId, accepted: bool)
    | Completion(t: ThreadId, n: nat)
    | Failure(t: ThreadId)

  predicate Enabled(s: System, a: Step)
  {
    && a.t in s.threads
    && var at := s.threads[a.t];
       match a
       case Begin(_, _) => at == Idle && !s.disconnected
       case Check(_) => at.Entered?
       case Queue(_) => at.Checked?
       case DoFlush(_, _) => at == MustFlush
       case Completion(_, n) => at == Idle && s.send.posted.Sending? && n <= s.send.posted.span.length
       case Failure(_) => at == Idle && s.send.posted.Sending?
  }

  function Goto(s: System, t: ThreadId, at: At): System
  {
    s.(threads := s.threads[t := at])
  }

  /** One step; a step that is not enabled does nothing. */
  ghost function Do(s: System, a: Step): System
    requires SenderOk(s.send)
  {
    if !Enabled(s, a) then s else
    match a
    case Begin(t, m) => Goto(s, t, Entered(m))
    case Check(t) =>
      if s.send.pendingTotal > MAX_PENDING_BYTES then Goto(s, t, Idle).(disconnected := true)
      else Goto(s, t, Checked(s.threads[t].m))
    case Queue(t) =>
      var m := s.threads[t].m;
      Goto(s, t, MustFlush).(send := Enqueue(s.send, Wire(m)), accepted := s.accepted + [m])
    case DoFlush(t, accepted) => Goto(s, t, Idle).(send := Flush(s.send, accepted), faulty := s.faulty || !accepted)
    case Completion(t, n) =>
      Goto(s, t, MustFlush).(send := Complete(s.send, n), completed := s.completed + Taken(s.send, n))
    case Failure(t) =>
      Goto(s, t, Idle).(send := s.send.(posted := Nothing), disconnected := true, faulty := true)
  }

  /** The bytes the kernel read through the posted span. */
  ghost function Taken(s: Sender, n: nat): seq<Byte>
    requires s.ring.Valid() && s.posted.Sending? && n <= s.posted.span.length
  {
    var from := s.posted.span.offset;
    if from + n <= |s.ring.slots| then s.ring.slots[from..from + n] else []
  }

  // ---- First in, first out, nothing lost ------------------------------------------------

  /** The kernel's span still holds the oldest bytes of the ring. */
  ghost predicate WindowOk(s: Sender)
    requires s.ring.Valid()
  {
    s.posted.Sending? ==>
      && s.sendInProgress
      && s.posted.span.offset == s.ring.tail
      && 0 < s.posted.span.length <= s.ring.size
      && s.ring.tail + s.posted.span.length <= |s.ring.slots|
  }

  ghost predicate Flows(s: System)
  {
    && SenderOk(s.send) && WindowOk(s.send)
    && s.completed + Backlog(s.send) == Stream(s.accepted)
  }

  lemma EnqueueKeeps(s: Sender, packet: seq<Byte>)
    requires SenderOk(s) && WindowOk(s) && packet != []
    ensures var s' := Enqueue(s, packet);
            && SenderOk(s') && WindowOk(s') && Backlog(s') == Backlog(s) + packet
            && s'.pendingTotal <= s.pendingTotal + |packet|
            && (s.pending == [] && |packet| <= s.ring.Free() ==> s'.pending == [])
            && s'.posted == s.posted && s'.sendInProgress == s.sendInProgress
  {
    if s.pending == [] && |packet| <= s.ring.Free() {
      WriteContents(s.ring, packet);
      assert Remainders([]) == [];
    } else {
      DequeAppend(s.pending, packet);
    }
  }

  /** The posted span is the start of the queue, cut at the end of the buffer. */
  lemma FlushKeeps(s: Sender, accepted: bool)
    requires SenderOk(s) && WindowOk(s)
    ensures var s' := Flush(s, accepted);
            && SenderOk(s') && WindowOk(s') && Backlog(s') == Backlog(s) && s'.pendingTotal <= s.pendingTotal
            && (s'.pending != [] ==> s'.ring.Free() == 0)
            && (s.sendInProgress ==> s'.posted == s.posted && s'.sendInProgress)
            && (!s.sendInProgress && accepted ==> s'.sendInProgress == s'.posted.Sending? == (Backlog(s) != []))
            && (!s.sendInProgress && !accepted ==> !s'.sendInProgress && s'.posted == s.posted)
            && (!s.sendInProgress && s'.sendInProgress ==>
                  s'.posted == Sending(Span(s'.ring.tail, Min(s'.ring.size, |s'.ring.slots| - s'.ring.tail))))
  {
    RefillKeeps(s);
    var r := Refill(s);
    assert r.ring.size == 0 ==> r.pending == [] && Remainders(r.pending) == [];
    assert |Backlog(r)| >= r.ring.size;
  }

  lemma CompleteKeeps(s: Sender, n: nat)
    requires SenderOk(s) && WindowOk(s) && s.posted.Sending? && n <= s.posted.span.length
    ensures var s' := Complete(s, n);
            && SenderOk(s') && WindowOk(s')
            && Backlog(s) == Taken(s, n) + Backlog(s')
            && s'.pendingTotal == s.pendingTotal
  {
    ConsumeContents(s.ring, n);
    var c := s.ring.Contents();
    forall i | 0 <= i < n ensures Taken(s, n)[i] == c[..n][i] {
      assert c[i] == s.ring.slots[Wrap(|s.ring.slots|, s.ring.tail + i)];
    }
    assert Taken(s, n) == c[..n];
    assert c == c[..n] + c[n..];
  }

  lemma QueueKeepsFlow(s: System, t: ThreadId)
    requires Flows(s) && Enabled(s, Queue(t))
    ensures Flows(Do(s, Queue(t)))
  {
    var m := s.threads[t].m;
    EnqueueKeeps(s.send, Wire(m));
    StreamAppend(s.accepted, m);
    Associative(s.completed, Backlog(s.send), Wire(m));
  }

  lemma FlushKeepsFlow(s: System, t: ThreadId, accepted: bool)
    requires Flows(s) && Enabled(s, DoFlush(t, accepted))
    ensures Flows(Do(s, DoFlush(t, accepted)))
  {
    FlushKeeps(s.send, accepted);
  }

  lemma CompletionKeepsFlow(s: System, t: ThreadId, n: nat)
    requires Flows(s) && Enabled(s, Completion(t, n))
    ensures Flows(Do(s, Completion(t, n)))
  {
    CompleteKeeps(s.send, n);
    Associative(s.completed, Taken(s.send, n), Backlog(Complete(s.send, n)));
  }

  lemma DoKeepsFlow(s: System, a: Step)
    requires Flows(s)
    ensures Flows(Do(s, a))
  {
    if Enabled(s, a) {
      match a
      case Queue(t) => QueueKeepsFlow(s, t);
      case DoFlush(t, accepted) => FlushKeepsFlow(s, t, accepted);
      case Completion(t, n) => CompletionKeepsFlow(s, t, n);
      case _ =>
    }
  }

  ghost function Interleave(s: System, steps: seq<Step>): System
    requires Flows(s)
    decreases |steps|
  {
    if steps == [] then s
    else
      DoKeepsFlow(s, steps[0]);
      Interleave(Do(s, steps[0]), steps[1..])
  }

  ghost function Init(capacity: nat, threads: set<ThreadId>): (s: System)
    requires capacity > 0
    ensures Flows(s)
  {
    var ring := Ring(seq(capacity, _ => 0), 0, 0, 0);
    System(Sender(ring, [], 0, false, Nothing), false, map t | t in threads :: Idle, [], [], false)
  }

  /** Under every interleaving, with partial completions, refused sends and failed completions: the
      bytes completed, then the ring, then what is left of the deque are the accepted messages,
      encoded, in the order they were queued. */
  lemma {:induction false} FifoAndLossless(s: System, steps: seq<Step>)
    requires Flows(s)
    ensures var s' := Interleave(s, steps);
            && Flows(s')
            && s'.completed + (s'.send.ring.Contents() + Remainders(s'.send.pending)) == Stream(s'.accepted)
            && s'.send.pendingTotal == TotalOf(s'.send.pending)
    decreases |steps|
  {
    if steps != [] {
      DoKeepsFlow(s, steps[0]);
      FifoAndLossless(Do(s, steps[0]), steps[1..]);
    }
  }

  // ---- What each thread does, and when the session ends ----------------------------------

  /** What a thread in the middle of nothing may do. */
  predicate FreeTo(s: System, b: Step)
  {
    match b
    case Begin(_, _) => !s.disconnected
    case Completion(_, n) => s.send.posted.Sending? && n <= s.send.posted.span.length
    case Failure(_) => s.send.posted.Sending?
    case _ => false
  }

  /** What the source lets a thread do next, after step `a` made in `s` and leading to `s'`. */
  predicate Follows(s: System, a: Step, s': System, b: Step)
  {
    match a
    case Begin(_, _) => b.Check?
    case Check(_) => if s.send.pendingTotal > MAX_PENDING_BYTES then FreeTo(s', b) else b.Queue?
    case Queue(_) => b.DoFlush?
    case DoFlush(_, _) => FreeTo(s', b)
    case Completion(_, _) => b.DoFlush?
    case Failure(_) => FreeTo(s', b)
  }

  lemma ProgramOrder(s: System, a: Step, b: Step)
    requires Flows(s) && Enabled(s, a) && b.t == a.t
    ensures Enabled(Do(s, a), b) <==> Follows(s, a, Do(s, a), b)
  {
    OneThreadMoves(s, a);
  }

  /** A run in which thread `t` rests. */
  predicate Without(steps: seq<Step>, t: ThreadId)
  {
    forall i :: 0 <= i < |steps| ==> steps[i].t != t
  }

  lemma {:induction false} OthersLeaveIt(s: System, steps: seq<Step>, t: ThreadId)
    requires Flows(s) && t in s.threads && Without(steps, t)
    ensures Flows(Interleave(s, steps))
    ensures t in Interleave(s, steps).threads && Interleave(s, steps).threads[t] == s.threads[t]
    decreases |steps|
  {
    if steps != [] {
      DoKeepsFlow(s, steps[0]);
      OneLeavesIt(s, steps[0], t);
      WithoutRest(steps, t);
      OthersLeaveIt(Do(s, steps[0]), steps[1..], t);
    }
  }

  lemma OneLeavesIt(s: System, a: Step, t: ThreadId)
    requires Flows(s) && t in s.threads && a.t != t
    ensures t in Do(s, a).threads && Do(s, a).threads[t] == s.threads[t]
  {
    if Enabled(s, a) {
      OneThreadMoves(s, a);
    }
  }

  lemma WithoutRest(steps: seq<Step>, t: ThreadId)
    requires steps != [] && Without(steps, t)
    ensures steps[0].t != t && Without(steps[1..], t)
  {
    forall i | 0 <= i < |steps[1..]| ensures steps[1..][i].t != t {
      assert steps[1..][i] == steps[i + 1];
    }
  }

  /** SendMessage under every interleaving, with any steps of other threads before its check and before
      its section: within the limit the message is accepted last and its bytes follow the backlog; over the
      limit nothing is accepted and the session is disconnected. */
  lemma CallIsAccepted(s: System, t: ThreadId, m: Message, others1: seq<Step>, others2: seq<Step>)
    requires Flows(s) && Enabled(s, Begin(t, m)) && Without(others1, t) && Without(others2, t)
    ensures Flows(Do(s, Begin(t, m))) && Flows(Interleave(Do(s, Begin(t, m)), others1))
    ensures var s1 := Interleave(Do(s, Begin(t, m)), others1);
            && Enabled(s1, Check(t)) && Flows(Do(s1, Check(t)))
            && (s1.send.pendingTotal > MAX_PENDING_BYTES ==>
                  Do(s1, Check(t)) == s1.(threads := s1.threads[t := Idle], disconnected := true))
            && (s1.send.pendingTotal <= MAX_PENDING_BYTES ==>
                  && Flows(Interleave(Do(s1, Check(t)), others2))
                  && var s2 := Interleave(Do(s1, Check(t)), others2);
                     && Enabled(s2, Queue(t))
                     && Do(s2, Queue(t)).accepted == s2.accepted + [m]
                     && SenderOk(Do(s2, Queue(t)).send) && Backlog(Do(s2, Queue(t)).send) == Backlog(s2.send) + Wire(m))
  {
    var s0 := Do(s, Begin(t, m));
    DoKeepsFlow(s, Begin(t, m));
    OthersLeaveIt(s0, others1, t);
    var s1 := Interleave(s0, others1);
    DoKeepsFlow(s1, Check(t));
    if s1.send.pendingTotal <= MAX_PENDING_BYTES {
      OthersLeaveIt(Do(s1, Check(t)), others2, t);
      var s2 := Interleave(Do(s1, Check(t)), others2);
      EnqueueKeeps(s2.send, Wire(m));
    }
  }

  /** What ends a session: a check that finds too much pending, or a send that fails. */
  predicate Cuts(s: System, a: Step)
  {
    Enabled(s, a) && ((a.Check? && s.send.pendingTotal > MAX_PENDING_BYTES) || a.Failure?)
  }

  ghost predicate SomeCuts(s: System, steps: seq<Step>)
    requires Flows(s)
    decreases |steps|
  {
    steps != [] && (Cuts(s, steps[0]) || (DoKeepsFlow(s, steps[0]); SomeCuts(Do(s, steps[0]), steps[1..])))
  }

  lemma StepCuts(s: System, a: Step)
    requires Flows(s)
    ensures Do(s, a).disconnected <==> s.disconnected || Cuts(s, a)
  {
  }

  /** Over every run, the session is disconnected if and only if something has cut it; and then no call
      begins any more. */
  lemma {:induction false} DisconnectedIff(s: System, steps: seq<Step>)
    requires Flows(s)
    ensures Interleave(s, steps).disconnected <==> s.disconnected || SomeCuts(s, steps)
    ensures Interleave(s, steps).disconnected ==> forall t, m :: !Enabled(Interleave(s, steps), Begin(t, m))
    decreases |steps|
  {
    if steps != [] {
      DoKeepsFlow(s, steps[0]);
      StepCuts(s, steps[0]);
      DisconnectedIff(Do(s, steps[0]), steps[1..]);
    }
  }

  /** The in-progress flag is held and the kernel has nothing: so a failed completion leaves it. */
  predicate Stuck(s: System) { s.send.sendInProgress && s.send.posted == Nothing }

  lemma StuckStays(s: System, a: Step)
    requires Flows(s) && Stuck(s)
    ensures Stuck(Do(s, a)) && Do(s, a).completed == s.completed
  {
    if Enabled(s, a) {
      match a
      case Queue(t) => EnqueueKeeps(s.send, Wire(s.threads[t].m));
      case DoFlush(t, accepted) => FlushKeeps(s.send, accepted);
      case _ =>
    }
  }

  /** After a failed send nothing is ever sent again, whatever is queued. */
  lemma {:induction false} FailureIsFinal(s: System, steps: seq<Step>)
    requires Flows(s) && Stuck(s)
    ensures Flows(Interleave(s, steps)) && Stuck(Interleave(s, steps)) && Interleave(s, steps).completed == s.completed
    decreases |steps|
  {
    if steps != [] {
      DoKeepsFlow(s, steps[0]);
      StuckStays(s, steps[0]);
      FailureIsFinal(Do(s, steps[0]), steps[1..]);
    }
  }

  lemma FailureSticks(s: System, t: ThreadId)
    requires Flows(s) && Enabled(s, Failure(t))
    ensures Stuck(Do(s, Failure(t))) && Do(s, Failure(t)).disconnected
  {
  }

  // ---- No lost wakeup ---------------------------------------------------------------------

  ghost predicate FlushOwed(s: System)
  {
    exists t <- s.threads :: s.threads[t] == MustFlush
  }

  /** As long as no send was refused and no completion failed, queued bytes are being sent or some
      thread is about to flush; and the deque waits only on a full ring or on such a thread. */
  ghost predicate Awake(s: System)
    requires SenderOk(s.send)
  {
    AwakeIf(s.send, s.faulty, FlushOwed(s))
  }

  ghost predicate AwakeIf(send: Sender, faulty: bool, owed: bool)
    requires SenderOk(send)
  {
    && (send.pending != [] ==> send.ring.Free() == 0 || owed)
    && (!faulty ==> send.sendInProgress == send.posted.Sending?)
    && (!faulty && Backlog(send) != [] ==> send.posted.Sending? || owed)
  }

  /** Another thread's debt survives a step. */
  lemma DebtRemains(s: System, a: Step)
    requires Flows(s) && Enabled(s, a) && FlushOwed(s) && s.threads[a.t] != MustFlush
    ensures FlushOwed(Do(s, a))
  {
    var t :| t in s.threads && s.threads[t] == MustFlush;
    assert Do(s, a).threads[t] == MustFlush;
  }

  /** A step that leaves its thread owing a flush. */
  lemma OwesFlush(s: System, a: Step)
    requires Flows(s) && Awake(s) && Enabled(s, a) && (a.Queue? || a.Completion?)
    requires Flows(Do(s, a))
    ensures Awake(Do(s, a))
  {
    var s' := Do(s, a);
    assert s'.threads[a.t] == MustFlush;
    assert FlushOwed(s');
    if a.Queue? {
      EnqueueKeeps(s.send, Wire(s.threads[a.t].m));
    }
  }

  lemma FlushWakes(s: System, t: ThreadId, accepted: bool)
    requires Flows(s) && Awake(s) && Enabled(s, DoFlush(t, accepted)) && Flows(Do(s, DoFlush(t, accepted)))
    ensures Awake(Do(s, DoFlush(t, accepted)))
  {
    FlushKeeps(s.send, accepted);
  }

  lemma DoKeepsAwake(s: System, a: Step)
    requires Flows(s) && Awake(s)
    ensures Flows(Do(s, a)) && Awake(Do(s, a))
  {
    DoKeepsFlow(s, a);
    if Enabled(s, a) {
      match a
      case Queue(_) => OwesFlush(s, a);
      case Completion(_, _) => OwesFlush(s, a);
      case DoFlush(t, accepted) => FlushWakes(s, t, accepted);
      case _ => OthersKeepAwake(s, a);
    }
  }

  /** The loads before the section, and a failed completion. */
  lemma OthersKeepAwake(s: System, a: Step)
    requires Flows(s) && Awake(s) && Enabled(s, a) && (a.Begin? || a.Check? || a.Failure?) && Flows(Do(s, a))
    ensures Awake(Do(s, a))
  {
    if FlushOwed(s) {
      DebtRemains(s, a);
    }
    assert a.Failure? || (Do(s, a).send == s.send && Do(s, a).faulty == s.faulty);
  }

  lemma {:induction false} NoLostWakeup(s: System, steps: seq<Step>)
    requires Flows(s) && Awake(s)
    ensures Flows(Interleave(s, steps)) && Awake(Interleave(s, steps))
    decreases |steps|
  {
    if steps != [] {
      DoKeepsAwake(s, steps[0]);
      NoLostWakeup(Do(s, steps[0]), steps[1..]);
    }
  }

  // ---- The queue drains ---------------------------------------------------------------------

  datatype Place = PastCheck | OwingFlush

  predicate IsAt(at: At, p: Place)
  {
    match p
    case PastCheck => at.Checked?
    case OwingFlush => at.MustFlush?
  }

  /** The threads at a place. */
  function Those(threads: map<ThreadId, At>, p: Place): set<ThreadId>
  {
    set t | t in threads && IsAt(threads[t], p)
  }

  function Flag(b: bool): nat { if b then 1 else 0 }

  lemma CardWithout(a: set<ThreadId>, t: ThreadId)
    ensures |a - {t}| == |a| - Flag(t in a)
  {
    if t !in a {
      assert a - {t} == a;
    }
  }

  lemma CountStep(threads: map<ThreadId, At>, threads': map<ThreadId, At>, t: ThreadId, p: Place)
    requires t in threads && t in threads' && threads' == threads[t := threads'[t]]
    ensures |Those(threads', p)| == |Those(threads, p)| - Flag(IsAt(threads[t], p)) + Flag(IsAt(threads'[t], p))
  {
    var before, after := Those(threads, p), Those(threads', p);
    assert before - {t} == after - {t};
    CardWithout(before, t);
    CardWithout(after, t);
  }

  function Debtors(s: System): set<ThreadId>
  {
    Those(s.threads, OwingFlush)
  }

  /** A step that works the queue off: an accepted flush, or a completion of at least one byte. */
  predicate Works(s: System, a: Step)
  {
    Enabled(s, a) && ((a.DoFlush? && a.accepted) || (a.Completion? && a.n > 0))
  }

  ghost function Measure(s: System): nat
    requires Flows(s)
  {
    2 * |Backlog(s.send)| + |Debtors(s)|
  }

  lemma OneThreadMoves(s: System, a: Step)
    requires Flows(s) && Enabled(s, a)
    ensures var s' := Do(s, a); a.t in s'.threads && s'.threads == s.threads[a.t := s'.threads[a.t]]
  {
  }

  lemma DebtorsStep(s: System, a: Step)
    requires Flows(s) && Works(s, a)
    ensures |Debtors(Do(s, a))| == |Debtors(s)| + (if a.DoFlush? then -1 else 1)
  {
    OneThreadMoves(s, a);
    CountStep(s.threads, Do(s, a).threads, a.t, OwingFlush);
  }

  lemma WorkDecreases(s: System, a: Step)
    requires Flows(s) && Works(s, a)
    ensures Flows(Do(s, a)) && Measure(Do(s, a)) < Measure(s)
    ensures a.Completion? ==> |Backlog(Do(s, a).send)| == |Backlog(s.send)| - a.n
  {
    DoKeepsFlow(s, a);
    if a.DoFlush? {
      FlushKeeps(s.send, true);
    } else {
      CompleteKeeps(s.send, a.n);
    }
    DebtorsStep(s, a);
  }

  ghost predicate AllWork(s: System, steps: seq<Step>)
    requires Flows(s)
    decreases |steps|
  {
    steps == [] || (Works(s, steps[0]) && (DoKeepsFlow(s, steps[0]); AllWork(Do(s, steps[0]), steps[1..])))
  }

  /** Once no one sends any more, every run of flushes and completions is short, and when none of
      them is possible any more, nothing is left to send. (The precondition on threads says that
      some thread is there to take a completion.) */
  lemma {:induction false} QueueDrains(s: System, steps: seq<Step>)
    requires Flows(s) && Awake(s) && !s.faulty && AllWork(s, steps)
    requires exists t <- s.threads :: s.threads[t] == Idle || s.threads[t] == MustFlush
    ensures |steps| <= Measure(s)
    ensures var s' := Interleave(s, steps);
            && Flows(s') && !s'.faulty
            && ((forall a :: !Works(s', a)) ==> Backlog(s'.send) == [] && s'.completed == Stream(s'.accepted))
    decreases |steps|
  {
    if steps == [] {
      if Backlog(s.send) != [] {
        if FlushOwed(s) {
          var t :| t in s.threads && s.threads[t] == MustFlush;
          assert Works(s, DoFlush(t, true));
        } else {
          var t :| t in s.threads && (s.threads[t] == Idle || s.threads[t] == MustFlush);
          assert Works(s, Completion(t, 1));
        }
      } else {
        assert s.completed + [] == s.completed;
      }
    } else {
      WorkDecreases(s, steps[0]);
      DoKeepsAwake(s, steps[0]);
      assert Do(s, steps[0]).threads[steps[0].t] in {Idle, MustFlush};
      QueueDrains(Do(s, steps[0]), steps[1..]);
    }
  }

  // ---- Backpressure ---------------------------------------------------------------------------

  function Waiting(s: System): set<ThreadId>
  {
    Those(s.threads, PastCheck)
  }

  predicate Small(at: At, limit: nat)
  {
    at.Entered? || at.Checked? ==> |Wire(at.m)| <= limit
  }

  /** `k` packets of `limit` bytes. */
  function Times(limit: nat, k: nat): nat
  {
    if k == 0 then 0 else limit + Times(limit, k - 1)
  }

  lemma TimesIsProduct(limit: nat, k: nat)
    ensures Times(limit, k) == limit * k
  {
  }

  lemma {:induction false} TimesMonotone(limit: nat, j: nat, k: nat)
    requires j <= k
    ensures Times(limit, j) <= Times(limit, k)
  {
    if j < k {
      TimesMonotone(limit, j, k - 1);
    }
  }

  /** Each thread past the unlocked check can still add one packet. */
  ghost predicate Bounded(s: System, limit: nat)
  {
    && (forall t <- s.threads :: Small(s.threads[t], limit))
    && s.send.pendingTotal + Times(limit, |Waiting(s)|) <= MAX_PENDING_BYTES + Times(limit, |s.threads|)
  }

  lemma SubsetCard<T>(a: set<T>, b: set<T>)
    requires a <= b
    ensures |a| <= |b|
  {
    assert b == a + (b - a);
  }

  /** How a step changes the number of threads past the check. */
  lemma WaitingStep(s: System, a: Step)
    requires Flows(s) && Enabled(s, a)
    ensures var s' := Do(s, a);
            && s'.threads.Keys == s.threads.Keys
            && |Waiting(s')| == |Waiting(s)| - Flag(a.Queue?)
                              + Flag(a.Check? && s.send.pendingTotal <= MAX_PENDING_BYTES)
  {
    OneThreadMoves(s, a);
    CountStep(s.threads, Do(s, a).threads, a.t, PastCheck);
  }

  lemma WaitingAtMostAll(s: System)
    ensures |Waiting(s)| <= |s.threads|
  {
    assert |s.threads| == |s.threads.Keys|;
    SubsetCard(Waiting(s), s.threads.Keys);
  }

  lemma SameKeysSameSize(m: map<ThreadId, At>, m': map<ThreadId, At>)
    requires m.Keys == m'.Keys
    ensures |m| == |m'|
  {
    assert |m| == |m.Keys| && |m'| == |m'.Keys|;
  }

  lemma TotalStep(s: System, a: Step)
    requires Flows(s) && Enabled(s, a)
    ensures Do(s, a).send.pendingTotal <= s.send.pendingTotal + (if a.Queue? then |Wire(s.threads[a.t].m)| else 0)
  {
    match a
    case Queue(t) => EnqueueKeeps(s.send, Wire(s.threads[t].m));
    case DoFlush(t, accepted) => FlushKeeps(s.send, accepted);
    case _ =>
  }

  lemma StepKeepsSmall(s: System, a: Step, limit: nat)
    requires Flows(s) && Enabled(s, a) && (a.Begin? ==> |Wire(a.m)| <= limit)
    requires forall t <- s.threads :: Small(s.threads[t], limit)
    ensures forall t <- Do(s, a).threads :: Small(Do(s, a).threads[t], limit)
  {
    assert Small(s.threads[a.t], limit);
  }

  lemma DoKeepsBound(s: System, a: Step, limit: nat)
    requires Flows(s) && Bounded(s, limit) && (a.Begin? ==> |Wire(a.m)| <= limit)
    ensures Bounded(Do(s, a), limit) && Do(s, a).threads.Keys == s.threads.Keys
  {
    if Enabled(s, a) {
      var s' := Do(s, a);
      assert Small(s.threads[a.t], limit);
      StepKeepsSmall(s, a, limit);
      WaitingStep(s, a);
      TotalStep(s, a);
      SameKeysSameSize(s.threads, s'.threads);
      if a.Check? && s.send.pendingTotal <= MAX_PENDING_BYTES {
        WaitingAtMostAll(s');
        TimesMonotone(limit, |Waiting(s')|, |s.threads|);
      }
    }
  }

  lemma {:induction false} BoundPersists(s: System, steps: seq<Step>, limit: nat)
    requires Flows(s) && Bounded(s, limit)
    requires forall i :: 0 <= i < |steps| && steps[i].Begin? ==> |Wire(steps[i].m)| <= limit
    ensures Bounded(Interleave(s, steps), limit) && Interleave(s, steps).threads.Keys == s.threads.Keys
    decreases |steps|
  {
    if steps != [] {
      DoKeepsFlow(s, steps[0]);
      DoKeepsBound(s, steps[0], limit);
      forall i | 0 <= i < |steps[1..]| && steps[1..][i].Begin? ensures |Wire(steps[1..][i].m)| <= limit {
        assert steps[1..][i] == steps[i + 1];
      }
      BoundPersists(Do(s, steps[0]), steps[1..], limit);
    }
  }

  /** With packets of at most `limit` bytes, the pending total never exceeds its limit by more than
      one packet for each thread. */
  lemma BackpressureBound(capacity: nat, threads: set<ThreadId>, steps: seq<Step>, limit: nat)
    requires capacity > 0
    requires forall i :: 0 <= i < |steps| && steps[i].Begin? ==> |Wire(steps[i].m)| <= limit
    ensures var s := Interleave(Init(capacity, threads), steps);
            && s.send.pendingTotal == TotalOf(s.send.pending)
            && s.send.pendingTotal <= MAX_PENDING_BYTES + limit * |threads|
  {
    InitOk(capacity, threads, limit);
    var s := Interleave(Init(capacity, threads), steps);
    FifoAndLossless(Init(capacity, threads), steps);
    BoundPersists(Init(capacity, threads), steps, limit);
    assert |s.threads| == |s.threads.Keys| == |threads|;
    TimesIsProduct(limit, |threads|);
  }

  /** A session starts flowing, awake and within bounds. */
  lemma InitOk(capacity: nat, threads: set<ThreadId>, limit: nat)
    requires capacity > 0
    ensures Awake(Init(capacity, threads)) && Bounded(Init(capacity, threads), limit)
    ensures Init(capacity, threads).threads.Keys == threads
  {
    var s := Init(capacity, threads);
    assert Remainders([]) == [];
    assert Waiting(s) == {};
  }
}
