/** The ticketed multi-session benchmark (FastPortBenchmark/LatencyBenchmarkRunner.cpp), one step per
    atomic operation, lock section or message sent.

    The main thread primes every session, waits for the warmup to end, switches to the measured phase,
    primes every session again and waits. Each session's packet handler, which runs one response at a
    time, counts the response and draws the next ticket. Requests of a session are answered in order,
    once each; there is no stop request, lost connection or timeout, and a sleeping main thread is woken
    by a notification only. */
module BenchmarkTickets {

  /** A request carries the phase it was drawn in and its ticket, its request id. */
  datatype Request = Request(measured: bool, ticket: nat)

  /** A recorded latency: the request whose send time and payload the session held when the sample was
      taken, and the request the response answers. */
  datatype Sample = Sample(stamp: Request, response: Request)

  datatype Handler =
    | Idle
    | Got(r: Request)                       // before it reads runningMeasured
    | CountWarmup(r: Request)               // before completedWarmup.fetch_add
    | AddSample(r: Request)                 // before the sample section
    | CountMeasured(r: Request)             // before completedMeasured.fetch_add
    | Draw(measured: bool, done: nat)       // before sendNext draws a ticket
    | Stamp(r: Request)                     // holds a ticket; before SendTimeNs and PayloadIndex are stored
    | Send(r: Request)                      // before SendMessage
    | Notify(measured: bool, done: nat)     // before doneCv.notify_all

  datatype Session = Session(
    wire: seq<Request>,     // sent and not yet delivered back as a response
    handler: Handler,
    stamp: Request)         // what SendTimeNs and PayloadIndex were last stored for

  datatype MainAt =
    | Loop(measured: bool, i: nat)              // before sendNext for session i
    | MainStamp(i: nat, r: Request)
    | MainSend(i: nat, r: Request)
    | WaitFor(measured: bool, asleep: bool)
    | Switch                                    // before runningMeasured.store(true)
    | Finished

  /** The two atomic counters of a phase, and its target. */
  datatype Phase = Phase(target: nat, next: nat, completed: nat)

  datatype Books = Books(
    warmup: Phase,
    measured: Phase,
    samples: multiset<Sample>,
    sent: nat)                  // measured requests handed to SendMessage

  datatype State = State(
    books: Books,
    runningMeasured: bool,
    main: MainAt,
    sessions: seq<Session>)

  datatype Step = MainStep | Deliver(i: nat) | HandlerStep(i: nat)

  function PhaseOf(b: Books, measured: bool): Phase { if measured then b.measured else b.warmup }

  function Limit(s: State, measured: bool): nat { PhaseOf(s.books, measured).target }
  function Next(s: State, measured: bool): nat { PhaseOf(s.books, measured).next }
  function Done(s: State, measured: bool): nat { PhaseOf(s.books, measured).completed }

  function SetPhase(b: Books, measured: bool, p: Phase): Books
  {
    if measured then b.(measured := p) else b.(warmup := p)
  }

  /** nextWarmup.fetch_add(1) or nextMeasured.fetch_add(1). */
  function DrawTicket(s: State, measured: bool): State
  {
    var p := PhaseOf(s.books, measured);
    s.(books := SetPhase(s.books, measured, p.(next := p.next + 1)))
  }

  /** completedWarmup.fetch_add(1) or completedMeasured.fetch_add(1). */
  function CountOne(s: State, measured: bool): State
  {
    var p := PhaseOf(s.books, measured);
    s.(books := SetPhase(s.books, measured, p.(completed := p.completed + 1)))
  }

  function SetSession(s: State, i: nat, x: Session): State
    requires i < |s.sessions|
  {
    s.(sessions := s.sessions[i := x])
  }

  // ---- Steps ------------------------------------------------------------------------------

  /** SendMessage on session `i`. */
  function Sent(s: State, i: nat, x: Session, r: Request): State
    requires i < |s.sessions|
  {
    SetSession(s, i, x.(wire := x.wire + [r])).(books := s.books.(sent := s.books.sent + if r.measured then 1 else 0))
  }

  function MainDo(s: State): State
  {
    match s.main
    case Loop(m, i) =>
      if i >= |s.sessions| then s.(main := WaitFor(m, false))
      else
        var ticket := Next(s, m);
        var s1 := DrawTicket(s, m);
        if ticket >= Limit(s, m) then s1.(main := Loop(m, i + 1))
        else s1.(main := MainStamp(i, Request(m, ticket)))
    case MainStamp(i, r) =>
      if i >= |s.sessions| then s
      else SetSession(s, i, s.sessions[i].(stamp := r)).(main := MainSend(i, r))
    case MainSend(i, r) =>
      if i >= |s.sessions| then s
      else Sent(s, i, s.sessions[i], r).(main := Loop(r.measured, i + 1))
    case WaitFor(m, asleep) =>
      if asleep then s
      else if Done(s, m) < Limit(s, m) then s.(main := WaitFor(m, true))
      else s.(main := if m then Finished else Switch)
    case Switch => s.(runningMeasured := true, main := Loop(true, 0))
    case Finished => s
  }

  function HandlerDo(s: State, i: nat): State
    requires i < |s.sessions|
  {
    var x := s.sessions[i];
    match x.handler
    case Idle => s
    case Got(r) => SetSession(s, i, x.(handler := if s.runningMeasured then AddSample(r) else CountWarmup(r)))
    case CountWarmup(r) =>
      SetSession(CountOne(s, false), i, x.(handler := Draw(false, Done(s, false) + 1)))
    case AddSample(r) =>
      SetSession(s, i, x.(handler := CountMeasured(r))).(
        books := s.books.(samples := s.books.samples + multiset{Sample(x.stamp, r)}))
    case CountMeasured(r) =>
      SetSession(CountOne(s, true), i, x.(handler := Draw(true, Done(s, true) + 1)))
    case Draw(m, done) =>
      var ticket := Next(s, m);
      var s1 := DrawTicket(s, m);
      if ticket < Limit(s, m) then SetSession(s1, i, x.(handler := Stamp(Request(m, ticket))))
      else SetSession(s1, i, x.(handler := if done >= Limit(s, m) then Notify(m, done) else Idle))
    case Stamp(r) => SetSession(s, i, x.(stamp := r, handler := Send(r)))
    case Send(r) => Sent(s, i, x.(handler := Idle), r)
    case Notify(_, _) =>
      SetSession(s, i, x.(handler := Idle)).(main := if s.main.WaitFor? then WaitFor(s.main.measured, false) else s.main)
  }

  predicate Enabled(s: State, a: Step)
  {
    match a
    case MainStep => !s.main.Finished? && !(s.main.WaitFor? && s.main.asleep)
    case Deliver(i) => i < |s.sessions| && s.sessions[i].handler.Idle? && s.sessions[i].wire != []
    case HandlerStep(i) => i < |s.sessions| && !s.sessions[i].handler.Idle?
  }

  /** One step; a step that is not enabled does nothing. */
  function Do(s: State, a: Step): State
  {
    if !Enabled(s, a) then s else
    match a
    case MainStep => MainDo(s)
    case Deliver(i) =>
      var x := s.sessions[i];
      SetSession(s, i, x.(wire := x.wire[1..], handler := Got(x.wire[0])))
    case HandlerStep(i) => HandlerDo(s, i)
  }

  function Run(s: State, steps: seq<Step>): State
    decreases |steps|
  {
    if steps == [] then s else Run(Do(s, steps[0]), steps[1..])
  }

  function Init(sessionCount: nat, warmupTarget: nat, totalTarget: nat): State
  {
    State(Books(Phase(warmupTarget, 0, 0), Phase(totalTarget, 0, 0), multiset{}, 0), false,
          if warmupTarget > 0 then Loop(false, 0) else Switch,
          seq(sessionCount, _ => Session([], Idle, Request(false, 0))))
  }

  // ---- Sums over the sessions ---------------------------------------------------------------

  datatype What =
    | Pending(measured: bool)    // requests drawn and not yet counted as completed
    | Unsent                     // measured requests held and not yet sent
    | Uncounted                  // samples taken and not yet counted
    | Carrying(ticket: nat)      // this measured ticket, until its sample is taken
    | Work                       // steps still ahead
    | Drawing(measured: bool)    // handlers about to call sendNext

  function Flag(b: bool): nat { if b then 1 else 0 }

  function WorkOf(h: Handler): nat
  {
    match h
    case Idle => 0
    case Got(_) => 7
    case CountWarmup(_) => 6
    case AddSample(_) => 6
    case CountMeasured(_) => 5
    case Draw(_, _) => 4
    case Stamp(_) => 10
    case Send(_) => 9
    case Notify(_, _) => 3
  }

  predicate Holds(h: Handler, measured: bool)
  {
    (h.Got? || h.CountWarmup? || h.AddSample? || h.CountMeasured? || h.Stamp? || h.Send?) && h.r.measured == measured
  }

  predicate Unsampled(h: Handler, ticket: nat)
  {
    (h.Got? || h.AddSample? || h.Stamp? || h.Send?) && h.r == Request(true, ticket)
  }

  function Weight(x: Session, w: What): nat
  {
    match w
    case Pending(m) => Flag(x.wire != [] && x.wire[0].measured == m) + Flag(Holds(x.handler, m))
    case Unsent => Flag((x.handler.Stamp? || x.handler.Send?) && x.handler.r.measured)
    case Uncounted => Flag(x.handler.CountMeasured?)
    case Carrying(q) => Flag(x.wire != [] && x.wire[0] == Request(true, q)) + Flag(Unsampled(x.handler, q))
    case Work => 8 * |x.wire| + WorkOf(x.handler)
    case Drawing(m) => Flag(x.handler.Draw? && x.handler.measured == m)
  }

  function Tally(ss: seq<Session>, w: What): nat
  {
    if ss == [] then 0 else Weight(ss[0], w) + Tally(ss[1..], w)
  }

  lemma {:induction false} TallyUpdate(ss: seq<Session>, i: nat, x: Session, w: What)
    requires i < |ss|
    ensures Tally(ss[i := x], w) == Tally(ss, w) - Weight(ss[i], w) + Weight(x, w)
    decreases |ss|
  {
    if i == 0 {
      assert ss[0 := x][1..] == ss[1..];
    } else {
      assert ss[i := x][1..] == ss[1..][i - 1 := x];
      TallyUpdate(ss[1..], i - 1, x, w);
    }
  }

  lemma {:induction false} TallyCovers(ss: seq<Session>, i: nat, w: What)
    requires i < |ss|
    ensures Weight(ss[i], w) <= Tally(ss, w)
    decreases |ss|
  {
    if i > 0 {
      TallyCovers(ss[1..], i - 1, w);
    }
  }

  lemma {:induction false} TallyFinds(ss: seq<Session>, w: What) returns (i: nat)
    requires Tally(ss, w) > 0
    ensures i < |ss| && Weight(ss[i], w) > 0
    decreases |ss|
  {
    if Weight(ss[0], w) > 0 {
      i := 0;
    } else {
      i := TallyFinds(ss[1..], w);
      i := i + 1;
    }
  }

  // ---- Invariant ------------------------------------------------------------------------------

  function Min(a: nat, b: nat): nat { if a < b then a else b }

  /** Tickets drawn below the limit. */
  function DrawnOf(p: Phase): nat { Min(p.next, p.target) }
  function Drawn(s: State, measured: bool): nat { DrawnOf(PhaseOf(s.books, measured)) }

  predicate MainHolds(p: MainAt, measured: bool) { (p.MainStamp? || p.MainSend?) && p.r.measured == measured }

  function MainWeight(p: MainAt, w: What): nat
  {
    match w
    case Pending(m) => Flag(MainHolds(p, m))
    case Unsent => Flag(MainHolds(p, true))
    case Uncounted => 0
    case Carrying(q) => Flag((p.MainStamp? || p.MainSend?) && p.r == Request(true, q))
    case Work => 0
    case Drawing(_) => 0
  }

  function Total(s: State, w: What): nat { Tally(s.sessions, w) + MainWeight(s.main, w) }

  /** The sums the counters speak of. */
  predicate Summed(w: What) { !w.Work? && !w.Drawing? }

  /** What the counters say a sum should be; of the work ahead they say nothing. */
  function Owed(b: Books, w: What): int
    requires Summed(w)
  {
    match w
    case Pending(m) => DrawnOf(PhaseOf(b, m)) - PhaseOf(b, m).completed
    case Unsent => DrawnOf(b.measured) - b.sent
    case Uncounted => |b.samples| - b.measured.completed
    case Carrying(q) => Flag(q < DrawnOf(b.measured)) - b.samples[Sample(Request(true, q), Request(true, q))]
  }

  predicate Balanced(s: State, w: What)
    requires Summed(w)
  {
    Owed(s.books, w) == Total(s, w)
  }

  predicate Counts(s: State)
  {
    Balanced(s, Pending(false)) && Balanced(s, Pending(true)) && Balanced(s, Unsent) && Balanced(s, Uncounted)
  }

  predicate SampleOk(x: Sample) { x.stamp == x.response && x.response.measured }

  predicate MeasuredPhase(p: MainAt)
  {
    match p
    case Loop(m, _) => m
    case MainStamp(_, r) => r.measured
    case MainSend(_, r) => r.measured
    case WaitFor(m, _) => m
    case Switch => false
    case Finished => true
  }

  predicate MainOk(s: State)
  {
    && (s.runningMeasured <==> MeasuredPhase(s.main))
    && (s.runningMeasured || s.main.Switch? ==> s.books.warmup.completed >= s.books.warmup.target)
    && (!s.runningMeasured ==> s.books.measured.next == 0)
    && (s.main.Loop? ==> s.main.i <= |s.sessions|)
    && (s.main.MainStamp? || s.main.MainSend? ==> s.main.i < |s.sessions|)
    && (s.main.MainSend? ==> s.sessions[s.main.i].stamp == s.main.r)
    && (s.main.Finished? ==> s.books.measured.completed >= s.books.measured.target)
  }

  /** The main thread has yet to prime session `i`, in this phase. */
  predicate Ahead(p: MainAt, i: nat) { (p.Loop? || p.MainStamp? || p.MainSend?) && p.i <= i }

  /** It has primed it and not yet seen the phase end. */
  predicate Primed(p: MainAt, i: nat, measured: bool)
  {
    || (p.Loop? && p.measured == measured && i < p.i)
    || ((p.MainStamp? || p.MainSend?) && p.r.measured == measured && i < p.i)
    || (p.WaitFor? && p.measured == measured)
  }

  predicate Alive(x: Session, measured: bool)
  {
    Weight(x, Pending(measured)) > 0 || (x.handler.Draw? && x.handler.measured == measured)
  }

  /** A handler between two responses that will draw no ticket of the measured phase. */
  predicate AtRest(h: Handler) { h.Idle? || h.Notify? || (h.Draw? && !h.measured) }

  /** A session has at most one request outstanding, and its stamp is that request's. */
  predicate OneAtATime(x: Session)
  {
    && |x.wire| <= 1
    && (x.wire != [] ==> AtRest(x.handler) && x.stamp == x.wire[0] && (x.wire[0].measured || x.handler.Idle?))
    && (x.handler.Got? || x.handler.AddSample? || x.handler.Send? ==> x.stamp == x.handler.r)
    && (x.handler.CountWarmup? ==> !x.handler.r.measured)
    && (x.handler.AddSample? || x.handler.CountMeasured? ==> x.handler.r.measured)
  }

  predicate SessionOk(s: State, i: nat)
    requires i < |s.sessions|
  {
    var x := s.sessions[i];
    && OneAtATime(x)
    && (Alive(x, true) ==> s.runningMeasured)
    && (x.handler.Draw? || x.handler.Notify? ==> x.handler.done <= Done(s, x.handler.measured))
    && (x.handler.Notify? ==> x.handler.done >= Limit(s, x.handler.measured))
    && (Ahead(s.main, i) ==> x.wire == [] && AtRest(x.handler) && (!s.runningMeasured ==> x.handler.Idle?))
    && (forall m :: Primed(s.main, i, m) && Next(s, m) < Limit(s, m) ==> Alive(x, m))
  }

  /** The handler is about to notify. */
  predicate Owes(s: State, i: nat, measured: bool)
    requires i < |s.sessions|
  {
    var h := s.sessions[i].handler;
    h.Notify? || (h.Draw? && h.measured == measured && h.done >= Limit(s, measured))
  }

  /** A main thread that sleeps although its phase is over will be woken. */
  ghost predicate WakeOk(s: State)
  {
    s.main.WaitFor? && s.main.asleep && Done(s, s.main.measured) >= Limit(s, s.main.measured)
    ==> exists i :: 0 <= i < |s.sessions| && Owes(s, i, s.main.measured)
  }

  ghost predicate SessionsOk(s: State)
  {
    forall i :: 0 <= i < |s.sessions| ==> SessionOk(s, i)
  }

  ghost predicate Inv(s: State)
  {
    Counts(s) && MainOk(s) && SessionsOk(s) && WakeOk(s) && forall x <- s.books.samples :: SampleOk(x)
  }

  // ---- Every step keeps it ----------------------------------------------------------------------

  lemma WarmupSpent(s: State)
    requires Counts(s) && s.books.warmup.completed >= s.books.warmup.target
    ensures Total(s, Pending(false)) == 0 && s.books.warmup.next >= s.books.warmup.target
  {
  }

  /** Once the measured phase is on, no session has a warmup request left. */
  lemma NoWarmupLeft(s: State, i: nat)
    requires Inv(s) && s.books.warmup.completed >= s.books.warmup.target && i < |s.sessions|
    ensures Weight(s.sessions[i], Pending(false)) == 0 && s.books.warmup.next >= s.books.warmup.target
  {
    WarmupSpent(s);
    TallyCovers(s.sessions, i, Pending(false));
  }

  /** All that a step of session `i` needs to know. */
  predicate Locally(s: State, i: nat)
  {
    && i < |s.sessions| && SessionOk(s, i)
    && (s.runningMeasured ==>
          Weight(s.sessions[i], Pending(false)) == 0 && s.books.warmup.next >= s.books.warmup.target)
  }

  lemma InvLocally(s: State, i: nat)
    requires Inv(s) && i < |s.sessions|
    ensures Locally(s, i)
  {
    assert SessionOk(s, i);
    if s.runningMeasured {
      NoWarmupLeft(s, i);
    }
  }

  predicate Responding(h: Handler) { h.Got? || h.CountWarmup? || h.AddSample? || h.CountMeasured? }
  predicate Sending(h: Handler) { h.Stamp? || h.Send? || h.Notify? }

  /** A step that changes session `i` alone changes a sum by what the session's share changes. */
  lemma StepBalances(s: State, s': State, i: nat, w: What)
    requires Summed(w) && Balanced(s, w) && i < |s.sessions| && |s'.sessions| == |s.sessions|
    requires s'.sessions == s.sessions[i := s'.sessions[i]]
    requires Owed(s'.books, w) - Owed(s.books, w) ==
             Weight(s'.sessions[i], w) - Weight(s.sessions[i], w) + MainWeight(s'.main, w) - MainWeight(s.main, w)
    ensures Balanced(s', w)
  {
    TallyUpdate(s.sessions, i, s'.sessions[i], w);
  }

  lemma DeliverBalances(s: State, i: nat, w: What)
    requires Summed(w) && Locally(s, i) && Balanced(s, w) && Enabled(s, Deliver(i))
    ensures Balanced(Do(s, Deliver(i)), w)
  {
    StepBalances(s, Do(s, Deliver(i)), i, w);
  }

  /** The share of a request that is held and not yet sent. */
  function HeldWeight(r: Request, w: What): nat
    requires Summed(w)
  {
    match w
    case Pending(m) => Flag(r.measured == m)
    case Unsent => Flag(r.measured)
    case Uncounted => 0
    case Carrying(q) => Flag(r == Request(true, q))
  }

  /** A ticket below the limit adds its share to every sum, one above adds nothing. */
  lemma TicketOwed(s: State, m: bool, w: What)
    requires Summed(w)
    ensures Owed(DrawTicket(s, m).books, w)
         == Owed(s.books, w) + if Next(s, m) < Limit(s, m) then HeldWeight(Request(m, Next(s, m)), w) else 0
  {
  }

  lemma DrawBalances(s: State, i: nat, w: What)
    requires Summed(w) && Locally(s, i) && Balanced(s, w) && s.sessions[i].handler.Draw?
    ensures Balanced(HandlerDo(s, i), w)
  {
    var s', m := HandlerDo(s, i), s.sessions[i].handler.measured;
    TicketOwed(s, m, w);
    assert s'.books == DrawTicket(s, m).books;
    DrawGains(s, i, w);
    StepBalances(s, s', i, w);
  }

  lemma DrawGains(s: State, i: nat, w: What)
    requires Summed(w) && Locally(s, i) && s.sessions[i].handler.Draw?
    ensures var m := s.sessions[i].handler.measured;
            var gain := if Next(s, m) < Limit(s, m) then HeldWeight(Request(m, Next(s, m)), w) else 0;
            Weight(HandlerDo(s, i).sessions[i], w) == Weight(s.sessions[i], w) + gain
  {
  }

  lemma CountBalances(s: State, i: nat, w: What)
    requires Summed(w) && Locally(s, i) && Balanced(s, w)
    requires s.sessions[i].handler.CountWarmup? || s.sessions[i].handler.CountMeasured?
    ensures Balanced(HandlerDo(s, i), w)
  {
    StepBalances(s, HandlerDo(s, i), i, w);
  }

  lemma SampleBalances(s: State, i: nat, w: What)
    requires Summed(w) && Locally(s, i) && Balanced(s, w)
    requires s.sessions[i].handler.Got? || s.sessions[i].handler.AddSample?
    ensures Balanced(HandlerDo(s, i), w)
  {
    StepBalances(s, HandlerDo(s, i), i, w);
  }

  lemma SendBalances(s: State, i: nat, w: What)
    requires Summed(w) && Locally(s, i) && Balanced(s, w) && s.sessions[i].handler.Send?
    ensures Balanced(HandlerDo(s, i), w)
  {
    StepBalances(s, HandlerDo(s, i), i, w);
  }

  lemma StampBalances(s: State, i: nat, w: What)
    requires Summed(w) && Locally(s, i) && Balanced(s, w)
    requires s.sessions[i].handler.Stamp? || s.sessions[i].handler.Notify?
    ensures Balanced(HandlerDo(s, i), w)
  {
    StepBalances(s, HandlerDo(s, i), i, w);
  }

  lemma MainDrawBalances(s: State, w: What)
    requires Summed(w) && Balanced(s, w) && s.main.Loop?
    ensures Balanced(MainDo(s), w)
  {
    var s', m := MainDo(s), s.main.measured;
    if s.main.i < |s.sessions| {
      TicketOwed(s, m, w);
      assert s'.books == DrawTicket(s, m).books;
      assert MainWeight(s'.main, w) == if Next(s, m) < Limit(s, m) then HeldWeight(Request(m, Next(s, m)), w) else 0;
    }
  }

  lemma MainWaitBalances(s: State, w: What)
    requires Summed(w) && Balanced(s, w) && (s.main.WaitFor? || s.main.Switch? || s.main.Finished?)
    ensures Balanced(MainDo(s), w)
  {
  }

  lemma MainSendBalances(s: State, w: What)
    requires Summed(w) && Balanced(s, w) && (s.main.MainStamp? || s.main.MainSend?)
    requires MainOk(s) && OneAtATime(s.sessions[s.main.i]) && s.sessions[s.main.i].wire == []
    ensures Balanced(MainDo(s), w)
  {
    StepBalances(s, MainDo(s), s.main.i, w);
  }

  /** Every step keeps every sum. */
  lemma DoBalances(s: State, a: Step, w: What)
    requires Summed(w) && Inv(s) && Balanced(s, w)
    ensures Balanced(Do(s, a), w)
  {
    if Enabled(s, a) {
      match a
      case MainStep =>
        if s.main.MainStamp? || s.main.MainSend? {
          assert SessionOk(s, s.main.i);
          MainSendBalances(s, w);
        } else if s.main.Loop? {
          MainDrawBalances(s, w);
        } else {
          MainWaitBalances(s, w);
        }
      case Deliver(i) =>
        InvLocally(s, i);
        DeliverBalances(s, i, w);
      case HandlerStep(i) =>
        InvLocally(s, i);
        var h := s.sessions[i].handler;
        if h.Draw? {
          DrawBalances(s, i, w);
        } else if h.Send? {
          SendBalances(s, i, w);
        } else if Sending(h) {
          StampBalances(s, i, w);
        } else if h.CountWarmup? || h.CountMeasured? {
          CountBalances(s, i, w);
        } else {
          SampleBalances(s, i, w);
        }
    }
  }

  lemma DeliverKeepsMover(s: State, i: nat)
    requires Inv(s) && Enabled(s, Deliver(i))
    ensures SessionOk(Do(s, Deliver(i)), i)
  {
    assert SessionOk(s, i);
  }

  lemma ResponseKeepsMover(s: State, i: nat)
    requires Locally(s, i) && Responding(s.sessions[i].handler)
    ensures SessionOk(HandlerDo(s, i), i)
  {
  }

  lemma DrawKeepsMover(s: State, i: nat)
    requires Locally(s, i) && s.sessions[i].handler.Draw?
    ensures SessionOk(HandlerDo(s, i), i)
  {
  }

  lemma SendKeepsMover(s: State, i: nat)
    requires Locally(s, i) && s.sessions[i].handler.Send?
    ensures SessionOk(HandlerDo(s, i), i)
  {
    var x, x' := s.sessions[i], HandlerDo(s, i).sessions[i];
    assert x'.wire == [x.handler.r];
    assert forall m :: Alive(x, m) ==> Alive(x', m);
  }

  lemma StampKeepsMover(s: State, i: nat)
    requires Locally(s, i) && (s.sessions[i].handler.Stamp? || s.sessions[i].handler.Notify?)
    ensures SessionOk(HandlerDo(s, i), i)
  {
    assert forall m :: Alive(s.sessions[i], m) ==> Alive(HandlerDo(s, i).sessions[i], m);
  }

  lemma HandlerKeepsMover(s: State, i: nat)
    requires Inv(s) && Enabled(s, HandlerStep(i))
    ensures SessionOk(HandlerDo(s, i), i)
  {
    InvLocally(s, i);
    var h := s.sessions[i].handler;
    if h.Draw? {
      DrawKeepsMover(s, i);
    } else if h.Send? {
      SendKeepsMover(s, i);
    } else if Sending(h) {
      StampKeepsMover(s, i);
    } else {
      ResponseKeepsMover(s, i);
    }
  }

  /** A step of session `i` moves the shared counters up and nothing of another session. */
  predicate Onward(s: State, s': State, i: nat)
  {
    && i < |s.sessions| == |s'.sessions| && s'.sessions == s.sessions[i := s'.sessions[i]]
    && s'.books.warmup.target == s.books.warmup.target && s'.books.measured.target == s.books.measured.target
    && s.books.warmup.next <= s'.books.warmup.next && s.books.warmup.completed <= s'.books.warmup.completed
    && s.books.measured.next <= s'.books.measured.next && s.books.measured.completed <= s'.books.measured.completed
    && s'.runningMeasured == s.runningMeasured
    && (s'.main == s.main || (s.main.WaitFor? && s'.main == WaitFor(s.main.measured, false)))
  }

  lemma OthersKept(s: State, s': State, i: nat, j: nat)
    requires SessionsOk(s) && Onward(s, s', i) && j < |s.sessions| && j != i
    ensures SessionOk(s', j)
  {
    assert SessionOk(s, j);
  }

  lemma SessionStepOnward(s: State, a: Step)
    requires Enabled(s, a) && !a.MainStep?
    ensures Onward(s, Do(s, a), a.i)
  {
  }

  lemma SessionStepWakes(s: State, a: Step)
    requires Inv(s) && Enabled(s, a) && !a.MainStep?
    ensures WakeOk(Do(s, a))
  {
    var s' := Do(s, a);
    if s'.main.WaitFor? && s'.main.asleep && Done(s', s'.main.measured) >= Limit(s', s'.main.measured) {
      SessionStepOnward(s, a);
      var m := s.main.measured;
      if Done(s, m) >= Limit(s, m) {
        var j :| 0 <= j < |s.sessions| && Owes(s, j, m);
        OwesOnward(s, a, j, m);
      } else {
        LastCountOwes(s, a, m);
      }
    }
  }

  /** A debtor's own step, while the main thread sleeps on: its draw fails. */
  lemma DrawFailsAndOwes(s: State, i: nat, m: bool)
    requires i < |s.sessions| && Owes(s, i, m) && Next(s, m) >= Limit(s, m)
    requires s.main == WaitFor(m, true) == HandlerDo(s, i).main
    ensures Owes(HandlerDo(s, i), i, m)
  {
  }

  lemma OwesOnward(s: State, a: Step, j: nat, m: bool)
    requires Balanced(s, Pending(m)) && Enabled(s, a) && !a.MainStep? && Onward(s, Do(s, a), a.i)
    requires s.main == WaitFor(m, true) == Do(s, a).main && Done(s, m) >= Limit(s, m)
    requires j < |s.sessions| && Owes(s, j, m)
    ensures Owes(Do(s, a), j, m)
  {
    var s' := Do(s, a);
    if j == a.i {
      DrawFailsAndOwes(s, j, m);
    } else {
      assert s'.sessions[j] == s.sessions[j];
    }
  }

  lemma LastCountOwes(s: State, a: Step, m: bool)
    requires Enabled(s, a) && !a.MainStep?
    requires Done(s, m) < Limit(s, m) <= Done(Do(s, a), m)
    ensures Owes(Do(s, a), a.i, m)
  {
  }

  lemma SessionStepSamples(s: State, a: Step)
    requires Enabled(s, a) && !a.MainStep? && OneAtATime(s.sessions[a.i])
    requires forall x <- s.books.samples :: SampleOk(x)
    ensures forall x <- Do(s, a).books.samples :: SampleOk(x)
  {
  }

  lemma MainOkOnward(s: State, a: Step)
    requires MainOk(s) && Enabled(s, a) && !a.MainStep? && SessionOk(s, a.i) && Onward(s, Do(s, a), a.i)
    ensures MainOk(Do(s, a))
  {
  }

  lemma SessionStepKeeps(s: State, a: Step)
    requires Inv(s) && Enabled(s, a) && !a.MainStep?
    ensures SessionsOk(Do(s, a))
  {
    var s' := Do(s, a);
    SessionStepOnward(s, a);
    if a.Deliver? {
      DeliverKeepsMover(s, a.i);
    } else {
      HandlerKeepsMover(s, a.i);
    }
    forall j | 0 <= j < |s'.sessions| ensures SessionOk(s', j) {
      if j != a.i {
        OthersKept(s, s', a.i, j);
      }
    }
  }

  lemma MainDraws(s: State, j: nat)
    requires MainOk(s) && j < |s.sessions| && SessionOk(s, j) && s.main.Loop?
    ensures SessionOk(MainDo(s), j)
  {
  }

  lemma MainSends(s: State, j: nat)
    requires MainOk(s) && j < |s.sessions| && SessionOk(s, j)
    requires s.main.MainStamp? || s.main.MainSend?
    ensures SessionOk(MainDo(s), j)
  {
  }

  lemma MainWaits(s: State, j: nat)
    requires MainOk(s) && j < |s.sessions| && SessionOk(s, j)
    requires s.main.WaitFor? || s.main.Switch? || s.main.Finished?
    requires s.main.Switch? ==> Weight(s.sessions[j], Pending(false)) == 0
    ensures SessionOk(MainDo(s), j)
  {
  }

  lemma MainStepKeeps(s: State)
    requires Inv(s)
    ensures SessionsOk(MainDo(s))
  {
    forall j | 0 <= j < |s.sessions| ensures SessionOk(MainDo(s), j) {
      assert SessionOk(s, j);
      if s.main.Switch? {
        NoWarmupLeft(s, j);
      }
      if s.main.Loop? {
        MainDraws(s, j);
      } else if s.main.MainStamp? || s.main.MainSend? {
        MainSends(s, j);
      } else {
        MainWaits(s, j);
      }
    }
  }

  lemma MainStepOk(s: State)
    requires MainOk(s)
    ensures MainOk(MainDo(s)) && MainDo(s).books.samples == s.books.samples
  {
  }

  lemma MainStepWakes(s: State)
    ensures Enabled(s, MainStep) ==> WakeOk(MainDo(s))
  {
  }

  lemma DoKeepsCounts(s: State, a: Step)
    requires Inv(s)
    ensures Counts(Do(s, a))
  {
    DoBalances(s, a, Pending(false));
    DoBalances(s, a, Pending(true));
    DoBalances(s, a, Unsent);
    DoBalances(s, a, Uncounted);
  }

  lemma DoKeeps(s: State, a: Step)
    requires Inv(s)
    ensures Inv(Do(s, a))
  {
    if Enabled(s, a) {
      DoKeepsCounts(s, a);
      if a.MainStep? {
        MainStepKeeps(s);
        MainStepOk(s);
        MainStepWakes(s);
      } else {
        SessionStepKeeps(s, a);
        SessionStepWakes(s, a);
        assert SessionOk(s, a.i);
        SessionStepSamples(s, a);
        SessionStepOnward(s, a);
        MainOkOnward(s, a);
      }
    }
  }

  lemma {:induction false} RunKeeps(s: State, steps: seq<Step>)
    requires Inv(s)
    ensures Inv(Run(s, steps))
    decreases |steps|
  {
    if steps != [] {
      DoKeeps(s, steps[0]);
      RunKeeps(Do(s, steps[0]), steps[1..]);
    }
  }

  lemma {:induction false} RunKeepsTicket(s: State, steps: seq<Step>, q: nat)
    requires Inv(s) && Balanced(s, Carrying(q))
    ensures Balanced(Run(s, steps), Carrying(q))
    decreases |steps|
  {
    if steps != [] {
      DoKeeps(s, steps[0]);
      DoBalances(s, steps[0], Carrying(q));
      RunKeepsTicket(Do(s, steps[0]), steps[1..], q);
    }
  }

  lemma {:induction false} QuietTally(ss: seq<Session>, w: What)
    requires forall x <- ss :: x.wire == [] && x.handler.Idle?
    ensures Tally(ss, w) == 0
    decreases |ss|
  {
    if ss != [] {
      assert ss[0] in ss;
      QuietTally(ss[1..], w);
    }
  }

  lemma InitOk(sessionCount: nat, warmupTarget: nat, totalTarget: nat)
    ensures var s := Init(sessionCount, warmupTarget, totalTarget); Inv(s) && forall q :: Balanced(s, Carrying(q))
  {
    var s := Init(sessionCount, warmupTarget, totalTarget);
    forall w ensures Tally(s.sessions, w) == 0 {
      QuietTally(s.sessions, w);
    }
    forall q ensures Balanced(s, Carrying(q)) {
      assert Tally(s.sessions, Carrying(q)) == 0;
    }
    assert Tally(s.sessions, Pending(false)) == 0 && Tally(s.sessions, Pending(true)) == 0;
    assert Tally(s.sessions, Unsent) == 0 && Tally(s.sessions, Uncounted) == 0;
  }

  // ---- What it means ----------------------------------------------------------------------------

  /** Under every interleaving: tickets drawn below the limit are completed, in flight or held; a session
      has at most one request outstanding, wire and handler together; every sample answers a measured
      request and reads that request's own send time and payload, and no ticket is sampled twice; and
      neither the requests sent nor the samples exceed the target. The measured phase follows the whole
      warmup, and a handler notifies only once its phase is complete. */
  lemma EveryInterleaving(sessionCount: nat, warmupTarget: nat, totalTarget: nat, steps: seq<Step>)
    ensures var s := Run(Init(sessionCount, warmupTarget, totalTarget), steps);
            && (forall m :: Drawn(s, m) == Done(s, m) + Tally(s.sessions, Pending(m)) + Flag(MainHolds(s.main, m)))
            && (forall x <- s.sessions ::
                  |x.wire| <= 1 && Weight(x, Pending(false)) + Weight(x, Pending(true)) <= 1)
            && (forall x <- s.books.samples :: x.response.measured && x.stamp == x.response && s.books.samples[x] == 1)
            && s.books.sent <= totalTarget && |s.books.samples| <= totalTarget
            && (s.main.Finished? ==> s.books.measured.completed == s.books.sent == |s.books.samples| == totalTarget)
            && (s.runningMeasured ==> s.books.warmup.completed == warmupTarget)
            && (forall x <- s.sessions :: x.handler.Notify? ==> Done(s, x.handler.measured) == Limit(s, x.handler.measured))
  {
    var s0 := Init(sessionCount, warmupTarget, totalTarget);
    var s := Run(s0, steps);
    InitOk(sessionCount, warmupTarget, totalTarget);
    RunKeeps(s0, steps);
    RunKeepsTargets(s0, steps);
    OneOutstanding(s);
    ExactCounts(s);
    NotifiesWhenDone(s);
    NoTicketTwice(s0, steps);
  }

  predicate SameTargets(s: State, s': State)
  {
    s'.books.warmup.target == s.books.warmup.target && s'.books.measured.target == s.books.measured.target
  }

  /** Both targets stay what they were. */
  lemma {:induction false} RunKeepsTargets(s: State, steps: seq<Step>)
    ensures SameTargets(s, Run(s, steps))
    decreases |steps|
  {
    if steps != [] {
      DoKeepsTargets(s, steps[0]);
      RunKeepsTargets(Do(s, steps[0]), steps[1..]);
    }
  }

  lemma DoKeepsTargets(s: State, a: Step)
    ensures SameTargets(s, Do(s, a))
  {
  }

  lemma NoTicketTwice(s0: State, steps: seq<Step>)
    requires Inv(s0) && forall q :: Balanced(s0, Carrying(q))
    ensures forall x <- Run(s0, steps).books.samples :: SampleOk(x) && Run(s0, steps).books.samples[x] == 1
  {
    var s := Run(s0, steps);
    RunKeeps(s0, steps);
    forall x | x in s.books.samples ensures SampleOk(x) && s.books.samples[x] == 1 {
      RunKeepsTicket(s0, steps, x.response.ticket);
      SampledOnce(s, x);
    }
  }

  lemma SampledOnce(s: State, x: Sample)
    requires Inv(s) && Balanced(s, Carrying(x.response.ticket)) && x in s.books.samples
    ensures s.books.samples[x] == 1
  {
    assert SampleOk(x);
    assert x == Sample(Request(true, x.response.ticket), Request(true, x.response.ticket));
  }

  lemma OneOutstanding(s: State)
    requires Inv(s)
    ensures forall x <- s.sessions :: OneAtATime(x)
    ensures forall x <- s.sessions :: |x.wire| <= 1 && Weight(x, Pending(false)) + Weight(x, Pending(true)) <= 1
  {
    forall x | x in s.sessions
      ensures OneAtATime(x) && |x.wire| <= 1 && Weight(x, Pending(false)) + Weight(x, Pending(true)) <= 1
    {
      var i :| 0 <= i < |s.sessions| && s.sessions[i] == x;
      assert SessionOk(s, i);
    }
  }

  lemma NotifiesWhenDone(s: State)
    requires Inv(s)
    ensures s.runningMeasured ==> Done(s, false) == Limit(s, false)
    ensures forall x <- s.sessions :: x.handler.Notify? ==> Done(s, x.handler.measured) == Limit(s, x.handler.measured)
  {
    assert Balanced(s, Pending(true)) && Balanced(s, Pending(false));
    forall x | x in s.sessions && x.handler.Notify? ensures Done(s, x.handler.measured) == Limit(s, x.handler.measured) {
      var i :| 0 <= i < |s.sessions| && s.sessions[i] == x;
      assert SessionOk(s, i);
    }
  }

  lemma ExactCounts(s: State)
    requires Inv(s) && forall x <- s.sessions :: OneAtATime(x)
    ensures forall m :: Drawn(s, m) == Done(s, m) + Tally(s.sessions, Pending(m)) + Flag(MainHolds(s.main, m))
    ensures s.books.sent <= s.books.measured.target && |s.books.samples| <= s.books.measured.target
    ensures s.main.Finished? ==> s.books.measured.completed == s.books.sent == |s.books.samples| == s.books.measured.target
  {
    assert Balanced(s, Pending(true)) && Balanced(s, Pending(false));
    SamplesWithinPending(s.sessions);
  }

  /** A sample that is not counted yet belongs to a request still pending. */
  lemma {:induction false} SamplesWithinPending(ss: seq<Session>)
    requires forall x <- ss :: OneAtATime(x)
    ensures Tally(ss, Uncounted) <= Tally(ss, Pending(true))
    ensures Tally(ss, Unsent) <= Tally(ss, Pending(true))
    decreases |ss|
  {
    if ss != [] {
      assert OneAtATime(ss[0]) by { assert ss[0] in ss; }
      SamplesWithinPending(ss[1..]);
    }
  }

  /** When the benchmark has finished, each ticket from 0 up to the target has been sampled exactly once,
      and no other request ever was. */
  lemma FinishedSamplesEachTicketOnce(sessionCount: nat, warmupTarget: nat, totalTarget: nat, steps: seq<Step>, x: Sample)
    requires Run(Init(sessionCount, warmupTarget, totalTarget), steps).main.Finished?
    ensures var s := Run(Init(sessionCount, warmupTarget, totalTarget), steps);
            s.books.samples[x] == Flag(x.stamp == x.response && x.response.measured && x.response.ticket < totalTarget)
  {
    var s0 := Init(sessionCount, warmupTarget, totalTarget);
    var s := Run(s0, steps);
    InitOk(sessionCount, warmupTarget, totalTarget);
    RunKeeps(s0, steps);
    RunKeepsTargets(s0, steps);
    if SampleOk(x) {
      var q := x.response.ticket;
      RunKeepsTicket(s0, steps, q);
      assert x == Sample(Request(true, q), Request(true, q));
      NothingCarriedAtTheEnd(s, q);
    }
  }

  lemma NothingCarriedAtTheEnd(s: State, q: nat)
    requires Inv(s) && s.main.Finished?
    ensures Total(s, Carrying(q)) == 0 && Drawn(s, true) == Limit(s, true)
  {
    assert Balanced(s, Pending(true));
    if Tally(s.sessions, Carrying(q)) > 0 {
      var i := TallyFinds(s.sessions, Carrying(q));
      TallyCovers(s.sessions, i, Pending(true));
    }
  }

  // ---- One ticket drawn for each session primed and each response ---------------------------

  /** How many sessions the main thread has offered a ticket in a phase. */
  function Offered(s: State, measured: bool): nat
  {
    match s.main
    case Loop(m, i) => if m == measured then i else Before(s, m, measured)
    case MainStamp(i, r) => if r.measured == measured then i + 1 else Before(s, r.measured, measured)
    case MainSend(i, r) => if r.measured == measured then i + 1 else Before(s, r.measured, measured)
    case WaitFor(m, _) => if m == measured then |s.sessions| else Before(s, m, measured)
    case Switch => Before(s, true, measured)
    case Finished => if measured then |s.sessions| else Before(s, true, measured)
  }

  /** All in the warmup, if there is one, before the measured phase `now`; none before its phase comes. */
  function Before(s: State, now: bool, measured: bool): nat
  {
    if now && !measured && s.books.warmup.target > 0 then |s.sessions| else 0
  }

  /** Each session primed and each response counted has drawn one ticket, or its handler is about to. */
  predicate DrawsOk(s: State, measured: bool)
  {
    Next(s, measured) + Tally(s.sessions, Drawing(measured)) == Offered(s, measured) + Done(s, measured)
  }

  lemma MainOffers(s: State, m: bool)
    requires MainOk(s) && DrawsOk(s, m) && Enabled(s, MainStep)
    requires !s.main.MainStamp? && !s.main.MainSend?
    requires s.main.Loop? && !s.main.measured ==> s.books.warmup.target > 0
    requires s.main.WaitFor? && !s.main.measured ==> s.books.warmup.target > 0
    ensures DrawsOk(MainDo(s), m)
  {
  }

  lemma MainHandsOver(s: State, m: bool)
    requires MainOk(s) && DrawsOk(s, m) && (s.main.MainStamp? || s.main.MainSend?)
    ensures DrawsOk(MainDo(s), m)
  {
    TallyUpdate(s.sessions, s.main.i, MainDo(s).sessions[s.main.i], Drawing(m));
  }

  /** The warmup loop runs only if there is a warmup. */
  predicate WarmupWanted(s: State)
  {
    !MeasuredPhase(s.main) && !s.main.Switch? ==> s.books.warmup.target > 0
  }

  lemma WarmupStaysWanted(s: State, a: Step)
    requires WarmupWanted(s)
    ensures WarmupWanted(Do(s, a))
  {
    if Enabled(s, a) && !a.MainStep? {
      SessionStepOnward(s, a);
    }
  }

  lemma SessionDraws(s: State, a: Step, m: bool)
    requires DrawsOk(s, m) && Enabled(s, a) && !a.MainStep? && Onward(s, Do(s, a), a.i)
    ensures DrawsOk(Do(s, a), m)
  {
    var s' := Do(s, a);
    TallyUpdate(s.sessions, a.i, s'.sessions[a.i], Drawing(m));
    SessionDrawsOne(s, a, m);
    assert Offered(s', m) == Offered(s, m);
  }

  /** A step of session `i` draws a ticket exactly as a handler about to draw goes, and counts exactly as one
      comes to be. */
  ghost predicate DrawsOne(s: State, s': State, i: nat, m: bool)
  {
    && i < |s.sessions| == |s'.sessions|
    && Next(s', m) + Weight(s'.sessions[i], Drawing(m)) + Done(s, m)
       == Next(s, m) + Weight(s.sessions[i], Drawing(m)) + Done(s', m)
  }

  lemma HandlerDrawsOne(s: State, i: nat, m: bool)
    requires i < |s.sessions| && (s.sessions[i].handler.Draw? || Responding(s.sessions[i].handler))
    ensures DrawsOne(s, HandlerDo(s, i), i, m)
  {
  }

  lemma SenderDrawsNone(s: State, i: nat, m: bool)
    requires i < |s.sessions| && Sending(s.sessions[i].handler)
    ensures DrawsOne(s, HandlerDo(s, i), i, m)
  {
  }

  lemma SessionDrawsOne(s: State, a: Step, m: bool)
    requires Enabled(s, a) && !a.MainStep?
    ensures DrawsOne(s, Do(s, a), a.i, m)
  {
    if a.HandlerStep? {
      if Sending(s.sessions[a.i].handler) {
        SenderDrawsNone(s, a.i, m);
      } else {
        HandlerDrawsOne(s, a.i, m);
      }
    }
  }

  lemma DoKeepsDraws(s: State, a: Step, m: bool)
    requires Inv(s) && DrawsOk(s, m) && WarmupWanted(s)
    ensures DrawsOk(Do(s, a), m)
  {
    if Enabled(s, a) {
      if !a.MainStep? {
        SessionStepOnward(s, a);
        SessionDraws(s, a, m);
      } else if s.main.MainStamp? || s.main.MainSend? {
        MainHandsOver(s, m);
      } else {
        MainOffers(s, m);
      }
    }
  }

  lemma {:induction false} RunKeepsDraws(s: State, steps: seq<Step>, m: bool)
    requires Inv(s) && DrawsOk(s, m) && WarmupWanted(s)
    ensures DrawsOk(Run(s, steps), m)
    decreases |steps|
  {
    if steps != [] {
      DoKeeps(s, steps[0]);
      DoKeepsDraws(s, steps[0], m);
      WarmupStaysWanted(s, steps[0]);
      RunKeepsDraws(Do(s, steps[0]), steps[1..], m);
    }
  }

  /** sendNext is called once for each session primed and once for each response: at the end, with the
      handlers at rest, exactly as many measured tickets were drawn as there are sessions and targets. */
  lemma TicketsDrawn(sessionCount: nat, warmupTarget: nat, totalTarget: nat, steps: seq<Step>)
    ensures var s := Run(Init(sessionCount, warmupTarget, totalTarget), steps);
            && (forall m :: DrawsOk(s, m))
            && (s.main.Finished? && Tally(s.sessions, Drawing(true)) == 0 ==>
                  s.books.measured.next == |s.sessions| + totalTarget)
  {
    var s0 := Init(sessionCount, warmupTarget, totalTarget);
    InitOk(sessionCount, warmupTarget, totalTarget);
    QuietTally(s0.sessions, Drawing(true));
    QuietTally(s0.sessions, Drawing(false));
    RunKeepsDraws(s0, steps, true);
    RunKeepsDraws(s0, steps, false);
    EveryInterleaving(sessionCount, warmupTarget, totalTarget, steps);
    assert DrawsOk(Run(s0, steps), true) && DrawsOk(Run(s0, steps), false);
  }

  // ---- It finishes --------------------------------------------------------------------------------

  /** A session with something pending, or about to draw, can move. */
  lemma AliveMoves(s: State, i: nat, m: bool) returns (a: Step)
    requires i < |s.sessions| && Alive(s.sessions[i], m)
    ensures Enabled(s, a)
  {
    a := if s.sessions[i].handler.Idle? then Deliver(i) else HandlerStep(i);
  }

  /** Until it finishes some step is always possible: short of the target something is pending, and a
      main thread asleep past the target is owed a notification. */
  lemma NeverStuck(s: State) returns (a: Step)
    requires Inv(s) && s.sessions != [] && !s.main.Finished?
    ensures Enabled(s, a)
  {
    if s.main.WaitFor? && s.main.asleep {
      var m := s.main.measured;
      if Done(s, m) >= Limit(s, m) {
        var i :| 0 <= i < |s.sessions| && Owes(s, i, m);
        a := HandlerStep(i);
      } else if Next(s, m) < Limit(s, m) {
        assert SessionOk(s, 0) && Primed(s.main, 0, m);
        a := AliveMoves(s, 0, m);
      } else {
        assert Balanced(s, Pending(m));
        var i := TallyFinds(s.sessions, Pending(m));
        a := AliveMoves(s, i, m);
      }
    } else {
      a := MainStep;
    }
  }

  /** Steps the main thread still has ahead, `n` sessions in all. */
  function MainWork(p: MainAt, n: nat): int
  {
    match p
    case Finished => 0
    case WaitFor(m, asleep) => (if m then 1 else n + 5) + Flag(!asleep)
    case Loop(m, i) => (if m then 3 else n + 7) + n - i
    case MainStamp(i, r) => (if r.measured then 3 else n + 7) + n - i + 9
    case MainSend(i, r) => (if r.measured then 3 else n + 7) + n - i + 8
    case Switch => n + 4
  }

  function Measure(s: State): int
  {
    12 * (s.books.warmup.target - Drawn(s, false)) + 12 * (s.books.measured.target - Drawn(s, true))
    + Tally(s.sessions, Work) + MainWork(s.main, |s.sessions|)
  }

  lemma MainDrawDecreases(s: State)
    requires MainOk(s) && s.main.Loop?
    ensures Measure(MainDo(s)) < Measure(s)
  {
  }

  lemma MainSendDecreases(s: State)
    requires MainOk(s) && (s.main.MainStamp? || s.main.MainSend?)
    ensures Measure(MainDo(s)) < Measure(s)
  {
    TallyUpdate(s.sessions, s.main.i, MainDo(s).sessions[s.main.i], Work);
  }

  lemma MainWaitDecreases(s: State)
    requires MainOk(s) && Enabled(s, MainStep) && (s.main.WaitFor? || s.main.Switch?)
    ensures Measure(MainDo(s)) < Measure(s)
  {
  }

  /** What a step of session `i` can change of the measure. */
  function Share(s: State, i: nat): int
    requires i < |s.sessions|
  {
    12 * (s.books.warmup.target - Drawn(s, false)) + 12 * (s.books.measured.target - Drawn(s, true))
    + Weight(s.sessions[i], Work) + MainWork(s.main, |s.sessions|)
  }

  lemma DrawShrinks(s: State, i: nat)
    requires i < |s.sessions| && s.sessions[i].handler.Draw?
    ensures Share(HandlerDo(s, i), i) < Share(s, i)
  {
  }

  lemma ResponseShrinks(s: State, i: nat)
    requires i < |s.sessions| && Responding(s.sessions[i].handler)
    ensures Share(HandlerDo(s, i), i) < Share(s, i)
  {
  }

  lemma SendShrinks(s: State, i: nat)
    requires i < |s.sessions| && Sending(s.sessions[i].handler)
    ensures Share(HandlerDo(s, i), i) < Share(s, i)
  {
  }

  lemma SessionDecreases(s: State, a: Step)
    requires Enabled(s, a) && !a.MainStep? && Onward(s, Do(s, a), a.i)
    ensures Measure(Do(s, a)) < Measure(s)
  {
    var s', i := Do(s, a), a.i;
    TallyUpdate(s.sessions, i, s'.sessions[i], Work);
    assert Share(s', i) < Share(s, i) by {
      if a.HandlerStep? {
        if s.sessions[i].handler.Draw? {
          DrawShrinks(s, i);
        } else if Sending(s.sessions[i].handler) {
          SendShrinks(s, i);
        } else {
          ResponseShrinks(s, i);
        }
      }
    }
  }

  lemma DoDecreases(s: State, a: Step)
    requires Inv(s) && Enabled(s, a)
    ensures Measure(Do(s, a)) < Measure(s) && |Do(s, a).sessions| == |s.sessions|
  {
    if a.MainStep? {
      match s.main
      case Loop(_, _) => MainDrawDecreases(s);
      case MainStamp(_, _) => MainSendDecreases(s);
      case MainSend(_, _) => MainSendDecreases(s);
      case _ => MainWaitDecreases(s);
    } else {
      SessionStepOnward(s, a);
      SessionDecreases(s, a);
    }
  }

  ghost predicate AllEnabled(s: State, steps: seq<Step>)
    decreases |steps|
  {
    steps == [] || (Enabled(s, steps[0]) && AllEnabled(Do(s, steps[0]), steps[1..]))
  }

  lemma {:induction false} RunsAreShort(s: State, steps: seq<Step>)
    requires Inv(s) && AllEnabled(s, steps)
    ensures |steps| <= Measure(s) - Measure(Run(s, steps))
    ensures |Run(s, steps).sessions| == |s.sessions|
    decreases |steps|
  {
    if steps != [] {
      var a := steps[0];
      DoDecreases(s, a);
      DoKeeps(s, a);
      RunsAreShort(Do(s, a), steps[1..]);
    }
  }

  /** With at least one session the benchmark terminates however its threads are scheduled: the steps
      of a run are bounded by the targets and the number of sessions, and a run that cannot go on has
      finished. */
  lemma AlwaysFinishes(sessionCount: nat, warmupTarget: nat, totalTarget: nat, steps: seq<Step>)
    requires sessionCount > 0 && AllEnabled(Init(sessionCount, warmupTarget, totalTarget), steps)
    ensures |steps| <= 12 * (warmupTarget + totalTarget) + 2 * sessionCount + 7
    ensures var s := Run(Init(sessionCount, warmupTarget, totalTarget), steps);
            (forall a :: !Enabled(s, a)) ==> s.main.Finished?
  {
    var s0 := Init(sessionCount, warmupTarget, totalTarget);
    var s := Run(s0, steps);
    InitOk(sessionCount, warmupTarget, totalTarget);
    RunKeeps(s0, steps);
    RunsAreShort(s0, steps);
    InitMeasure(sessionCount, warmupTarget, totalTarget);
    MeasureNotNegative(s);
    if !s.main.Finished? {
      var a := NeverStuck(s);
    }
  }

  lemma InitMeasure(sessionCount: nat, warmupTarget: nat, totalTarget: nat)
    ensures Measure(Init(sessionCount, warmupTarget, totalTarget))
         <= 12 * (warmupTarget + totalTarget) + 2 * sessionCount + 7
  {
    QuietTally(Init(sessionCount, warmupTarget, totalTarget).sessions, Work);
  }

  lemma MeasureNotNegative(s: State)
    requires MainOk(s)
    ensures Measure(s) >= 0
  {
  }
}
