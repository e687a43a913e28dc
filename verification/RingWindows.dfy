/** Zero-copy I/O: what may happen to a ring while the kernel works on spans of it. */
module RingWindows {
  import opened Rings

  /** A store into a slot outside a stretch leaves the stretch alone. */
  lemma StoreOutsideRun(slots: seq<Byte>, start: nat, n: nat, slot: nat, b: Byte)
    requires start < |slots| && n <= |slots| && slot < |slots|
    requires Distance(|slots|, start, slot) >= n
    ensures Run(slots[slot := b], start, n) == Run(slots, start, n)
  {
    forall i | 0 <= i < n ensures Run(slots[slot := b], start, n)[i] == Run(slots, start, n)[i] {
      assert Distance(|slots|, start, Wrap(|slots|, start + i)) == i;
    }
  }

  /** A send in flight: the kernel reads the first `window` bytes of the ring, while producers
      call in and may at any time store into any slot that was handed out to them. */
  datatype Sending = Sending(ring: Ring, window: nat, handed: set<nat>)

  datatype Producer =
    | Write(data: seq<Byte>)
    | Allocate(n: nat)
    | GetWriteable
    | Commit(n: nat)
    | Store(slot: nat, b: Byte)   // a step only if the slot was handed out

  ghost function Produce(s: Sending, step: Producer): Sending
    requires s.ring.Valid()
  {
    var r := s.ring;
    match step
    case Write(data) => s.(ring := r.Write(data))
    case Allocate(n) =>
      if r.Free() < n then s
      else s.(ring := r.Advance(n), handed := s.handed + SlotSet(SpansFrom(|r.slots|, r.head, n)))
    case GetWriteable => s.(handed := s.handed + SlotSet(r.WriteableSpans()))
    case Commit(n) => s.(ring := r.Advance(n))
    case Store(slot, b) =>
      if slot in s.handed && slot < |r.slots| then s.(ring := r.(slots := r.slots[slot := b])) else s
  }

  ghost function SlotSet(spans: seq<Span>): set<nat>
  {
    set p | p in Positions(spans)
  }

  ghost predicate SendInv(s: Sending)
  {
    && s.ring.Valid() && s.window <= s.ring.size
    && forall p <- s.handed :: p < |s.ring.slots| && Distance(|s.ring.slots|, s.ring.tail, p) >= s.window
  }

  /** What the kernel reads through the spans it was given for the send. */
  ghost function Window(s: Sending): seq<Byte>
    requires SendInv(s)
  {
    Run(s.ring.slots, s.ring.tail, s.window)
  }

  lemma FillKeepsRun(r: Ring, data: seq<Byte>, n: nat)
    requires r.Valid() && |data| <= r.Free() && n <= r.size
    ensures Run(r.Fill(data).slots, r.tail, n) == Run(r.slots, r.tail, n)
  {
    FillContents(r, data);
    RunIsContents(r, n);
    RunIsContents(r.Fill(data), n);
  }

  /** The slots AllocateWrite hands out lie behind every queued byte. */
  lemma AllocatedBehindQueue(r: Ring, n: nat)
    requires r.Valid() && n <= r.Free()
    ensures forall p <- SlotSet(SpansFrom(|r.slots|, r.head, n)) :: p < |r.slots| && !Readable(r, p)
  {
    SpanPositions(|r.slots|, r.head, n);
  }

  /** A step keeps the window: its place and its bytes. */
  ghost predicate KeepsWindow(s: Sending, s': Sending)
    requires SendInv(s)
  {
    SendInv(s') && s'.window == s.window && s'.ring.tail == s.ring.tail && Window(s') == Window(s)
  }

  lemma WriteKeepsWindow(s: Sending, data: seq<Byte>)
    requires SendInv(s)
    ensures KeepsWindow(s, Produce(s, Write(data)))
  {
    if |data| <= s.ring.Free() {
      FillKeepsRun(s.ring, data, s.window);
    }
  }

  lemma HandOutKeepsWindow(s: Sending, step: Producer)
    requires SendInv(s) && (step.Allocate? || step.GetWriteable? || step.Commit?)
    ensures KeepsWindow(s, Produce(s, step))
  {
    if step.Allocate? && step.n <= s.ring.Free() {
      AllocatedBehindQueue(s.ring, step.n);
    }
    WriteableSpansTileFree(s.ring);
  }

  lemma StoreKeepsWindow(s: Sending, slot: nat, b: Byte)
    requires SendInv(s)
    ensures KeepsWindow(s, Produce(s, Store(slot, b)))
  {
    if slot in s.handed {
      StoreOutsideRun(s.ring.slots, s.ring.tail, s.window, slot, b);
    }
  }

  lemma ProduceKeepsWindow(s: Sending, step: Producer)
    requires SendInv(s)
    ensures SendInv(Produce(s, step))
    ensures Produce(s, step).window == s.window && Produce(s, step).ring.tail == s.ring.tail
    ensures Window(Produce(s, step)) == Window(s)
  {
    assert KeepsWindow(s, Produce(s, step)) by {
      match step
      case Write(data) => WriteKeepsWindow(s, data);
      case Store(slot, b) => StoreKeepsWindow(s, slot, b);
      case _ => HandOutKeepsWindow(s, step);
    }
  }

  ghost function ProduceAll(s: Sending, steps: seq<Producer>): Sending
    requires SendInv(s)
    decreases |steps|
  {
    if steps == [] then s
    else
      ProduceKeepsWindow(s, steps[0]);
      ProduceAll(Produce(s, steps[0]), steps[1..])
  }

  /** From the moment spans are taken for a send until the matching Consume, no producer
      call and no store through handed-out spans changes a byte of the window. */
  lemma {:induction false} SendWindowStable(s: Sending, steps: seq<Producer>)
    requires SendInv(s)
    ensures SendInv(ProduceAll(s, steps)) && ProduceAll(s, steps).ring.tail == s.ring.tail
    ensures Window(ProduceAll(s, steps)) == Window(s)
    decreases |steps|
  {
    if steps != [] {
      ProduceKeepsWindow(s, steps[0]);
      SendWindowStable(Produce(s, steps[0]), steps[1..]);
    }
  }

  /** A receive in flight: the kernel may store into the slots that were free when the spans
      were taken, while the consumer pops, peeks and consumes. `taken` counts consumed bytes. */
  datatype Receiving = Receiving(ring: Ring, window: set<nat>, taken: nat)

  datatype Consumer =
    | Remove(n: nat)                    // Pop and Consume
    | Look(n: nat)                      // Peek
    | KernelStore(slot: nat, b: Byte)   // a step only if the slot lies in the window

  ghost function Drain(s: Receiving, step: Consumer): Receiving
    requires s.ring.Valid()
  {
    match step
    case Remove(n) => if n <= s.ring.size then s.(ring := s.ring.Consume(n), taken := s.taken + n) else s
    case Look(n) => s
    case KernelStore(slot, b) =>
      if slot in s.window && slot < |s.ring.slots|
      then s.(ring := s.ring.(slots := s.ring.slots[slot := b])) else s
  }

  ghost predicate RecvInv(s: Receiving)
  {
    && s.ring.Valid()
    && forall p <- s.window :: p < |s.ring.slots| && !Readable(s.ring, p)
  }

  /** `s` was reached from `first` with the spans of `first` still out. */
  ghost predicate Drained(first: Ring, s: Receiving)
  {
    && first.Valid() && RecvInv(s)
    && s.ring.head == first.head && |s.ring.slots| == |first.slots|
    && s.taken + s.ring.size == first.size
    && s.ring.Contents() == first.Contents()[s.taken..]
  }

  lemma KernelStoreKeepsQueue(first: Ring, s: Receiving, slot: nat, b: Byte)
    requires Drained(first, s) && slot in s.window
    ensures Drained(first, Drain(s, KernelStore(slot, b)))
  {
    StoreOutsideRun(s.ring.slots, s.ring.tail, s.ring.size, slot, b);
    RunIsContents(s.ring, s.ring.size);
    RunIsContents(Drain(s, KernelStore(slot, b)).ring, s.ring.size);
  }

  lemma DrainKeepsWindow(first: Ring, s: Receiving, step: Consumer)
    requires Drained(first, s)
    ensures Drained(first, Drain(s, step))
  {
    match step
    case Remove(n) => ConsumeContents(s.ring, n);
    case Look(n) =>
    case KernelStore(slot, b) =>
      if slot in s.window {
        KernelStoreKeepsQueue(first, s, slot, b);
      }
  }

  ghost function DrainAll(first: Ring, s: Receiving, steps: seq<Consumer>): Receiving
    requires Drained(first, s)
    decreases |steps|
  {
    if steps == [] then s
    else
      DrainKeepsWindow(first, s, steps[0]);
      DrainAll(first, Drain(s, steps[0]), steps[1..])
  }

  lemma {:induction false} DrainAllKeepsWindow(first: Ring, s: Receiving, steps: seq<Consumer>)
    requires Drained(first, s)
    ensures Drained(first, DrainAll(first, s, steps))
    decreases |steps|
  {
    if steps != [] {
      DrainKeepsWindow(first, s, steps[0]);
      DrainAllKeepsWindow(first, Drain(s, steps[0]), steps[1..]);
    }
  }

  /** Taking the spans of a receive: the window is every free slot, and nothing is drained yet. */
  ghost function StartReceiving(r: Ring): (s: Receiving)
    requires r.Valid()
    ensures Drained(r, s)
  {
    WriteableSpansTileFree(r);
    Receiving(r, SlotSet(r.WriteableSpans()), 0)
  }

  /** From the moment spans are taken for a receive until the matching CommitWrite, the kernel
      never stores over an unread byte: whatever it stores and however the consumer drains the
      ring meanwhile, the queue is the old one without what was consumed, and CommitWrite(n)
      then appends the bytes that lie in the first `n` slots of the spans. */
  lemma RecvWindowStable(r: Ring, steps: seq<Consumer>, n: nat)
    requires r.Valid() && n <= r.Free()
    ensures var last := DrainAll(r, StartReceiving(r), steps);
            && last.taken <= r.size
            && last.ring.Valid() && last.ring.Contents() == r.Contents()[last.taken..]
            && |last.ring.slots| == |r.slots| && n <= last.ring.Free()
            && last.ring.Advance(n).Valid()
            && last.ring.Advance(n).Contents()
               == r.Contents()[last.taken..] + Run(last.ring.slots, r.head, n)
  {
    DrainAllKeepsWindow(r, StartReceiving(r), steps);
    AdvanceAppends(DrainAll(r, StartReceiving(r), steps).ring, n);
  }
}
