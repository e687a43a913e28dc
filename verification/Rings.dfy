/** The ring buffer as a value: what CircleBufferQueue and ExternalCircleBufferQueue
    hold between two calls, and what each call does to it.

    The classes in CircleBufferQueue.dfy are proved to act on their array exactly as
    the functions here act on `slots`; the lemmas here then say what that means for
    the byte queue the ring stands for. */
module Rings {

  type Byte = b: int | 0 <= b < 256

  /** A run of consecutive slots, as `std::span` over the buffer. */
  datatype Span = Span(offset: nat, length: nat)

  /** Index `i` of a ring of `cap` slots, for an `i` that has gone round at most once. */
  function Wrap(cap: nat, i: nat): (r: nat)
    requires i < 2 * cap
    ensures r < cap
  {
    if i < cap then i else i - cap
  }

  lemma TwiceAtLeast(q: nat, cap: nat)
    requires q >= 2
    ensures q * cap >= 2 * cap
  {
    assert q * cap == 2 * cap + (q - 2) * cap;
  }

  /** The source writes the same index as a remainder. */
  lemma WrapIsMod(cap: nat, i: nat)
    requires i < 2 * cap
    ensures i % cap == Wrap(cap, i)
  {
    var q := i / cap;
    assert i == q * cap + i % cap;
    if q >= 2 {
      TwiceAtLeast(q, cap);
    }
  }

  /** How far slot `j` lies after slot `start`, going round. */
  function Distance(cap: nat, start: nat, j: nat): nat
    requires start < cap && j < cap
  {
    if start <= j then j - start else j + cap - start
  }

  /** `slots` after `data` was copied into it from slot `start` on, going round at the end. */
  function Splice(slots: seq<Byte>, start: nat, data: seq<Byte>): (r: seq<Byte>)
    requires start < |slots| && |data| <= |slots|
    ensures |r| == |slots|
  {
    seq(|slots|, j requires 0 <= j < |slots| =>
      var d := Distance(|slots|, start, j);
      if d < |data| then data[d] else slots[j])
  }

  /** The one or two spans that cover `n` slots from `start` on. */
  function SpansFrom(cap: nat, start: nat, n: nat): seq<Span>
    requires start < cap && n <= cap
  {
    var first := if n <= cap - start then n else cap - start;
    if n > first then [Span(start, first), Span(0, n - first)] else [Span(start, first)]
  }

  /** The slots that a list of spans names, in order. */
  function Positions(spans: seq<Span>): seq<nat>
  {
    if spans == [] then []
    else seq(spans[0].length, i requires 0 <= i => spans[0].offset + i) + Positions(spans[1..])
  }

  datatype Ring = Ring(slots: seq<Byte>, head: nat, tail: nat, size: nat)
  {
    ghost predicate Valid()
    {
      && head < |slots| && tail < |slots| && size <= |slots|
      && head == Wrap(|slots|, tail + size)
    }

    function Free(): nat
      requires size <= |slots|
    {
      |slots| - size
    }

    /** The byte queue this ring stands for. */
    function Contents(): (c: seq<Byte>)
      requires tail < |slots| && size <= |slots|
      ensures |c| == size
    {
      seq(size, i requires 0 <= i < size => slots[Wrap(|slots|, tail + i)])
    }

    /** CommitWrite, and AllocateWrite apart from the spans it returns. */
    function Advance(n: nat): Ring
      requires Valid()
    {
      if Free() < n then this
      else this.(head := Wrap(|slots|, head + n), size := size + n)
    }

    function Write(data: seq<Byte>): Ring
      requires Valid()
    {
      if Free() < |data| then this
      else Fill(data).Advance(|data|)
    }

    /** Bytes stored into the free slots through GetWriteableBuffers' spans. */
    function Fill(data: seq<Byte>): Ring
      requires Valid() && |data| <= Free()
    {
      this.(slots := Splice(slots, head, data))
    }

    /** Consume, and Pop apart from the bytes it returns. */
    function Consume(n: nat): Ring
      requires Valid()
    {
      if size < n then this
      else this.(tail := Wrap(|slots|, tail + n), size := size - n)
    }

    function Clear(): Ring
      requires Valid()
    {
      this.(head := 0, tail := 0, size := 0)
    }

    function ReadSpans(): seq<Span>
      requires Valid()
    {
      if size == 0 then [] else SpansFrom(|slots|, tail, size)
    }

    function WriteableSpans(): seq<Span>
      requires Valid()
    {
      if Free() == 0 then [] else SpansFrom(|slots|, head, Free())
    }
  }

  // ---- Splice ------------------------------------------------------------------

  /** Copying two pieces one behind the other is copying their concatenation. */
  lemma SpliceExtend(s: seq<Byte>, a: nat, d1: seq<Byte>, d2: seq<Byte>)
    requires a < |s| && |d1| + |d2| <= |s|
    ensures Splice(Splice(s, a, d1), Wrap(|s|, a + |d1|), d2) == Splice(s, a, d1 + d2)
  {
  }

  lemma SpliceNothing(s: seq<Byte>, a: nat)
    requires a < |s|
    ensures Splice(s, a, []) == s
  {
  }

  /** A copy that does not reach the end of the buffer is one flat memcpy. */
  lemma SpliceFlat(s: seq<Byte>, a: nat, d: seq<Byte>)
    requires a < |s| && a + |d| <= |s|
    ensures Splice(s, a, d) == s[..a] + d + s[a + |d|..]
  {
  }

  // ---- What each operation does to the queue -----------------------------------

  lemma AdvanceContents(r: Ring, n: nat)
    requires r.Valid()
    ensures r.Advance(n).Valid()
    ensures n <= r.Free() ==> r.Advance(n).Contents()[..r.size] == r.Contents()
  {
  }

  /** Filling the free slots does not touch the queue. */
  lemma FillContents(r: Ring, data: seq<Byte>)
    requires r.Valid() && |data| <= r.Free()
    ensures r.Fill(data).Valid()
    ensures r.Fill(data).Contents() == r.Contents()
  {
    var f := r.Fill(data);
    forall i | 0 <= i < r.size ensures f.Contents()[i] == r.Contents()[i] {
      var j := Wrap(|r.slots|, r.tail + i);
      assert Distance(|r.slots|, r.head, j) >= r.Free();
    }
  }

  /** Filling the free slots and committing the first `n` of them appends those bytes. */
  lemma FillThenAdvance(r: Ring, data: seq<Byte>, n: nat)
    requires r.Valid() && n <= |data| <= r.Free()
    ensures r.Fill(data).Advance(n).Valid()
    ensures r.Fill(data).Advance(n).Contents() == r.Contents() + data[..n]
  {
    var f := r.Fill(data);
    FillContents(r, data);
    forall i | 0 <= i < r.size + n
      ensures f.Advance(n).Contents()[i] == (r.Contents() + data[..n])[i]
    {
      var j := Wrap(|r.slots|, r.tail + i);
      if i < r.size {
        assert f.Contents()[i] == r.Contents()[i];
      } else {
        assert Distance(|r.slots|, r.head, j) == i - r.size;
      }
    }
  }

  lemma WriteContents(r: Ring, data: seq<Byte>)
    requires r.Valid()
    ensures r.Write(data).Valid()
    ensures r.Write(data).tail == r.tail && |r.Write(data).slots| == |r.slots|
    ensures |data| <= r.Free() ==> r.Write(data).size == r.size + |data|
    ensures |data| <= r.Free() ==> r.Write(data).Contents() == r.Contents() + data
    ensures |data| > r.Free() ==> r.Write(data) == r
  {
    if |data| <= r.Free() {
      FillThenAdvance(r, data, |data|);
      assert data[..|data|] == data;
    }
  }

  lemma ConsumeContents(r: Ring, n: nat)
    requires r.Valid()
    ensures r.Consume(n).Valid()
    ensures n <= r.size ==> r.Consume(n).Contents() == r.Contents()[n..]
    ensures n > r.size ==> r.Consume(n) == r
  {
    if n <= r.size {
      forall i | 0 <= i < r.size - n ensures r.Consume(n).Contents()[i] == r.Contents()[n..][i] {
        assert Wrap(|r.slots|, Wrap(|r.slots|, r.tail + n) + i) == Wrap(|r.slots|, r.tail + (n + i));
      }
    }
  }

  /** Committing appends whatever bytes lie in the slots after the head. */
  lemma AdvanceAppends(r: Ring, n: nat)
    requires r.Valid() && n <= r.Free()
    ensures r.Advance(n).Contents() == r.Contents() + Run(r.slots, r.head, n)
  {
    forall i | 0 <= i < r.size + n
      ensures r.Advance(n).Contents()[i] == (r.Contents() + Run(r.slots, r.head, n))[i]
    {
      if i >= r.size {
        assert Wrap(|r.slots|, r.tail + i) == Wrap(|r.slots|, r.head + (i - r.size));
      }
    }
  }

  /** The `n` bytes from slot `start` on, going round. */
  function Run(slots: seq<Byte>, start: nat, n: nat): (r: seq<Byte>)
    requires start < |slots| && n <= |slots|
    ensures |r| == n
  {
    seq(n, i requires 0 <= i < n => slots[Wrap(|slots|, start + i)])
  }

  // ---- Spans -------------------------------------------------------------------

  lemma SpanPositions(cap: nat, start: nat, n: nat)
    requires start < cap && n <= cap
    ensures |Positions(SpansFrom(cap, start, n))| == n
    ensures forall k :: 0 <= k < n ==> Positions(SpansFrom(cap, start, n))[k] == Wrap(cap, start + k)
  {
    var spans := SpansFrom(cap, start, n);
    assert Positions(spans[1..]) == if |spans| == 1 then []
                                    else seq(spans[1].length, i requires 0 <= i => spans[1].offset + i) by {
      if |spans| == 2 {
        assert Positions(spans[1..][1..]) == [];
      }
    }
  }

  /** The first `n` bytes of the queue lie in the slots after the tail. */
  lemma RunIsContents(r: Ring, n: nat)
    requires r.Valid() && n <= r.size
    ensures Run(r.slots, r.tail, n) == r.Contents()[..n]
  {
  }

  /** GetReadBuffers: the spans, read one after the other, are the queue. */
  lemma ReadSpansShowContents(r: Ring)
    requires r.Valid()
    ensures var ps := Positions(r.ReadSpans());
            && |ps| == |r.Contents()|
            && forall k :: 0 <= k < |ps| ==> ps[k] < |r.slots| && r.slots[ps[k]] == r.Contents()[k]
  {
    if r.size > 0 {
      SpanPositions(|r.slots|, r.tail, r.size);
    }
  }

  /** Slot `j` holds a byte of the queue. */
  predicate Readable(r: Ring, j: nat)
    requires r.Valid() && j < |r.slots|
  {
    Distance(|r.slots|, r.tail, j) < r.size
  }

  /** GetWriteableBuffers: the spans name every slot that holds no queued byte, each once. */
  lemma WriteableSpansTileFree(r: Ring)
    requires r.Valid()
    ensures var ps := Positions(r.WriteableSpans());
            && |ps| == r.Free()
            && (forall k :: 0 <= k < |ps| ==> ps[k] < |r.slots| && !Readable(r, ps[k]))
            && (forall j: nat :: j < |r.slots| && !Readable(r, j) ==> j in ps)
            && (forall k, l :: 0 <= k < l < |ps| ==> ps[k] != ps[l])
  {
    var ps := Positions(r.WriteableSpans());
    if r.Free() > 0 {
      SpanPositions(|r.slots|, r.head, r.Free());
    }
    forall j: nat | j < |r.slots| && !Readable(r, j) ensures j in ps {
      assert ps[Distance(|r.slots|, r.tail, j) - r.size] == j;
    }
  }

  // ---- Every sequence of operations acts as on a bounded queue --------------------

  /** A call on the buffer. `Reserve` is AllocateWrite followed by storing `data` through the
      spans it returned; `Receive` is GetWriteableBuffers, the kernel storing `data` (cut to
      the free space), then CommitWrite of `n` of those bytes; `Overcommit` is a CommitWrite
      of more than is free; `Gather` is GetReadBuffers and reading through the spans. */
  datatype Op =
    | WriteOp(data: seq<Byte>)
    | PopOp(n: nat)
    | PeekOp(n: nat)
    | GatherOp
    | CanReadOp
    | CanWriteOp
    | ReserveOp(data: seq<Byte>)
    | ReceiveOp(data: seq<Byte>, n: nat)
    | OvercommitOp(n: nat)
    | ConsumeOp(n: nat)
    | ClearOp

  datatype Reply = Reply(ok: bool, bytes: seq<Byte>) | Size(n: nat)

  function Min(a: nat, b: nat): nat { if a <= b then a else b }

  function QueueStep(cap: nat, q: seq<Byte>, op: Op): (r: (seq<Byte>, Reply))
    requires |q| <= cap
    ensures |r.0| <= cap
  {
    match op
    case WriteOp(data) => if cap - |q| < |data| then (q, Reply(false, [])) else (q + data, Reply(true, []))
    case ReserveOp(data) => if cap - |q| < |data| then (q, Reply(false, [])) else (q + data, Reply(true, []))
    case PopOp(n) => if |q| < n then (q, Reply(false, [])) else (q[n..], Reply(true, q[..n]))
    case PeekOp(n) => if |q| < n then (q, Reply(false, [])) else (q, Reply(true, q[..n]))
    case GatherOp => (q, Reply(true, q))
    case CanReadOp => (q, Size(|q|))
    case CanWriteOp => (q, Size(cap - |q|))
    case ReceiveOp(data, n) => (q + data[..Min(n, Min(|data|, cap - |q|))], Reply(true, []))
    case OvercommitOp(n) => (q, Reply(false, []))
    case ConsumeOp(n) => if |q| < n then (q, Reply(false, [])) else (q[n..], Reply(true, []))
    case ClearOp => ([], Reply(true, []))
  }

  /** The bytes in the given slots. */
  function BytesAt(slots: seq<Byte>, ps: seq<nat>): seq<Byte>
  {
    seq(|ps|, k requires 0 <= k < |ps| => if ps[k] < |slots| then slots[ps[k]] else 0)
  }

  function RingStep(r: Ring, op: Op): (Ring, Reply)
    requires r.Valid()
  {
    match op
    case WriteOp(data) => (r.Write(data), Reply(|data| <= r.Free(), []))
    case ReserveOp(data) =>
      if r.Free() < |data| then (r, Reply(false, []))
      else var a := r.Advance(|data|); (a.(slots := Splice(a.slots, r.head, data)), Reply(true, []))
    case PopOp(n) => (r.Consume(n), if n <= r.size then Reply(true, Run(r.slots, r.tail, n)) else Reply(false, []))
    case PeekOp(n) => (r, if n <= r.size then Reply(true, Run(r.slots, r.tail, n)) else Reply(false, []))
    case GatherOp => (r, Reply(true, BytesAt(r.slots, Positions(r.ReadSpans()))))
    case CanReadOp => (r, Size(r.size))
    case CanWriteOp => (r, Size(r.Free()))
    case ReceiveOp(data, n) =>
      var k := Min(|data|, r.Free());
      (r.Fill(data[..k]).Advance(Min(n, k)), Reply(true, []))
    case OvercommitOp(n) => (r.Advance(r.Free() + 1 + n), Reply(false, []))
    case ConsumeOp(n) => (r.Consume(n), Reply(n <= r.size, []))
    case ClearOp => (r.Clear(), Reply(true, []))
  }

  lemma ReceiveContents(r: Ring, data: seq<Byte>, k: nat, n: nat)
    requires r.Valid() && n <= k <= r.Free() && k <= |data|
    ensures r.Fill(data[..k]).Advance(n).Valid()
    ensures r.Fill(data[..k]).Advance(n).Contents() == r.Contents() + data[..n]
  {
    FillThenAdvance(r, data[..k], n);
    assert data[..k][..n] == data[..n];
  }

  ghost predicate Refines(r: Ring, op: Op)
    requires r.Valid()
  {
    var (r', reply) := RingStep(r, op);
    && r'.Valid() && |r'.slots| == |r.slots|
    && (r'.Contents(), reply) == QueueStep(|r.slots|, r.Contents(), op)
  }

  lemma AppendRefines(r: Ring, op: Op)
    requires r.Valid() && (op.WriteOp? || op.ReserveOp?)
    ensures Refines(r, op)
  {
    WriteContents(r, op.data);
  }

  lemma ReceiveRefines(r: Ring, data: seq<Byte>, n: nat)
    requires r.Valid()
    ensures Refines(r, ReceiveOp(data, n))
  {
    ReceiveContents(r, data, Min(|data|, r.Free()), Min(n, Min(|data|, r.Free())));
  }

  lemma RemoveRefines(r: Ring, op: Op)
    requires r.Valid() && (op.PopOp? || op.PeekOp? || op.ConsumeOp?)
    ensures Refines(r, op)
  {
    ConsumeContents(r, op.n);
    if op.n <= r.size {
      RunIsContents(r, op.n);
    }
  }

  lemma GatherRefines(r: Ring)
    requires r.Valid()
    ensures Refines(r, GatherOp)
  {
    ReadSpansShowContents(r);
    assert BytesAt(r.slots, Positions(r.ReadSpans())) == r.Contents();
  }

  lemma StepRefines(r: Ring, op: Op)
    requires r.Valid()
    ensures var (r', reply) := RingStep(r, op);
            && r'.Valid() && |r'.slots| == |r.slots|
            && (r'.Contents(), reply) == QueueStep(|r.slots|, r.Contents(), op)
  {
    assert Refines(r, op) by {
      match op
      case WriteOp(_) => AppendRefines(r, op);
      case ReserveOp(_) => AppendRefines(r, op);
      case ReceiveOp(data, n) => ReceiveRefines(r, data, n);
      case PopOp(_) => RemoveRefines(r, op);
      case PeekOp(_) => RemoveRefines(r, op);
      case ConsumeOp(_) => RemoveRefines(r, op);
      case GatherOp => GatherRefines(r);
      case _ =>
    }
  }

  function QueueReplies(cap: nat, q: seq<Byte>, ops: seq<Op>): seq<Reply>
    requires |q| <= cap
    decreases |ops|
  {
    if ops == [] then []
    else var (q', reply) := QueueStep(cap, q, ops[0]); [reply] + QueueReplies(cap, q', ops[1..])
  }

  ghost function RingReplies(r: Ring, ops: seq<Op>): seq<Reply>
    requires r.Valid()
    decreases |ops|
  {
    if ops == [] then []
    else
      var (r', reply) := RingStep(r, ops[0]);
      StepRefines(r, ops[0]);
      [reply] + RingReplies(r', ops[1..])
  }

  /** No caller can tell the ring from a bounded byte queue by what it reads back. */
  lemma {:induction false} RingRefinesQueue(r: Ring, ops: seq<Op>)
    requires r.Valid()
    ensures RingReplies(r, ops) == QueueReplies(|r.slots|, r.Contents(), ops)
    decreases |ops|
  {
    if ops != [] {
      StepRefines(r, ops[0]);
      RingRefinesQueue(RingStep(r, ops[0]).0, ops[1..]);
    }
  }
}
