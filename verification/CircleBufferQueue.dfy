/** The ring buffers as objects over memory (LibCommons/CircleBufferQueue.ixx,
    LibCommons/ExternalCircleBufferQueue.ixx).

    The two source classes differ in who owns the memory and in the lock; here both are one
    class over a stretch `[base, base + capacity)` of an array, with one constructor each.
    A memcpy is a parallel assignment. Offsets in spans count from the start of the stretch. */
module CircleBufferQueues {
  import opened Rings

  class CircleBufferQueue {
    const mem: array<Byte>
    const base: nat
    const capacity: nat
    var head: nat
    var tail: nat
    var size: nat

    ghost predicate Valid()
      reads this, mem
    {
      && base + capacity <= mem.Length
      && View().Valid()
    }

    /** The ring value this object holds. */
    ghost function View(): (r: Ring)
      requires base + capacity <= mem.Length
      reads this, mem
      ensures |r.slots| == capacity
    {
      Ring(mem[base..base + capacity], head, tail, size)
    }

    ghost function Contents(): (c: seq<Byte>)
      requires Valid()
      reads this, mem
      ensures |c| == size
    {
      View().Contents()
    }

    /** Nothing outside this ring's stretch of the memory changed. */
    twostate predicate OnlyMyStretch()
      reads mem
    {
      forall i :: 0 <= i < mem.Length && !(base <= i < base + capacity) ==> mem[i] == old(mem[i])
    }

    constructor Own(capacity: nat)
      requires capacity > 0
      ensures Valid() && fresh(mem) && base == 0 && this.capacity == capacity
      ensures Contents() == [] && tail == 0
    {
      this.mem := new Byte[capacity](_ => 0);
      this.base := 0;
      this.capacity := capacity;
      head, tail, size := 0, 0, 0;
    }

    constructor External(mem: array<Byte>, offset: nat, length: nat)
      requires length > 0 && offset + length <= mem.Length
      ensures Valid() && this.mem == mem && base == offset && capacity == length
      ensures Contents() == [] && tail == 0
    {
      this.mem := mem;
      this.base := offset;
      this.capacity := length;
      head, tail, size := 0, 0, 0;
    }

    /** memcpy of `data` to the slots from `at` on. */
    method Copy(at: nat, data: seq<Byte>)
      requires Valid() && at < capacity && at + |data| <= capacity
      modifies mem
      ensures View().slots == Splice(old(View().slots), at, data)
      ensures OnlyMyStretch()
    {
      ghost var slots := View().slots;
      forall i | 0 <= i < |data| {
        mem[base + at + i] := data[i];
      }
      SpliceFlat(slots, at, data);
      assert View().slots == slots[..at] + data + slots[at + |data|..];
    }

    /** The one or two copies of a write at the head. */
    method CopyAround(data: seq<Byte>)
      requires Valid() && |data| <= capacity - size
      modifies mem
      ensures View().slots == Splice(old(View().slots), head, data)
      ensures OnlyMyStretch()
    {
      ghost var slots := View().slots;
      var firstPart := Min(|data|, capacity - head);
      Copy(head, data[..firstPart]);
      if |data| > firstPart {
        Copy(0, data[firstPart..]);
        SpliceExtend(slots, head, data[..firstPart], data[firstPart..]);
      }
      assert data[..firstPart] + data[firstPart..] == data;
    }

    method Write(data: seq<Byte>) returns (ok: bool)
      requires Valid()
      modifies this`head, this`size, mem
      ensures Valid() && OnlyMyStretch()
      ensures ok == (|data| <= capacity - old(size))
      ensures View() == old(View()).Write(data)
      ensures Contents() == if ok then old(Contents()) + data else old(Contents())
    {
      WriteContents(View(), data);
      ok := |data| <= capacity - size;
      if ok {
        CopyAround(data);
        WrapIsMod(capacity, head + |data|);
        head := (head + |data|) % capacity;
        size := size + |data|;
      }
    }

    /** The bytes Pop and Peek copy out. */
    method CopyOut(n: nat) returns (out: seq<Byte>)
      requires Valid() && n <= size
      ensures out == Contents()[..n]
    {
      var readIndex := tail;
      var firstPart := Min(n, capacity - readIndex);
      out := mem[base + readIndex..base + readIndex + firstPart];
      if n > firstPart {
        out := out + mem[base..base + n - firstPart];
      }
      forall k | 0 <= k < n ensures out[k] == Contents()[k] {
        var slot := Wrap(capacity, tail + k);
        assert Contents()[k] == View().slots[slot] == mem[base + slot];
        assert slot == if k < firstPart then tail + k else k - firstPart;
      }
    }

    method Pop(n: nat) returns (ok: bool, out: seq<Byte>)
      requires Valid()
      modifies this`tail, this`size
      ensures Valid()
      ensures ok == (n <= old(size))
      ensures View() == old(View()).Consume(n)
      ensures ok ==> out == old(Contents())[..n] && Contents() == old(Contents())[n..]
      ensures !ok ==> out == [] && Contents() == old(Contents())
    {
      ConsumeContents(View(), n);
      if size < n {
        return false, [];
      }
      out := CopyOut(n);
      WrapIsMod(capacity, tail + n);
      tail := (tail + n) % capacity;
      size := size - n;
      return true, out;
    }

    method Peek(n: nat) returns (ok: bool, out: seq<Byte>)
      requires Valid()
      ensures ok == (n <= size)
      ensures out == if ok then Contents()[..n] else []
    {
      if size < n {
        return false, [];
      }
      out := CopyOut(n);
      return true, out;
    }

    /** The spans that cover `n` slots from `start` on. */
    method MakeSpans(start: nat, n: nat) returns (spans: seq<Span>)
      requires start < capacity && n <= capacity
      ensures spans == SpansFrom(capacity, start, n)
    {
      var firstPart := Min(n, capacity - start);
      spans := [Span(start, firstPart)];
      if n > firstPart {
        spans := spans + [Span(0, n - firstPart)];
      }
    }

    method GetReadBuffers() returns (n: nat, spans: seq<Span>)
      requires Valid()
      ensures n == size && spans == View().ReadSpans()
      ensures |Positions(spans)| == |Contents()|
      ensures forall k :: 0 <= k < |Positions(spans)| ==>
                Positions(spans)[k] < capacity && View().slots[Positions(spans)[k]] == Contents()[k]
    {
      ReadSpansShowContents(View());
      if size == 0 {
        return 0, [];
      }
      spans := MakeSpans(tail, size);
      return size, spans;
    }

    method AllocateWrite(n: nat) returns (ok: bool, spans: seq<Span>)
      requires Valid()
      modifies this`head, this`size
      ensures Valid()
      ensures ok == (n <= capacity - old(size))
      ensures View() == old(View()).Advance(n)
      ensures spans == if ok then SpansFrom(capacity, old(head), n) else []
    {
      AdvanceContents(View(), n);
      if capacity - size < n {
        return false, [];
      }
      spans := MakeSpans(head, n);
      WrapIsMod(capacity, head + n);
      head := (head + n) % capacity;
      size := size + n;
      return true, spans;
    }

    method Consume(n: nat) returns (ok: bool)
      requires Valid()
      modifies this`tail, this`size
      ensures Valid()
      ensures ok == (n <= old(size))
      ensures View() == old(View()).Consume(n)
      ensures Contents() == if ok then old(Contents())[n..] else old(Contents())
    {
      ConsumeContents(View(), n);
      if size < n {
        return false;
      }
      WrapIsMod(capacity, tail + n);
      tail := (tail + n) % capacity;
      size := size - n;
      return true;
    }

    method CanReadSize() returns (n: nat)
      requires Valid()
      ensures n == |Contents()|
    {
      return size;
    }

    method CanWriteSize() returns (n: nat)
      requires Valid()
      ensures n + |Contents()| == capacity
    {
      return capacity - size;
    }

    method Clear()
      requires Valid()
      modifies this`head, this`tail, this`size
      ensures Valid()
      ensures View() == old(View()).Clear()
      ensures Contents() == [] && head == 0 && tail == 0
    {
      head, tail, size := 0, 0, 0;
    }

    method GetWriteableBuffers() returns (n: nat, spans: seq<Span>)
      requires Valid()
      ensures n == capacity - size && spans == View().WriteableSpans()
      ensures |Positions(spans)| == n
      ensures forall j: nat :: j < capacity ==> (j in Positions(spans) <==> !Readable(View(), j))
    {
      WriteableSpansTileFree(View());
      var freeSpace := capacity - size;
      if freeSpace == 0 {
        return 0, [];
      }
      spans := MakeSpans(head, freeSpace);
      return freeSpace, spans;
    }

    method CommitWrite(n: nat) returns (ok: bool)
      requires Valid()
      modifies this`head, this`size
      ensures Valid()
      ensures ok == (n <= capacity - old(size))
      ensures View() == old(View()).Advance(n)
      ensures Contents() == if ok then old(Contents()) + Run(old(View()).slots, old(head), n) else old(Contents())
    {
      AdvanceContents(View(), n);
      if n <= capacity - size {
        AdvanceAppends(View(), n);
      }
      if capacity - size < n {
        return false;
      }
      WrapIsMod(capacity, head + n);
      head := (head + n) % capacity;
      size := size + n;
      return true;
    }
  }
}
