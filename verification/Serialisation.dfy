/** Moving packets between byte streams and ring memory: the scattered copy behind
    IOSession::SendMessage (LibNetworks/IOSession.cpp) and PacketFramer::TryFrameFromBuffer
    (LibNetworks/PacketFramer.ixx), on the ring objects. */
module Serialisation {
  import opened Rings
  import opened Packets
  import opened CircleBufferQueues

  /** How many bytes lie before the cursor (`index`, `offset`) in a list of spans. */
  function Cursor(spans: seq<Span>, index: nat, offset: nat): nat
    requires index <= |spans| <= 2
  {
    offset + (if index > 0 then spans[0].length else 0) + (if index > 1 then spans[1].length else 0)
  }

  /** A cursor as WriteToBuffers leaves it: inside a span, or behind the last one. */
  ghost predicate CursorOk(spans: seq<Span>, index: nat, offset: nat)
  {
    && index <= |spans| <= 2
    && (if index < |spans| then offset < spans[index].length else offset == 0)
  }

  /** The slot a cursor points at, and where the cursor stands after `k` more bytes of its span. */
  lemma CursorStep(cap: nat, start: nat, total: nat, index: nat, offset: nat, k: nat)
    requires start < cap && 0 < total <= cap
    requires CursorOk(SpansFrom(cap, start, total), index, offset) && index < |SpansFrom(cap, start, total)|
    requires k <= SpansFrom(cap, start, total)[index].length - offset
    ensures var spans := SpansFrom(cap, start, total);
            && spans[index].offset + offset == Wrap(cap, start + Cursor(spans, index, offset))
            && spans[index].offset + spans[index].length <= cap
            && var (index', offset') := if offset + k == spans[index].length then (index + 1, 0) else (index, offset + k);
            && CursorOk(spans, index', offset')
            && Cursor(spans, index', offset') == Cursor(spans, index, offset) + k
  {
  }

  /** One memcpy of WriteToBuffers: `done` bytes of `data` are in place, `more` follow. */
  method CopyPiece(q: CircleBufferQueue, ghost slots: seq<Byte>, ghost at: nat,
                   data: seq<Byte>, done: nat, more: nat, dest: nat)
    requires q.Valid() && |slots| == q.capacity && at < q.capacity
    requires done + more <= |data| && |data| <= q.capacity
    requires q.View().slots == Splice(slots, at, data[..done])
    requires dest == Wrap(q.capacity, at + done) && dest + more <= q.capacity
    modifies q.mem
    ensures q.View().slots == Splice(slots, at, data[..done + more])
    ensures q.OnlyMyStretch()
  {
    var piece := data[done..done + more];
    q.Copy(dest, piece);
    SpliceExtend(slots, at, data[..done], piece);
    assert data[..done + more] == data[..done] + piece;
  }

  /** One round of WriteToBuffers' loop: as much as the current span takes. */
  method CopyIntoSpan(q: CircleBufferQueue, spans: seq<Span>, ghost start: nat, ghost total: nat,
                      ghost slots: seq<Byte>, ghost at: nat, data: seq<Byte>, done: nat, index: nat, offset: nat)
    returns (more: nat, index': nat, offset': nat)
    requires q.Valid() && start < q.capacity && 0 < total <= q.capacity && |data| <= total
    requires spans == SpansFrom(q.capacity, start, total) && CursorOk(spans, index, offset)
    requires done < |data| && index < |spans|
    requires |slots| == q.capacity && at < q.capacity && q.View().slots == Splice(slots, at, data[..done])
    requires Wrap(q.capacity, at + done) == Wrap(q.capacity, start + Cursor(spans, index, offset))
    modifies q.mem
    ensures 0 < more <= |data| - done && CursorOk(spans, index', offset')
    ensures Cursor(spans, index', offset') == Cursor(spans, index, offset) + more
    ensures q.View().slots == Splice(slots, at, data[..done + more])
    ensures q.OnlyMyStretch()
  {
    var span := spans[index];
    more := Min(|data| - done, span.length - offset);
    CursorStep(q.capacity, start, total, index, offset, more);
    CopyPiece(q, slots, at, data, done, more, span.offset + offset);
    index', offset' := index, offset + more;
    if offset' == span.length {
      index', offset' := index + 1, 0;
    }
  }

  /** Copies `data` into the memory the spans name, from the cursor on. */
  method WriteToBuffers(q: CircleBufferQueue, spans: seq<Span>, ghost start: nat, ghost total: nat,
                        index: nat, offset: nat, data: seq<Byte>)
    returns (index': nat, offset': nat)
    requires q.Valid() && start < q.capacity && 0 < total <= q.capacity
    requires spans == SpansFrom(q.capacity, start, total)
    requires CursorOk(spans, index, offset)
    requires Cursor(spans, index, offset) + |data| <= total
    modifies q.mem
    ensures CursorOk(spans, index', offset')
    ensures Cursor(spans, index', offset') == Cursor(spans, index, offset) + |data|
    ensures q.View().slots == Splice(old(q.View().slots), Wrap(q.capacity, start + Cursor(spans, index, offset)), data)
    ensures q.OnlyMyStretch()
  {
    index', offset' := index, offset;
    var done := 0;
    ghost var at := Wrap(q.capacity, start + Cursor(spans, index, offset));
    ghost var slots := q.View().slots;
    SpliceNothing(slots, at);
    while done < |data| && index' < |spans|
      invariant 0 <= done <= |data|
      invariant CursorOk(spans, index', offset')
      invariant Cursor(spans, index', offset') == Cursor(spans, index, offset) + done
      invariant q.View().slots == Splice(slots, at, data[..done])
      invariant q.OnlyMyStretch()
    {
      var more;
      more, index', offset' := CopyIntoSpan(q, spans, start, total, slots, at, data, done, index', offset');
      done := done + more;
    }
    assert data[..|data|] == data;
  }

  /** The two branches of SendMessage that store the body: straight into the current span when it
      is long enough, and spread over the spans otherwise. Both store the same bytes. */
  method StoreBody(q: CircleBufferQueue, spans: seq<Span>, ghost start: nat, ghost total: nat,
                   index: nat, offset: nat, body: seq<Byte>)
    requires q.Valid() && start < q.capacity && 0 < total <= q.capacity && |body| > 0
    requires spans == SpansFrom(q.capacity, start, total)
    requires CursorOk(spans, index, offset)
    requires Cursor(spans, index, offset) + |body| == total
    modifies q.mem
    ensures q.View().slots == Splice(old(q.View().slots), Wrap(q.capacity, start + Cursor(spans, index, offset)), body)
    ensures q.OnlyMyStretch()
  {
    if index < |spans| && spans[index].length - offset >= |body| {
      q.Copy(spans[index].offset + offset, body);
    } else {
      var _, _ := WriteToBuffers(q, spans, start, total, index, offset, body);
    }
  }

  /** Two fields one behind the other at the start of the spans. */
  method StoreFields(q: CircleBufferQueue, spans: seq<Span>, ghost start: nat, ghost total: nat,
                     first: seq<Byte>, second: seq<Byte>)
    returns (index: nat, offset: nat)
    requires q.Valid() && start < q.capacity && 0 < total <= q.capacity && |first| + |second| <= total
    requires spans == SpansFrom(q.capacity, start, total) && CursorOk(spans, 0, 0)
    modifies q.mem
    ensures CursorOk(spans, index, offset) && Cursor(spans, index, offset) == |first| + |second|
    ensures q.View().slots == Splice(old(q.View().slots), start, first + second)
    ensures q.OnlyMyStretch()
  {
    ghost var slots := q.View().slots;
    index, offset := WriteToBuffers(q, spans, start, total, 0, 0, first);
    index, offset := WriteToBuffers(q, spans, start, total, index, offset, second);
    SpliceExtend(slots, start, first, second);
  }

  /** Size and id, network byte order; either may be split by the end of the buffer. */
  method StoreHead(q: CircleBufferQueue, spans: seq<Span>, ghost start: nat, m: Message)
    returns (index: nat, offset: nat)
    requires q.Valid() && start < q.capacity && TotalSize(m) <= q.capacity
    requires spans == SpansFrom(q.capacity, start, TotalSize(m))
    modifies q.mem
    ensures CursorOk(spans, index, offset) && Cursor(spans, index, offset) == 4
    ensures q.View().slots == Splice(old(q.View().slots), start, Wire(m)[..4])
    ensures q.OnlyMyStretch()
  {
    var sizeNet := BigEndian(TotalSize(m) % 0x1_0000);
    var idNet := BigEndian(m.id);
    index, offset := StoreFields(q, spans, start, TotalSize(m), sizeNet, idNet);
    assert Wire(m)[..4] == sizeNet + idNet;
  }

  /** What SendMessage stores through the spans of an allocation of the packet's total size. */
  method StorePacket(q: CircleBufferQueue, spans: seq<Span>, ghost start: nat, m: Message)
    requires q.Valid() && start < q.capacity && TotalSize(m) <= q.capacity
    requires spans == SpansFrom(q.capacity, start, TotalSize(m))
    modifies q.mem
    ensures q.View().slots == Splice(old(q.View().slots), start, Wire(m))
    ensures q.OnlyMyStretch()
  {
    ghost var slots := q.View().slots;
    var index, offset := StoreHead(q, spans, start, m);
    assert Wire(m) == Wire(m)[..4] + m.body;
    if |m.body| > 0 {
      StoreBody(q, spans, start, TotalSize(m), index, offset, m.body);
      SpliceExtend(slots, start, Wire(m)[..4], m.body);
    }
  }

  /** SendMessage's use of the send buffer: the packet is appended whole wherever the head stands,
      or the buffer is too full and stays as it was. */
  method AppendPacket(q: CircleBufferQueue, m: Message) returns (ok: bool)
    requires q.Valid()
    modifies q`head, q`size, q.mem
    ensures q.Valid() && q.OnlyMyStretch()
    ensures ok == (TotalSize(m) <= q.capacity - old(q.size))
    ensures q.Contents() == if ok then old(q.Contents()) + Wire(m) else old(q.Contents())
  {
    ghost var r := q.View();
    WriteContents(r, Wire(m));
    var spans;
    ok, spans := q.AllocateWrite(TotalSize(m));
    if ok {
      StorePacket(q, spans, r.head, m);
      assert q.View() == r.Write(Wire(m));
    }
  }

  /** The copy loop of RIOSession::FlushPendingSendQueue, which is also how the kernel fills the
      spans of a receive: span after span until the data is used up. */
  method FillSpans(q: CircleBufferQueue, spans: seq<Span>, data: seq<Byte>)
    requires q.Valid() && spans == q.View().WriteableSpans() && |data| <= q.capacity - q.size
    modifies q.mem
    ensures q.Valid() && q.View() == old(q.View()).Fill(data)
    ensures q.Contents() == old(q.Contents())
    ensures q.OnlyMyStretch()
  {
    ghost var slots := q.View().slots;
    FillContents(q.View(), data);
    SpliceNothing(slots, q.head);
    var written := 0;
    for i := 0 to |spans|
      invariant written == Min(|data|, Cursor(spans, i, 0))
      invariant q.View().slots == Splice(slots, q.head, data[..written])
      invariant q.OnlyMyStretch()
    {
      var copySize := Min(|data| - written, spans[i].length);
      if copySize > 0 {
        CopyPiece(q, slots, q.head, data, written, copySize, spans[i].offset);
        written := written + copySize;
      }
    }
    assert data[..|data|] == data;
  }

  /** The kernel fills the spans of a receive, and CommitWrite appends what it stored. */
  method FillAndCommit(q: CircleBufferQueue, data: seq<Byte>)
    requires q.Valid() && |data| <= q.capacity - q.size
    modifies q`head, q`size, q.mem
    ensures q.Valid() && q.Contents() == old(q.Contents()) + data
    ensures q.OnlyMyStretch()
  {
    FillThenAdvance(q.View(), data, |data|);
    assert data[..|data|] == data;
    var _, spans := q.GetWriteableBuffers();
    FillSpans(q, spans, data);
    var _ := q.CommitWrite(|data|);
  }

  method TryFrameFromBuffer(q: CircleBufferQueue) returns (frame: Frame)
    requires q.Valid()
    modifies q`tail, q`size
    ensures q.Valid()
    ensures frame == TryFrame(old(q.Contents()))
    ensures q.Contents() == if frame.Ok? then old(q.Contents())[Announced(old(q.Contents()))..] else old(q.Contents())
    ensures frame.Ok? ==> old(q.Contents()) == Wire(frame.packet) + q.Contents() && Fits(frame.packet)
  {
    ghost var c := q.Contents();
    var canRead := q.CanReadSize();
    if canRead < HEADER_SIZE {
      return NeedMore;
    }
    var peeked, header := q.Peek(HEADER_SIZE);
    if !peeked {
      return Invalid;
    }
    var packetSize := HeaderOf(header);
    if packetSize < HEADER_SIZE + PACKET_ID_SIZE {
      return Invalid;
    }
    if packetSize > 0xFFFF {
      return Invalid;
    }
    if canRead < packetSize {
      return NeedMore;
    }
    var popped, buffers := q.Pop(packetSize);
    if !popped {
      return Invalid;
    }
    assert c[..packetSize][..2] == c[..2];
    WireUndoesFrame(buffers);
    assert c == c[..packetSize] + c[packetSize..];
    return Ok(FromRaw(buffers));
  }
}
