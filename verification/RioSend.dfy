/** The send side of the RIO session (LibNetworksRIO/RIOSession.cpp): what each section under
    m_SendQueueMutex does to the ring, the pending deque and the in-progress flag, and what that
    means for any interleaving of the sections by any number of threads. The methods of
    RIOSession.dfy are proved to do exactly this. */
module RioSend {
  import opened Rings

  const MAX_PENDING_BYTES := 10 * 1024 * 1024

  /** A packet in the deque; `offset` bytes of it are in the ring already. */
  datatype Pending = Pending(data: seq<Byte>, offset: nat)

  /** What the kernel was given to send: one contiguous span of the ring, or nothing. */
  datatype Posted = Nothing | Sending(span: Span)

  datatype Sender = Sender(
    ring: Ring,
    pending: seq<Pending>,
    pendingTotal: nat,
    sendInProgress: bool,
    posted: Posted)

  // ---- The sections ------------------------------------------------------------------

  /** SendMessage's section: straight into the ring if nothing waits and it fits, else to the deque. */
  function Enqueue(s: Sender, packet: seq<Byte>): Sender
    requires s.ring.Valid()
  {
    if s.pending == [] && |packet| <= s.ring.Free() then s.(ring := s.ring.Write(packet))
    else s.(pending := s.pending + [Pending(packet, 0)], pendingTotal := s.pendingTotal + |packet|)
  }

  ghost predicate DequeOk(pending: seq<Pending>)
  {
    forall i :: 0 <= i < |pending| ==> pending[i].offset < |pending[i].data|
  }

  /** The backpressure counter is the total size of the packets in the deque. */
  ghost predicate SenderOk(s: Sender)
  {
    s.ring.Valid() && DequeOk(s.pending) && s.pendingTotal == TotalOf(s.pending)
  }

  ghost predicate CanMove(s: Sender)
  {
    SenderOk(s) && s.pending != [] && s.ring.Free() > 0
  }

  /** One round of FlushPendingSendQueue's loop: as much of the front packet as fits goes to the ring. */
  ghost function MoveFront(s: Sender): Sender
    requires CanMove(s)
  {
    TakeFront(s, s.ring.Write(FrontChunk(s)))
  }

  /** The part of the front packet that fits the ring now. */
  ghost function FrontChunk(s: Sender): seq<Byte>
    requires CanMove(s)
  {
    var front := s.pending[0];
    front.data[front.offset..front.offset + Min(|front.data| - front.offset, s.ring.Free())]
  }

  /** The deque without that part, beside the ring that took it. */
  ghost function TakeFront(s: Sender, ring: Ring): Sender
    requires CanMove(s)
  {
    var front := s.pending[0];
    var offset := front.offset + |FrontChunk(s)|;
    if offset == |front.data| then
      s.(ring := ring, pending := s.pending[1..], pendingTotal := s.pendingTotal - |front.data|)
    else
      s.(ring := ring, pending := [front.(offset := offset)] + s.pending[1..])
  }

  /** The loop: it ends when the deque is empty, the ring full or a packet moved only in part. */
  ghost function Refill(s: Sender): Sender
    requires SenderOk(s)
    decreases |s.pending|
  {
    if !CanMove(s) then s
    else
      MoveFrontKeeps(s);
      var s' := MoveFront(s);
      if |s'.pending| < |s.pending| then Refill(s') else s'
  }

  /** TryPostSendFromQueue: only the first contiguous span of the ring is posted. */
  function Post(s: Sender, accepted: bool): Sender
    requires s.ring.Valid()
  {
    if s.sendInProgress || s.ring.size == 0 || !accepted then s
    else s.(sendInProgress := true, posted := Sending(s.ring.ReadSpans()[0]))
  }

  ghost function Flush(s: Sender, accepted: bool): Sender
    requires SenderOk(s)
  {
    RefillKeeps(s);
    Post(Refill(s), accepted)
  }

  /** The send completion's section. */
  function Complete(s: Sender, n: nat): Sender
    requires s.ring.Valid()
  {
    s.(ring := s.ring.Consume(n), sendInProgress := false, posted := Nothing)
  }

  // ---- What they keep -------------------------------------------------------------------

  function TotalOf(pending: seq<Pending>): nat
  {
    if pending == [] then 0 else |pending[0].data| + TotalOf(pending[1..])
  }

  /** The bytes of the deque that are not in the ring yet. */
  function Remainders(pending: seq<Pending>): seq<Byte>
  {
    if pending == [] then [] else Unsent(pending[0]) + Remainders(pending[1..])
  }

  function Unsent(p: Pending): seq<Byte>
  {
    if p.offset <= |p.data| then p.data[p.offset..] else []
  }

  /** Every byte still to be sent, in order. */
  function Backlog(s: Sender): seq<Byte>
    requires s.ring.Valid()
  {
    s.ring.Contents() + Remainders(s.pending)
  }

  lemma {:induction false} DequeAppend(pending: seq<Pending>, packet: seq<Byte>)
    requires DequeOk(pending) && packet != []
    ensures DequeOk(pending + [Pending(packet, 0)])
    ensures TotalOf(pending + [Pending(packet, 0)]) == TotalOf(pending) + |packet|
    ensures Remainders(pending + [Pending(packet, 0)]) == Remainders(pending) + packet
  {
    var more := pending + [Pending(packet, 0)];
    if pending == [] {
      assert more[1..] == [];
      assert Remainders([]) == [];
    } else {
      DequeAppend(pending[1..], packet);
      assert more[1..] == pending[1..] + [Pending(packet, 0)];
      assert more[0] == pending[0];
    }
  }

  /** What a refill keeps: no byte is lost, doubled or reordered, and the window of a send in
      flight stays put. */
  ghost predicate Moved(s: Sender, s': Sender)
    requires SenderOk(s)
  {
    && SenderOk(s') && Backlog(s') == Backlog(s) && s'.pendingTotal <= s.pendingTotal
    && s'.ring.tail == s.ring.tail && s'.ring.size >= s.ring.size && |s'.ring.slots| == |s.ring.slots|
    && s'.sendInProgress == s.sendInProgress && s'.posted == s.posted
  }

  lemma Associative(a: seq<Byte>, b: seq<Byte>, c: seq<Byte>)
    ensures a + (b + c) == (a + b) + c
  {
  }

  lemma BacklogAfter(s: Sender, s': Sender, chunk: seq<Byte>)
    requires s.ring.Valid() && s'.ring.Valid()
    requires s'.ring.Contents() == s.ring.Contents() + chunk
    requires Remainders(s.pending) == chunk + Remainders(s'.pending)
    ensures Backlog(s') == Backlog(s)
  {
    Associative(s.ring.Contents(), chunk, Remainders(s'.pending));
  }

  /** The deque's side of a round. */
  ghost predicate TakesFront(s: Sender, s': Sender)
    requires CanMove(s)
  {
    && DequeOk(s'.pending) && s'.pendingTotal == TotalOf(s'.pending) <= s.pendingTotal
    && Remainders(s.pending) == FrontChunk(s) + Remainders(s'.pending)
    && (|s'.pending| == |s.pending| ==> |FrontChunk(s)| == s.ring.Free())
  }

  /** The whole rest of the front packet fits. */
  lemma TakeAllOfFront(s: Sender, ring: Ring)
    requires CanMove(s) && |s.pending[0].data| - s.pending[0].offset <= s.ring.Free()
    ensures TakesFront(s, TakeFront(s, ring))
  {
    var front := s.pending[0];
    PopFront(s.pending);
    assert FrontChunk(s) == front.data[front.offset..];
    assert TakeFront(s, ring).pending == s.pending[1..];
  }

  /** Only part of it does. */
  lemma TakePartOfFront(s: Sender, ring: Ring)
    requires CanMove(s) && |s.pending[0].data| - s.pending[0].offset > s.ring.Free()
    ensures TakesFront(s, TakeFront(s, ring))
  {
    var front, n := s.pending[0], s.ring.Free();
    SplitFront(s.pending, n);
    assert FrontChunk(s) == front.data[front.offset..front.offset + n];
    assert TakeFront(s, ring).pending == [front.(offset := front.offset + n)] + s.pending[1..];
  }

  lemma TakeFrontKeeps(s: Sender, ring: Ring)
    requires CanMove(s) && ring.Valid() && ring.Contents() == s.ring.Contents() + FrontChunk(s)
    requires ring.tail == s.ring.tail && |ring.slots| == |s.ring.slots|
    ensures Moved(s, TakeFront(s, ring))
    ensures |TakeFront(s, ring).pending| == |s.pending| ==> ring.Free() == 0
  {
    if |s.pending[0].data| - s.pending[0].offset <= s.ring.Free() {
      TakeAllOfFront(s, ring);
    } else {
      TakePartOfFront(s, ring);
    }
    assert ring.size == |ring.Contents()| == s.ring.size + |FrontChunk(s)|;
    BacklogAfter(s, TakeFront(s, ring), FrontChunk(s));
  }

  lemma MoveFrontKeeps(s: Sender)
    requires CanMove(s)
    ensures Moved(s, MoveFront(s))
    ensures |MoveFront(s).pending| == |s.pending| ==> MoveFront(s).ring.Free() == 0
  {
    WriteContents(s.ring, FrontChunk(s));
    TakeFrontKeeps(s, s.ring.Write(FrontChunk(s)));
  }

  /** After a flush the deque waits only on a full ring. */
  lemma {:induction false} RefillKeeps(s: Sender)
    requires SenderOk(s)
    ensures Moved(s, Refill(s))
    ensures Refill(s).pending != [] ==> Refill(s).ring.Free() == 0
    decreases |s.pending|
  {
    if CanMove(s) {
      MoveFrontKeeps(s);
      if |MoveFront(s).pending| < |s.pending| {
        RefillKeeps(MoveFront(s));
      }
    }
  }

  /** Taking the rest of the front packet removes it from the deque. */
  lemma PopFront(pending: seq<Pending>)
    requires DequeOk(pending) && pending != []
    ensures DequeOk(pending[1..]) && TotalOf(pending) == |pending[0].data| + TotalOf(pending[1..])
    ensures Remainders(pending) == pending[0].data[pending[0].offset..] + Remainders(pending[1..])
  {
  }

  /** Taking part of the front packet leaves the rest of it in front. */
  lemma SplitFront(pending: seq<Pending>, n: nat)
    requires DequeOk(pending) && pending != [] && n < |pending[0].data| - pending[0].offset
    ensures var front := pending[0];
            var pending' := [front.(offset := front.offset + n)] + pending[1..];
            && DequeOk(pending') && TotalOf(pending) == TotalOf(pending')
            && Remainders(pending) == front.data[front.offset..front.offset + n] + Remainders(pending')
  {
    var front := pending[0];
    var front' := front.(offset := front.offset + n);
    PopFront(pending);
    assert ([front'] + pending[1..])[1..] == pending[1..];
    assert front.data[front.offset..] == front.data[front.offset..front.offset + n] + Unsent(front');
    Associative(front.data[front.offset..front.offset + n], Unsent(front'), Remainders(pending[1..]));
  }
}
