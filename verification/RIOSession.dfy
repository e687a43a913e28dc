/** The send side of the RIO session as an object (LibNetworksRIO/RIOSession.cpp): one method per
    section under m_SendQueueMutex, on a ring over registered memory. Each does exactly what the
    function of the same section in RioSend.dfy does, for which RioInterleaving.dfy proves the
    properties of whole runs. */
module RIOSessions {
  import opened Rings
  import opened CircleBufferQueues
  import opened Serialisation
  import opened RioSend

  class RIOSession {
    const sendBuffer: CircleBufferQueue
    var pending: seq<Pending>
    var pendingTotal: nat
    var sendInProgress: bool
    var isDisconnected: bool
    var posted: Posted   // the kernel's side

    ghost predicate Valid()
      reads this, sendBuffer, sendBuffer.mem
    {
      sendBuffer.Valid() && SenderOk(View())
    }

    ghost function View(): Sender
      requires sendBuffer.Valid()
      reads this, sendBuffer, sendBuffer.mem
    {
      Sender(sendBuffer.View(), pending, pendingTotal, sendInProgress, posted)
    }

    constructor (sendBuffer: CircleBufferQueue)
      requires sendBuffer.Valid() && sendBuffer.Contents() == []
      ensures Valid() && this.sendBuffer == sendBuffer
      ensures View() == Sender(sendBuffer.View(), [], 0, false, Nothing)
    {
      this.sendBuffer := sendBuffer;
      pending, pendingTotal, sendInProgress, isDisconnected, posted := [], 0, false, false, Nothing;
    }

    /** SendMessage, up to its section: refused when disconnected, or when too much waits. */
    method CheckBackpressure() returns (pass: bool)
      modifies `isDisconnected
      ensures pass <==> !old(isDisconnected) && pendingTotal <= MAX_PENDING_BYTES
      ensures isDisconnected == (old(isDisconnected) || pendingTotal > MAX_PENDING_BYTES)
    {
      pass := !isDisconnected;
      if pendingTotal > MAX_PENDING_BYTES {
        isDisconnected := true;
        pass := false;
      }
    }

    /** SendMessage's section. */
    method QueuePacket(packet: seq<Byte>)
      requires Valid() && packet != []
      modifies `pending, `pendingTotal, sendBuffer`head, sendBuffer`size, sendBuffer.mem
      ensures Valid() && View() == Enqueue(old(View()), packet)
    {
      var writtenDirectly := false;
      if pending == [] {
        var room := sendBuffer.CanWriteSize();
        if room >= |packet| {
          WriteContents(sendBuffer.View(), packet);
          writtenDirectly := sendBuffer.Write(packet);
        }
      }
      if !writtenDirectly {
        DequeAppend(pending, packet);
        pending := pending + [Pending(packet, 0)];
        pendingTotal := pendingTotal + |packet|;
      }
    }

    /** Stores `chunk` in the free slots and commits it. */
    method StoreChunk(spans: seq<Span>, chunk: seq<Byte>)
      requires sendBuffer.Valid() && spans == sendBuffer.View().WriteableSpans()
      requires |chunk| <= sendBuffer.capacity - sendBuffer.size
      modifies sendBuffer`head, sendBuffer`size, sendBuffer.mem
      ensures sendBuffer.Valid() && sendBuffer.View() == old(sendBuffer.View()).Write(chunk)
    {
      FillSpans(sendBuffer, spans, chunk);
      var _ := sendBuffer.CommitWrite(|chunk|);
    }

    /** As much of the front packet as fits goes into the ring. */
    method StoreFront(available: nat, spans: seq<Span>) returns (written: nat)
      requires Valid() && CanMove(View()) && spans == sendBuffer.View().WriteableSpans()
      requires available == sendBuffer.capacity - sendBuffer.size
      modifies sendBuffer`head, sendBuffer`size, sendBuffer.mem
      ensures sendBuffer.Valid() && written == |FrontChunk(old(View()))|
      ensures View() == old(View()).(ring := old(View()).ring.Write(FrontChunk(old(View()))))
    {
      var front := pending[0];
      written := Min(|front.data| - front.offset, available);
      StoreChunk(spans, front.data[front.offset..front.offset + written]);
    }

    /** The front packet's offset moves on by `written`; with nothing of it left it leaves the deque. */
    method AdvanceFront(written: nat, ghost s: Sender) returns (done: bool)
      requires CanMove(s) && pending == s.pending && pendingTotal == s.pendingTotal && written == |FrontChunk(s)|
      modifies `pending, `pendingTotal
      ensures pending == TakeFront(s, s.ring).pending && pendingTotal == TakeFront(s, s.ring).pendingTotal
      ensures done == (|pending| < |old(pending)|)
    {
      var front := pending[0];
      PopFront(pending);
      done := front.offset + written >= |front.data|;
      if done {
        pendingTotal := pendingTotal - |front.data|;
        pending := pending[1..];
      } else {
        pending := [front.(offset := front.offset + written)] + pending[1..];
      }
    }

    /** One round of the flush loop; `done` says that the packet left the deque. */
    method MoveFrontPacket(available: nat, spans: seq<Span>) returns (done: bool)
      requires Valid() && CanMove(View()) && spans == sendBuffer.View().WriteableSpans()
      requires available == sendBuffer.capacity - sendBuffer.size
      modifies `pending, `pendingTotal, sendBuffer`head, sendBuffer`size, sendBuffer.mem
      ensures sendBuffer.Valid() && View() == MoveFront(old(View()))
      ensures done == (|pending| < |old(pending)|)
    {
      ghost var s := View();
      var written := StoreFront(available, spans);
      done := AdvanceFront(written, s);
    }

    /** FlushPendingSendQueue's loop. */
    method RefillRing()
      requires Valid()
      modifies `pending, `pendingTotal, sendBuffer`head, sendBuffer`size, sendBuffer.mem
      ensures Valid() && View() == Refill(old(View()))
    {
      ghost var goal := Refill(View());
      RefillKeeps(View());
      var more := true;
      while more && pending != []
        invariant Valid()
        invariant more ==> Refill(View()) == goal
        invariant !more ==> View() == goal
        decreases |pending|, more
      {
        var available, spans := sendBuffer.GetWriteableBuffers();
        if available == 0 {
          more := false;
        } else {
          MoveFrontKeeps(View());
          more := MoveFrontPacket(available, spans);
        }
      }
    }

    /** FlushPendingSendQueue; `accepted` is the kernel's answer to RIOSend. */
    method FlushPendingSendQueue(accepted: bool)
      requires Valid()
      modifies `pending, `pendingTotal, `sendInProgress, `posted, sendBuffer`head, sendBuffer`size, sendBuffer.mem
      ensures Valid() && View() == Flush(old(View()), accepted)
    {
      RefillRing();
      TryPostSendFromQueue(accepted);
    }

    /** Only the first contiguous span is posted: RIOSend takes one buffer. */
    method TryPostSendFromQueue(accepted: bool)
      requires Valid()
      modifies `sendInProgress, `posted
      ensures Valid() && View() == Post(old(View()), accepted)
    {
      if !sendInProgress {
        sendInProgress := true;
        var bytesToSend, spans := sendBuffer.GetReadBuffers();
        if bytesToSend == 0 || !accepted {
          sendInProgress := false;
        } else {
          posted := Sending(spans[0]);
        }
      }
    }

    /** The send completion's section. */
    method ConsumeCompletion(bytes: nat)
      requires Valid()
      modifies `sendInProgress, `posted, sendBuffer`tail, sendBuffer`size
      ensures Valid() && View() == Complete(old(View()), bytes)
    {
      var _ := sendBuffer.Consume(bytes);
      sendInProgress := false;
      posted := Nothing;
    }

    /** A send completion that failed: the flag stays held. */
    method FailCompletion()
      requires Valid()
      modifies `isDisconnected, `posted
      ensures Valid() && isDisconnected && View() == old(View()).(posted := Nothing)
    {
      isDisconnected := true;
      posted := Nothing;
    }
  }
}
