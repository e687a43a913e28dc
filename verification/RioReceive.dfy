/** The receive side of the RIO session as an object (LibNetworksRIO/RIOSession.cpp), on a ring over
    registered memory. RIOReceive takes one buffer, so only the first contiguous span of the free space
    is posted. Unlike the IOCP session this one does not disconnect on a broken header: it stops
    delivering and goes on receiving until the ring is full. */
module RioReceive {
  import opened Rings
  import opened Packets
  import opened CircleBufferQueues
  import opened Serialisation

  /** What the kernel was given to fill. */
  datatype Posting = NotPosted | Posted(span: Span)

  /** What ends the session; each is noted where it happens, not where it is acted upon. */
  datatype Cause = CompletionFailed | PeerClosed | Backpressure

  /** Received bytes are in a delivered packet or still in the ring, in order. */
  predicate Conserved(received: seq<Byte>, delivered: seq<Message>, queue: seq<Byte>)
  {
    received == Stream(delivered) + queue && forall m <- delivered :: Fits(m)
  }

  lemma ConservedAppend(received: seq<Byte>, delivered: seq<Message>, queue: seq<Byte>, data: seq<Byte>)
    requires Conserved(received, delivered, queue)
    ensures Conserved(received + data, delivered, queue + data)
  {
    assert (Stream(delivered) + queue) + data == Stream(delivered) + (queue + data);
  }

  lemma ConservedDeliver(received: seq<Byte>, delivered: seq<Message>, packet: Message, queue: seq<Byte>)
    requires Conserved(received, delivered, Wire(packet) + queue) && Fits(packet)
    ensures Conserved(received, delivered + [packet], queue)
  {
    StreamAppend(delivered, packet);
    assert Stream(delivered) + (Wire(packet) + queue) == (Stream(delivered) + Wire(packet)) + queue;
  }

  /** What was delivered is what the whole stream parses to, wherever TCP and the ring cut it. */
  lemma DeliveredIsParsed(received: seq<Byte>, delivered: seq<Message>, queue: seq<Byte>)
    requires Conserved(received, delivered, queue) && !TryFrame(queue).Ok?
    ensures Parse(received) == Parsed(delivered, if TryFrame(queue) == NeedMore then Waiting(queue) else Broken)
  {
    ParseWholeMessages(delivered, queue);
    assert delivered + [] == delivered;
  }

  class RIOReceiver {
    const buffer: CircleBufferQueue
    var receiveLoopStarted: bool
    var disconnected: bool
    var totalRx: nat
    var posting: Posting                // the kernel's side
    var refused: bool                   // the last RIOReceive was refused
    ghost var received: seq<Byte>
    ghost var delivered: seq<Message>   // packets OnPacketReceived was called with
    ghost var causes: set<Cause>

    ghost predicate Core()
      reads this, buffer, buffer.mem
    {
      && buffer.Valid()
      && Conserved(received, delivered, buffer.Contents())
      && totalRx == |received|
      && (disconnected <==> causes != {})
    }

    /** A posted receive still covers the first span of the free space. */
    ghost predicate Valid()
      reads this, buffer, buffer.mem
    {
      && Core() && !TryFrame(buffer.Contents()).Ok?
      && (posting.Posted? ==> buffer.size < buffer.capacity && posting.span == buffer.View().WriteableSpans()[0])
      && (receiveLoopStarted && !disconnected && !refused && buffer.size < buffer.capacity ==> posting.Posted?)
    }

    constructor (buffer: CircleBufferQueue)
      requires buffer.Valid() && buffer.Contents() == []
      ensures Valid() && this.buffer == buffer && received == [] && delivered == [] && posting == NotPosted
      ensures !receiveLoopStarted && !disconnected && !refused && causes == {}
    {
      this.buffer := buffer;
      receiveLoopStarted, disconnected, totalRx, posting, refused := false, false, 0, NotPosted, false;
      received, delivered, causes := [], [], {};
    }

    /** `accepted` is the kernel's answer to RIOReceive. */
    method RequestRecv(accepted: bool)
      requires Core() && !TryFrame(buffer.Contents()).Ok? && posting == NotPosted
      modifies `posting, `refused
      ensures Valid()
      ensures posting.Posted? <==> !disconnected && buffer.size < buffer.capacity && accepted
      ensures disconnected || buffer.size == buffer.capacity ==> refused == old(refused)
      ensures posting.Posted? ==> !refused
    {
      if !disconnected {
        var freeSpace, spans := buffer.GetWriteableBuffers();
        if freeSpace > 0 {
          refused := !accepted;
          if accepted {
            posting := Posted(spans[0]);
          }
        }
      }
    }

    method StartReceiveLoop(accepted: bool)
      requires Valid() && (!receiveLoopStarted ==> posting == NotPosted)
      modifies `receiveLoopStarted, `posting, `refused
      ensures Valid() && receiveLoopStarted
      ensures !old(receiveLoopStarted) ==> (posting.Posted? <==> !disconnected && buffer.size < buffer.capacity && accepted)
      ensures posting.Posted? && !old(receiveLoopStarted) ==> !refused
    {
      if !receiveLoopStarted {
        receiveLoopStarted := true;
        RequestRecv(accepted);
      }
    }

    /** Delivers every whole packet in the ring. A packet callback may send, and so disconnect; the
        loop goes on regardless. */
    method ReadReceivedBuffers()
      requires Core()
      modifies `disconnected, `delivered, `causes, buffer`tail, buffer`size
      ensures Core() && !TryFrame(buffer.Contents()).Ok?
      ensures old(causes) <= causes <= old(causes) + {Backpressure}
      ensures old(!TryFrame(buffer.Contents()).Ok?) ==>
                causes == old(causes) && delivered == old(delivered) && buffer.Contents() == old(buffer.Contents())
    {
      var more := true;
      while more
        invariant Core()
        invariant old(!TryFrame(buffer.Contents()).Ok?) ==>
                    causes == old(causes) && delivered == old(delivered) && buffer.Contents() == old(buffer.Contents())
        invariant !more ==> !TryFrame(buffer.Contents()).Ok?
        invariant old(causes) <= causes <= old(causes) + {Backpressure}
        decreases buffer.size, more
      {
        more := DeliverNext();
      }
    }

    method DeliverNext() returns (more: bool)
      requires Core()
      modifies `disconnected, `delivered, `causes, buffer`tail, buffer`size
      ensures Core() && more == old(TryFrame(buffer.Contents()).Ok?)
      ensures old(causes) <= causes <= old(causes) + {Backpressure}
      ensures if more
              then buffer.size < old(buffer.size) && delivered == old(delivered) + [old(TryFrame(buffer.Contents())).packet]
              else && buffer.Contents() == old(buffer.Contents()) && buffer.size == old(buffer.size)
                   && delivered == old(delivered) && causes == old(causes)
    {
      var frame := TryFrameFromBuffer(buffer);
      more := frame.Ok?;
      if more {
        OnPacketReceived(frame.packet);
      }
    }

    /** The callback; history follows the popped frame here. It may send, and backpressure may then
        disconnect the session. */
    method OnPacketReceived(packet: Message)
      requires buffer.Valid() && Conserved(received, delivered, Wire(packet) + buffer.Contents()) && Fits(packet)
      requires totalRx == |received| && (disconnected <==> causes != {})
      modifies `disconnected, `delivered, `causes
      ensures Core() && delivered == old(delivered) + [packet]
      ensures old(causes) <= causes <= old(causes) + {Backpressure}
    {
      ConservedDeliver(received, delivered, packet, buffer.Contents());
      delivered := delivered + [packet];
      SomeoneSends();
    }

    /** SendMessage, on this or another thread, may find too much pending. */
    method SomeoneSends()
      modifies `disconnected, `causes
      ensures (causes == old(causes) && disconnected == old(disconnected))
              || (causes == old(causes) + {Backpressure} && disconnected)
    {
      var overLimit: bool := *;
      if overLimit {
        causes := causes + {Backpressure};
        disconnected := true;
      }
    }

    /** CommitWrite of what the kernel stored through the posted span. */
    method CommitReceived(data: seq<Byte>)
      requires Valid() && posting.Posted? && |data| <= posting.span.length
      modifies `posting, `totalRx, `received, buffer`head, buffer`size, buffer.mem
      ensures Core() && buffer.OnlyMyStretch() && posting == NotPosted
      ensures received == old(received) + data && buffer.Contents() == old(buffer.Contents()) + data
    {
      FillThenAdvance(buffer.View(), data, |data|);
      ConservedAppend(received, delivered, buffer.Contents(), data);
      assert data[..|data|] == data;
      buffer.Copy(posting.span.offset, data);   // the kernel
      posting := NotPosted;
      var _ := buffer.CommitWrite(|data|);
      totalRx := totalRx + |data|;
      received := received + data;
    }

    /** A broken header is not a reason to disconnect: nothing is delivered and the receiving goes on. */
    twostate predicate IgnoresBrokenHeader(data: seq<Byte>)
      requires buffer.Valid() && old(buffer.Valid())
      reads this, buffer, buffer.mem
    {
      old(TryFrame(buffer.Contents() + data)) == Invalid ==>
        && causes == old(causes) && delivered == old(delivered)
        && buffer.Contents() == old(buffer.Contents()) + data
        && (buffer.size == buffer.capacity ==> refused == old(refused))
    }

    /** OnRioIOCompleted of a receive that brought data. */
    method OnReceived(data: seq<Byte>, accepted: bool)
      requires Valid() && posting.Posted? && |data| <= posting.span.length
      modifies `posting, `refused, `totalRx, `received, `disconnected, `delivered, `causes,
               buffer`head, buffer`tail, buffer`size, buffer.mem
      ensures Valid() && buffer.OnlyMyStretch() && received == old(received) + data
      ensures old(causes) <= causes <= old(causes) + {Backpressure}
      ensures posting.Posted? <==> !disconnected && buffer.size < buffer.capacity && accepted
      ensures IgnoresBrokenHeader(data)
    {
      CommitReceived(data);
      ReadReceivedBuffers();
      RequestRecv(accepted);
    }

    /** OnRioIOCompleted of a receive. */
    method OnRecvCompleted(success: bool, data: seq<Byte>, accepted: bool)
      requires Valid() && posting.Posted? && |data| <= posting.span.length
      modifies this, buffer`head, buffer`tail, buffer`size, buffer.mem
      ensures Valid() && buffer.OnlyMyStretch() && receiveLoopStarted == old(receiveLoopStarted)
      ensures received == old(received) + (if success then data else [])
      ensures causes >= old(causes) + (if !success then {CompletionFailed} else if data == [] then {PeerClosed} else {})
      ensures success && data != [] ==>
                && causes <= old(causes) + {Backpressure}
                && (posting.Posted? <==> !disconnected && buffer.size < buffer.capacity && accepted)
                && IgnoresBrokenHeader(data)
    {
      causes := causes + if !success then {CompletionFailed} else if data == [] then {PeerClosed} else {};
      if !success || data == [] {
        disconnected := true;
        posting := NotPosted;
      } else {
        OnReceived(data, accepted);
      }
    }

    /** Any number of completions, with any data. Whatever arrived is parsed as one stream; and while the
        session is connected and the kernel accepts, a receive is posted, except that a broken header
        ends up filling the ring. */
    method Serve(steps: nat)
      requires Valid() && receiveLoopStarted
      modifies this, buffer`head, buffer`tail, buffer`size, buffer.mem
      ensures Valid()
      ensures disconnected <==> causes != {}
      ensures var queue := buffer.Contents();
              Parse(received) == Parsed(delivered, if TryFrame(queue) == NeedMore then Waiting(queue) else Broken)
      ensures totalRx == |received| == |Stream(delivered)| + buffer.size
      ensures buffer.capacity >= MAX_PACKET_SIZE && !disconnected && !refused ==>
                (posting == NotPosted <==> Parse(received).status == Broken && buffer.size == buffer.capacity)
    {
      for i := 0 to steps
        invariant Valid() && receiveLoopStarted
      {
        var success: bool := *;
        var accepted: bool := *;
        var data: seq<Byte> := *;
        SomeoneSends();
        if posting.Posted? {
          OnRecvCompleted(success, data[..Min(|data|, posting.span.length)], accepted);
        }
      }
      DeliveredIsParsed(received, delivered, buffer.Contents());
    }
  }

  lemma ZerosAreBroken(zeros: seq<Byte>)
    requires |zeros| >= 2 && zeros[0] == 0 && zeros[1] == 0
    ensures TryFrame(zeros) == Invalid
  {
    assert zeros[..2] == [0, 0];
  }

  /** A receiver that stalls: for every capacity of at least two bytes, a stream of zero bytes that fills the
      ring leaves it connected and not refused, with no receive posted and nothing delivered. */
  method BrokenHeaderStalls(capacity: nat) returns (r: RIOReceiver)
    requires capacity >= 2
    ensures r.Valid() && r.buffer.capacity == capacity && r.receiveLoopStarted
    ensures r.received == seq(capacity, _ => 0) && r.delivered == []
    ensures !r.disconnected && !r.refused && r.posting == NotPosted
  {
    var buffer := new CircleBufferQueue.Own(capacity);
    r := new RIOReceiver(buffer);
    r.StartReceiveLoop(true);
    var zeros: seq<Byte> := seq(capacity, _ => 0);
    ZerosAreBroken(zeros);
    assert buffer.Contents() + zeros == zeros;
    assert r.posting.span == Span(0, capacity);
    r.OnRecvCompleted(true, zeros, true);
  }

  /** End to end: a receiver that was given a prefix of the stream of accepted messages, all of which
      fit the size field, has delivered the first of those messages, and with the whole stream all of
      them; it never stalls on a broken header. */
  lemma DeliversWhatWasSent(accepted: seq<Message>, receiver: RIOReceiver)
    requires receiver.Valid() && receiver.received <= Stream(accepted)
    requires forall m <- accepted :: Fits(m)
    ensures receiver.delivered <= accepted && Parse(receiver.received).status.Waiting?
    ensures receiver.received == Stream(accepted) ==> receiver.delivered == accepted
  {
    DeliveredIsParsed(receiver.received, receiver.delivered, receiver.buffer.Contents());
    PrefixParsesToPrefix(accepted, receiver.received);
  }
}
