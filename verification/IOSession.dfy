/** The IOCP session (LibNetworks/IOSession.cpp, LibNetworks/OutboundSession.cpp), one step per
    whole call: SendMessage, RequestDisconnect, StartReceiveLoop, OnIOCompleted.

    Everything the session does not decide is left open. Whether a posted operation is accepted,
    what bytes arrive and how many, which messages the application sends and what it calls from
    inside a callback are nondeterministic choices, so each contract holds for all of them.
    `os` is the kernel's side: which operations it holds and how far a send has got. `log` is
    history: what was accepted, sent, received and delivered.

    The session's two buffers are ring objects; `recvQueue` and `sendQueue` are the byte queues they
    hold, in terms of which the invariant is stated. */
module IOSessions {
  import opened Rings
  import opened Packets
  import opened CircleBufferQueues
  import opened Serialisation

  /** Which completion handler runs. `holding` is true while a receive handler still owns the
      receive-in-progress flag; `failed` marks the handler of a send that failed. */
  datatype Phase = Rest | InRecv(holding: bool) | InSend(failed: bool) | InConnect

  /** What no run may ever do; each is noted where it would happen. */
  datatype Violation =
    | CallbackAfterDisconnect    // a packet, sent or connected callback begins after a disconnect request
    | PostAfterDisconnected      // an operation is posted after the disconnect callback ran
    | UnrequestedDisconnected    // the disconnect callback runs without a request
    | DisconnectedWhileBusy      // the disconnect callback runs with an operation outstanding
    | ReceiveBufferFull          // no free space is left for a receive

  /** What must end the session; each is noted where it happens, not where it is acted upon. */
  datatype Cause =
    | ApplicationRequest
    | ReceiveRefused       // by the kernel, or for lack of a socket
    | CompletionFailed     // of a receive or a send
    | PeerClosed           // a real receive brought nothing
    | BrokenHeader
    | NoFreeSpace          // in the receive buffer
    | SendOverflow
    | ConnectFailed

  /** What a call of the application can bring about: with a receive handler at work it posts none. */
  function CallCauses(phase: Phase): set<Cause>
  {
    if phase == InRecv(true) then {ApplicationRequest, SendOverflow} else {ApplicationRequest, SendOverflow, ReceiveRefused}
  }

  /** What the kernel holds of this session, and which completion handler runs. */
  datatype Kernel = Kernel(
    recv: bool,
    send: bool,
    connect: bool,
    transmitted: nat,      // bytes TCP already took from the posted send
    sendStalled: bool,     // the last post of a send was refused, or there was no socket for it
    closed: bool,          // the socket was shut down and closed
    phase: Phase)

  datatype History = History(
    accepted: seq<Message>,    // messages SendMessage took
    consumed: seq<Byte>,       // bytes completed sends released
    wire: seq<Byte>,           // bytes TCP took
    received: seq<Byte>,       // bytes TCP delivered
    delivered: seq<Message>,   // packets OnPacketReceived was called with
    sentCalls: seq<nat>,       // byte counts OnSent was called with
    connectedCalls: nat,       // times OnConnected was called
    firings: nat,              // times OnDisconnected was called
    violations: set<Violation>)

  /** The session's atomic members, and what its two OVERLAPPED blocks record. */
  datatype Members = Members(
    receiveLoopStarted: bool,
    recvInProgress: bool,
    sendInProgress: bool,
    disconnectRequested: bool,
    outstanding: int,
    onDisconnectedFired: bool,
    totalRx: nat,
    totalTx: nat,
    connectIoPending: bool,
    recvIsZeroByte: bool,
    recvRequested: nat,
    sendRequested: nat)

  datatype Held = Nothing | Holding(recv: seq<Byte>, send: seq<Byte>)

  function One(b: bool): nat { if b then 1 else 0 }

  // ---- Invariant, piece by piece ----------------------------------------------------

  /** The counter counts the operations in the kernel and the running handler. */
  predicate Counted(io: Members, os: Kernel)
  {
    io.outstanding == One(os.recv) + One(os.send) + One(os.connect) + One(!os.phase.Rest?)
  }

  /** Until a disconnect, the in-progress flags say what is in flight; a disconnect clears them and
      closes the socket. */
  predicate Flagged(io: Members, os: Kernel, hasSocket: bool)
  {
    && (io.disconnectRequested ==> !io.recvInProgress && !io.sendInProgress)
    && os.closed == (io.disconnectRequested && hasSocket)
    && (!io.disconnectRequested ==> io.recvInProgress == (os.recv || os.phase == InRecv(true)))
    && (!io.disconnectRequested ==> io.sendInProgress == os.send)
    && (os.phase == InRecv(true) ==> !os.recv)
    && io.connectIoPending == os.connect
  }

  /** A posted receive still covers exactly the free space, and a zero-byte receive is only ever
      out while the framer waits. */
  predicate RecvWindow(io: Members, os: Kernel, capacity: nat, queue: seq<Byte>)
  {
    && |queue| <= capacity
    && (os.recv && io.recvIsZeroByte ==> TryFrame(queue) == NeedMore)
    && (os.recv && !io.recvIsZeroByte ==> io.recvRequested == capacity - |queue|)
  }

  /** A posted send still covers the oldest queued bytes. */
  predicate SendWindow(io: Members, os: Kernel, capacity: nat, queued: nat)
  {
    && os.transmitted <= queued <= capacity
    && (os.send ==> 0 < io.sendRequested <= queued && os.transmitted <= io.sendRequested)
    && (os.transmitted > 0 ==> os.send || io.disconnectRequested || os.phase == InSend(true))
  }

  /** Nothing accepted is lost, reordered or sent twice. */
  predicate SentIntact(log: History, transmitted: nat, queue: seq<Byte>, fired: bool)
  {
    && log.wire <= Stream(log.accepted)
    && (!fired ==>
          && log.consumed + queue == Stream(log.accepted)
          && transmitted <= |queue| && log.wire == log.consumed + queue[..transmitted])
  }

  /** Every received byte is in a delivered packet or still unread. */
  predicate ReceivedIntact(log: History, queue: seq<Byte>, fired: bool)
  {
    && Stream(log.delivered) <= log.received
    && (forall m <- log.delivered :: Fits(m))
    && (!fired ==> log.received == Stream(log.delivered) + queue)
  }

  predicate Lived(log: History, io: Members, recvCapacity: nat)
  {
    && log.firings == One(io.onDisconnectedFired)
    && (io.onDisconnectedFired ==> io.disconnectRequested && io.outstanding == 0)
    && log.violations <= {ReceiveBufferFull}
    && (ReceiveBufferFull in log.violations ==> recvCapacity < MAX_PACKET_SIZE)
    && io.totalTx == |log.consumed| && io.totalRx == |log.received|
  }

  lemma SentAppend(log: History, transmitted: nat, queue: seq<Byte>, m: Message)
    requires SentIntact(log, transmitted, queue, false)
    ensures SentIntact(log.(accepted := log.accepted + [m]), transmitted, queue + Wire(m), false)
  {
    StreamAppend(log.accepted, m);
    assert log.consumed + (queue + Wire(m)) == (log.consumed + queue) + Wire(m);
    assert (queue + Wire(m))[..transmitted] == queue[..transmitted];
  }

  lemma SentTake(log: History, transmitted: nat, queue: seq<Byte>, k: nat)
    requires SentIntact(log, transmitted, queue, false) && transmitted + k <= |queue|
    ensures SentIntact(log.(wire := log.wire + queue[transmitted..transmitted + k]), transmitted + k, queue, false)
  {
    assert queue[..transmitted + k] == queue[..transmitted] + queue[transmitted..transmitted + k];
    assert log.consumed + queue == log.consumed + queue[..transmitted + k] + queue[transmitted + k..];
  }

  /** What TCP taking `k` bytes adds to the history. */
  ghost function TakeFromQueue(log: History, transmitted: nat, queue: seq<Byte>, k: nat): (log': History)
    requires SentIntact(log, transmitted, queue, false) && transmitted + k <= |queue|
    ensures SentIntact(log', transmitted + k, queue, false)
  {
    SentTake(log, transmitted, queue, k);
    log.(wire := log.wire + queue[transmitted..transmitted + k])
  }

  lemma SentConsume(log: History, n: nat, queue: seq<Byte>)
    requires SentIntact(log, n, queue, false)
    ensures SentIntact(log.(consumed := log.consumed + queue[..n]), 0, queue[n..], false)
  {
    assert log.consumed + queue == log.consumed + queue[..n] + queue[n..];
    assert queue[n..][..0] == [];
  }

  lemma ReceivedMore(log: History, queue: seq<Byte>, data: seq<Byte>)
    requires ReceivedIntact(log, queue, false)
    ensures ReceivedIntact(log.(received := log.received + data), queue + data, false)
  {
    assert Stream(log.delivered) + (queue + data) == (Stream(log.delivered) + queue) + data;
  }

  lemma PoppedFrame(log: History, queue: seq<Byte>)
    requires ReceivedIntact(log, queue, false) && TryFrame(queue).Ok?
    ensures ReceivedIntact(log.(delivered := log.delivered + [TryFrame(queue).packet]), queue[Announced(queue)..], false)
  {
    var n := Announced(queue);
    var p := TryFrame(queue).packet;
    assert queue[..n][..2] == queue[..2];
    WireUndoesFrame(queue[..n]);
    assert queue == Wire(p) + queue[n..];
    StreamAppend(log.delivered, p);
    assert Stream(log.delivered) + queue == Stream(log.delivered + [p]) + queue[n..];
  }

  class IOSession {
    const recvBuffer: CircleBufferQueue
    const sendBuffer: CircleBufferQueue
    const hasSocket: bool
    ghost const recvCapacity: nat
    ghost const sendCapacity: nat
    ghost var recvQueue: seq<Byte>      // what the receive buffer holds
    ghost var sendQueue: seq<Byte>      // what the send buffer holds
    var io: Members
    var os: Kernel
    ghost var log: History
    ghost var causes: set<Cause>        // what has happened that must end the session

    // ---- Invariant -----------------------------------------------------------------

    ghost predicate Core()
      reads this
    {
      && Counted(io, os)
      && Flagged(io, os, hasSocket)
      && RecvWindow(io, os, recvCapacity, recvQueue)
      && SendWindow(io, os, sendCapacity, |sendQueue|)
      && SentIntact(log, os.transmitted, sendQueue, io.onDisconnectedFired)
      && ReceivedIntact(log, recvQueue, io.onDisconnectedFired)
      && Lived(log, io, recvCapacity)
      && (io.onDisconnectedFired ==> recvQueue == [] && sendQueue == [])
      && (io.disconnectRequested ==> causes != {})
    }

    /** Whatever must end the session has been heeded. */
    ghost predicate Heeded()
      reads this`io, this`causes
    {
      causes != {} ==> io.disconnectRequested
    }

    /** The two rings hold the two queues. */
    ghost predicate Backed()
      reads this`recvQueue, this`sendQueue, Buffers()
    {
      Held() == Holding(recvQueue, sendQueue)
    }

    /** What two separate, valid rings hold. */
    ghost function Held(): Held
      reads Buffers()
    {
      if && recvBuffer != sendBuffer && recvBuffer.mem != sendBuffer.mem
         && recvBuffer.Valid() && recvBuffer.capacity == recvCapacity
         && sendBuffer.Valid() && sendBuffer.capacity == sendCapacity
      then Holding(recvBuffer.Contents(), sendBuffer.Contents())
      else Nothing
    }

    ghost function Buffers(): set<object>
    {
      {recvBuffer, recvBuffer.mem, sendBuffer, sendBuffer.mem}
    }

    /** No wakeup is lost on the send side: queued bytes are being sent, unless the last post of a send
        was refused. */
    ghost predicate SendSettled()
      reads this
    {
      !io.disconnectRequested && !os.phase.InSend? && sendQueue != [] ==> os.send || os.sendStalled
    }

    /** The receive loop never stops by itself, and has delivered all it can. */
    ghost predicate RecvSettled()
      reads this
    {
      !io.disconnectRequested && !os.phase.InRecv? ==>
        && (io.receiveLoopStarted ==> os.recv)
        && TryFrame(recvQueue) == NeedMore
    }

    /** A requested disconnect with nothing outstanding has fired. */
    ghost predicate Drained()
      reads this
    {
      os.phase.Rest? && io.disconnectRequested && io.outstanding == 0 ==> io.onDisconnectedFired
    }

    ghost predicate Inv()
      reads this
    {
      Core() && SendSettled() && RecvSettled() && Drained() && Heeded()
    }

    /** What a call made by the application may change. Inside a completion handler it never
        fires the disconnect callback and never touches the receive side. */
    twostate predicate Onward()
      reads this
    {
      && os.phase == old(os.phase)
      && (old(io.disconnectRequested) ==> io.disconnectRequested && log.accepted == old(log.accepted))
      && (old(io.onDisconnectedFired) ==> io.onDisconnectedFired)
      && (old(io.receiveLoopStarted) ==> io.receiveLoopStarted)
      && (old(os.recv) ==> os.recv)
      && os.connect == old(os.connect)
      && log == old(log).(accepted := log.accepted, firings := log.firings, violations := log.violations)
      && Blames(if old(io.disconnectRequested) then {ApplicationRequest} else CallCauses(os.phase))
      && (!os.phase.Rest? ==> io.onDisconnectedFired == old(io.onDisconnectedFired) && recvQueue == old(recvQueue))
    }

    /** Of what must end the session, only these were added. */
    twostate predicate Blames(cs: set<Cause>)
      reads this`causes
    {
      old(causes) <= causes <= old(causes) + cs
    }

    constructor (recvBuffer: CircleBufferQueue, sendBuffer: CircleBufferQueue, hasSocket: bool)
      requires recvBuffer != sendBuffer && recvBuffer.mem != sendBuffer.mem
      requires recvBuffer.Valid() && recvBuffer.Contents() == [] && sendBuffer.Valid() && sendBuffer.Contents() == []
      ensures Inv() && Backed() && os.phase.Rest? && !io.disconnectRequested
      ensures this.recvBuffer == recvBuffer && this.sendBuffer == sendBuffer && this.hasSocket == hasSocket
      ensures log == History([], [], [], [], [], [], 0, 0, {}) && causes == {}
    {
      this.recvBuffer, this.sendBuffer := recvBuffer, sendBuffer;
      this.recvCapacity, this.sendCapacity := recvBuffer.capacity, sendBuffer.capacity;
      this.hasSocket := hasSocket;
      recvQueue, sendQueue := [], [];
      io := Members(false, false, false, false, 0, false, 0, 0, false, false, 0, 0);
      os := Kernel(false, false, false, 0, false, false, Rest);
      log := History([], [], [], [], [], [], 0, 0, {});
      causes := {};
    }

    ghost method Note(v: Violation, happened: bool)
      modifies `log
      ensures log == if happened then old(log).(violations := old(log.violations) + {v}) else old(log)
    {
      if happened {
        log := log.(violations := log.violations + {v});
      }
    }

    /** Something happens that must end the session. */
    ghost method Blame(c: Cause, happened: bool)
      modifies `causes
      ensures causes == if happened then old(causes) + {c} else old(causes)
    {
      if happened {
        causes := causes + {c};
      }
    }

    // ---- Disconnecting ------------------------------------------------------------

    method TryFireOnDisconnected()
      requires Core() && io.disconnectRequested && io.outstanding == 0
      requires Backed()
      modifies this, Buffers()
      ensures Core() && Backed() && Onward() && io.disconnectRequested && io.onDisconnectedFired && log.accepted == old(log.accepted)
      ensures recvQueue == [] && sendQueue == []
      ensures Blames({ApplicationRequest})
      decreases if io.onDisconnectedFired then 0 else 1, 1
    {
      if !io.onDisconnectedFired {
        Note(UnrequestedDisconnected, !io.disconnectRequested);
        Note(DisconnectedWhileBusy, os.recv || os.send || os.connect || !os.phase.Rest?);
        io := io.(onDisconnectedFired := true);
        ClearBuffers();
        os := os.(transmitted := 0);
        OnDisconnected();
      }
    }

    /** All of the invariant but the count of the callback that is about to run. */
    ghost predicate Fired()
      reads this
    {
      && io.onDisconnectedFired && io.disconnectRequested && os.phase.Rest? && causes != {}
      && Counted(io, os)
      && Flagged(io, os, hasSocket)
      && os.transmitted == 0 && recvQueue == [] && sendQueue == []
      && SentIntact(log, 0, sendQueue, true)
      && ReceivedIntact(log, recvQueue, true)
      && Lived(log.(firings := 1), io, recvCapacity) && log.firings == 0
    }

    /** The callback; history counts it here. */
    method OnDisconnected()
      requires Fired()
      requires Backed()
      modifies this, Buffers()
      ensures Core() && Backed() && Onward() && io.disconnectRequested && log.accepted == old(log.accepted)
      ensures Blames({ApplicationRequest})
      decreases 0, 10
    {
      log := log.(firings := log.firings + 1);
      Application();
    }

    method RequestDisconnect()
      requires Core() && causes != {}
      requires Backed()
      modifies this, Buffers()
      ensures Core() && Backed() && Onward() && io.disconnectRequested && Drained() && log.accepted == old(log.accepted)
      ensures Blames({ApplicationRequest})
      decreases if io.onDisconnectedFired then 0 else 1, 2
    {
      if !io.disconnectRequested {
        io := io.(disconnectRequested := true);
        os := os.(closed := hasSocket);   // Shutdown and Close
        io := io.(recvInProgress := false);
        io := io.(sendInProgress := false);
      }
      if io.outstanding == 0 {
        TryFireOnDisconnected();
      }
    }

    /** The body of any callback: finitely many calls, in any order, with any arguments, the kernel
        answering as it likes. */
    method Application()
      requires Inv() && os.phase != InSend(true) && os.phase != InRecv(false)
      requires Backed()
      modifies this, Buffers()
      ensures Inv() && Backed() && Onward()
      decreases if io.onDisconnectedFired then 0 else 1, 9
    {
      var calls: nat := *;
      while calls > 0
        invariant Inv() && Backed() && Onward()
        decreases calls
      {
        CallIn();
        calls := calls - 1;
      }
    }

    /** One call of the application. */
    method CallIn()
      requires Inv() && os.phase != InSend(true) && os.phase != InRecv(false)
      requires Backed()
      modifies this, Buffers()
      ensures Inv() && Backed() && Onward()
      decreases if io.onDisconnectedFired then 0 else 1, 8
    {
      var choice: nat := *;
      var accepted: bool := *;
      if choice == 0 {
        var id: U16 := *;
        var body: seq<Byte> := *;
        SendMessage(Message(id, body), accepted);
      } else if choice == 1 {
        Disconnect();
      } else if choice == 2 {
        StartReceiveLoop(accepted);
      } else {
        RequestReceived(accepted);
      }
    }

    /** RequestDisconnect, called by the application. */
    method Disconnect()
      requires Inv()
      requires Backed()
      modifies this, Buffers()
      ensures Inv() && Backed() && Onward() && io.disconnectRequested
      decreases if io.onDisconnectedFired then 0 else 1, 5
    {
      Blame(ApplicationRequest, true);
      RequestDisconnect();
    }

    // ---- Sending -------------------------------------------------------------------

    /** What posting a send may change. */
    twostate predicate OnlySends()
      reads this
    {
      && os == old(os).(send := os.send, sendStalled := os.sendStalled) && (old(os.send) ==> os.send)
      && io == old(io).(sendInProgress := io.sendInProgress, sendRequested := io.sendRequested, outstanding := io.outstanding)
      && log == old(log)
    }

    /** Unless a send is in progress already, all queued bytes go to the kernel if there is a socket and
        the kernel accepts them; only a post that was made can be refused. */
    twostate predicate Posts(accepted: bool)
      reads this
    {
      if old(io.sendInProgress) then os.send && os.sendStalled == old(os.sendStalled) && io.sendRequested == old(io.sendRequested)
      else && os.send == (hasSocket && accepted) && os.sendStalled == !os.send
           && (os.send ==> io.sendRequested == |sendQueue|)
    }

    /** `accepted` is the kernel's answer, if it is asked. */
    method TryPostSendFromQueue(accepted: bool) returns (ok: bool)
      requires Core() && Backed() && os.phase != InSend(true)
      modifies `io, `os, `log
      ensures Core() && OnlySends()
      ensures if io.disconnectRequested || sendQueue == [] then os == old(os) && io == old(io) else Posts(accepted)
      ensures ok == (!io.disconnectRequested && (old(io.sendInProgress) || sendQueue == [] || (hasSocket && accepted)))
    {
      ok := !io.disconnectRequested;
      if ok && !io.sendInProgress {
        var bytesToSend, _ := sendBuffer.GetReadBuffers();
        if bytesToSend > 0 {
          ok := PostQueue(bytesToSend, accepted);
        }
      }
    }

    /** The send-in-progress flag is held; all queued bytes are posted. */
    method PostQueue(bytesToSend: nat, accepted: bool) returns (ok: bool)
      requires Core() && os.phase != InSend(true)
      requires !io.disconnectRequested && !io.sendInProgress && bytesToSend == |sendQueue| > 0
      modifies `io, `os, `log
      ensures Core() && OnlySends() && Posts(accepted) && ok == (hasSocket && accepted)
    {
      io := io.(sendInProgress := true, sendRequested := bytesToSend);   // PrepareSendBuffers
      ok := PostSend(accepted);
      if !ok {
        io := io.(sendInProgress := false);
      }
    }

    /** WSASend, if there is a socket and no send in flight; a refusal takes the operation off the counter again. */
    method PostSend(accepted: bool) returns (ok: bool)
      requires !os.send
      modifies `io, `os, `log
      ensures ok == (hasSocket && accepted)
      ensures io == old(io).(outstanding := old(io.outstanding) + One(ok))
      ensures os == old(os).(send := ok, sendStalled := !ok)
      ensures !io.onDisconnectedFired ==> log == old(log)
    {
      ok := false;
      if hasSocket {
        io := io.(outstanding := io.outstanding + 1);
        ok := accepted;
        if !ok {
          io := io.(outstanding := io.outstanding - 1);   // UndoOutstandingOnFailure
        }
      }
      Note(PostAfterDisconnected, ok && io.onDisconnectedFired);
      os := os.(send := ok, sendStalled := !ok);
    }

    method SendMessage(m: Message, accepted: bool)
      requires Inv() && os.phase != InSend(true)
      requires Backed()
      modifies this, Buffers()
      ensures Inv() && Backed() && Onward()
      ensures log.accepted == if !old(io.disconnectRequested) && TotalSize(m) <= sendCapacity - |old(sendQueue)|
                              then old(log.accepted) + [m] else old(log.accepted)
      // Connected, with room: the message is queued, a send posted, and the session stays connected.
      ensures !old(io.disconnectRequested) && TotalSize(m) <= sendCapacity - |old(sendQueue)| ==>
                !io.disconnectRequested && sendQueue == old(sendQueue) + Wire(m) && Posts(accepted)
      // Connected, without room: the session ends.
      ensures !old(io.disconnectRequested) && TotalSize(m) > sendCapacity - |old(sendQueue)| ==>
                io.disconnectRequested && SendOverflow in causes
      decreases if io.onDisconnectedFired then 0 else 1, 5
    {
      if !io.disconnectRequested {
        var stored := EnqueueAndPost(m, accepted);
        if !stored {
          RequestDisconnect();
        }
      }
    }

    method EnqueueAndPost(m: Message, accepted: bool) returns (stored: bool)
      requires Core() && Backed() && !io.disconnectRequested && os.phase != InSend(true)
      modifies `io, `os, `log, `sendQueue, `causes, sendBuffer`head, sendBuffer`size, sendBuffer.mem
      ensures Core() && Backed() && stored == (TotalSize(m) <= sendCapacity - |old(sendQueue)|)
      ensures os == old(os).(send := os.send, sendStalled := os.sendStalled)
      ensures io == old(io).(sendInProgress := io.sendInProgress, sendRequested := io.sendRequested, outstanding := io.outstanding)
      ensures log == if stored then old(log).(accepted := old(log.accepted) + [m]) else old(log)
      ensures causes == if stored then old(causes) else old(causes) + {SendOverflow}
      ensures stored ==> sendQueue == old(sendQueue) + Wire(m) && Posts(accepted)
    {
      stored := Enqueue(m);
      if stored {
        PostStored(accepted);
      }
    }

    /** TryPostSendFromQueue leaves the rings alone. */
    method PostStored(accepted: bool)
      requires Core() && Backed() && os.phase != InSend(true) && !io.disconnectRequested && sendQueue != []
      modifies `io, `os, `log
      ensures Core() && Backed() && OnlySends() && Posts(accepted)
    {
      var _ := TryPostSendFromQueue(accepted);
    }

    method Enqueue(m: Message) returns (ok: bool)
      requires Core() && Backed() && !io.disconnectRequested
      modifies `sendQueue, `log, `causes, sendBuffer`head, sendBuffer`size, sendBuffer.mem
      ensures Core() && Backed() && ok == (TotalSize(m) <= sendCapacity - |old(sendQueue)|)
      ensures if ok then sendQueue == old(sendQueue) + Wire(m) && log == old(log).(accepted := old(log.accepted) + [m])
              else sendQueue == old(sendQueue) && log == old(log)
      ensures causes == if ok then old(causes) else old(causes) + {SendOverflow}
    {
      ok := StoreMessage(m);
      Blame(SendOverflow, !ok);
      if ok {
        SentAppend(log, os.transmitted, old(sendQueue), m);
        log := log.(accepted := log.accepted + [m]);
      }
    }

    // ---- The rings -----------------------------------------------------------------

    /** AllocateWrite, then the packet stored through the spans. */
    method StoreMessage(m: Message) returns (ok: bool)
      requires Backed()
      modifies `sendQueue, sendBuffer`head, sendBuffer`size, sendBuffer.mem
      ensures Backed() && ok == (TotalSize(m) <= sendCapacity - |old(sendQueue)|)
      ensures sendQueue == if ok then old(sendQueue) + Wire(m) else old(sendQueue)
    {
      ok := AppendPacket(sendBuffer, m);
      if ok {
        sendQueue := sendQueue + Wire(m);
      }
    }

    /** Consume: the ring follows the queue. */
    method ReleaseSent(bytes: nat, ghost queue: seq<Byte>)
      requires Held() == Holding(recvQueue, queue) && bytes <= |queue| && sendQueue == queue[bytes..]
      modifies sendBuffer`tail, sendBuffer`size
      ensures Backed()
    {
      var _ := sendBuffer.Consume(bytes);
    }

    /** The kernel fills the spans of the receive, and CommitWrite appends what it stored. */
    method StoreReceived(data: seq<Byte>)
      requires Backed() && |data| <= recvCapacity - |recvQueue|
      modifies `recvQueue, recvBuffer`head, recvBuffer`size, recvBuffer.mem
      ensures Backed() && recvQueue == old(recvQueue) + data
    {
      FillAndCommit(recvBuffer, data);
      recvQueue := recvQueue + data;
    }

    /** TryFrameFromBuffer: a whole frame is popped from the ring; the queue follows when the packet is
        handed over. */
    method PopFrame() returns (frame: Frame)
      requires Backed()
      modifies `causes, recvBuffer`tail, recvBuffer`size
      ensures frame == TryFrame(recvQueue)
      ensures Held() == Holding(if frame.Ok? then recvQueue[Announced(recvQueue)..] else recvQueue, sendQueue)
      ensures causes == if frame.Invalid? then old(causes) + {BrokenHeader} else old(causes)
    {
      frame := TryFrameFromBuffer(recvBuffer);
      Blame(BrokenHeader, frame.Invalid?);
    }

    method ClearBuffers()
      requires Backed()
      modifies `recvQueue, `sendQueue, recvBuffer, sendBuffer
      ensures Backed() && recvQueue == [] && sendQueue == []
    {
      recvBuffer.Clear();
      sendBuffer.Clear();
      recvQueue, sendQueue := [], [];
    }

    // ---- Receiving ------------------------------------------------------------------

    /** WSARecv, if there is a socket and no receive in flight; a refusal takes the operation off the counter again. */
    method PostRecv(accepted: bool) returns (ok: bool)
      requires !os.recv
      modifies `io, `os, `log, `causes
      ensures ok == (hasSocket && accepted)
      ensures io == old(io).(outstanding := old(io.outstanding) + One(ok))
      ensures os == old(os).(recv := ok)
      ensures !io.onDisconnectedFired ==> log == old(log)
      ensures causes == if ok then old(causes) else old(causes) + {ReceiveRefused}
    {
      ok := false;
      if hasSocket {
        io := io.(outstanding := io.outstanding + 1);
        ok := accepted;
        if !ok {
          io := io.(outstanding := io.outstanding - 1);   // UndoOutstandingOnFailure
        }
      }
      Blame(ReceiveRefused, !ok);
      Note(PostAfterDisconnected, ok && io.onDisconnectedFired);
      os := os.(recv := ok);
    }

    /** RequestReceived: posts a zero-byte receive unless a receive is in progress. */
    method RequestReceived(accepted: bool)
      requires Core() && SendSettled() && Drained() && Heeded()
      requires !io.disconnectRequested && !io.recvInProgress ==> TryFrame(recvQueue) == NeedMore
      requires Backed()
      modifies this, Buffers()
      ensures Core() && Backed() && SendSettled() && Drained() && Heeded() && Onward()
      ensures !io.disconnectRequested ==> (os.recv || os.phase == InRecv(true)) && recvQueue == old(recvQueue)
      ensures old(io.disconnectRequested || io.recvInProgress) ==> io == old(io) && os == old(os) && causes == old(causes)
      ensures !old(io.disconnectRequested || io.recvInProgress) ==>
                if hasSocket && accepted
                then !io.disconnectRequested && os == old(os).(recv := true) && io.recvIsZeroByte && causes == old(causes)
                else io.disconnectRequested && ReceiveRefused in causes
      decreases if io.onDisconnectedFired then 0 else 1, 4
    {
      if !io.disconnectRequested && !io.recvInProgress {
        var ok := PostZeroByteRecv(accepted);
        if !ok {
          RequestDisconnect();
        }
      }
    }

    method PostZeroByteRecv(accepted: bool) returns (ok: bool)
      requires Core() && !io.disconnectRequested && !io.recvInProgress && TryFrame(recvQueue) == NeedMore
      modifies `io, `os, `log, `causes
      ensures Core() && log == old(log) && os == old(os).(recv := ok) && ok == (hasSocket && accepted)
      ensures io == old(io).(recvInProgress := ok, outstanding := io.outstanding, recvIsZeroByte := true, recvRequested := 0)
      ensures causes == if ok then old(causes) else old(causes) + {ReceiveRefused}
    {
      io := io.(recvInProgress := true, recvIsZeroByte := true, recvRequested := 0);   // PrepareRecvBuffers(true)
      ok := PostRecv(accepted);
      if !ok {
        io := io.(recvInProgress := false);
      }
    }

    method StartReceiveLoop(accepted: bool)
      requires Inv() && os.phase != InRecv(false)
      requires Backed()
      modifies this, Buffers()
      ensures Inv() && Backed() && Onward() && (!io.disconnectRequested ==> io.receiveLoopStarted)
      ensures old(io.disconnectRequested || io.receiveLoopStarted) ==> io == old(io) && os == old(os) && causes == old(causes)
      ensures !old(io.disconnectRequested || io.receiveLoopStarted) ==> io.receiveLoopStarted
      ensures !old(io.disconnectRequested || io.receiveLoopStarted || io.recvInProgress) ==>
                if hasSocket && accepted
                then !io.disconnectRequested && os == old(os).(recv := true) && io.recvIsZeroByte
                else io.disconnectRequested && ReceiveRefused in causes
      ensures old(io.recvInProgress) ==> causes == old(causes)
      decreases if io.onDisconnectedFired then 0 else 1, 5
    {
      if !io.disconnectRequested && !io.receiveLoopStarted {
        io := io.(receiveLoopStarted := true);
        RequestReceived(accepted);
      }
    }

    /** RequestRecv(false): posts a receive into all the free space. */
    method RequestRealRecv(accepted: bool) returns (ok: bool)
      requires Core() && os.phase == InRecv(true) && TryFrame(recvQueue) == NeedMore
      requires Backed()
      modifies this, Buffers()
      ensures Core() && Backed() && log.received == old(log.received) && recvQueue == old(recvQueue)
      ensures ok == (hasSocket && accepted && |recvQueue| < recvCapacity) && os.phase == InRecv(!ok)
      ensures ok ==> && os == old(os).(recv := true, phase := InRecv(false)) && causes == old(causes)
                     && RealRecv() && io.disconnectRequested == old(io.disconnectRequested)
      ensures !ok ==> causes != {} && Blames({NoFreeSpace, ReceiveRefused, ApplicationRequest})
      ensures ok ==> SendSettled() == old(SendSettled())
    {
      var freeSpace, _ := recvBuffer.GetWriteableBuffers();
      if freeSpace == 0 {
        ok := false;
        NoRoom();
      } else {
        ok := PostRealRecv(freeSpace, accepted);
      }
    }

    /** The receive block asks for all the free space. */
    ghost predicate RealRecv()
      reads this`io, this`recvQueue
    {
      !io.recvIsZeroByte && io.recvRequested == recvCapacity - |recvQueue|
    }

    method PostRealRecv(freeSpace: nat, accepted: bool) returns (ok: bool)
      requires Core() && os.phase == InRecv(true) && 0 < freeSpace == recvCapacity - |recvQueue|
      modifies `io, `os, `log, `causes
      ensures Core() && log == old(log) && ok == (hasSocket && accepted) && RealRecv()
      ensures os == old(os).(recv := ok, phase := InRecv(!ok)) && io.disconnectRequested == old(io.disconnectRequested)
      ensures causes == if ok then old(causes) else old(causes) + {ReceiveRefused}
    {
      io := io.(recvIsZeroByte := false, recvRequested := freeSpace);
      ok := PostRecv(accepted);
      if ok {
        os := os.(phase := InRecv(false));
      }
    }

    /** The receive buffer is full: disconnect. */
    method NoRoom()
      requires Core() && os.phase == InRecv(true) && TryFrame(recvQueue) == NeedMore && |recvQueue| == recvCapacity
      requires Backed()
      modifies this, Buffers()
      ensures Core() && Backed() && log.received == old(log.received) && os.phase == InRecv(true) && recvQueue == old(recvQueue)
      ensures io.disconnectRequested && NoFreeSpace in causes && Blames({NoFreeSpace, ApplicationRequest})
    {
      io := io.(recvIsZeroByte := false, recvRequested := 0);
      Blame(NoFreeSpace, true);
      Note(ReceiveBufferFull, true);
      RequestDisconnect();
    }

    // ---- Completions ------------------------------------------------------------------

    /** The end of every completion handler: IoCompletionGuard's destructor. */
    method EndCompletion()
      requires Core() && !os.phase.Rest? && Heeded()
      requires !io.disconnectRequested && sendQueue != [] ==> os.send || os.sendStalled
      requires !io.disconnectRequested ==> (io.receiveLoopStarted ==> os.recv) && TryFrame(recvQueue) == NeedMore
      requires (os.phase != InRecv(true) && os.phase != InSend(true)) || io.disconnectRequested
      requires Backed()
      modifies this, Buffers()
      ensures Inv() && Backed() && os.phase.Rest?
      ensures log == old(log).(accepted := log.accepted, firings := log.firings, violations := log.violations)
      ensures !old(io.disconnectRequested) ==>
                && io == old(io).(outstanding := old(io.outstanding) - 1) && os == old(os).(phase := Rest)
                && causes == old(causes) && recvQueue == old(recvQueue) && sendQueue == old(sendQueue)
      ensures old(io.disconnectRequested) ==> io.disconnectRequested && Blames({ApplicationRequest})
    {
      var previousCount := io.outstanding;
      io := io.(outstanding := io.outstanding - 1);
      os := os.(phase := Rest);
      if previousCount == 1 && io.disconnectRequested {
        TryFireOnDisconnected();
      }
    }

    method ReleaseRecv()
      requires Core() && os.phase == InRecv(true)
      modifies `io, `os
      ensures Core() && os == old(os).(phase := InRecv(false)) && io == old(io).(recvInProgress := false)
    {
      io := io.(recvInProgress := false);
      os := os.(phase := InRecv(false));
    }

    /** The flag is released and the disconnect requested. */
    method DropRecv()
      requires Core() && os.phase == InRecv(true) && causes != {}
      requires Backed()
      modifies this, Buffers()
      ensures Core() && Backed() && os.phase == InRecv(false) && log.received == old(log.received) && io.disconnectRequested
      ensures Blames({ApplicationRequest})
    {
      ReleaseRecv();
      RequestDisconnect();
    }

    /** `accepted` is the kernel's answer to the receive posted next. */
    method OnRecvCompleted(success: bool, data: seq<Byte>, accepted: bool)
      requires Inv() && os.phase.Rest? && os.recv
      requires |data| <= if io.recvIsZeroByte then 0 else io.recvRequested
      requires Backed()
      modifies this, Buffers()
      ensures Inv() && Backed() && os.phase.Rest?
      ensures log.received == old(log.received) + (if success && !old(io.recvIsZeroByte) then data else [])
      ensures !success || (!old(io.recvIsZeroByte) && data == []) ==> io.disconnectRequested
      // A zero-byte receive is followed by a real one into all the free space.
      ensures && success && old(io.recvIsZeroByte) && !old(io.disconnectRequested)
              && hasSocket && accepted && |old(recvQueue)| < recvCapacity
              ==> !io.disconnectRequested && os == old(os) && RealRecv() && recvQueue == old(recvQueue)
      // Data ends the session only through what it says or what the application does about it.
      ensures success && !old(io.recvIsZeroByte) && data != [] && hasSocket && accepted ==>
                Blames({ApplicationRequest, SendOverflow, BrokenHeader})
    {
      BeginRecvCompletion(success, data);
      HandleRecvCompletion(success, data, accepted);
      EndCompletion();
    }

    /** The receive is back from the kernel, with whatever it means, and its handler owns it. */
    method BeginRecvCompletion(success: bool, data: seq<Byte>)
      requires Inv() && os.phase.Rest? && os.recv
      modifies `os, `causes
      ensures Core() && SendSettled() && os == old(os).(recv := false, phase := InRecv(true))
      ensures io.recvIsZeroByte ==> TryFrame(recvQueue) == NeedMore
      ensures !io.recvIsZeroByte ==> io.recvRequested == recvCapacity - |recvQueue|
      ensures if !success || (!io.recvIsZeroByte && data == []) then causes != {} && old(causes) <= causes
              else causes == old(causes)
    {
      os := os.(recv := false, phase := InRecv(true));
      Blame(CompletionFailed, !success);
      Blame(PeerClosed, success && !io.recvIsZeroByte && data == []);
    }

    method HandleRecvCompletion(success: bool, data: seq<Byte>, accepted: bool)
      requires Core() && SendSettled() && os.phase == InRecv(true)
      requires io.recvIsZeroByte ==> data == [] && TryFrame(recvQueue) == NeedMore
      requires !io.recvIsZeroByte ==> |data| <= recvCapacity - |recvQueue|
      requires if !success || (!io.recvIsZeroByte && data == []) then causes != {} else Heeded()
      requires Backed()
      modifies this, Buffers()
      ensures Core() && Backed() && os.phase == InRecv(false) && Heeded()
      ensures log.received == old(log.received) + (if success && !old(io.recvIsZeroByte) then data else [])
      ensures !io.disconnectRequested ==> os.recv && SendSettled() && TryFrame(recvQueue) == NeedMore
      ensures !success || (!old(io.recvIsZeroByte) && data == []) ==> io.disconnectRequested
      ensures && success && old(io.recvIsZeroByte) && !old(io.disconnectRequested)
              && hasSocket && accepted && |old(recvQueue)| < recvCapacity
              ==> && !io.disconnectRequested && os == old(os).(recv := true, phase := InRecv(false))
                  && RealRecv() && recvQueue == old(recvQueue)
      ensures success && !old(io.recvIsZeroByte) && data != [] && hasSocket && accepted ==>
                Blames({ApplicationRequest, SendOverflow, BrokenHeader})
    {
      if !success {
        DropRecv();
      } else if io.recvIsZeroByte {
        HandleZeroByteRecvCompletion(|data|, accepted);
      } else {
        HandleRealRecvCompletion(data, accepted);
      }
    }

    /** A zero-byte receive that reports bytes only lets go of the flag. */
    method HandleZeroByteRecvCompletion(bytes: nat, accepted: bool)
      requires Core() && SendSettled() && os.phase == InRecv(true) && TryFrame(recvQueue) == NeedMore && Heeded()
      requires Backed()
      modifies this, Buffers()
      ensures Core() && Backed() && os.phase == InRecv(false) && log.received == old(log.received) && Heeded()
      ensures bytes == 0 && hasSocket && accepted && |old(recvQueue)| < recvCapacity ==>
                && io.disconnectRequested == old(io.disconnectRequested) && causes == old(causes)
                && os == old(os).(recv := true, phase := InRecv(false)) && RealRecv() && recvQueue == old(recvQueue)
      ensures bytes == 0 && !(hasSocket && accepted && |old(recvQueue)| < recvCapacity) ==> io.disconnectRequested
      ensures bytes == 0 && !io.disconnectRequested ==> os.recv && SendSettled() && TryFrame(recvQueue) == NeedMore
      ensures bytes > 0 ==> os == old(os).(phase := InRecv(false)) && io == old(io).(recvInProgress := false)
    {
      if bytes == 0 {
        var ok := RequestRealRecv(accepted);
        if !ok {
          DropRecv();
        }
      } else {
        ReleaseRecv();
      }
    }

    method HandleRealRecvCompletion(data: seq<Byte>, accepted: bool)
      requires Core() && SendSettled() && os.phase == InRecv(true)
      requires |data| <= recvCapacity - |recvQueue|
      requires if data == [] then causes != {} else Heeded()
      requires Backed()
      modifies this, Buffers()
      ensures Core() && Backed() && os.phase == InRecv(false) && log.received == old(log.received) + data && Heeded()
      ensures data == [] ==> io.disconnectRequested
      ensures !io.disconnectRequested ==> os.recv && SendSettled() && TryFrame(recvQueue) == NeedMore
      ensures hasSocket && accepted && data != [] ==> Blames({ApplicationRequest, SendOverflow, BrokenHeader})
    {
      if data == [] {
        DropRecv();
      } else {
        CommitReceived(data);
        AfterCommit(accepted);
      }
    }

    method AfterCommit(accepted: bool)
      requires Core() && SendSettled() && os.phase == InRecv(true) && Heeded()
      requires Backed()
      modifies this, Buffers()
      ensures Core() && Backed() && os.phase == InRecv(false) && log.received == old(log.received) && Heeded()
      ensures !io.disconnectRequested ==> os.recv && SendSettled() && TryFrame(recvQueue) == NeedMore
      ensures hasSocket && accepted ==> Blames({ApplicationRequest, SendOverflow, BrokenHeader})
    {
      if io.disconnectRequested {
        ReleaseRecv();
      } else {
        DeliverAndRearm(accepted);
      }
    }

    method DeliverAndRearm(accepted: bool)
      requires Core() && SendSettled() && os.phase == InRecv(true) && Heeded()
      requires Backed()
      modifies this, Buffers()
      ensures Core() && Backed() && os.phase == InRecv(false) && log.received == old(log.received) && Heeded()
      ensures !io.disconnectRequested ==> os.recv && SendSettled() && TryFrame(recvQueue) == NeedMore
      ensures hasSocket && accepted ==> Blames({ApplicationRequest, SendOverflow, BrokenHeader})
    {
      ReadReceivedBuffers();
      ReleaseRecv();
      RequestReceived(accepted);
    }

    /** CommitWrite of what the kernel stored; it has the room, the receive covered the free space. */
    method CommitReceived(data: seq<Byte>)
      requires Core() && Backed() && os.phase == InRecv(true) && |data| <= recvCapacity - |recvQueue|
      modifies `recvQueue, `io, `log, recvBuffer`head, recvBuffer`size, recvBuffer.mem
      ensures Core() && Backed() && recvQueue == old(recvQueue) + data && io == old(io).(totalRx := old(io.totalRx) + |data|)
      ensures log == old(log).(received := old(log.received) + data)
    {
      ReceivedMore(log, recvQueue, data);
      StoreReceived(data);
      io := io.(totalRx := io.totalRx + |data|);
      log := log.(received := log.received + data);
    }

    method ReadReceivedBuffers()
      requires Core() && SendSettled() && os.phase == InRecv(true) && Heeded()
      requires Backed()
      modifies this, Buffers()
      ensures Core() && Backed() && SendSettled() && os.phase == InRecv(true) && log.received == old(log.received) && Heeded()
      ensures !io.disconnectRequested ==> TryFrame(recvQueue) == NeedMore
      ensures Blames({ApplicationRequest, SendOverflow, BrokenHeader})
    {
      var more := true;
      while more && !io.disconnectRequested
        invariant Core() && Backed() && SendSettled() && os.phase == InRecv(true) && log.received == old(log.received) && Heeded()
        invariant !more && !io.disconnectRequested ==> TryFrame(recvQueue) == NeedMore
        invariant Blames({ApplicationRequest, SendOverflow, BrokenHeader})
        decreases |recvQueue|, more
      {
        more := ReadOne();
      }
    }

    /** One round: a whole frame is delivered, a broken header disconnects. */
    method ReadOne() returns (more: bool)
      requires Core() && SendSettled() && os.phase == InRecv(true) && !io.disconnectRequested && Heeded()
      requires Backed()
      modifies this, Buffers()
      ensures Core() && Backed() && SendSettled() && os.phase == InRecv(true) && log.received == old(log.received) && Heeded()
      ensures more == old(TryFrame(recvQueue).Ok?)
      ensures more ==> |recvQueue| < |old(recvQueue)| && log.delivered == old(log.delivered) + [old(TryFrame(recvQueue)).packet]
      ensures !more ==> recvQueue == old(recvQueue) && log.delivered == old(log.delivered)
      ensures !more ==> (io.disconnectRequested <==> TryFrame(recvQueue) == Invalid)
      ensures Blames({ApplicationRequest, SendOverflow, BrokenHeader})
    {
      var frame := PopFrame();
      more := frame.Ok?;
      if more {
        OnPacketReceived(frame.packet);
      } else if frame.Invalid? {
        RequestDisconnect();
      }
    }

    /** The callback; the queue and the history follow the popped frame here. */
    method OnPacketReceived(packet: Message)
      requires Core() && SendSettled() && os.phase == InRecv(true) && !io.disconnectRequested && Heeded()
      requires TryFrame(recvQueue) == Ok(packet) && Held() == Holding(recvQueue[Announced(recvQueue)..], sendQueue)
      modifies this, Buffers()
      ensures Core() && Backed() && SendSettled() && os.phase == InRecv(true) && log.received == old(log.received) && Heeded()
      ensures |recvQueue| < |old(recvQueue)| && log.delivered == old(log.delivered) + [packet]
      ensures Blames({ApplicationRequest, SendOverflow})
    {
      PoppedFrame(log, recvQueue);
      recvQueue := recvQueue[Announced(recvQueue)..];
      log := log.(delivered := log.delivered + [packet]);
      Note(CallbackAfterDisconnect, io.disconnectRequested);
      Application();
    }

    /** `accepted` is the kernel's answer to the next send. */
    method OnSendCompleted(success: bool, bytes: nat, accepted: bool)
      requires Inv() && os.phase.Rest? && os.send
      requires success ==> bytes == os.transmitted
      requires Backed()
      modifies this, Buffers()
      ensures Inv() && Backed() && os.phase.Rest? && log.wire == old(log.wire) && (!success ==> io.disconnectRequested)
      ensures log.consumed == old(log.consumed) + (if success then old(sendQueue)[..bytes] else [])
      ensures log.sentCalls == old(log.sentCalls) + (if success && !old(io.disconnectRequested) then [bytes] else [])
      ensures success ==> Blames(CallCauses(Rest))
    {
      Blame(CompletionFailed, !success);
      HandleSendCompletion(success, bytes, accepted);
      EndCompletion();
    }

    method HandleSendCompletion(success: bool, bytes: nat, accepted: bool)
      requires Core() && RecvSettled() && os.phase.Rest? && os.send
      requires if success then bytes == os.transmitted && Heeded() else causes != {}
      requires Backed()
      modifies this, Buffers()
      ensures Core() && Backed() && RecvSettled() && os.phase == InSend(!success) && (!success ==> io.disconnectRequested) && Heeded()
      ensures !io.disconnectRequested && sendQueue != [] ==> os.send || os.sendStalled
      ensures log.wire == old(log.wire)
      ensures log.consumed == old(log.consumed) + (if success then old(sendQueue)[..bytes] else [])
      ensures log.sentCalls == old(log.sentCalls) + (if success && !old(io.disconnectRequested) then [bytes] else [])
      ensures success ==> Blames(CallCauses(Rest))
    {
      if !success {
        FailSend();
      } else {
        FinishSend(bytes, accepted);
      }
    }

    method FinishSend(bytes: nat, accepted: bool)
      requires Core() && RecvSettled() && os.phase.Rest? && os.send && bytes == os.transmitted && Heeded()
      requires Backed()
      modifies this, Buffers()
      ensures Core() && Backed() && RecvSettled() && os.phase == InSend(false) && Heeded()
      ensures !io.disconnectRequested && sendQueue != [] ==> os.send || os.sendStalled
      ensures log.wire == old(log.wire) && log.consumed == old(log.consumed) + old(sendQueue)[..bytes]
      ensures log.sentCalls == old(log.sentCalls) + (if old(io.disconnectRequested) then [] else [bytes])
      ensures Blames(CallCauses(Rest))
    {
      ConsumeSent(bytes);
      AfterSent(bytes, accepted);
    }

    method FailSend()
      requires Core() && RecvSettled() && os.phase.Rest? && os.send && causes != {}
      requires Backed()
      modifies this, Buffers()
      ensures Core() && Backed() && RecvSettled() && os.phase == InSend(true) && io.disconnectRequested
      ensures log == old(log).(accepted := log.accepted, firings := log.firings, violations := log.violations)
      ensures Blames({ApplicationRequest})
    {
      os := os.(send := false, phase := InSend(true));
      io := io.(sendInProgress := false);
      RequestDisconnect();
    }

    /** HandleSendCompletion after Consume: the sent callback, then the next send. */
    method AfterSent(bytes: nat, accepted: bool)
      requires Core() && RecvSettled() && os.phase == InSend(false) && Heeded()
      requires Backed()
      modifies this, Buffers()
      ensures Core() && Backed() && RecvSettled() && os.phase == InSend(false) && Heeded()
      ensures log.consumed == old(log.consumed) && log.wire == old(log.wire)
      ensures log.sentCalls == old(log.sentCalls) + (if old(io.disconnectRequested) then [] else [bytes])
      ensures !io.disconnectRequested && sendQueue != [] ==> os.send || os.sendStalled
      ensures Blames(CallCauses(Rest))
    {
      if !io.disconnectRequested {
        OnSent(bytes);
        SendRest(accepted);
      }
    }

    /** The callback; history counts it here. */
    method OnSent(bytes: nat)
      requires Inv() && os.phase == InSend(false) && !io.disconnectRequested
      requires Backed()
      modifies this, Buffers()
      ensures Inv() && Backed() && os.phase == InSend(false)
      ensures log.consumed == old(log.consumed) && log.wire == old(log.wire) && log.sentCalls == old(log.sentCalls) + [bytes]
      ensures Blames(CallCauses(Rest))
    {
      Note(CallbackAfterDisconnect, io.disconnectRequested);
      log := log.(sentCalls := log.sentCalls + [bytes]);
      Application();
    }

    method SendRest(accepted: bool)
      requires Core() && Backed() && RecvSettled() && os.phase == InSend(false)
      modifies `io, `os, `log
      ensures Core() && RecvSettled() && os.phase == InSend(false) && log == old(log)
      ensures io.disconnectRequested == old(io.disconnectRequested)
      ensures if io.disconnectRequested || sendQueue == [] then os == old(os) && io == old(io) else Posts(accepted)
    {
      var queued := sendBuffer.CanReadSize();
      if queued > 0 && !io.disconnectRequested {
        var _ := TryPostSendFromQueue(accepted);
      }
    }

    /** A successful send completion, up to Consume. */
    method ConsumeSent(bytes: nat)
      requires Core() && RecvSettled() && Backed() && os.phase.Rest? && os.send && bytes == os.transmitted
      modifies `sendQueue, `io, `os, `log, sendBuffer`tail, sendBuffer`size
      ensures Core() && Backed() && RecvSettled() && os == old(os).(send := false, transmitted := 0, phase := InSend(false))
      ensures io == old(io).(sendInProgress := false, totalTx := old(io.totalTx) + bytes)
      ensures log == old(log).(consumed := old(log.consumed) + old(sendQueue)[..bytes])
      ensures sendQueue == old(sendQueue)[bytes..]
    {
      RecordSent(bytes);
      ReleaseSent(bytes, old(sendQueue));
    }

    method RecordSent(bytes: nat)
      requires Core() && RecvSettled() && os.phase.Rest? && os.send && bytes == os.transmitted
      modifies `sendQueue, `io, `os, `log
      ensures Core() && RecvSettled() && os == old(os).(send := false, transmitted := 0, phase := InSend(false))
      ensures io == old(io).(sendInProgress := false, totalTx := old(io.totalTx) + bytes)
      ensures log == old(log).(consumed := old(log.consumed) + old(sendQueue)[..bytes])
      ensures sendQueue == old(sendQueue)[bytes..]
    {
      SentConsume(log, bytes, sendQueue);
      io := io.(sendInProgress := false, totalTx := io.totalTx + bytes);
      os := os.(send := false, transmitted := 0, phase := InSend(false));
      log := log.(consumed := log.consumed + sendQueue[..bytes]);
      sendQueue := sendQueue[bytes..];
    }

    /** TCP takes `k` more bytes of the posted send. */
    method TcpTakes(k: nat)
      requires Inv() && os.send && os.transmitted + k <= io.sendRequested
      modifies `os, `log
      ensures Inv() && os == old(os).(transmitted := old(os.transmitted) + k)
      ensures log == old(log).(wire := old(log.wire) + sendQueue[old(os.transmitted)..old(os.transmitted) + k])
    {
      log := TakeFromQueue(log, os.transmitted, sendQueue, k);
      os := os.(transmitted := os.transmitted + k);
    }

    // ---- Connecting (OutboundSession) ---------------------------------------------------

    /** IOSocketConnector's use of MarkConnectIoPosted, ConnectEx and UndoConnectIoOnPostFailure;
        the connector makes it once, before anyone else knows the session. */
    method Connect(accepted: bool)
      requires Inv() && os.phase.Rest? && !os.connect && !io.disconnectRequested
      modifies `io, `os, `log
      ensures Inv() && os == old(os).(connect := accepted) && log == old(log)
    {
      PostConnect(accepted);
    }

    method PostConnect(accepted: bool)
      requires !os.connect
      modifies `io, `os, `log
      ensures io == old(io).(outstanding := old(io.outstanding) + One(accepted), connectIoPending := accepted)
      ensures os == old(os).(connect := accepted)
      ensures !io.onDisconnectedFired ==> log == old(log)
    {
      io := io.(outstanding := io.outstanding + 1, connectIoPending := true);   // MarkConnectIoPosted
      if !accepted {
        io := io.(outstanding := io.outstanding - 1, connectIoPending := false);   // UndoConnectIoOnPostFailure
      }
      Note(PostAfterDisconnected, accepted && io.onDisconnectedFired);
      os := os.(connect := accepted);
    }

    /** `accepted` is the kernel's answer to the first receive. */
    method OnConnectCompleted(success: bool, contextUpdated: bool, accepted: bool)
      requires Inv() && os.phase.Rest? && os.connect
      requires Backed()
      modifies this, Buffers()
      ensures Inv() && Backed() && os.phase.Rest?
      ensures old(io.disconnectRequested) || !success || !contextUpdated ==> io.disconnectRequested
      ensures !io.disconnectRequested ==> io.receiveLoopStarted && os.recv
      ensures log.connectedCalls == old(log.connectedCalls) + One(success && contextUpdated && !old(io.disconnectRequested))
      ensures success && contextUpdated ==> Blames(CallCauses(Rest))
    {
      Blame(ConnectFailed, !io.disconnectRequested && (!success || !contextUpdated));
      HandleConnectCompletion(success, contextUpdated, accepted);
      EndCompletion();
    }

    method HandleConnectCompletion(success: bool, contextUpdated: bool, accepted: bool)
      requires Core() && SendSettled() && RecvSettled() && os.phase.Rest? && os.connect
      requires if !io.disconnectRequested && (!success || !contextUpdated) then causes != {} else Heeded()
      requires Backed()
      modifies this, Buffers()
      ensures Core() && Backed() && SendSettled() && RecvSettled() && os.phase == InConnect && Heeded()
      ensures old(io.disconnectRequested) || !success || !contextUpdated ==> io.disconnectRequested
      ensures !io.disconnectRequested ==> io.receiveLoopStarted
      ensures log.connectedCalls == old(log.connectedCalls) + One(success && contextUpdated && !old(io.disconnectRequested))
      ensures success && contextUpdated ==> Blames(CallCauses(Rest))
    {
      os := os.(connect := false, phase := InConnect);
      io := io.(connectIoPending := false);
      if !io.disconnectRequested {
        if !success || !contextUpdated {
          RequestDisconnect();
        } else {
          OnConnected(accepted);
        }
      }
    }

    /** The callback: the receive loop, then the application; history counts it here. */
    method OnConnected(accepted: bool)
      requires Inv() && os.phase == InConnect && !io.disconnectRequested
      requires Backed()
      modifies this, Buffers()
      ensures Inv() && Backed() && os.phase == InConnect && (!io.disconnectRequested ==> io.receiveLoopStarted)
      ensures log.connectedCalls == old(log.connectedCalls) + 1
      ensures Blames(CallCauses(Rest))
    {
      Note(CallbackAfterDisconnect, io.disconnectRequested);
      log := log.(connectedCalls := log.connectedCalls + 1);
      StartReceiveLoop(accepted);
      Application();
    }

    // ---- Every run ------------------------------------------------------------------------

    /** A call from the application, a completion, or TCP taking bytes. */
    method TakeStep()
      requires Inv() && os.phase.Rest?
      requires Backed()
      modifies this, Buffers()
      ensures Inv() && Backed() && os.phase.Rest?
    {
      var choice: nat := *;
      if choice == 0 {
        Application();
      } else if choice == 1 && !os.connect && !io.disconnectRequested {
        var accepted: bool := *;
        Connect(accepted);
      } else if choice == 2 && os.send {
        var k: nat := *;
        TcpTakes(Min(k, io.sendRequested - os.transmitted));
      } else {
        TakeCompletion();
      }
    }

    /** One of the operations in the kernel completes, if there is one. */
    method TakeCompletion()
      requires Inv() && os.phase.Rest?
      requires Backed()
      modifies this, Buffers()
      ensures Inv() && Backed() && os.phase.Rest?
    {
      var choice: nat := *;
      var success: bool := *;
      var accepted: bool := *;
      if choice == 0 && os.recv {
        var data: seq<Byte> := *;
        OnRecvCompleted(success, data[..Min(|data|, if io.recvIsZeroByte then 0 else io.recvRequested)], accepted);
      } else if choice == 1 && os.send {
        OnSendCompleted(success, os.transmitted, accepted);
      } else if choice == 2 && os.connect {
        var contextUpdated: bool := *;
        OnConnectCompleted(success, contextUpdated, accepted);
      }
    }

    /** Any number of calls and completions, in any order. */
    method Serve(steps: nat)
      requires Inv() && os.phase.Rest?
      requires Backed()
      modifies this, Buffers()
      ensures Inv() && Backed() && os.phase.Rest?
      // The session ends exactly when something has happened that must end it.
      ensures io.disconnectRequested <==> causes != {}
      // Drain: the disconnect callback has run exactly when a disconnect was requested and nothing
      // is outstanding; it ran at most once, and then the kernel holds nothing of this session.
      ensures io.onDisconnectedFired <==> io.disconnectRequested && io.outstanding == 0
      ensures log.firings == One(io.onDisconnectedFired)
      ensures io.onDisconnectedFired ==> !os.recv && !os.send && !os.connect
      ensures io.onDisconnectedFired ==> recvBuffer.Contents() == [] && sendBuffer.Contents() == []
      // Order of callbacks and posts, and room to receive
      ensures recvCapacity >= MAX_PACKET_SIZE ==> log.violations == {}
      ensures log.violations <= {ReceiveBufferFull}
      // Streams: what TCP took is a prefix of what was accepted; until a disconnect, all packets
      // that arrived whole were delivered and the rest is waiting.
      ensures log.wire <= Stream(log.accepted)
      ensures !io.disconnectRequested ==> Parse(log.received) == Parsed(log.delivered, Waiting(recvQueue))
      // Liveness at rest: the receive loop is armed and queued bytes are on their way.
      ensures !io.disconnectRequested && io.receiveLoopStarted ==> os.recv
      ensures !io.disconnectRequested && sendQueue != [] ==> os.send || os.sendStalled
    {
      for i := 0 to steps
        invariant Inv() && Backed() && os.phase.Rest?
      {
        TakeStep();
      }
      if !io.disconnectRequested {
        ParseWholeMessages(log.delivered, recvQueue);
        assert log.delivered + [] == log.delivered;
      }
    }
  }

  /** End to end: two sessions joined by a TCP connection, that is, the receiver was given a prefix
      of what TCP took from the sender. If every accepted message fits the size field, the packets
      the receiver delivered are the first messages the sender accepted, ids and bodies intact, and
      the receiver never meets a broken header. Once everything accepted has arrived and no
      disconnect was requested, all of it has been delivered. Before either callback the rings hold
      exactly what is accepted and not yet released, and what is received and not yet delivered. */
  lemma EndToEnd(sender: IOSession, receiver: IOSession)
    requires sender.Inv() && sender.Backed() && receiver.Inv() && receiver.Backed()
    requires receiver.log.received <= sender.log.wire
    requires forall m <- sender.log.accepted :: Fits(m)
    ensures receiver.log.delivered <= sender.log.accepted
    ensures Parse(receiver.log.received).status.Waiting?
    ensures (&& receiver.log.received == Stream(sender.log.accepted)
             && !receiver.io.disconnectRequested && receiver.os.phase.Rest?)
            ==> receiver.log.delivered == sender.log.accepted
    ensures !sender.io.onDisconnectedFired ==>
              Stream(sender.log.accepted) == sender.log.consumed + sender.sendBuffer.Contents()
    ensures !receiver.io.onDisconnectedFired ==>
              receiver.log.received == Stream(receiver.log.delivered) + receiver.recvBuffer.Contents()
  {
    DeliveredArePrefix(sender.log.accepted, receiver.log.received, receiver.log.delivered);
  }

  /** Whole messages at the front of a prefix of a stream are the first messages of that stream; and all of
      them, if the stream is whole and no frame is left in what follows them. */
  lemma DeliveredArePrefix(accepted: seq<Message>, received: seq<Byte>, delivered: seq<Message>)
    requires (forall m <- accepted :: Fits(m)) && (forall m <- delivered :: Fits(m))
    requires received <= Stream(accepted) && Stream(delivered) <= received
    ensures delivered <= accepted && Parse(received).status.Waiting?
    ensures received == Stream(accepted) && TryFrame(received[|Stream(delivered)|..]) == NeedMore ==> delivered == accepted
  {
    var rest := received[|Stream(delivered)|..];
    assert received == Stream(delivered) + rest;
    PrefixParsesToPrefix(accepted, received);
    ParseWholeMessages(delivered, rest);
  }
}
