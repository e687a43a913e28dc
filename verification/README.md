# FastPort, verified model

FastPort is a Windows TCP engine built on I/O completion ports and on Registered I/O. This project
models its session stack in Dafny and proves what it is for: messages arrive whole and in order, no
byte is lost on the way through ring buffers and partial sends, a session is torn down exactly once
and only when nothing of it is left in the kernel, timers are closed once, registered memory is never
shared, and the benchmark driver sends and samples exactly what it set out to.

`dafny verify dfyconfig.toml` checks everything. Each file carries a header that says what one step is
and what the environment may do.

| file | content |
|---|---|
| `Rings.dfy`, `RingWindows.dfy` | ring values, refinement to a bounded byte queue, stability of in-flight spans |
| `CircleBufferQueue.dfy` | the two ring classes, as one class over a stretch of an array |
| `Packets.dfy` | wire format, framing, streams of messages |
| `Serialisation.dfy` | scattered copies of packets into rings, framing out of rings |
| `IOSession.dfy` | the IOCP session and its connect operation, one step per call |
| `IOSessionAtomics.dfy` | its outstanding-I/O counter, one step per atomic operation |
| `RioSend.dfy`, `RIOSession.dfy`, `RioInterleaving.dfy` | the RIO send side: sections as functions, as methods, and all interleavings |
| `RioReceive.dfy`, `RioEndToEnd.dfy` | the RIO receive side, and both sides together |
| `RioBufferManager.dfy` | the allocator of registered memory |
| `TimerQueue.dfy` | the timer queue, one step per atomic operation, map section or thread-pool call |
| `SessionIdleChecker.dfy` | the idle checker on top of it, and its Start/Stop races |
| `BenchmarkTickets.dfy` | the ticketed multi-session benchmark |

Layers meet by proof. `CircleBufferQueue` methods are equated with ring values, ring values with a byte
queue; `Serialisation` shows that storing a packet through spans is an append to that queue; `IOSession` runs on
two such ring objects; the methods of `RIOSession` equal the functions that `RioInterleaving` interleaves; `SessionIdleChecker.Stop` uses
the timer queue's theorem about Cancel.

What the environment may do: every accepted operation completes once, with at most the bytes asked for;
TCP is a FIFO byte pipe that may cut the stream anywhere; the kernel may refuse any post; callbacks may
make any finite number of calls with any arguments; where a call's outcome hangs on the kernel's answer, the
answer is a parameter; threads interleave freely at the stated grain.

## Results that are conditions

Where the code does not meet a property on all inputs, the exact condition is proved.

- Framing undoes encoding if and only if the packet fits the 16-bit size field (`Packets.FrameUndoesWire`).
  `SendMessage` looks at the free space only (`IOSessions.IOSession.SendMessage`), and
  `Packets.OversizeBreaksStream` gives the smallest message that breaks the stream.
- A receive buffer can fill up while the framer waits if and only if it is smaller than 65535 bytes
  (`Packets.StallsFullIff`).
- Per atomic operation, once all is quiet a requested disconnect has fired if and only if the last step that
  did anything was not a stranding undo: a refused send or connect, the last operation outstanding, after
  the request, before the callback, with no thread on its way to run it
  (`IOSessionAtomics.FiredIffNotStranded`; `IOSessionAtomics.UndoCanStrand` reaches such a state). A refused
  receive requests the disconnect itself and strands nothing (`IOSessionAtomics.DrainsWithoutLateUndo`).
- Per atomic operation, the callback runs with an operation outstanding if and only if an operation whose
  posting began after the firing thread saw the counter at zero still exists
  (`IOSessionAtomics.OvertakesIff`; `IOSessionAtomics.FireCanOvertakePost` reaches such a state). It never
  does in a run in which no post begins while a thread is about to fire (`IOSessionAtomics.NoOvertaking`).
- From its store on, a timer is still Cancelled if and only if no callback of a one-shot timer ended its body
  meanwhile (`TimerQueues.CancelledIffNotOverwritten`; `TimerQueues.OneShotOverwritesCancelled` reaches an
  overwritten one). Stored outside a body, or for a periodic timer, it stays
  (`TimerQueues.StaysCancelledOutsideBody`, `TimerQueues.CancelledAbsorbing`).
- A stopped idle checker leaves no timer armed if and only if the Stops that found no id are as many as the
  Starts whose schedule failed; a Stop inside a Start finds none although a timer follows
  (`IdleCheckerRaces.StoppedIsSilentIff`, `IdleCheckerRaces.StopCanMissTheTimer`).
- A connected RIO session with at least 65535 bytes to receive into that the kernel does not refuse has no
  receive posted if and only if a broken header has filled its ring (`RioReceive.RIOReceiver.Serve`;
  `RioReceive.BrokenHeaderStalls` drives one there). It does not take a broken header as a reason to
  disconnect.
- `AllocateSlice` keeps slices apart as long as offset plus size does not wrap at 32 bits; where it wraps,
  it hands out memory past the end (`RioBufferManagers.RioBufferManager.AllocateSlice`). The accounts
  survive `DeallocateSlice` if and only if the slice was in use
  (`RioBufferManagers.RioBufferManager.DeallocateSlice`).

## Model

| member | source | states |
|---|---|---|
| `Rings.WriteContents` | LibCommons/CircleBufferQueue.ixx:37-64 | a write, split by the end of the buffer or not, appends its bytes to the queue, and one that does not fit changes nothing |
| `Rings.ConsumeContents` | LibCommons/CircleBufferQueue.ixx:180-192 | removing n bytes drops the n oldest and keeps the rest; too many changes nothing |
| `Rings.AdvanceAppends` | LibCommons/CircleBufferQueue.ixx:243-257 | committing n slots appends exactly the bytes that lie in the n slots after the head |
| `Rings.FillContents` | LibCommons/CircleBufferQueue.ixx:215-240 | storing through writable spans does not touch the queue |
| `Rings.FillThenAdvance` | LibCommons/CircleBufferQueue.ixx:215-257 | filling the writable spans and then committing n appends the first n bytes stored |
| `Rings.SpanPositions` | LibCommons/CircleBufferQueue.ixx:147-178 | the one or two spans of a stretch name its slots in order, each once |
| `Rings.ReadSpansShowContents` | LibCommons/CircleBufferQueue.ixx:122-143 | the bytes behind the read spans, one after the other, are the queue |
| `Rings.WriteableSpansTileFree` | LibCommons/CircleBufferQueue.ixx:215-240 | the writable spans name exactly the slots that hold no queued byte, each once |
| `Rings.StepRefines` | LibCommons/CircleBufferQueue.ixx:37-257 | every call, reading or writing, answers and changes the ring as the same call on a bounded byte queue |
| `Rings.RingRefinesQueue` | LibCommons/CircleBufferQueue.ixx:37-257 | over every sequence of calls the answers are those of a bounded byte queue |
| `RingWindows.ProduceKeepsWindow` | LibCommons/ExternalCircleBufferQueue.ixx:36-153 | one producer call or store leaves every byte of a posted send alone |
| `RingWindows.SendWindowStable` | LibCommons/ExternalCircleBufferQueue.ixx:36-220 | spans handed out for a send keep their bytes under every run of writes, reservations, commits and stores until Consume |
| `RingWindows.DrainKeepsWindow` | LibCommons/ExternalCircleBufferQueue.ixx:61-166 | one consumer call or kernel store keeps the receive window off the unread bytes |
| `RingWindows.RecvWindowStable` | LibCommons/ExternalCircleBufferQueue.ixx:36-220 | a receive in flight never overwrites unread bytes under any run of pops, peeks and consumes, and CommitWrite then appends what lies in its spans |
| `CircleBufferQueues.CircleBufferQueue.Own` | LibCommons/CircleBufferQueue.ixx:21-28 | a ring with its own memory starts empty |
| `CircleBufferQueues.CircleBufferQueue.External` | LibCommons/ExternalCircleBufferQueue.ixx:26-29 | a ring over a stretch of given memory starts empty |
| `CircleBufferQueues.CircleBufferQueue.CopyAround` | LibCommons/CircleBufferQueue.ixx:49-58 | one copy or two, the slots from the head on hold the data |
| `CircleBufferQueues.CircleBufferQueue.Write` | LibCommons/CircleBufferQueue.ixx:37-64 | the object after Write is the ring value after the write; appends or changes nothing; touches no memory outside its stretch |
| `CircleBufferQueues.CircleBufferQueue.Pop` | LibCommons/CircleBufferQueue.ixx:67-93 | returns and removes the n oldest bytes, or fails and changes nothing |
| `CircleBufferQueues.CircleBufferQueue.Peek` | LibCommons/CircleBufferQueue.ixx:96-120 | returns the n oldest bytes and keeps them |
| `CircleBufferQueues.CircleBufferQueue.GetReadBuffers` | LibCommons/CircleBufferQueue.ixx:122-143 | spans whose slots hold the queue byte by byte |
| `CircleBufferQueues.CircleBufferQueue.AllocateWrite` | LibCommons/CircleBufferQueue.ixx:147-177 | moves the head at once and returns the slots it passed, or fails and changes nothing |
| `CircleBufferQueues.CircleBufferQueue.Consume` | LibCommons/ExternalCircleBufferQueue.ixx:155-166 | drops the n oldest bytes, or fails and changes nothing |
| `CircleBufferQueues.CircleBufferQueue.CanReadSize` | LibCommons/CircleBufferQueue.ixx:194-198 | the length of the queue |
| `CircleBufferQueues.CircleBufferQueue.CanWriteSize` | LibCommons/CircleBufferQueue.ixx:200-204 | with the length of the queue it makes up the capacity |
| `CircleBufferQueues.CircleBufferQueue.Clear` | LibCommons/CircleBufferQueue.ixx:206-212 | empties the queue |
| `CircleBufferQueues.CircleBufferQueue.GetWriteableBuffers` | LibCommons/ExternalCircleBufferQueue.ixx:185-207 | spans over exactly the free slots |
| `CircleBufferQueues.CircleBufferQueue.CommitWrite` | LibCommons/ExternalCircleBufferQueue.ixx:209-220 | appends the bytes that lie in the first n free slots, or fails and changes nothing |
| `Packets.WireHeader` | LibNetworks/Packet.ixx:100-117 | the encoded header announces the total size modulo 65536, and id and body are read back from the frame |
| `Packets.WireLayout` | LibNetworks/Packet.ixx:100-117 | byte by byte: total size modulo 65536 and id, each high byte first, then the body |
| `Packets.FrameLayout` | LibNetworks/PacketFramer.ixx:34-76 | the verdict read off the bytes: when it waits, when the header is broken, and which bytes are a whole frame's id and body |
| `Packets.FrameUndoesWire` | LibNetworks/PacketFramer.ixx:34-76 | framing an encoded message followed by anything gives the message back if and only if it fits the size field |
| `Packets.OversizeBreaksStream` | LibNetworks/Packet.ixx:100-117 | a message with a body of 65532 bytes encodes to a stream that the framer reads as a broken header, whatever follows |
| `Packets.WireUndoesFrame` | LibNetworks/Packet.ixx:25-30 | encoding the packet built from a frame gives the frame's bytes back |
| `Packets.FrameExtend` | LibNetworks/PacketFramer.ixx:34-76 | what the framer decided about a stream does not change when more bytes arrive |
| `Packets.ParseExtend` | LibNetworks/PacketFramer.ixx:34-76 | parsing a longer stream is parsing its start and then the residue with the rest |
| `Packets.ResidueNeedsMore` | LibNetworks/PacketFramer.ixx:36-65 | what a waiting loop leaves over holds no whole frame |
| `Packets.ChunkingIrrelevant` | LibNetworks/IOSession.cpp:545-596 | for every stream and every way of cutting it, the receive loop delivers the same packets and ends in the same status as parsing it at once |
| `Packets.PrefixParsesToPrefix` | LibNetworks/PacketFramer.ixx:34-76 | every cut of a stream of fitting messages parses into the first of these messages and never into a broken header |
| `Packets.ParseConserves` | LibNetworks/PacketFramer.ixx:34-76 | delivered packets encoded again, then the residue, are the stream byte for byte |
| `Packets.ParseWholeMessages` | LibNetworks/PacketFramer.ixx:34-76 | a stream that starts with whole messages parses into them and then into what follows |
| `Packets.StallsFullIff` | LibNetworks/IOSession.cpp:245-257 | a buffer can be full while the framer waits if and only if it is smaller than the largest packet |
| `Serialisation.WriteToBuffers` | LibNetworks/IOSession.cpp:109-133 | from any cursor into the spans it stores the data in the slots that follow, going round the end, and moves the cursor by as much |
| `Serialisation.CopyIntoSpan` | LibNetworks/IOSession.cpp:113-131 | a round copies what the current span takes to the next slots and moves the cursor |
| `Serialisation.StoreFields` | LibNetworks/IOSession.cpp:163-167 | two fields stored through one cursor lie one behind the other |
| `Serialisation.StoreBody` | LibNetworks/IOSession.cpp:160-187 | the direct branch and the scattered branch store the same bytes in the same slots |
| `Serialisation.StoreHead` | LibNetworks/IOSession.cpp:155-175 | the first four bytes of the encoded message are stored even where the end of the buffer splits them |
| `Serialisation.StorePacket` | LibNetworks/IOSession.cpp:136-187 | the slots of the allocation hold exactly the encoded packet |
| `Serialisation.AppendPacket` | LibNetworks/IOSession.cpp:136-187 | for every head position the packet is appended whole, or the buffer stays as it was |
| `Serialisation.FillSpans` | LibNetworksRIO/RIOSession.cpp:181-196 | the span copy loop fills the free slots in order and leaves the queue alone |
| `Serialisation.FillAndCommit` | LibNetworks/IOSession.cpp:425-441 | filling the writable spans of a ring and committing appends the data |
| `Serialisation.TryFrameFromBuffer` | LibNetworks/PacketFramer.ixx:34-76 | on the ring object: the framer's verdict on the queue; on success exactly the frame is removed and encodes back to what was removed |
| `IOSessions.SentAppend` | LibNetworks/IOSession.cpp:136-187 | accepting a message keeps consumed bytes and queue equal to the accepted stream |
| `IOSessions.SentConsume` | LibNetworks/IOSession.cpp:476-512 | releasing completed bytes keeps consumed bytes and queue equal to the accepted stream |
| `IOSessions.PoppedFrame` | LibNetworks/IOSession.cpp:545-596 | popping a frame moves its bytes from the residue to the delivered stream, none lost |
| `IOSessions.IOSession.constructor` | LibNetworks/IOSession.cpp:36-46 | over two separate empty rings a new session meets the invariant with an empty history |
| `IOSessions.IOSession.TryFireOnDisconnected` | LibNetworks/IOSession.cpp:661-688 | runs the callback at most once, only on a request and with nothing outstanding, and leaves both rings empty |
| `IOSessions.IOSession.OnDisconnected` | LibNetworks/IOSession.cpp:661-688 | the callback is counted where it runs, with whatever the application calls from it |
| `IOSessions.IOSession.RequestDisconnect` | LibNetworks/IOSession.cpp:609-658 | needs a cause; closes the socket, clears both flags, and with nothing outstanding has fired when it returns; inside a completion handler it never fires |
| `IOSessions.IOSession.Disconnect` | LibNetworks/IOSession.cpp:601-604 | a call of the application ends the session |
| `IOSessions.IOSession.TryPostSendFromQueue` | LibNetworks/IOSession.cpp:331-394 | connected, with bytes queued and no send in progress: all of them are in flight exactly when there is a socket and the kernel accepts, and stalled otherwise; in every other case nothing changes |
| `IOSessions.IOSession.PostQueue` | LibNetworks/IOSession.cpp:345-394 | all queued bytes are posted exactly when there is a socket and the kernel accepts; otherwise the flag is given back |
| `IOSessions.IOSession.PostSend` | LibNetworks/IOSession.cpp:369-391 | called only with no send in flight; succeeds exactly when there is a socket and the kernel accepts, and only then the counter goes up |
| `IOSessions.IOSession.SendMessage` | LibNetworks/IOSession.cpp:136-187 | connected and with room: the message is queued, the send posted as the kernel answers, and the session stays connected; without room the session ends; after a disconnect nothing is accepted |
| `IOSessions.IOSession.EnqueueAndPost` | LibNetworks/IOSession.cpp:150-187 | the packet is accepted exactly when it fits, and then bytes are in flight or refused |
| `IOSessions.IOSession.Enqueue` | LibNetworks/IOSession.cpp:150-187 | the encoded message is appended to the send queue |
| `IOSessions.IOSession.StoreMessage` | LibNetworks/IOSession.cpp:150-184 | the send ring takes the encoded message whole or not at all |
| `IOSessions.IOSession.ReleaseSent` | LibNetworks/IOSession.cpp:487-491 | Consume brings the send ring in step with what is left of the queue |
| `IOSessions.IOSession.StoreReceived` | LibNetworks/IOSession.cpp:425-441 | what the kernel stored through the spans and CommitWrite appended is the received data |
| `IOSessions.IOSession.PopFrame` | LibNetworks/PacketFramer.ixx:34-76 | the framer's verdict on the receive ring; a whole frame leaves the ring, a broken header is noted |
| `IOSessions.IOSession.ClearBuffers` | LibNetworks/IOSession.cpp:661-688 | both rings and queues are empty |
| `IOSessions.IOSession.PostRecv` | LibNetworks/IOSession.cpp:285-310 | called only with no receive in flight; succeeds exactly when there is a socket and the kernel accepts, and only then the counter goes up; otherwise a cause is noted |
| `IOSessions.IOSession.RequestReceived` | LibNetworks/IOSession.cpp:207-227 | nothing in progress: a zero-byte receive is in flight exactly when there is a socket and the kernel accepts, otherwise the session ends; else nothing changes |
| `IOSessions.IOSession.PostZeroByteRecv` | LibNetworks/IOSession.cpp:215-226 | a zero-byte receive is posted while the framer waits, or the flag is given back |
| `IOSessions.IOSession.StartReceiveLoop` | LibNetworks/IOSession.cpp:190-204 | starts the loop once with a zero-byte receive, as the kernel answers; later calls change nothing |
| `IOSessions.IOSession.RequestRealRecv` | LibNetworks/IOSession.cpp:230-310 | posts a receive over all the free space exactly when there is room, a socket and an accepting kernel, and then the session stays as it was; otherwise a cause is noted |
| `IOSessions.IOSession.PostRealRecv` | LibNetworks/IOSession.cpp:245-310 | a real receive is posted over exactly the free space |
| `IOSessions.IOSession.NoRoom` | LibNetworks/IOSession.cpp:245-257 | a full buffer is noted and disconnects, which the invariant admits only below 65535 bytes |
| `IOSessions.IOSession.EndCompletion` | LibNetworks/IOSession.cpp:69-78 | the last operation out fires a requested disconnect, and the session is settled again |
| `IOSessions.IOSession.OnRecvCompleted` | LibNetworks/IOSession.cpp:456-473 | any receive completion keeps the invariant and adds exactly the bytes delivered; a zero-byte one leads to a real receive over all the free space, data ends the session only through a broken header or the application, failure and a closed peer do |
| `IOSessions.IOSession.HandleRecvCompletion` | LibNetworks/IOSession.cpp:456-473 | failure releases and disconnects; otherwise the zero-byte or the real handler leaves the loop armed while connected |
| `IOSessions.IOSession.DropRecv` | LibNetworks/IOSession.cpp:402-405 | the flag is released and the disconnect requested, with everything received kept |
| `IOSessions.IOSession.HandleZeroByteRecvCompletion` | LibNetworks/IOSession.cpp:397-410 | with room, a socket and an accepting kernel the real receive is posted and the session stays connected; otherwise it ends; with bytes reported it only lets go of the flag |
| `IOSessions.IOSession.HandleRealRecvCompletion` | LibNetworks/IOSession.cpp:413-453 | while connected, all whole packets were delivered and the next receive is posted |
| `IOSessions.IOSession.AfterCommit` | LibNetworks/IOSession.cpp:442-453 | after a disconnect only the flag is released; otherwise packets are delivered and the loop rearmed |
| `IOSessions.IOSession.DeliverAndRearm` | LibNetworks/IOSession.cpp:442-453 | all whole packets are delivered, then the flag is released and the next receive posted; with an accepting kernel only a broken header or the application ends the session |
| `IOSessions.IOSession.CommitReceived` | LibNetworks/IOSession.cpp:425-441 | the received bytes are appended to the receive queue, which had the room |
| `IOSessions.IOSession.ReadReceivedBuffers` | LibNetworks/IOSession.cpp:545-596 | on return, while connected, the framer waits for more |
| `IOSessions.IOSession.ReadOne` | LibNetworks/IOSession.cpp:554-595 | a whole frame is handed to the application and the loop goes on; otherwise the session ends exactly on a broken header |
| `IOSessions.IOSession.OnPacketReceived` | LibNetworks/IOSession.cpp:594-595 | the callback: the popped frame becomes a delivered packet here and nowhere else, while connected, with arbitrary calls nested in it |
| `IOSessions.IOSession.OnSendCompleted` | LibNetworks/IOSession.cpp:515-542 | any send completion, partial or failed, keeps the invariant and releases exactly the bytes completed; the sent callback runs with their number exactly on success while connected; failure ends the session |
| `IOSessions.IOSession.HandleSendCompletion` | LibNetworks/IOSession.cpp:476-512 | a failure disconnects; a success releases the bytes and sends on |
| `IOSessions.IOSession.FinishSend` | LibNetworks/IOSession.cpp:476-512 | the bytes are released, the application told, and what is queued goes out |
| `IOSessions.IOSession.FailSend` | LibNetworks/IOSession.cpp:476-489 | a failed send leaves the stream as it was and requests the disconnect |
| `IOSessions.IOSession.AfterSent` | LibNetworks/IOSession.cpp:493-512 | the sent callback runs only while connected, and what is queued goes out |
| `IOSessions.IOSession.OnSent` | LibNetworks/IOSession.cpp:504-504 | the callback is counted where it runs, while connected |
| `IOSessions.IOSession.SendRest` | LibNetworks/IOSession.cpp:506-511 | queued bytes are posted as the kernel answers, unless a send is in progress |
| `IOSessions.IOSession.ConsumeSent` | LibNetworks/IOSession.cpp:476-491 | the flag is cleared before the bytes are released, and the stream stays intact |
| `IOSessions.IOSession.RecordSent` | LibNetworks/IOSession.cpp:476-496 | the completed bytes move from the queue to the released stream and are counted |
| `IOSessions.IOSession.TcpTakes` | LibNetworks/IOSession.cpp:313-328 | TCP takes the oldest unsent bytes of the posted window, in order |
| `IOSessions.IOSession.Connect` | LibNetworks/IOSocketConnector.cpp:222-247 | connect counts as one outstanding operation, undone when ConnectEx is refused |
| `IOSessions.IOSession.PostConnect` | LibNetworks/OutboundSession.cpp:39-49 | marking and undoing leave counter and flag as the kernel's answer says |
| `IOSessions.IOSession.OnConnectCompleted` | LibNetworks/OutboundSession.cpp:102-134 | the connected callback runs exactly on success without a disconnect request; failure ends the session, otherwise the receive loop is armed |
| `IOSessions.IOSession.OnConnected` | LibNetworks/OutboundSession.cpp:20-26 | the callback is counted where it runs: the receive loop is started, then the application called |
| `IOSessions.IOSession.HandleConnectCompletion` | LibNetworks/OutboundSession.cpp:102-134 | up to the guard: failure disconnects, success starts the receive loop and calls back |
| `IOSessions.IOSession.Serve` | LibNetworks/IOSession.cpp:515-542 | over every run of calls and completions: a disconnect was requested if and only if a cause occurred; fired if and only if requested and nothing outstanding, at most once, both rings empty, nothing posted or called back after; bytes sent are a prefix of what was accepted; delivered packets are the parse of what was received; no lost receive or send; the buffer-full path is unreachable from 65535 bytes on |
| `IOSessions.EndToEnd` | LibNetworks/IOSession.cpp:136-187 | packets the peer delivered are the first messages accepted, ids and bodies intact, and all of them once all bytes arrived; the send ring holds what is accepted and not released, the receive ring what is received and not delivered |
| `IOSessions.DeliveredArePrefix` | LibNetworks/IOSession.cpp:545-596 | whole messages at the front of a prefix of the accepted stream are its first messages |
| `IOSessionAtomics.DoKeepsCount` | LibNetworks/IOSession.cpp:691-700 | every atomic operation keeps the counter equal to the number of operations that exist |
| `IOSessionAtomics.DoKeepsMover` | LibNetworks/IOSession.cpp:609-658 | a thread inside a handler finds the counter above zero and so never comes to fire |
| `IOSessionAtomics.RunKeepsInv` | LibNetworks/IOSession.cpp:609-700 | the invariant holds after every interleaving |
| `IOSessionAtomics.ThreePhases` | LibNetworks/IOSession.cpp:285-307 | operations are being posted, in the kernel or in a handler, and in one of these only |
| `IOSessionAtomics.EveryInterleaving` | LibNetworks/IOSession.cpp:609-700 | counter equals operations being posted, in the kernel and in handlers; the callback runs at most once, after a request, never from inside a handler |
| `IOSessionAtomics.RunAccounted` | LibNetworks/IOSession.cpp:285-307 | over every run, operations being posted, in the kernel and in handlers are what the steps made add up to; the flag is set if and only if a disconnect was requested, the callback has run if and only if a thread came to fire |
| `IOSessionAtomics.RequestSticks` | LibNetworks/IOSession.cpp:609-617 | a request made anywhere in a run, inside a handler or not, has set the flag for good |
| `IOSessionAtomics.ProgramOrder` | LibNetworks/IOSession.cpp:609-688 | after every step the thread's next steps are exactly those the source makes next: a request is followed by the counter load, a load or guard that saw zero by the fire, a refused receive by a request |
| `IOSessionAtomics.OthersStay` | LibNetworks/IOSession.cpp:69-78 | a step of one thread leaves every other where it was |
| `IOSessionAtomics.StrandingLoses` | LibNetworks/IOSession.cpp:691-700 | a stranding undo leaves all quiet, disconnected and unfired |
| `IOSessionAtomics.LosingStrands` | LibNetworks/IOSession.cpp:691-700 | no other step of any thread can |
| `IOSessionAtomics.LostIffStranded` | LibNetworks/IOSession.cpp:609-700 | over every run, the callback is lost if and only if the last step that did anything was a stranding undo |
| `IOSessionAtomics.FiredIffNotStranded` | LibNetworks/IOSession.cpp:609-700 | under every interleaving, once all is quiet a requested disconnect has fired if and only if the last move was not a stranding undo |
| `IOSessionAtomics.ReceivesDoNotStrand` | LibNetworks/IOSession.cpp:222-226 | the undo of a refused receive is never a stranding one |
| `IOSessionAtomics.DrainsWithoutLateUndo` | LibNetworks/IOSession.cpp:222-226 | if only receives are refused, every requested disconnect has fired once all is quiet |
| `IOSessionAtomics.UndoCanStrand` | LibNetworks/IOSession.cpp:691-700 | a reachable state that is quiet and disconnected without its callback |
| `IOSessionAtomics.OvertakesIff` | LibNetworks/IOSession.cpp:69-78 | under every interleaving, the callback runs with something outstanding if and only if an operation begun after the firing thread saw zero still exists |
| `IOSessionAtomics.DoKeepsFireClear` | LibNetworks/IOSession.cpp:69-78 | a step that is no post into a fire keeps the counter at zero while a thread is about to fire |
| `IOSessionAtomics.NoOvertaking` | LibNetworks/IOSession.cpp:661-688 | in a run without a post into a fire every callback runs with nothing outstanding |
| `IOSessionAtomics.FireCanOvertakePost` | LibNetworks/IOSession.cpp:69-78 | a reachable state in which the callback is about to run while another thread's operation is in the kernel |
| `RioSend.DequeAppend` | LibNetworksRIO/RIOSession.cpp:153-157 | a queued packet adds its bytes at the end and its size to the total |
| `RioSend.TakeFrontKeeps` | LibNetworksRIO/RIOSession.cpp:181-211 | moving part or all of the front packet keeps every unsent byte in order and the total right |
| `RioSend.MoveFrontKeeps` | LibNetworksRIO/RIOSession.cpp:168-211 | a round of the flush loop keeps the backlog; a packet moved in part means the ring is full |
| `RioSend.RefillKeeps` | LibNetworksRIO/RIOSession.cpp:164-211 | the whole loop keeps the backlog, and a non-empty deque afterwards means a full ring |
| `RioInterleaving.EnqueueKeeps` | LibNetworksRIO/RIOSession.cpp:135-158 | fast or slow path, the packet is appended to the backlog and a send in flight keeps its window; with an empty deque and room it goes straight to the ring |
| `RioInterleaving.FlushKeeps` | LibNetworksRIO/RIOSession.cpp:164-270 | a flush loses nothing and, if none was in flight and the kernel accepts, posts a send exactly when there is a backlog, over the whole first contiguous stretch |
| `RioInterleaving.CompleteKeeps` | LibNetworksRIO/RIOSession.cpp:296-305 | a completion of n bytes takes exactly the n oldest bytes off the backlog |
| `RioInterleaving.DoKeepsFlow` | LibNetworksRIO/RIOSession.cpp:103-305 | every section keeps completed bytes plus backlog equal to the accepted stream |
| `RioInterleaving.FifoAndLossless` | LibNetworksRIO/RIOSession.cpp:135-214 | under every interleaving, completed bytes, ring and deque remainders are the accepted messages in queueing order |
| `RioInterleaving.ProgramOrder` | LibNetworksRIO/RIOSession.cpp:103-305 | after every section the thread's next step is exactly the one the source makes next |
| `RioInterleaving.CallIsAccepted` | LibNetworksRIO/RIOSession.cpp:103-162 | SendMessage with any steps of other threads in between: within the limit the message is accepted last and its bytes follow the backlog, over the limit nothing is and the session is disconnected |
| `RioInterleaving.DisconnectedIff` | LibNetworksRIO/RIOSession.cpp:113-281 | over every run the session is disconnected if and only if a check found too much pending or a send failed, and then no call begins |
| `RioInterleaving.FailureSticks` | LibNetworksRIO/RIOSession.cpp:272-281 | a failed send disconnects and leaves the in-progress flag held |
| `RioInterleaving.FailureIsFinal` | LibNetworksRIO/RIOSession.cpp:243-281 | after it nothing is ever sent again, whatever is queued |
| `RioInterleaving.DoKeepsAwake` | LibNetworksRIO/RIOSession.cpp:243-305 | every section leaves a send in flight or a thread that owes a flush while bytes wait |
| `RioInterleaving.NoLostWakeup` | LibNetworksRIO/RIOSession.cpp:164-305 | under every interleaving without a refused or failed send, waiting bytes are in flight or owed a flush, and the deque waits only on a full ring or a flush |
| `RioInterleaving.WorkDecreases` | LibNetworksRIO/RIOSession.cpp:296-305 | a completion of n bytes shortens the backlog by n, and flushes and completions decrease the measure |
| `RioInterleaving.QueueDrains` | LibNetworksRIO/RIOSession.cpp:164-305 | flushes and completions end, and then nothing is left to send and all accepted bytes completed |
| `RioInterleaving.DoKeepsBound` | LibNetworksRIO/RIOSession.cpp:113-158 | pending bytes plus a packet for each thread past the unlocked check stay within the bound |
| `RioInterleaving.BackpressureBound` | LibNetworksRIO/RIOSession.cpp:113-158 | the total equals the sizes of queued packets and never exceeds the limit by more than a packet for each thread |
| `RioInterleaving.InitOk` | LibNetworksRIO/RIOSession.cpp:20-42 | a new session starts awake and within the bound |
| `RIOSessions.RIOSession.constructor` | LibNetworksRIO/RIOSession.cpp:20-42 | a new session has an empty ring and deque |
| `RIOSessions.RIOSession.CheckBackpressure` | LibNetworksRIO/RIOSession.cpp:103-122 | passes exactly when connected and within the limit; over the limit it disconnects |
| `RIOSessions.RIOSession.QueuePacket` | LibNetworksRIO/RIOSession.cpp:135-158 | the object does what the queueing section does on values |
| `RIOSessions.RIOSession.StoreFront` | LibNetworksRIO/RIOSession.cpp:181-198 | as much of the front packet as fits is in the ring |
| `RIOSessions.RIOSession.AdvanceFront` | LibNetworksRIO/RIOSession.cpp:198-211 | offset, total and deque move on as on values |
| `RIOSessions.RIOSession.MoveFrontPacket` | LibNetworksRIO/RIOSession.cpp:168-210 | the object does what a round of the flush loop does on values |
| `RIOSessions.RIOSession.RefillRing` | LibNetworksRIO/RIOSession.cpp:168-211 | the loop does what the refill does on values |
| `RIOSessions.RIOSession.FlushPendingSendQueue` | LibNetworksRIO/RIOSession.cpp:164-214 | the loop and the post do what the flush does on values |
| `RIOSessions.RIOSession.TryPostSendFromQueue` | LibNetworksRIO/RIOSession.cpp:243-270 | posts the first contiguous span, or nothing, as on values |
| `RIOSessions.RIOSession.ConsumeCompletion` | LibNetworksRIO/RIOSession.cpp:296-303 | the object does what the completion section does on values |
| `RIOSessions.RIOSession.FailCompletion` | LibNetworksRIO/RIOSession.cpp:272-281 | a failed completion disconnects and keeps the in-progress flag |
| `RioReceive.RIOReceiver.constructor` | LibNetworksRIO/RIOSession.cpp:20-42 | a new receiver has received and delivered nothing |
| `RioReceive.RIOReceiver.RequestRecv` | LibNetworksRIO/RIOSession.cpp:70-101 | posts the first span of the free space exactly when connected, not full and accepted |
| `RioReceive.RIOReceiver.StartReceiveLoop` | LibNetworksRIO/RIOSession.cpp:59-68 | starts the loop once and keeps the invariant |
| `RioReceive.RIOReceiver.DeliverNext` | LibNetworksRIO/RIOSession.cpp:328-339 | delivers and removes the next whole packet, or changes nothing |
| `RioReceive.RIOReceiver.OnPacketReceived` | LibNetworksRIO/RIOSession.cpp:335-338 | the callback: the popped frame becomes a delivered packet here; sending from it may disconnect on backpressure |
| `RioReceive.RIOReceiver.SomeoneSends` | LibNetworksRIO/RIOSession.cpp:113-122 | only too much pending disconnects |
| `RioReceive.RIOReceiver.ReadReceivedBuffers` | LibNetworksRIO/RIOSession.cpp:326-341 | on return no whole packet is left in the ring and no received byte is lost |
| `RioReceive.RIOReceiver.CommitReceived` | LibNetworksRIO/RIOSession.cpp:284-290 | bytes stored through the posted span are appended to the queue |
| `RioReceive.RIOReceiver.OnReceived` | LibNetworksRIO/RIOSession.cpp:284-293 | the data is added, what is whole delivered and the next receive posted; on a broken header nothing is delivered and the session stays connected |
| `RioReceive.RIOReceiver.OnRecvCompleted` | LibNetworksRIO/RIOSession.cpp:272-294 | a completion keeps the invariant and adds its bytes; failure and a closed peer disconnect, data does not; the next receive is posted exactly when connected, not full and accepted |
| `RioReceive.RIOReceiver.Serve` | LibNetworksRIO/RIOSession.cpp:272-341 | over every run, disconnected if and only if a cause occurred; delivered packets and status are the parse of everything received; received bytes equal delivered frames plus residue; with 65535 bytes of room, connected and not refused, no receive is posted if and only if a broken header has filled the ring |
| `RioReceive.BrokenHeaderStalls` | LibNetworksRIO/RIOSession.cpp:272-341 | for every capacity, a stream of zero bytes that fills the ring stalls a connected session |
| `RioReceive.DeliveredIsParsed` | LibNetworksRIO/RIOSession.cpp:326-341 | conservation and a drained ring make the delivered packets the parse of the whole stream |
| `RioReceive.DeliversWhatWasSent` | LibNetworksRIO/RIOSession.cpp:326-341 | from a prefix of a stream of fitting messages the receiver delivers the first of them, from all of it all |
| `RioEndToEnd.EndToEnd` | LibNetworksRIO/RIOSession.cpp:103-341 | for every interleaving of senders and every chunking the peer delivers the first accepted messages in order, and all once all arrived |
| `RioBufferManagers.RioBufferManager.AllocateSlice` | LibNetworksRIO/RioBufferManager.cpp:49-80 | reuses the first free slice of exactly that size, else cuts a new one if it fits, else fails unchanged; what happens where the 32-bit sum wraps |
| `RioBufferManagers.RioBufferManager.TakeFree` | LibNetworksRIO/RioBufferManager.cpp:53-66 | one entry leaves the free list and becomes live |
| `RioBufferManagers.RioBufferManager.CarveOne` | LibNetworksRIO/RioBufferManager.cpp:68-79 | a new slice is cut off at the bump pointer and becomes live |
| `RioBufferManagers.RioBufferManager.DeallocateSlice` | LibNetworksRIO/RioBufferManager.cpp:82-91 | the slice goes to the free list unchecked and the count down to zero at most; the accounts stay in order if and only if it was in use |
| `RioBufferManagers.TilesApart` | LibNetworksRIO/RioBufferManager.cpp:49-91 | any two slices of a tiling are apart and inside it |
| `RioBufferManagers.SlicesApart` | LibNetworksRIO/RioBufferManager.cpp:49-91 | no two slices, live or free, overlap, and all lie inside the memory |
| `RioBufferManagers.LiveAndFreeTile` | LibNetworksRIO/RioBufferManager.cpp:49-91 | live and free slices partition the tiles of the used memory, and the count is the number of live ones |
| `RioBufferManagers.PostedRegionsApart` | LibNetworksRIO/RIOSession.cpp:87-93 | regions posted by rings over different slices never overlap |
| `TimerQueues.CallbackKeepsInv` | LibCommons/TimerQueue.cpp:220-276 | every step of a callback keeps who must close each handle |
| `TimerQueues.CancelKeepsInv` | LibCommons/TimerQueue.cpp:280-331 | every step of a cancel keeps who must close each handle |
| `TimerQueues.RunKeepsInv` | LibCommons/TimerQueue.cpp:220-331 | the invariant holds after every interleaving of callbacks, cancels and thread-pool steps |
| `TimerQueues.EveryInterleaving` | LibCommons/TimerQueue.cpp:220-331 | an id is cancelled successfully at most once and its handle closed at most once; a removed timer nobody is busy with was closed exactly once; no callback whose state check follows the store runs its body; after a successful outside Cancel nothing of the timer runs or will |
| `TimerQueues.StartEntersBody` | LibCommons/TimerQueue.cpp:226-243 | until Cancelled is stored a callback that starts enters the body, periodic or one-shot, alone or beside others |
| `TimerQueues.EveryCallbackRunsItsBody` | LibCommons/TimerQueue.cpp:220-276 | over every run, until Cancelled is stored: each time the timer came due a callback was started or is queued, those started have returned or are under way, and each returned one has run the body |
| `TimerQueues.CallbackOrder` | LibCommons/TimerQueue.cpp:220-276 | where a callback goes on: body unless Cancelled, close check, the close a self-cancel left, return |
| `TimerQueues.CancelOrder` | LibCommons/TimerQueue.cpp:280-331 | where a cancel goes on: the lookup succeeds exactly while the timer is in the map, then store, unset, and the deferred close or the wait, which ends exactly when no callback runs, and the close |
| `TimerQueues.UncancelledGoesOn` | LibCommons/TimerQueue.cpp:168-217 | a timer nobody cancelled stays armed if periodic, and is armed, queued or started if one-shot, whose state says how far it is |
| `TimerQueues.RunningMeansBody` | LibCommons/TimerQueue.cpp:249-264 | over every run the state says Running only while some callback is in its body |
| `TimerQueues.PoolIsFree` | LibCommons/TimerQueue.cpp:148-163 | an armed timer may come due at any time and a queued callback start on any thread at rest |
| `TimerQueues.CancelledAbsorbing` | LibCommons/TimerQueue.cpp:253-264 | a cancelled periodic timer stays Cancelled |
| `TimerQueues.StepOverwritesIff` | LibCommons/TimerQueue.cpp:249-264 | a step leaves Cancelled if and only if it ends the body of a one-shot callback |
| `TimerQueues.CancelledIffNotOverwritten` | LibCommons/TimerQueue.cpp:249-264 | over every run from the store on, Cancelled is still there if and only if no such step was made |
| `TimerQueues.StaysCancelledOutsideBody` | LibCommons/TimerQueue.cpp:226-238 | stored while no callback is in its body, Cancelled stays for ever, one-shot or not |
| `TimerQueues.OneShotOverwritesCancelled` | LibCommons/TimerQueue.cpp:249-252 | a reachable state in which a one-shot callback has overwritten Cancelled with Completed |
| `TimerQueues.StopLeavesNoTick` | LibCommons/TimerQueue.cpp:464-470 | a Cancel that nobody overtakes wins; when it returns Cancelled is stored, and if it came from outside the timer's callbacks none runs, is queued or can be |
| `TimerQueues.SilentForever` | LibCommons/TimerQueue.cpp:312-324 | a timer whose callbacks were waited for never runs again |
| `SessionIdleCheckers.IdleIdsExact` | LibNetworks/SessionIdleChecker.cpp:155-177 | a session is asked if and only if one of its entries has received data, and not for the threshold |
| `SessionIdleCheckers.AskNext` | LibNetworks/SessionIdleChecker.cpp:155-177 | one entry more is asked exactly if it is idle |
| `SessionIdleCheckers.StaysTicking` | LibNetworks/SessionIdleChecker.cpp:86-95 | the scheduled tick stays in the queue while no one looks it up |
| `SessionIdleCheckers.CancelRetires` | LibNetworks/SessionIdleChecker.cpp:112-119 | the Cancel of a ticking timer, left to run to its end, has stored Cancelled, and has waited out the ticks unless made from one of them |
| `SessionIdleCheckers.SessionIdleChecker.constructor` | LibNetworks/SessionIdleChecker.cpp:55-59 | a new checker is not running and has scheduled nothing |
| `SessionIdleCheckers.SessionIdleChecker.Start` | LibNetworks/SessionIdleChecker.cpp:70-99 | schedules one periodic timer when enabled and not running; a failed schedule leaves it running without one |
| `SessionIdleCheckers.SessionIdleChecker.Stop` | LibNetworks/SessionIdleChecker.cpp:103-122 | when it returns, every timer the checker ever scheduled is Cancelled and begins no more ticks; those stopped from outside their ticks, another timer's callback included, have none running, queued or to come |
| `SessionIdleCheckers.SessionIdleChecker.CancelTick` | LibNetworks/SessionIdleChecker.cpp:112-119 | the timer is retired by the Cancel, the earlier ones stay retired |
| `SessionIdleCheckers.SessionIdleChecker.OnTick` | LibNetworks/SessionIdleChecker.cpp:126-179 | asks exactly the entries with a receive time that is not 0 and at least the threshold ago, in their order and each once, and counts those that did not throw; nothing if stopped or without a snapshot |
| `IdleCheckerRaces.StoppedIsSilentIff` | LibNetworks/SessionIdleChecker.cpp:70-122 | with Start and Stop racing and schedules that may fail, a stopped checker leaves armed as many timers as Stops found no id less the failed schedules, so none if and only if these are equal |
| `IdleCheckerRaces.RunCounts` | LibNetworks/SessionIdleChecker.cpp:70-122 | over every run, running, armed timers, failures and misses are what the steps made add up to |
| `IdleCheckerRaces.CallsInTurnDoNotMiss` | LibNetworks/SessionIdleChecker.cpp:70-122 | from any settled, stopped state a whole Start and then a whole Stop leave armed what was armed before |
| `IdleCheckerRaces.StopCanMissTheTimer` | LibNetworks/SessionIdleChecker.cpp:78-115 | a reachable settled, stopped state whose timer a Stop inside the Start left armed |
| `BenchmarkTickets.DoBalances` | FastPortBenchmark/LatencyBenchmarkRunner.cpp:480-559 | every step keeps tickets drawn equal to completed plus pending, sent plus held, and each ticket in one place |
| `BenchmarkTickets.NoWarmupLeft` | FastPortBenchmark/LatencyBenchmarkRunner.cpp:570-583 | once the warmup count is reached no session has a warmup request left and no warmup ticket can be drawn |
| `BenchmarkTickets.SessionStepWakes` | FastPortBenchmark/LatencyBenchmarkRunner.cpp:528-558 | the handler that reaches the target draws no ticket and notifies, so a sleeping main thread past the target is always owed a notification |
| `BenchmarkTickets.RunKeeps` | FastPortBenchmark/LatencyBenchmarkRunner.cpp:480-607 | the invariant holds after every interleaving |
| `BenchmarkTickets.RunKeepsTargets` | FastPortBenchmark/LatencyBenchmarkRunner.cpp:367-369 | no step changes a target |
| `BenchmarkTickets.EveryInterleaving` | FastPortBenchmark/LatencyBenchmarkRunner.cpp:480-607 | tickets below the limit are completed, in flight or held; one request per session; every sample answers a measured request with that request's own send time, no ticket twice; the measured phase follows the whole warmup; a handler notifies only once its phase is complete; at the end sent, completed and samples all equal the target |
| `BenchmarkTickets.TicketsDrawn` | FastPortBenchmark/LatencyBenchmarkRunner.cpp:480-558 | over every run each session primed and each response counted has drawn one ticket; at the end as many measured tickets were drawn as there are sessions and targets |
| `BenchmarkTickets.FinishedSamplesEachTicketOnce` | FastPortBenchmark/LatencyBenchmarkRunner.cpp:536-551 | at the end each ticket below the target was sampled exactly once and nothing else was |
| `BenchmarkTickets.NeverStuck` | FastPortBenchmark/LatencyBenchmarkRunner.cpp:561-607 | until the end some thread can always move: short of the target something is pending |
| `BenchmarkTickets.DoDecreases` | FastPortBenchmark/LatencyBenchmarkRunner.cpp:480-607 | every step decreases a measure of the work left |
| `BenchmarkTickets.AlwaysFinishes` | FastPortBenchmark/LatencyBenchmarkRunner.cpp:561-607 | under every schedule the steps are bounded by targets and sessions, and a run that cannot go on has finished |

## Left out

- Winsock, IOCP, RIO and the Windows thread pool: they appear as nondeterministic choices under the assumptions above; worker loops and error codes are not modelled.
- Protobuf: a message body is an arbitrary byte sequence.
- CircleBufferQueues.CircleBufferQueue.Own: requires a positive capacity, since a ring of capacity 0 divides by it on the first empty Write, Pop or Consume.
- CircleBufferQueues.CircleBufferQueue.External: requires a non-empty span, for the same reason.
- IOSessions.IOSession.OnRecvCompleted: requires that no more bytes arrive than were asked for, so a zero-byte receive reports none.
- IOSession paths: SendBuffer, which queues raw bytes outside the packet format and has no caller in the repository, is left out, as are null buffers, last-receive times, disconnect reasons and logging. A CommitWrite that fails is unreachable, because a receive never exceeds the free space it was posted for.
- IOSession concurrency of handlers: the call-level model runs one completion at a time; finer interleavings are covered for the counter and flags only.
- IOSessions.IOSession.Connect: required before any disconnect request, as the connector makes it first; finalising the socket context is a parameter of the completion.
- RIO disconnects: that OnDisconnected runs at most once is not claimed, the session has no flag for it.
- RIO session as one object: the send side and the receive side are two classes; they share nothing but the disconnected flag, which each may find set at any time.
- Allocator: Finalize followed by a second Initialize is not modelled, and the counter is unbounded.
- Timer queue: scheduling is one step and the claims are about a queue that is not shut down while scheduling; deadlock freedom (a callback cancelling a timer whose callback waits for it) is not claimed. Shutdown is a row of cancels.
- SessionIdleCheckers.SessionIdleChecker.Start: Start and Stop are whole calls in the class; their races are the subject of the module IdleCheckerRaces.
- Benchmark: stop requests, lost connections and timeouts are left out, as are payload sizes and percentile arithmetic; a response arrives for each request, once and in order.
- Console, service, admin, statistics, logging, acceptor and option code: it would add easy members only.
