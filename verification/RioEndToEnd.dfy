/** The two sides of a RIO connection together. */
module RioEndToEnd {
  import opened Packets
  import opened RioSend
  import opened RioInterleaving
  import opened RioReceive

  /** In every state the sender's threads can reach (RioInterleaving.FifoAndLossless) and for every
      chunking on the way: a peer that received a prefix of what completed sends released and the ring
      still holds, of messages that fit the size field, has delivered the first of the accepted
      messages, in order and unchanged; and all of them once everything accepted has arrived. */
  lemma EndToEnd(s: System, receiver: RIOReceiver)
    requires Flows(s) && receiver.Valid()
    requires receiver.received <= s.completed + s.send.ring.Contents()
    requires forall m <- s.accepted :: Fits(m)
    ensures receiver.delivered <= s.accepted && Parse(receiver.received).status.Waiting?
    ensures receiver.received == Stream(s.accepted) ==> receiver.delivered == s.accepted
  {
    assert (s.completed + s.send.ring.Contents()) + Remainders(s.send.pending) == Stream(s.accepted);
    DeliversWhatWasSent(s.accepted, receiver);
  }
}
