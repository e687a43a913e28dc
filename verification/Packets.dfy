/** The wire format (LibNetworks/Packet.ixx) and the stream framing (LibNetworks/PacketFramer.ixx),
    as functions on byte sequences. */
module Packets {
  import opened Rings

  type U16 = n: int | 0 <= n < 0x1_0000

  /** A message handed to SendMessage: its id and its serialised body. */
  datatype Message = Message(id: U16, body: seq<Byte>)

  const HEADER_SIZE := 2
  const PACKET_ID_SIZE := 2
  const MAX_PACKET_SIZE := 0xFFFF

  /** htons: the two bytes of `n`, high byte first. */
  function BigEndian(n: U16): seq<Byte>
  {
    [n / 256, n % 256]
  }

  function TotalSize(m: Message): nat
  {
    HEADER_SIZE + PACKET_ID_SIZE + |m.body|
  }

  /** MakeRawBinaries: the size field keeps the low 16 bits of the total size. */
  function Wire(m: Message): (w: seq<Byte>)
    ensures |w| == TotalSize(m)
  {
    BigEndian(TotalSize(m) % 0x1_0000) + BigEndian(m.id) + m.body
  }

  predicate Fits(m: Message)
  {
    TotalSize(m) <= MAX_PACKET_SIZE
  }

  /** GetHeaderFromBuffer. */
  function HeaderOf(data: seq<Byte>): U16
  {
    if |data| < HEADER_SIZE then 0 else data[0] as int * 256 + data[1]
  }

  /** GetPacketIdFromBuffer. */
  function PacketIdOf(data: seq<Byte>): U16
  {
    if |data| < HEADER_SIZE + PACKET_ID_SIZE then 0 else data[2] as int * 256 + data[3]
  }

  /** The packet built from a raw frame: its id and its payload. */
  function FromRaw(raw: seq<Byte>): Message
    requires |raw| >= HEADER_SIZE + PACKET_ID_SIZE
  {
    Message(PacketIdOf(raw), raw[HEADER_SIZE + PACKET_ID_SIZE..])
  }

  datatype Frame = NeedMore | Invalid | Ok(packet: Message)

  /** The size a stream that starts with `c` announces for its first frame. */
  function Announced(c: seq<Byte>): nat
    requires |c| >= HEADER_SIZE
  {
    HeaderOf(c[..HEADER_SIZE])
  }

  /** TryFrameFromBuffer, as seen by a receive buffer that holds `c`. */
  function TryFrame(c: seq<Byte>): (f: Frame)
    ensures f.Ok? ==> |c| >= HEADER_SIZE && 4 <= Announced(c) <= |c|
  {
    if |c| < HEADER_SIZE then NeedMore
    else if Announced(c) < HEADER_SIZE + PACKET_ID_SIZE then Invalid
    else if |c| < Announced(c) then NeedMore
    else Ok(FromRaw(c[..Announced(c)]))
  }

  /** How a receive loop can end: waiting with an incomplete frame, or on a broken header. */
  datatype Status = Waiting(residue: seq<Byte>) | Broken

  datatype Parsed = Parsed(packets: seq<Message>, status: Status)

  /** The receive loop run over a whole byte stream at once. */
  function Parse(c: seq<Byte>): Parsed
    decreases |c|
  {
    match TryFrame(c)
    case NeedMore => Parsed([], Waiting(c))
    case Invalid => Parsed([], Broken)
    case Ok(p) => var rest := Parse(c[Announced(c)..]); Parsed([p] + rest.packets, rest.status)
  }

  /** The receive loop run each time another chunk was appended to what was left over; a broken
      header ends the session. */
  function Receive(residue: seq<Byte>, chunks: seq<seq<Byte>>): Parsed
    decreases |chunks|
  {
    if chunks == [] then Parse(residue)
    else
      var now := Parse(residue + chunks[0]);
      match now.status
      case Broken => now
      case Waiting(r) => var rest := Receive(r, chunks[1..]); Parsed(now.packets + rest.packets, rest.status)
  }

  function Concat(chunks: seq<seq<Byte>>): seq<Byte>
  {
    if chunks == [] then [] else chunks[0] + Concat(chunks[1..])
  }

  /** The byte stream that carries `ms`. */
  function Stream(ms: seq<Message>): seq<Byte>
  {
    if ms == [] then [] else Wire(ms[0]) + Stream(ms[1..])
  }

  // ---- The codec ------------------------------------------------------------------

  lemma WireHeader(m: Message, rest: seq<Byte>)
    ensures |Wire(m) + rest| >= 4 && Announced(Wire(m) + rest) == TotalSize(m) % 0x1_0000
    ensures FromRaw(Wire(m)) == m
  {
    var s := Wire(m) + rest;
    assert s[..2] == BigEndian(TotalSize(m) % 0x1_0000);
    assert Wire(m)[2] == m.id / 256 && Wire(m)[3] == m.id % 256;
    assert Wire(m)[4..] == m.body;
  }

  /** The bytes on the wire: the total size and the id, high byte first, then the body. */
  lemma WireLayout(m: Message)
    ensures |Wire(m)| == 4 + |m.body|
    ensures Wire(m)[0] as int * 256 + Wire(m)[1] == (4 + |m.body|) % 65536
    ensures Wire(m)[2] as int * 256 + Wire(m)[3] == m.id
    ensures Wire(m)[4..] == m.body
  {
    assert Wire(m)[0] == (4 + |m.body|) % 65536 / 256 && Wire(m)[1] == (4 + |m.body|) % 65536 % 256;
    assert Wire(m)[2] == m.id / 256 && Wire(m)[3] == m.id % 256;
  }

  /** The framer's verdict, read off the bytes: it waits for two bytes and then for as many as they say, a
      size below 4 is broken, and a whole frame gives the id in the next two bytes and the body after them. */
  lemma FrameLayout(c: seq<Byte>)
    ensures |c| < 2 ==> TryFrame(c) == NeedMore
    ensures |c| >= 2 ==>
              var size := c[0] as int * 256 + c[1];
              && (size < 4 ==> TryFrame(c) == Invalid)
              && (size >= 4 && |c| < size ==> TryFrame(c) == NeedMore)
              && (size >= 4 && |c| >= size ==>
                    && TryFrame(c).Ok? && Announced(c) == size
                    && TryFrame(c).packet.id == c[2] as int * 256 + c[3]
                    && TryFrame(c).packet.body == c[4..size])
  {
    if |c| >= 2 {
      assert c[..2][0] == c[0] && c[..2][1] == c[1];
    }
  }

  /** Framing undoes encoding, whatever follows on the stream, exactly when the total size
      fits the 16-bit size field; SendMessage does not check that it does. */
  lemma FrameUndoesWire(m: Message, rest: seq<Byte>)
    ensures TryFrame(Wire(m) + rest) == Ok(m) && Announced(Wire(m) + rest) == |Wire(m)| <==> Fits(m)
  {
    WireHeader(m, rest);
    if Fits(m) {
      assert (Wire(m) + rest)[..TotalSize(m)] == Wire(m);
    }
  }

  /** The smallest message that breaks the stream: its size field reads 0, a broken header. */
  lemma OversizeBreaksStream(id: U16, body: seq<Byte>, rest: seq<Byte>)
    requires |body| == 65532
    ensures TryFrame(Wire(Message(id, body)) + rest) == Invalid
  {
    WireHeader(Message(id, body), rest);
  }

  // ---- Chunking -------------------------------------------------------------------

  /** What was decided about a stream stays decided when more bytes arrive. */
  lemma FrameExtend(a: seq<Byte>, b: seq<Byte>)
    ensures TryFrame(a) != NeedMore ==>
              && TryFrame(a + b) == TryFrame(a)
              && |a| >= HEADER_SIZE && Announced(a + b) == Announced(a)
  {
    if TryFrame(a) != NeedMore {
      assert (a + b)[..2] == a[..2];
      if TryFrame(a).Ok? {
        assert (a + b)[..Announced(a)] == a[..Announced(a)];
      }
    }
  }

  lemma {:induction false} ParseExtend(a: seq<Byte>, b: seq<Byte>)
    ensures var p := Parse(a);
            Parse(a + b) == match p.status
                            case Broken => p
                            case Waiting(r) => Parsed(p.packets + Parse(r + b).packets, Parse(r + b).status)
    decreases |a|
  {
    FrameExtend(a, b);
    match TryFrame(a)
    case NeedMore => assert [] + Parse(a + b).packets == Parse(a + b).packets;
    case Invalid =>
    case Ok(p) =>
      var n := Announced(a);
      ParseExtend(a[n..], b);
      assert (a + b)[n..] == a[n..] + b;
      var rest := Parse(a[n..]);
      if rest.status.Waiting? {
        var more := Parse(rest.status.residue + b).packets;
        assert [p] + (rest.packets + more) == ([p] + rest.packets) + more;
      }
  }

  /** A stalled loop has nothing more to say about what it left over. */
  lemma {:induction false} ResidueNeedsMore(c: seq<Byte>)
    ensures var s := Parse(c).status;
            s.Waiting? ==> TryFrame(s.residue) == NeedMore && Parse(s.residue) == Parsed([], s)
    decreases |c|
  {
    if TryFrame(c).Ok? {
      ResidueNeedsMore(c[Announced(c)..]);
    }
  }

  /** Framing does not depend on how TCP cut the stream. */
  lemma {:induction false} ChunkingIrrelevant(residue: seq<Byte>, chunks: seq<seq<Byte>>)
    requires TryFrame(residue) == NeedMore
    ensures Receive(residue, chunks) == Parse(residue + Concat(chunks))
    decreases |chunks|
  {
    if chunks == [] {
      assert residue + Concat(chunks) == residue;
    } else {
      var a, b := residue + chunks[0], Concat(chunks[1..]);
      assert residue + Concat(chunks) == a + b;
      ParseExtend(a, b);
      ResidueNeedsMore(a);
      if Parse(a).status.Waiting? {
        ChunkingIrrelevant(Parse(a).status.residue, chunks[1..]);
      }
    }
  }

  // ---- Streams of messages ----------------------------------------------------------

  lemma {:induction false} StreamAppend(ms: seq<Message>, m: Message)
    ensures Stream(ms + [m]) == Stream(ms) + Wire(m)
  {
    if ms == [] {
      assert [m][1..] == [];
    } else {
      StreamAppend(ms[1..], m);
      assert (ms + [m])[1..] == ms[1..] + [m];
      assert (ms + [m])[0] == ms[0];
    }
  }

  lemma CutFrameWaits(m: Message, c: seq<Byte>)
    requires Fits(m) && |c| < |Wire(m)| && c <= Wire(m)
    ensures TryFrame(c) == NeedMore
  {
    WireHeader(m, []);
    assert Wire(m) + [] == Wire(m);
    if |c| >= 2 {
      assert c[..2] == Wire(m)[..2];
    }
  }

  /** A stream prefix that holds the first message whole: the message, then a prefix of the rest. */
  lemma CutBehindFirst(ms: seq<Message>, c: seq<Byte>)
    requires ms != [] && c <= Stream(ms) && |c| >= |Wire(ms[0])|
    ensures var w := Wire(ms[0]); c == w + c[|w|..] && c[|w|..] <= Stream(ms[1..])
    ensures c == Stream(ms) ==> c[|Wire(ms[0])|..] == Stream(ms[1..])
  {
    var w := Wire(ms[0]);
    assert c[..|w|] == Stream(ms)[..|w|] == w;
    assert c[|w|..] == Stream(ms[1..])[..|c| - |w|];
  }

  lemma ParseFirst(m: Message, rest: seq<Byte>)
    requires Fits(m)
    ensures Parse(Wire(m) + rest) == Parsed([m] + Parse(rest).packets, Parse(rest).status)
  {
    FrameUndoesWire(m, rest);
    assert (Wire(m) + rest)[|Wire(m)|..] == rest;
  }

  /** Every cut of a stream of messages that fit is parsed into the first few of those messages,
      and its header is never broken. */
  lemma {:induction false} PrefixParsesToPrefix(ms: seq<Message>, c: seq<Byte>)
    requires forall m <- ms :: Fits(m)
    requires c <= Stream(ms)
    ensures Parse(c).packets <= ms
    ensures Parse(c).status.Waiting?
    ensures c == Stream(ms) ==> Parse(c) == Parsed(ms, Waiting([]))
    decreases |ms|
  {
    if ms == [] {
      assert c == [];
    } else if |c| < |Wire(ms[0])| {
      assert Fits(ms[0]);
      CutFrameWaits(ms[0], c);
    } else {
      var rest := c[|Wire(ms[0])|..];
      CutBehindFirst(ms, c);
      PrefixParsesToPrefix(ms[1..], rest);
      ParseFirst(ms[0], rest);
      FirstThenPrefix(ms, Parse(rest).packets);
      assert Parse(c) == Parsed([ms[0]] + Parse(rest).packets, Parse(rest).status);
    }
  }

  lemma FirstThenPrefix(ms: seq<Message>, packets: seq<Message>)
    requires ms != [] && packets <= ms[1..]
    ensures [ms[0]] + packets <= ms && (packets == ms[1..] ==> [ms[0]] + packets == ms)
  {
  }

  lemma BigEndianOf(hi: Byte, lo: Byte)
    ensures BigEndian(hi * 256 + lo) == [hi, lo]
  {
  }

  /** Encoding undoes framing. */
  lemma WireUndoesFrame(raw: seq<Byte>)
    requires |raw| >= 4 && Announced(raw) == |raw|
    ensures Wire(FromRaw(raw)) == raw
  {
    BigEndianOf(raw[0], raw[1]);
    BigEndianOf(raw[2], raw[3]);
    assert raw == [raw[0], raw[1]] + [raw[2], raw[3]] + raw[4..];
  }

  /** The parsed packets, encoded again, and what is left over are the stream byte for byte. */
  lemma {:induction false} ParseConserves(c: seq<Byte>)
    ensures var p := Parse(c);
            p.status.Waiting? ==> c == Stream(p.packets) + p.status.residue
    decreases |c|
  {
    if TryFrame(c).Ok? {
      var n := Announced(c);
      assert c[..n][..2] == c[..2];
      WireUndoesFrame(c[..n]);
      ParseConserves(c[n..]);
      var rest := Parse(c[n..]).packets;
      assert ([TryFrame(c).packet] + rest)[1..] == rest;
      assert c == c[..n] + c[n..];
    }
  }

  /** A stream that starts with whole messages is parsed into those messages and then the rest. */
  lemma ParseWholeMessages(ms: seq<Message>, c: seq<Byte>)
    requires forall m <- ms :: Fits(m)
    ensures Parse(Stream(ms) + c) == Parsed(ms + Parse(c).packets, Parse(c).status)
  {
    PrefixParsesToPrefix(ms, Stream(ms));
    ParseExtend(Stream(ms), c);
    assert [] + c == c;
  }

  // ---- Room to receive ------------------------------------------------------------

  /** A buffer of `cap` bytes can fill up while the framer still waits exactly when it is smaller
      than the largest packet. */
  lemma StallsFullIff(cap: nat)
    ensures (exists c: seq<Byte> :: |c| == cap && TryFrame(c) == NeedMore) <==> cap < MAX_PACKET_SIZE
  {
    if cap < MAX_PACKET_SIZE {
      var c: seq<Byte> := seq(cap, i => 255);
      if cap >= 2 {
        assert c[..2] == [255, 255];
        assert Announced(c) == 65535;
      }
      assert |c| == cap && TryFrame(c) == NeedMore;
    }
  }
}
