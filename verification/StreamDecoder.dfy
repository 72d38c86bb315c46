/** Reassembling packets from a byte stream: the read buffer of the TCP adapter, and the loop around it. */
module StreamDecoder {
  import opened Prelude
  import opened PacketCodec

  const MAX_PAYLOAD: nat := 1024 * 1024
  const MAX_EXT_HEADER: nat := 64 * 1024

  datatype TcpError = BufferOverflow | BadPacket(error: PacketError)

  datatype Outcome =
    | Incomplete
    | Complete(packet: Packet)
    | Failed(error: TcpError)

  /** One look at the buffer: what is found there and what the buffer holds afterwards. */
  function TryParse(buffer: seq<Byte>): (Outcome, seq<Byte>) {
    if |buffer| < HEADER_LEN then (Incomplete, buffer)
    else
      var extLen := U16From(buffer[8], buffer[9]);
      var payloadLen := U32From(buffer[10], buffer[11], buffer[12], buffer[13]);
      if payloadLen > MAX_PAYLOAD || extLen > MAX_EXT_HEADER then (Failed(BufferOverflow), buffer)
      else
        var total := HEADER_LEN + extLen + payloadLen;
        if |buffer| < total then (Incomplete, buffer)
        else
          (match Parse(buffer[..total])
           case Ok(packet) => Complete(packet)
           case Err(e) => Failed(BadPacket(e)),
           buffer[total..])
  }

  /** What a decoder has produced: packets, the bytes still buffered, and the error that stopped it. */
  datatype Decoded = Decoded(packets: seq<Packet>, rest: seq<Byte>, failure: Option<TcpError>)

  lemma TryParseShrinks(buffer: seq<Byte>)
    ensures TryParse(buffer).0.Complete? ==> |TryParse(buffer).1| < |buffer|
    ensures TryParse(buffer).0.Incomplete? ==> TryParse(buffer).1 == buffer
  {
  }

  /** Parse until there is no complete packet left, or until an error. */
  function Drain(buffer: seq<Byte>): Decoded
    decreases |buffer|
  {
    TryParseShrinks(buffer);
    var (outcome, rest) := TryParse(buffer);
    match outcome
    case Incomplete => Decoded([], rest, None)
    case Failed(e) => Decoded([], rest, Some(e))
    case Complete(packet) =>
      var more := Drain(rest);
      more.(packets := [packet] + more.packets)
  }

  lemma DrainOnce(buffer: seq<Byte>)
    ensures var (outcome, rest) := TryParse(buffer);
      match outcome
      case Incomplete => Drain(buffer) == Decoded([], rest, None)
      case Failed(e) => Drain(buffer) == Decoded([], rest, Some(e))
      case Complete(packet) => Drain(buffer) == Drain(rest).(packets := [packet] + Drain(rest).packets)
  {
    hide TryParse;
  }

  /** One read: append the bytes, then drain. A decoder that has failed reads nothing more. */
  function Feed(d: Decoded, chunk: seq<Byte>): Decoded {
    if d.failure.Some? then d
    else
      var more := Drain(d.rest + chunk);
      more.(packets := d.packets + more.packets)
  }

  function FeedAll(d: Decoded, chunks: seq<seq<Byte>>): Decoded
    decreases chunks
  {
    if chunks == [] then d else FeedAll(Feed(d, chunks[0]), chunks[1..])
  }

  function Concat(chunks: seq<seq<Byte>>): seq<Byte> {
    if chunks == [] then [] else chunks[0] + Concat(chunks[1..])
  }

  function SerializeAll(packets: seq<Packet>): seq<seq<Byte>> {
    if packets == [] then [] else [Serialize(packets[0])] + SerializeAll(packets[1..])
  }

  const NOTHING: Decoded := Decoded([], [], None)

  // ---------- the buffer object ----------

  class ReadBuffer {
    var buffer: seq<Byte>
    var readCount: nat
    var packetsParsed: nat
    var bytesRead: nat
    ghost var consumed: nat

    /** Every byte read has either been consumed by a parse or is still buffered. */
    ghost predicate Valid()
      reads this
    {
      bytesRead == consumed + |buffer| && HEADER_LEN * packetsParsed <= consumed
    }

    constructor ()
      ensures Valid() && buffer == [] && readCount == packetsParsed == bytesRead == consumed == 0
    {
      buffer, readCount, packetsParsed, bytesRead, consumed := [], 0, 0, 0, 0;
    }

    method TryParseNextPacket() returns (outcome: Outcome)
      requires Valid()
      modifies this
      ensures Valid()
      ensures (outcome, buffer) == TryParse(old(buffer))
      ensures outcome.Incomplete? || outcome == Failed(BufferOverflow) ==> buffer == old(buffer)
      ensures outcome.Complete? ==> consumed == old(consumed) + DeclaredLen(outcome.packet.header)
      ensures packetsParsed == old(packetsParsed) + if outcome.Complete? then 1 else 0
      ensures readCount == old(readCount) && bytesRead == old(bytesRead)
    {
      if |buffer| < HEADER_LEN {
        return Incomplete;
      }
      var extLen := U16From(buffer[8], buffer[9]);
      var payloadLen := U32From(buffer[10], buffer[11], buffer[12], buffer[13]);
      if payloadLen > MAX_PAYLOAD || extLen > MAX_EXT_HEADER {
        return Failed(BufferOverflow);
      }
      var total := HEADER_LEN + extLen + payloadLen;
      if |buffer| < total {
        return Incomplete;
      }
      var packetBytes := buffer[..total];
      buffer := buffer[total..];
      consumed := consumed + total;
      var parsed := PacketFromBytes(packetBytes);
      if parsed.Err? {
        return Failed(BadPacket(parsed.error));
      }
      packetsParsed := packetsParsed + 1;
      return Complete(parsed.value);
    }

    method FillFromStream(received: seq<Byte>) returns (count: nat)
      requires Valid()
      modifies this
      ensures Valid()
      ensures count == |received| && buffer == old(buffer) + received
      ensures readCount == old(readCount) + 1 && bytesRead == old(bytesRead) + count
      ensures packetsParsed == old(packetsParsed) && consumed == old(consumed)
    {
      buffer := buffer + received;
      readCount := readCount + 1;
      bytesRead := bytesRead + |received|;
      count := |received|;
    }

    /** A reader's loop: parse until nothing complete is left or a parse fails. */
    method ParseAvailable() returns (packets: seq<Packet>, failure: Option<TcpError>)
      requires Valid()
      modifies this
      ensures Valid()
      ensures Decoded(packets, buffer, failure) == Drain(old(buffer))
      ensures packetsParsed == old(packetsParsed) + |packets|
      ensures bytesRead == old(bytesRead)
    {
      hide TryParse, Drain;
      packets := [];
      while true
        invariant Valid() && bytesRead == old(bytesRead)
        invariant packetsParsed == old(packetsParsed) + |packets|
        invariant Drain(old(buffer)) == Drain(buffer).(packets := packets + Drain(buffer).packets)
        decreases |buffer|
      {
        hide TryParse, Drain;
        TryParseShrinks(buffer);
        DrainOnce(buffer);
        var outcome := TryParseNextPacket();
        match outcome
        case Incomplete => return packets, None;
        case Failed(e) => return packets, Some(e);
        case Complete(packet) =>
          packets := packets + [packet];
      }
    }
  }

  // ---------- independence from chunking ----------

  /** Once a look at the buffer has a definite outcome, bytes that arrive later do not change it. */
  lemma MoreBytesSameOutcome(buffer: seq<Byte>, more: seq<Byte>)
    requires !TryParse(buffer).0.Incomplete?
    ensures TryParse(buffer + more) == (TryParse(buffer).0, TryParse(buffer).1 + more)
  {
    var whole := buffer + more;
    assert whole[8] == buffer[8] && whole[9] == buffer[9] && whole[10] == buffer[10]
        && whole[11] == buffer[11] && whole[12] == buffer[12] && whole[13] == buffer[13];
    var extLen := U16From(buffer[8], buffer[9]);
    var payloadLen := U32From(buffer[10], buffer[11], buffer[12], buffer[13]);
    if payloadLen <= MAX_PAYLOAD && extLen <= MAX_EXT_HEADER {
      var total := HEADER_LEN + extLen + payloadLen;
      assert whole[..total] == buffer[..total] && whole[total..] == buffer[total..] + more;
    }
  }

  /** One look at the buffer in terms of its bytes: what it takes, what it waits for and what it refuses. */
  lemma LookAtBuffer(buffer: seq<Byte>)
    ensures |buffer| < 16 ==> TryParse(buffer) == (Incomplete, buffer)
    ensures |buffer| >= 16 ==>
              var b: seq<nat> := buffer;
              var extLen, payloadLen := b[8] * 256 + b[9], ((b[10] * 256 + b[11]) * 256 + b[12]) * 256 + b[13];
              var end := 16 + extLen + payloadLen;
              var (outcome, rest) := TryParse(buffer);
              if payloadLen > 1_048_576 then outcome == Failed(BufferOverflow) && rest == buffer
              else if |buffer| < end then outcome == Incomplete && rest == buffer
              else
                && rest == buffer[end..]
                && if b[0] != 1 then outcome == Failed(BadPacket(UnsupportedVersion(buffer[0])))
                   else
                     && outcome.Complete? && HeaderFromBytes(buffer) == Ok(outcome.packet.header)
                     && outcome.packet.extHeader == buffer[16..16 + extLen]
                     && outcome.packet.payload == buffer[16 + extLen..end]
  {
    if |buffer| >= 16 {
      var b: seq<nat> := buffer;
      var end := 16 + b[8] * 256 + b[9] + ((b[10] * 256 + b[11]) * 256 + b[12]) * 256 + b[13];
      if |buffer| >= end {
        LookAtPacket(buffer, end);
      }
    }
  }

  lemma LookAtPacket(buffer: seq<Byte>, end: nat)
    requires 16 <= end <= |buffer| && end == ExpectedLen(buffer)
    ensures HeaderFromBytes(buffer[..end]) == HeaderFromBytes(buffer)
    ensures buffer[0] != 1 ==> Parse(buffer[..end]) == Err(UnsupportedVersion(buffer[0]))
    ensures buffer[0] == 1 ==>
              var b: seq<nat> := buffer;
              var payloadAt := 16 + b[8] * 256 + b[9];
              var result := Parse(buffer[..end]);
              && result.Ok? && HeaderFromBytes(buffer) == Ok(result.value.header)
              && result.value.extHeader == buffer[16..payloadAt] && result.value.payload == buffer[payloadAt..end]
  {
    hide Parse;
    ParsedParts(buffer[..end]);
  }

  /** The decoder after draining more bytes behind what it had left. */
  function Then(d: Decoded, more: seq<Byte>): Decoded {
    if d.failure.Some? then d.(rest := d.rest + more)
    else Drain(d.rest + more).(packets := d.packets + Drain(d.rest + more).packets)
  }

  /** Draining a longer buffer is draining its front, then what that left followed by the rest. */
  lemma {:induction false} DrainInTwo(front: seq<Byte>, back: seq<Byte>)
    ensures Drain(front + back) == Then(Drain(front), back)
    decreases |front|
  {
    hide TryParse;
    TryParseShrinks(front);
    var (outcome, rest) := TryParse(front);
    if !outcome.Incomplete? {
      MoreBytesSameOutcome(front, back);
      if outcome.Complete? {
        DrainInTwo(rest, back);
      }
    }
  }

  /**
  A decoder is stable: draining its rest again gives nothing new. So feeding chunks one at a time is
  feeding their concatenation, up to the bytes that are not read after a failure.
  */
  lemma {:induction false} FeedAllIsFeedOnce(d: Decoded, chunks: seq<seq<Byte>>)
    requires d.failure.None? ==> Drain(d.rest) == Decoded([], d.rest, None)
    ensures var pieces, whole := FeedAll(d, chunks), Feed(d, Concat(chunks));
            && pieces.packets == whole.packets && pieces.failure == whole.failure
            && (pieces.failure.None? ==> pieces.rest == whole.rest)
    decreases chunks
  {
    hide TryParse;
    if chunks == [] {
      assert d.rest + [] == d.rest;
    } else if d.failure.None? {
      var first := Feed(d, chunks[0]);
      DrainInTwo(d.rest + chunks[0], Concat(chunks[1..]));
      assert d.rest + Concat(chunks) == (d.rest + chunks[0]) + Concat(chunks[1..]);
      DrainIsStable(d.rest + chunks[0]);
      FeedAllIsFeedOnce(first, chunks[1..]);
    } else {
      FeedAllIsFeedOnce(d, chunks[1..]);
    }
  }

  lemma {:induction false} DrainIsStable(buffer: seq<Byte>)
    ensures var d := Drain(buffer); d.failure.None? ==> Drain(d.rest) == Decoded([], d.rest, None)
    decreases |buffer|
  {
    TryParseShrinks(buffer);
    if TryParse(buffer).0.Complete? {
      DrainIsStable(TryParse(buffer).1);
    }
  }

  /**
  The packets decoded from a stream, and the error that ends it if any, do not depend on how the stream
  was cut into reads; neither do the bytes left over when there is no error. This is for every byte
  string, well formed or not.
  */
  lemma ChunkingDoesNotMatter(chunks: seq<seq<Byte>>)
    ensures FeedAll(NOTHING, chunks).packets == Drain(Concat(chunks)).packets
    ensures FeedAll(NOTHING, chunks).failure == Drain(Concat(chunks)).failure
    ensures FeedAll(NOTHING, chunks).failure.None? ==> FeedAll(NOTHING, chunks).rest == Drain(Concat(chunks)).rest
  {
    hide TryParse, Drain, FeedAll, Concat;
    DrainNothing();
    FeedAllIsFeedOnce(NOTHING, chunks);
    assert [] + Concat(chunks) == Concat(chunks);
  }

  // ---------- streams of packets ----------

  predicate Sendable(p: Packet) {
    WellFormed(p) && |p.payload| <= MAX_PAYLOAD
  }

  /** The front of a buffer that holds a well-formed packet is taken as that packet, unless it is too big. */
  lemma FrontPacket(p: Packet, tail: seq<Byte>)
    requires WellFormed(p)
    ensures TryParse(Serialize(p) + tail)
         == if Sendable(p) then (Complete(p), tail) else (Failed(BufferOverflow), Serialize(p) + tail)
  {
    var b := Serialize(p) + tail;
    RoundTrip(p, tail);
    RoundTrip(p, []);
    assert b[..HEADER_LEN][8] == b[8] && b[..HEADER_LEN][9] == b[9];
    assert HeaderFromBytes(b[..HEADER_LEN]) == Ok(p.header);
    assert b[..DeclaredLen(p.header)] == Serialize(p) + [];
    assert b[DeclaredLen(p.header)..] == tail;
  }

  lemma DrainNothing()
    ensures Drain([]) == NOTHING
  {
  }

  /** Draining takes a packet from the front, unless it is too big. */
  lemma DrainFront(p: Packet, tail: seq<Byte>)
    requires WellFormed(p)
    ensures Drain(Serialize(p) + tail)
         == if Sendable(p) then Drain(tail).(packets := [p] + Drain(tail).packets)
            else Decoded([], Serialize(p) + tail, Some(BufferOverflow))
  {
    hide TryParse, Serialize, WellFormed;
    FrontPacket(p, tail);
  }

  lemma {:induction false} DrainPackets(packets: seq<Packet>)
    requires forall p :: p in packets ==> WellFormed(p)
    ensures Drain(Concat(SerializeAll(packets))).packets == packets <==> forall p :: p in packets ==> Sendable(p)
    ensures (forall p :: p in packets ==> Sendable(p)) ==>
              Drain(Concat(SerializeAll(packets))) == Decoded(packets, [], None)
  {
    hide Drain, TryParse, Serialize, WellFormed;
    if packets == [] {
      DrainNothing();
    } else {
      var p, others := packets[0], packets[1..];
      assert SerializeAll(packets)[0] == Serialize(p) && SerializeAll(packets)[1..] == SerializeAll(others);
      DrainFront(p, Concat(SerializeAll(others)));
      DrainPackets(others);
      assert packets == [p] + others;
      assert forall q :: q in packets <==> q == p || q in others;
    }
  }

  /**
  Stream reassembly. However the bytes of well-formed packets are cut into reads, the decoder yields
  exactly those packets, in order, with nothing left over, provided no payload exceeds 1 MiB; and if one
  does it does not yield them all.
  */
  lemma ReassemblyExactlyWhenSendable(packets: seq<Packet>, chunks: seq<seq<Byte>>)
    requires forall p :: p in packets ==> WellFormed(p)
    requires Concat(chunks) == Concat(SerializeAll(packets))
    ensures FeedAll(NOTHING, chunks) == Decoded(packets, [], None) <==>
            forall p :: p in packets ==> |p.payload| <= 1_048_576
  {
    ChunkingDoesNotMatter(chunks);
    DrainPackets(packets);
  }

  // ---------- progress and bounds ----------

  function TotalLen(packets: seq<Packet>): nat {
    if packets == [] then 0 else DeclaredLen(packets[0].header) + TotalLen(packets[1..])
  }

  /** A look at the buffer that succeeds takes a well-formed packet of its exact declared length. */
  lemma CompleteTakesDeclaredLen(buffer: seq<Byte>)
    requires TryParse(buffer).0.Complete?
    ensures var p := TryParse(buffer).0.packet;
            && Sendable(p)
            && |buffer| == DeclaredLen(p.header) + |TryParse(buffer).1| && DeclaredLen(p.header) >= HEADER_LEN
  {
    var total := HEADER_LEN + U16From(buffer[8], buffer[9]) + U32From(buffer[10], buffer[11], buffer[12], buffer[13]);
    ParsedIsWellFormed(buffer[..total]);
  }

  /**
  Draining conserves bytes. Without an error, the packets' declared lengths and the rest add up to the
  buffer, and the rest is shorter than the longest packet that is accepted; after an overflow the buffer
  still starts with the packet that was refused.
  */
  lemma {:induction false} DrainConserves(buffer: seq<Byte>)
    ensures var d := Drain(buffer);
            && (forall p :: p in d.packets ==> Sendable(p))
            && (d.failure.None? ==>
                  |buffer| == TotalLen(d.packets) + |d.rest| && |d.rest| < HEADER_LEN + 0xFFFF + MAX_PAYLOAD)
            && (d.failure == Some(BufferOverflow) ==>
                  |buffer| == TotalLen(d.packets) + |d.rest| && TryParse(d.rest) == (Failed(BufferOverflow), d.rest))
            && HEADER_LEN * |d.packets| <= |buffer|
    decreases |buffer|
  {
    TryParseShrinks(buffer);
    var (outcome, rest) := TryParse(buffer);
    if outcome.Complete? {
      CompleteTakesDeclaredLen(buffer);
      DrainConserves(rest);
      assert Drain(buffer).packets == [outcome.packet] + Drain(rest).packets;
    }
  }

  // ---------- the event loop ----------

  datatype Loop = Loop(delivered: seq<Packet>, closed: bool)

  /**
  The adapter's event loop as it is: every read goes into a fresh buffer that is looked at once, whatever
  follows the first packet is dropped with the buffer, and an incomplete packet counts as end of stream.
  */
  function EventLoop(segments: seq<seq<Byte>>): Loop {
    if segments == [] then Loop([], false)
    else
      match TryParse(segments[0]).0
      case Complete(packet) =>
        var more := EventLoop(segments[1..]);
        more.(delivered := [packet] + more.delivered)
      case _ => Loop([], true)
  }

  /** The loop's read: into a buffer of its own. */
  method ReadOnce(segment: seq<Byte>) returns (outcome: Outcome)
    ensures outcome == TryParse(segment).0
  {
    hide TryParse;
    var temporary := new ReadBuffer();
    var _ := temporary.FillFromStream(segment);
    assert temporary.buffer == segment;
    outcome := temporary.TryParseNextPacket();
  }

  method RunEventLoop(segments: seq<seq<Byte>>) returns (loop: Loop)
    ensures loop == EventLoop(segments)
  {
    hide TryParse;
    var delivered := [];
    for i := 0 to |segments|
      invariant var rest := EventLoop(segments[i..]);
        EventLoop(segments) == rest.(delivered := delivered + rest.delivered)
    {
      hide TryParse;
      assert segments[i..][1..] == segments[i + 1..];
      var outcome := ReadOnce(segments[i]);
      if !outcome.Complete? {
        return Loop(delivered, true);
      }
      delivered := delivered + [outcome.packet];
    }
    return Loop(delivered, false);
  }

  function SumOfLengths(chunks: seq<seq<Byte>>): nat {
    if chunks == [] then 0 else |chunks[0]| + SumOfLengths(chunks[1..])
  }

  lemma {:induction false} ConcatLength(chunks: seq<seq<Byte>>)
    ensures |Concat(chunks)| == SumOfLengths(chunks)
  {
    if chunks != [] {
      ConcatLength(chunks[1..]);
    }
  }

  /** The loop needs a read of at least its packet's length for every packet it delivers. */
  lemma {:induction false} DeliveryNeedsLength(segments: seq<seq<Byte>>)
    requires !EventLoop(segments).closed
    ensures var delivered := EventLoop(segments).delivered;
            && |delivered| == |segments|
            && (forall i :: 0 <= i < |segments| ==> DeclaredLen(delivered[i].header) <= |segments[i]|)
            && TotalLen(delivered) <= SumOfLengths(segments)
            && (TotalLen(delivered) == SumOfLengths(segments) ==>
                  forall i :: 0 <= i < |segments| ==> |segments[i]| == DeclaredLen(delivered[i].header))
  {
    if segments != [] {
      CompleteTakesDeclaredLen(segments[0]);
      DeliveryNeedsLength(segments[1..]);
      assert EventLoop(segments).delivered[1..] == EventLoop(segments[1..]).delivered;
    }
  }

  lemma {:induction false} SerializedLength(packets: seq<Packet>)
    requires forall p :: p in packets ==> WellFormed(p)
    ensures SumOfLengths(SerializeAll(packets)) == TotalLen(packets)
    ensures |SerializeAll(packets)| == |packets|
    ensures forall i :: 0 <= i < |packets| ==> SerializeAll(packets)[i] == Serialize(packets[i])
  {
    if packets != [] {
      RoundTrip(packets[0], []);
      SerializedLength(packets[1..]);
      assert SerializeAll(packets)[1..] == SerializeAll(packets[1..]);
    }
  }

  /** Two ways to cut the same bytes into pieces of the same lengths are the same. */
  lemma {:induction false} SameLengthsSamePieces(a: seq<seq<Byte>>, b: seq<seq<Byte>>)
    requires Concat(a) == Concat(b) && |a| == |b|
    requires forall i :: 0 <= i < |a| ==> |a[i]| == |b[i]|
    ensures a == b
  {
    if a != [] {
      assert a[0] == Concat(a)[..|a[0]|] && b[0] == Concat(b)[..|b[0]|];
      assert Concat(a[1..]) == Concat(a)[|a[0]|..] && Concat(b[1..]) == Concat(b)[|b[0]|..];
      SameLengthsSamePieces(a[1..], b[1..]);
      assert a == [a[0]] + a[1..] && b == [b[0]] + b[1..];
    }
  }

  lemma {:induction false} OnePacketPerRead(packets: seq<Packet>)
    requires forall p :: p in packets ==> Sendable(p)
    ensures EventLoop(SerializeAll(packets)) == Loop(packets, false)
  {
    if packets != [] {
      assert packets[0] in packets;
      FrontPacket(packets[0], []);
      assert Serialize(packets[0]) + [] == Serialize(packets[0]);
      OnePacketPerRead(packets[1..]);
      assert SerializeAll(packets)[1..] == SerializeAll(packets[1..]);
    }
  }

  /**
  Behind packets that came one to a read, a read that is not one complete acceptable packet, the empty read at the
  end of the stream among them, closes the loop: it has delivered those packets and looks at nothing further.
  */
  lemma {:induction false} LoopClosesAtFirstBadRead(packets: seq<Packet>, last: seq<Byte>, further: seq<seq<Byte>>)
    requires forall p :: p in packets ==> Sendable(p)
    requires |last| < 16 || last[0] != 1 || |last| < ExpectedLen(last) || ExpectedPayload(last) > 1_048_576
    ensures EventLoop(SerializeAll(packets) + [last] + further) == Loop(packets, true)
  {
    hide TryParse, Serialize;
    var segments := SerializeAll(packets) + [last] + further;
    if packets == [] {
      LookAtBuffer(last);
      assert segments[0] == last;
    } else {
      assert packets[0] in packets;
      FrontPacket(packets[0], []);
      assert Serialize(packets[0]) + [] == Serialize(packets[0]);
      LoopClosesAtFirstBadRead(packets[1..], last, further);
      assert segments[0] == Serialize(packets[0]);
      assert segments[1..] == SerializeAll(packets[1..]) + [last] + further;
    }
  }

  /** The payload length in a header. */
  function ExpectedPayload(b: seq<nat>): nat
    requires |b| >= 16
  {
    ((b[10] * 256 + b[11]) * 256 + b[12]) * 256 + b[13]
  }

  /**
  Over a TCP stream the event loop delivers what was sent, and does not take it for a close, exactly if
  every read happened to return the bytes of one packet: it relies on the network keeping packet
  boundaries, which the read buffer by itself does not.
  */
  lemma EventLoopWorksExactlyWhenReadsArePackets(packets: seq<Packet>, segments: seq<seq<Byte>>)
    requires forall p :: p in packets ==> Sendable(p)
    requires Concat(segments) == Concat(SerializeAll(packets))
    ensures EventLoop(segments) == Loop(packets, false) <==> segments == SerializeAll(packets)
  {
    OnePacketPerRead(packets);
    SerializedLength(packets);
    if EventLoop(segments) == Loop(packets, false) {
      DeliveryNeedsLength(segments);
      ConcatLength(segments);
      ConcatLength(SerializeAll(packets));
      forall i | 0 <= i < |segments|
        ensures |segments[i]| == |SerializeAll(packets)[i]|
      {
        assert packets[i] in packets;
        RoundTrip(packets[i], []);
      }
      SameLengthsSamePieces(segments, SerializeAll(packets));
    }
  }

  /** The most one read of the loop returns: the capacity of its buffer. */
  const READ_CAPACITY: nat := 8192

  /** Some cutting of the packets' bytes into reads of this size makes the loop deliver them. */
  ghost predicate LoopCanDeliver(packets: seq<Packet>) {
    exists segments: seq<seq<Byte>> ::
      && Concat(segments) == Concat(SerializeAll(packets))
      && (forall i :: 0 <= i < |segments| ==> |segments[i]| <= READ_CAPACITY)
      && EventLoop(segments) == Loop(packets, false)
  }

  /** The loop can deliver packets, if the reads happen to fall well, exactly if none is longer than one read. */
  lemma LoopCanDeliverExactlyWhenPacketsFitReads(packets: seq<Packet>)
    requires forall p :: p in packets ==> Sendable(p)
    ensures LoopCanDeliver(packets) <==> forall p :: p in packets ==> 16 + |p.extHeader| + |p.payload| <= 8192
  {
    SerializedLength(packets);
    forall i | 0 <= i < |packets|
      ensures |SerializeAll(packets)[i]| == DeclaredLen(packets[i].header)
    {
      assert packets[i] in packets;
      RoundTrip(packets[i], []);
    }
    if LoopCanDeliver(packets) {
      var segments: seq<seq<Byte>> :|
        && Concat(segments) == Concat(SerializeAll(packets))
        && (forall i :: 0 <= i < |segments| ==> |segments[i]| <= READ_CAPACITY)
        && EventLoop(segments) == Loop(packets, false);
      EventLoopWorksExactlyWhenReadsArePackets(packets, segments);
    } else {
      EventLoopWorksExactlyWhenReadsArePackets(packets, SerializeAll(packets));
    }
  }

  // ---------- framed receive ----------

  datatype Message = Binary(data: seq<Byte>) | Text(text: seq<Byte>) | CloseFrame | Ping | Pong | RawFrame

  datatype Processed = Received(packet: Packet) | Heartbeat | PeerClosed | InvalidMessageType

  function OneWayPacket(data: seq<Byte>): Packet {
    SetPayload(Packet(Header(1, NoCompression, OneWay, 0, 0, 0, 0, 0), [], []), data)
  }

  /** `process_websocket_message`: a frame that is no packet is received as raw data. */
  function ProcessMessage(message: Message): Processed {
    match message
    case Binary(data) =>
      if |data| < HEADER_LEN then Received(OneWayPacket(data))
      else
        match Parse(data) {
          case Ok(packet) => Received(packet)
          case Err(_) => Received(OneWayPacket(data))
        }
    case Text(text) => Received(OneWayPacket(text))
    case CloseFrame => PeerClosed
    case Ping => Heartbeat
    case Pong => Heartbeat
    case RawFrame => InvalidMessageType
  }

  /**
  Over a framed transport every well-formed packet arrives, whatever its size; and a frame reaches the
  application as raw bytes exactly if it does not parse as a packet.
  */
  lemma FramedReceive(p: Packet, data: seq<Byte>)
    ensures WellFormed(p) ==> ProcessMessage(Binary(Serialize(p))) == Received(p)
    ensures ProcessMessage(Binary(data)) == Received(OneWayPacket(data)) <==> Parse(data).Err?
    ensures ProcessMessage(Text(data)) == Received(OneWayPacket(data))
  {
    if WellFormed(p) {
      RoundTrip(p, []);
      assert Serialize(p) + [] == Serialize(p);
    }
    if Parse(data).Ok? {
      ParsedIsWellFormed(data);
      assert |Parse(data).value.payload| < |data|;
    }
  }

  /** Every message is heartbeat, end of the connection, refusal or a packet, the last with the data as it came. */
  lemma MessageKinds(message: Message)
    ensures ProcessMessage(message) == Heartbeat <==> message.Ping? || message.Pong?
    ensures ProcessMessage(message) == PeerClosed <==> message.CloseFrame?
    ensures ProcessMessage(message) == InvalidMessageType <==> message.RawFrame?
    ensures message.Text? ==>
              && ProcessMessage(message).Received?
              && var p := ProcessMessage(message).packet;
                 && p.extHeader == [] && p.payload == message.text
                 && p.header
                    == Header(1, NoCompression, OneWay, 0, 0, 0, |message.text| % 0x1_0000_0000, 0)
  {
  }
}
