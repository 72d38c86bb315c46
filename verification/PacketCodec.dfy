/** The wire format: a 16-byte big-endian header, an extension header and a payload. */
module PacketCodec {
  type Byte = b: nat | b < 0x100 witness 0
  type U16 = n: nat | n < 0x1_0000 witness 0
  type U32 = n: nat | n < 0x1_0000_0000 witness 0

  const HEADER_LEN: nat := 16

  datatype PacketType = OneWay | Request | Response

  datatype CompressionType = NoCompression | Zstd | Zlib

  datatype Header = Header(
    version: Byte,
    compression: CompressionType,
    packetType: PacketType,
    bizType: Byte,
    messageId: U32,
    extHeaderLen: U16,
    payloadLen: U32,
    reserved: U16)

  datatype Packet = Packet(header: Header, extHeader: seq<Byte>, payload: seq<Byte>)

  datatype PacketError =
    | HeaderTooShort
    | PacketTooShort
    | UnsupportedVersion(version: Byte)
    | ExtendedHeaderIncomplete
    | PayloadIncomplete

  datatype Result<+T> = Ok(value: T) | Err(error: PacketError)

  // ---------- codes and words ----------

  function TypeCode(t: PacketType): Byte {
    match t
    case OneWay => 0
    case Request => 1
    case Response => 2
  }

  function TypeOf(code: Byte): PacketType {
    if code == 1 then Request else if code == 2 then Response else OneWay
  }

  function CompressionCode(c: CompressionType): Byte {
    match c
    case NoCompression => 0
    case Zstd => 1
    case Zlib => 2
  }

  function CompressionOf(code: Byte): CompressionType {
    if code == 1 then Zstd else if code == 2 then Zlib else NoCompression
  }

  function U16Bytes(n: U16): (bytes: seq<Byte>)
    ensures |bytes| == 2
  {
    [n / 0x100, n % 0x100]
  }

  function U32Bytes(n: U32): (bytes: seq<Byte>)
    ensures |bytes| == 4
  {
    U16Bytes(n / 0x1_0000) + U16Bytes(n % 0x1_0000)
  }

  function U16From(high: Byte, low: Byte): U16 {
    0x100 * high + low
  }

  function U32From(b0: Byte, b1: Byte, b2: Byte, b3: Byte): U32 {
    0x1_0000 * U16From(b0, b1) + U16From(b2, b3)
  }

  // ---------- header ----------

  function HeaderToBytes(h: Header): (bytes: seq<Byte>)
    ensures |bytes| == HEADER_LEN
  {
    [h.version, CompressionCode(h.compression), TypeCode(h.packetType), h.bizType]
    + U32Bytes(h.messageId) + U16Bytes(h.extHeaderLen) + U32Bytes(h.payloadLen) + U16Bytes(h.reserved)
  }

  function HeaderFromBytes(b: seq<Byte>): Result<Header> {
    if |b| < HEADER_LEN then Err(HeaderTooShort)
    else if b[0] != 1 then Err(UnsupportedVersion(b[0]))
    else
      Ok(Header(b[0], CompressionOf(b[1]), TypeOf(b[2]), b[3], U32From(b[4], b[5], b[6], b[7]),
                U16From(b[8], b[9]), U32From(b[10], b[11], b[12], b[13]), U16From(b[14], b[15])))
  }

  // ---------- packet ----------

  /** The length a header declares for its whole packet. */
  function DeclaredLen(h: Header): nat {
    HEADER_LEN + h.extHeaderLen + h.payloadLen
  }

  /** A packet of the supported version whose header describes its parts. */
  predicate WellFormed(p: Packet) {
    && p.header.version == 1
    && p.header.extHeaderLen == |p.extHeader|
    && p.header.payloadLen == |p.payload|
  }

  function Serialize(p: Packet): seq<Byte> {
    HeaderToBytes(p.header) + p.extHeader + p.payload
  }

  /** The packet at the front of `b`, or the first thing wrong with it. */
  function Parse(b: seq<Byte>): Result<Packet> {
    if |b| < HEADER_LEN then Err(PacketTooShort)
    else
      match HeaderFromBytes(b[..HEADER_LEN])
      case Err(e) => Err(e)
      case Ok(h) => ParseParts(h, b)
  }

  function ParseParts(h: Header, b: seq<Byte>): Result<Packet>
    requires |b| >= HEADER_LEN
  {
    var payloadAt := HEADER_LEN + h.extHeaderLen;
    if |b| < payloadAt then Err(ExtendedHeaderIncomplete)
    else if |b| < DeclaredLen(h) then Err(PayloadIncomplete)
    else Ok(Packet(h, b[HEADER_LEN..payloadAt], b[payloadAt..DeclaredLen(h)]))
  }

  /** `Packet::from_bytes` and `Packet::from_bytes_zerocopy`, which share this code. */
  method PacketFromBytes(bytes: seq<Byte>) returns (result: Result<Packet>)
    ensures result == Parse(bytes)
  {
    if |bytes| < HEADER_LEN {
      return Err(PacketTooShort);
    }
    var parsed := HeaderFromBytes(bytes[..HEADER_LEN]);
    if parsed.Err? {
      return Err(parsed.error);
    }
    var header := parsed.value;
    assert Parse(bytes) == ParseParts(header, bytes);
    result := PartsFromBytes(header, bytes);
  }

  /** The part of `from_bytes` behind the header. */
  method PartsFromBytes(header: Header, bytes: seq<Byte>) returns (result: Result<Packet>)
    requires |bytes| >= HEADER_LEN
    ensures result == ParseParts(header, bytes)
  {
    var offset := HEADER_LEN;
    var extHeader: seq<Byte> := [];
    if header.extHeaderLen > 0 {
      var end := offset + header.extHeaderLen;
      if |bytes| < end {
        return Err(ExtendedHeaderIncomplete);
      }
      extHeader := bytes[offset..end];
      offset := end;
    }
    var payload: seq<Byte> := [];
    if header.payloadLen > 0 {
      var end := offset + header.payloadLen;
      if |bytes| < end {
        return Err(PayloadIncomplete);
      }
      payload := bytes[offset..end];
    }
    assert extHeader == bytes[HEADER_LEN..HEADER_LEN + header.extHeaderLen];
    assert payload == bytes[HEADER_LEN + header.extHeaderLen..DeclaredLen(header)];
    return Ok(Packet(header, extHeader, payload));
  }

  /** `Packet::to_bytes` and `Packet::to_bytes_zerocopy`. */
  method PacketToBytes(p: Packet) returns (bytes: seq<Byte>)
    ensures bytes == Serialize(p)
  {
    bytes := HeaderToBytes(p.header);
    if p.extHeader != [] {
      bytes := bytes + p.extHeader;
    }
    bytes := bytes + p.payload;
  }

  // ---------- shared packets: views into one buffer ----------

  datatype View = View(buffer: seq<Byte>, start: nat, end: nat) {
    predicate Valid() {
      start <= end <= |buffer|
    }

    function Data(): seq<Byte>
      requires Valid()
    {
      buffer[start..end]
    }
  }

  datatype SharedPacket = SharedPacket(header: Header, extHeader: View, payload: View) {
    predicate Valid() {
      extHeader.Valid() && payload.Valid()
    }

    /** `Packet::from_shared`: the packet with its own copies of the parts. */
    function ToPacket(): Packet
      requires Valid()
    {
      Packet(header, extHeader.Data(), payload.Data())
    }
  }

  /** `Packet::to_shared`. */
  function ToShared(p: Packet): SharedPacket {
    SharedPacket(p.header, View(p.extHeader, 0, |p.extHeader|), View(p.payload, 0, |p.payload|))
  }

  /** `SharedPacket::from_bytes_zerocopy`: slices the input instead of copying from it. */
  method SharedFromBytes(bytes: seq<Byte>) returns (result: Result<SharedPacket>)
    ensures match result
            case Ok(shared) =>
              && shared.Valid() && Parse(bytes) == Ok(shared.ToPacket())
              && (shared.extHeader.Data() != [] ==> shared.extHeader.buffer == bytes)
              && (shared.payload.Data() != [] ==> shared.payload.buffer == bytes)
            case Err(e) => Parse(bytes) == Err(e)
  {
    if |bytes| < HEADER_LEN {
      return Err(PacketTooShort);
    }
    var parsed := HeaderFromBytes(bytes[..HEADER_LEN]);
    if parsed.Err? {
      return Err(parsed.error);
    }
    var header := parsed.value;
    assert Parse(bytes) == ParseParts(header, bytes);
    result := SharedPartsFromBytes(header, bytes);
  }

  method SharedPartsFromBytes(header: Header, bytes: seq<Byte>) returns (result: Result<SharedPacket>)
    requires |bytes| >= HEADER_LEN
    ensures match result
            case Ok(shared) =>
              && shared.Valid() && ParseParts(header, bytes) == Ok(shared.ToPacket())
              && (shared.extHeader.Data() != [] ==> shared.extHeader.buffer == bytes)
              && (shared.payload.Data() != [] ==> shared.payload.buffer == bytes)
            case Err(e) => ParseParts(header, bytes) == Err(e)
  {
    var offset := HEADER_LEN;
    var extHeader := View([], 0, 0);
    if header.extHeaderLen > 0 {
      var end := offset + header.extHeaderLen;
      if |bytes| < end {
        return Err(ExtendedHeaderIncomplete);
      }
      extHeader := View(bytes, offset, end);
      offset := end;
    }
    var payload := View([], 0, 0);
    if header.payloadLen > 0 {
      var end := offset + header.payloadLen;
      if |bytes| < end {
        return Err(PayloadIncomplete);
      }
      payload := View(bytes, offset, end);
    }
    assert extHeader.Data() == bytes[HEADER_LEN..HEADER_LEN + header.extHeaderLen];
    assert payload.Data() == bytes[HEADER_LEN + header.extHeaderLen..DeclaredLen(header)];
    return Ok(SharedPacket(header, extHeader, payload));
  }

  /** `SharedPacket::to_bytes_zerocopy`. */
  method SharedToBytes(shared: SharedPacket) returns (bytes: seq<Byte>)
    requires shared.Valid()
    ensures bytes == Serialize(shared.ToPacket())
  {
    bytes := HeaderToBytes(shared.header);
    if shared.extHeader.Data() != [] {
      bytes := bytes + shared.extHeader.Data();
    }
    bytes := bytes + shared.payload.Data();
  }

  /** Converting a packet to a shared one and back changes nothing. */
  lemma SharedRoundTrip(p: Packet)
    ensures ToShared(p).Valid() && ToShared(p).ToPacket() == p
  {
  }

  // ---------- theorems ----------

  /** What a header looks like on the wire, byte for byte. */
  lemma WrittenLayout(h: Header)
    ensures var b: seq<nat> := HeaderToBytes(h);
      && |b| == 16 && b[0] == h.version && b[3] == h.bizType
      && b[1] == (if h.compression.NoCompression? then 0 else if h.compression.Zstd? then 1 else 2)
      && b[2] == (if h.packetType.OneWay? then 0 else if h.packetType.Request? then 1 else 2)
      && ((b[4] * 256 + b[5]) * 256 + b[6]) * 256 + b[7] == h.messageId
      && b[8] * 256 + b[9] == h.extHeaderLen
      && ((b[10] * 256 + b[11]) * 256 + b[12]) * 256 + b[13] == h.payloadLen
      && b[14] * 256 + b[15] == h.reserved
  {
    HeaderRoundTrip(h.(version := 1), []);
    var b := HeaderToBytes(h.(version := 1));
    assert (b + [])[..HEADER_LEN] == b;
    assert HeaderToBytes(h) == [h.version] + b[1..];
  }

  /** What is read from the bytes of a header: any 16 bytes that start with 1, and whatever follows them. */
  lemma ReadLayout(b: seq<nat>)
    requires forall i :: 0 <= i < |b| ==> b[i] < 256
    ensures HeaderFromBytes(b).Ok? <==> |b| >= 16 && b[0] == 1
    ensures HeaderFromBytes(b).Ok? ==>
              var h := HeaderFromBytes(b).value;
              && h.version == 1 && h.bizType == b[3]
              && (h.compression.Zstd? <==> b[1] == 1) && (h.compression.Zlib? <==> b[1] == 2)
              && (h.packetType.Request? <==> b[2] == 1) && (h.packetType.Response? <==> b[2] == 2)
              && h.messageId == ((b[4] * 256 + b[5]) * 256 + b[6]) * 256 + b[7]
              && h.extHeaderLen == b[8] * 256 + b[9]
              && h.payloadLen == ((b[10] * 256 + b[11]) * 256 + b[12]) * 256 + b[13]
              && h.reserved == b[14] * 256 + b[15]
  {
  }

  lemma U16RoundTrip(n: U16)
    ensures U16From(U16Bytes(n)[0], U16Bytes(n)[1]) == n
  {
  }

  lemma U32RoundTrip(n: U32)
    ensures U32From(U32Bytes(n)[0], U32Bytes(n)[1], U32Bytes(n)[2], U32Bytes(n)[3]) == n
  {
  }

  /** A header of the supported version is read back as written, whatever follows it. */
  lemma HeaderRoundTrip(h: Header, tail: seq<Byte>)
    requires h.version == 1
    ensures HeaderFromBytes((HeaderToBytes(h) + tail)[..HEADER_LEN]) == Ok(h)
  {
    var b := HeaderToBytes(h);
    assert (b + tail)[..HEADER_LEN] == b;
    U32RoundTrip(h.messageId);
    U16RoundTrip(h.extHeaderLen);
    U32RoundTrip(h.payloadLen);
    U16RoundTrip(h.reserved);
    assert b[4..8] == U32Bytes(h.messageId);
    assert b[8..10] == U16Bytes(h.extHeaderLen);
    assert b[10..14] == U32Bytes(h.payloadLen);
    assert b[14..16] == U16Bytes(h.reserved);
    assert b[4] == b[4..8][0] && b[5] == b[4..8][1] && b[6] == b[4..8][2] && b[7] == b[4..8][3];
    assert b[8] == b[8..10][0] && b[9] == b[8..10][1];
    assert b[10] == b[10..14][0] && b[11] == b[10..14][1] && b[12] == b[10..14][2] && b[13] == b[10..14][3];
    assert b[14] == b[14..16][0] && b[15] == b[14..16][1];
  }

  /** Parsing the bytes of a well-formed packet, followed by anything, returns that packet. */
  lemma RoundTrip(p: Packet, tail: seq<Byte>)
    requires WellFormed(p)
    ensures Parse(Serialize(p) + tail) == Ok(p)
    ensures |Serialize(p)| == DeclaredLen(p.header)
  {
    var b := Serialize(p) + tail;
    assert b == HeaderToBytes(p.header) + (p.extHeader + p.payload + tail);
    HeaderRoundTrip(p.header, p.extHeader + p.payload + tail);
    var payloadAt := HEADER_LEN + |p.extHeader|;
    assert b[HEADER_LEN..payloadAt] == p.extHeader;
    assert b[payloadAt..DeclaredLen(p.header)] == p.payload;
  }

  /** A packet survives the wire exactly if it is well formed. */
  lemma RoundTripExactlyWhenWellFormed(p: Packet)
    ensures Parse(Serialize(p)) == Ok(p) <==> WellFormed(p)
  {
    if WellFormed(p) {
      RoundTrip(p, []);
      assert Serialize(p) + [] == Serialize(p);
    } else if Parse(Serialize(p)) == Ok(p) {
      ParsedIsWellFormed(Serialize(p));
    }
  }

  /** Parsing succeeds exactly on a complete packet of version 1, and yields a well-formed packet. */
  lemma ParsedIsWellFormed(b: seq<Byte>)
    ensures Parse(b).Ok? <==> |b| >= 16 && b[0] == 1 && |b| >= ExpectedLen(b)
    ensures Parse(b).Ok? ==> WellFormed(Parse(b).value) && DeclaredLen(Parse(b).value.header) == ExpectedLen(b)
  {
  }

  /** The length that the two length fields at the front of a packet announce. */
  function ExpectedLen(b: seq<nat>): nat
    requires |b| >= 16
  {
    16 + (b[8] * 256 + b[9]) + ((b[10] * 256 + b[11]) * 256 + b[12]) * 256 + b[13]
  }

  /** The parts of a parsed packet follow its header; anything else is refused with the first thing that is wrong. */
  lemma ParsedParts(b: seq<Byte>)
    ensures |b| < 16 ==> Parse(b) == Err(PacketTooShort)
    ensures |b| >= 16 && b[0] != 1 ==> Parse(b) == Err(UnsupportedVersion(b[0]))
    ensures |b| >= 16 && b[0] == 1 ==>
              var n: seq<nat> := b;
              var payloadAt := 16 + n[8] * 256 + n[9];
              var end := payloadAt + ((n[10] * 256 + n[11]) * 256 + n[12]) * 256 + n[13];
              if |b| < payloadAt then Parse(b) == Err(ExtendedHeaderIncomplete)
              else if |b| < end then Parse(b) == Err(PayloadIncomplete)
              else
                && Parse(b).Ok? && HeaderFromBytes(b) == Ok(Parse(b).value.header)
                && Parse(b).value.extHeader == b[16..payloadAt] && Parse(b).value.payload == b[payloadAt..end]
  {
  }

  /** Parsing looks at nothing beyond the declared length. */
  lemma ParseIgnoresTail(b: seq<Byte>, tail: seq<Byte>)
    requires Parse(b).Ok?
    ensures Parse(b + tail) == Parse(b)
  {
    hide HeaderFromBytes;
    assert (b + tail)[..HEADER_LEN] == b[..HEADER_LEN];
    PartsIgnoreTail(Parse(b).value.header, b, tail);
  }

  lemma PartsIgnoreTail(h: Header, b: seq<Byte>, tail: seq<Byte>)
    requires |b| >= HEADER_LEN && ParseParts(h, b).Ok?
    ensures ParseParts(h, b + tail) == ParseParts(h, b)
  {
    var payloadAt := HEADER_LEN + h.extHeaderLen;
    assert (b + tail)[HEADER_LEN..payloadAt] == b[HEADER_LEN..payloadAt];
    assert (b + tail)[payloadAt..DeclaredLen(h)] == b[payloadAt..DeclaredLen(h)];
  }

  lemma U16BytesOf(high: Byte, low: Byte)
    ensures U16Bytes(U16From(high, low)) == [high, low]
  {
  }

  lemma U32BytesOf(b0: Byte, b1: Byte, b2: Byte, b3: Byte)
    ensures U32Bytes(U32From(b0, b1, b2, b3)) == [b0, b1, b2, b3]
  {
    U16BytesOf(b0, b1);
    U16BytesOf(b2, b3);
    var high, low := U16From(b0, b1), U16From(b2, b3);
    assert U32From(b0, b1, b2, b3) / 0x1_0000 == high && U32From(b0, b1, b2, b3) % 0x1_0000 == low;
  }

  /** A parsed header is written back as read, except that unknown codes have become 0. */
  lemma HeaderRewritten(b: seq<Byte>)
    requires HeaderFromBytes(b).Ok?
    ensures HeaderToBytes(HeaderFromBytes(b).value)
         == [b[0], if b[1] <= 2 then b[1] else 0, if b[2] <= 2 then b[2] else 0] + b[3..HEADER_LEN]
  {
    U32BytesOf(b[4], b[5], b[6], b[7]);
    U16BytesOf(b[8], b[9]);
    U32BytesOf(b[10], b[11], b[12], b[13]);
    U16BytesOf(b[14], b[15]);
    assert b[3..HEADER_LEN] == [b[3], b[4], b[5], b[6], b[7], b[8], b[9], b[10], b[11], b[12], b[13], b[14], b[15]];
  }

  lemma HeaderRewrittenAsReadExactlyWhenCodesKnown(b: seq<Byte>)
    requires |b| == HEADER_LEN && HeaderFromBytes(b).Ok?
    ensures HeaderToBytes(HeaderFromBytes(b).value) == b <==> b[1] <= 2 && b[2] <= 2
  {
    HeaderRewritten(b);
    var written := HeaderToBytes(HeaderFromBytes(b).value);
    assert written[1] == (if b[1] <= 2 then b[1] else 0) && written[2] == if b[2] <= 2 then b[2] else 0;
    if b[1] <= 2 && b[2] <= 2 {
      assert b == [b[0], b[1], b[2]] + b[3..HEADER_LEN];
    }
  }

  lemma SamePrefix(a: seq<Byte>, b: seq<Byte>, rest: seq<Byte>)
    requires |a| == |b|
    ensures a + rest == b + rest <==> a == b
  {
    assert (a + rest)[..|a|] == a && (b + rest)[..|b|] == b;
  }

  /**
  Serialising a parsed packet gives back the bytes it was parsed from exactly if their compression and
  type codes are ones this version knows: any other code has been read as 0.
  */
  lemma ReserializeExactlyWhenCodesKnown(b: seq<Byte>)
    requires Parse(b).Ok?
    ensures Serialize(Parse(b).value) == b[..DeclaredLen(Parse(b).value.header)] <==> b[1] <= 2 && b[2] <= 2
  {
    var p := Parse(b).value;
    var header := b[..HEADER_LEN];
    assert HeaderFromBytes(header) == Ok(p.header);
    HeaderRewrittenAsReadExactlyWhenCodesKnown(header);
    SplitParsed(b);
    SamePrefix(HeaderToBytes(p.header), header, p.extHeader + p.payload);
    assert Serialize(p) == HeaderToBytes(p.header) + (p.extHeader + p.payload);
  }

  lemma SplitParsed(b: seq<Byte>)
    requires Parse(b).Ok?
    ensures var p := Parse(b).value; b[..DeclaredLen(p.header)] == b[..HEADER_LEN] + (p.extHeader + p.payload)
  {
  }

  // ---------- setters ----------

  /** `set_payload`: the length field takes the low 32 bits of the length. */
  function SetPayload(p: Packet, payload: seq<Byte>): Packet {
    p.(payload := payload, header := p.header.(payloadLen := |payload| % 0x1_0000_0000))
  }

  /** `set_ext_header`: the length field takes the low 16 bits of the length. */
  function SetExtHeader(p: Packet, extHeader: seq<Byte>): Packet {
    p.(extHeader := extHeader, header := p.header.(extHeaderLen := |extHeader| % 0x1_0000))
  }

  /** A packet built with the setters survives the wire exactly if its parts fit their length fields. */
  lemma BuiltPacketSurvivesExactlyWhenPartsFit(p: Packet, extHeader: seq<Byte>, payload: seq<Byte>)
    requires p.header.version == 1
    ensures var built := SetPayload(SetExtHeader(p, extHeader), payload);
            Parse(Serialize(built)) == Ok(built) <==> |extHeader| < 0x1_0000 && |payload| < 0x1_0000_0000
  {
    var built := SetPayload(SetExtHeader(p, extHeader), payload);
    RoundTripExactlyWhenWellFormed(built);
    FieldHoldsLength(|extHeader|, 0x1_0000);
    FieldHoldsLength(|payload|, 0x1_0000_0000);
  }

  lemma FieldHoldsLength(length: nat, limit: nat)
    requires limit > 0
    ensures length % limit == length <==> length < limit
  {
  }
}
