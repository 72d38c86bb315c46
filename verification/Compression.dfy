/**
Payload compression. The algorithms are parameters: each may be missing from a build, may fail, and is
otherwise an arbitrary pair of functions. Sender and receiver may be built differently. A sender whose
compression fails sends the raw data, still labelled as compressed; a receiver whose decompression fails
hands over the raw payload.
*/
module Compression {
  import opened Prelude
  import opened PacketCodec

  datatype Algorithm = Algorithm(
    compress: seq<Byte> -> Option<seq<Byte>>,
    decompress: seq<Byte> -> Option<seq<Byte>>)

  /** The algorithms a build was given. */
  datatype Build = Build(zlib: Option<Algorithm>, zstd: Option<Algorithm>)

  /** The most bytes Zstd decompression yields. */
  const ZSTD_CAPACITY: nat := 1024 * 1024

  datatype Options = Options(
    compression: Option<CompressionType>,
    bizType: Option<Byte>,
    extHeader: Option<seq<Byte>>)

  function CompressData(build: Build, data: seq<Byte>, compression: CompressionType): Option<seq<Byte>> {
    match compression
    case NoCompression => Some(data)
    case Zlib => if build.zlib.Some? then build.zlib.value.compress(data) else None
    case Zstd => if build.zstd.Some? then build.zstd.value.compress(data) else None
  }

  function DecompressData(build: Build, data: seq<Byte>, compression: CompressionType): Option<seq<Byte>> {
    match compression
    case NoCompression => Some(data)
    case Zlib => if build.zlib.Some? then build.zlib.value.decompress(data) else None
    case Zstd =>
      if build.zstd.None? then None
      else
        match build.zstd.value.decompress(data)
        case Some(raw) => if |raw| <= ZSTD_CAPACITY then Some(raw) else None
        case None => None
  }

  /** `compress_payload`: on failure the packet stays as it was. */
  function CompressPayload(build: Build, p: Packet): Packet {
    if p.header.compression.NoCompression? then p
    else
      match CompressData(build, p.payload, p.header.compression)
      case Some(compressed) => SetPayload(p, compressed)
      case None => p
  }

  /** The packet that `send_with_options` and `request_with_options` send. */
  function BuildPacket(
    build: Build, packetType: PacketType, messageId: U32, data: seq<Byte>, options: Options): Packet
  {
    var compression := if options.compression.Some? then options.compression.value else NoCompression;
    var extHeader := if options.extHeader.Some? then options.extHeader.value else [];
    var header := Header(
      1, compression, packetType, if options.bizType.Some? then options.bizType.value else 0, messageId,
      |extHeader| % 0x1_0000, |data| % 0x1_0000_0000, 0);
    CompressPayload(build, Packet(header, extHeader, data))
  }

  function DecodePayload(build: Build, p: Packet): seq<Byte> {
    if p.header.compression.NoCompression? then p.payload
    else
      match DecompressData(build, p.payload, p.header.compression)
      case Some(raw) => raw
      case None => p.payload
  }

  /** What a receiver hands over for the bytes it was sent, whatever follows them on the stream. */
  function Received(build: Build, bytes: seq<Byte>): Option<seq<Byte>> {
    match Parse(bytes)
    case Ok(p) => Some(DecodePayload(build, p))
    case Err(_) => None
  }

  // ---------- the header stays right ----------

  /**
  The header of a built packet describes its parts exactly if they fit their length fields. The rest of it is what
  the options ask for, the label of a compression that failed among it.
  */
  lemma HeaderDescribesPacketExactlyWhenPartsFit(
    build: Build, packetType: PacketType, messageId: U32, data: seq<Byte>, options: Options)
    ensures var p := BuildPacket(build, packetType, messageId, data, options);
      && (WellFormed(p) <==> |p.extHeader| < 0x1_0000 && |p.payload| < 0x1_0000_0000)
      && p.header.version == 1 && p.header.packetType == packetType && p.header.messageId == messageId
      && p.header.compression == (if options.compression.Some? then options.compression.value else NoCompression)
      && p.header.bizType == (if options.bizType.Some? then options.bizType.value else 0) && p.header.reserved == 0
      && p.extHeader == if options.extHeader.Some? then options.extHeader.value else []
  {
    var p := BuildPacket(build, packetType, messageId, data, options);
    FieldHoldsLength(|p.extHeader|, 0x1_0000);
    FieldHoldsLength(|p.payload|, 0x1_0000_0000);
  }

  // ---------- transparency ----------

  /** The wire form of `data` under a requested compression. */
  function OnTheWire(sender: Build, data: seq<Byte>, compression: CompressionType): seq<Byte> {
    match CompressData(sender, data, compression)
    case Some(compressed) => compressed
    case None => data
  }

  function Requested(options: Options): CompressionType {
    if options.compression.Some? then options.compression.value else NoCompression
  }

  predicate Fits(sender: Build, data: seq<Byte>, options: Options) {
    && (options.extHeader.Some? ==> |options.extHeader.value| < 0x1_0000)
    && |OnTheWire(sender, data, Requested(options))| < 0x1_0000_0000
  }

  /** The receiver reverses what the sender put on the wire: it restores it, or rejects it and it was raw. */
  predicate Reversed(sender: Build, receiver: Build, data: seq<Byte>, compression: CompressionType) {
    var wire := OnTheWire(sender, data, compression);
    match DecompressData(receiver, wire, compression)
    case Some(raw) => raw == data
    case None => wire == data
  }

  /** What arrives: the wire form decompressed, or the wire form itself if it does not decompress. */
  lemma ReceivedIsDecodedWireForm(
    sender: Build, receiver: Build, packetType: PacketType, messageId: U32, data: seq<Byte>, options: Options,
    tail: seq<Byte>)
    requires Fits(sender, data, options)
    ensures var wire := OnTheWire(sender, data, Requested(options));
      var raw := DecompressData(receiver, wire, Requested(options));
      Received(receiver, Serialize(BuildPacket(sender, packetType, messageId, data, options)) + tail)
      == Some(if raw.Some? then raw.value else wire)
  {
    hide Parse, Serialize;
    var p := BuildPacket(sender, packetType, messageId, data, options);
    HeaderDescribesPacketExactlyWhenPartsFit(sender, packetType, messageId, data, options);
    assert p.payload == OnTheWire(sender, data, Requested(options));
    RoundTrip(p, tail);
  }

  /**
  Data that is sent with options, whatever they are, and followed by anything on the stream, is always
  received, and is received as it was sent exactly if the receiver reverses the sender's wire form.
  */
  lemma TransparentExactlyWhenReversed(
    sender: Build, receiver: Build, packetType: PacketType, messageId: U32, data: seq<Byte>, options: Options,
    tail: seq<Byte>)
    requires Fits(sender, data, options)
    ensures var bytes := Serialize(BuildPacket(sender, packetType, messageId, data, options));
      var received := Received(receiver, bytes + tail);
      && received.Some?
      && (received.value == data <==> Reversed(sender, receiver, data, Requested(options)))
  {
    hide Received, BuildPacket, Serialize;
    ReceivedIsDecodedWireForm(sender, receiver, packetType, messageId, data, options, tail);
  }

  /** An algorithm compresses this data and gets it back by decompressing. */
  predicate Inverts(algorithm: Algorithm, data: seq<Byte>) {
    var compressed := algorithm.compress(data);
    && compressed.Some?
    && algorithm.decompress(compressed.value) == Some(data)
  }

  predicate RejectsBoth(algorithm: Algorithm, data: seq<Byte>) {
    algorithm.compress(data).None? && algorithm.decompress(data).None?
  }

  /** The algorithm a build uses for a compression, if it has one. */
  function AlgorithmFor(build: Build, compression: CompressionType): Option<Algorithm> {
    match compression
    case NoCompression => None
    case Zlib => build.zlib
    case Zstd => build.zstd
  }

  /** An algorithm gets this data back, if it compresses it at all. */
  predicate InvertsWhatItCompresses(algorithm: Algorithm, data: seq<Byte>) {
    algorithm.compress(data).Some? ==> Inverts(algorithm, data)
  }

  /** Raw data that an algorithm decompresses to something else. */
  predicate Misread(algorithm: Algorithm, data: seq<Byte>, compression: CompressionType) {
    match algorithm.decompress(data)
    case Some(raw) => raw != data && (compression.Zstd? ==> |raw| <= ZSTD_CAPACITY)
    case None => false
  }

  /** Compression fails, the raw data is sent, and it happens to decompress to something else. */
  predicate Mistaken(build: Build, data: seq<Byte>, compression: CompressionType) {
    var algorithm := AlgorithmFor(build, compression);
    algorithm.Some? && algorithm.value.compress(data).None? && Misread(algorithm.value, data, compression)
  }

  /** Zstd really compresses the data, which is too large to be decompressed. */
  predicate TooLargeForZstd(build: Build, data: seq<Byte>, compression: CompressionType) {
    && compression.Zstd? && build.zstd.Some? && |data| > ZSTD_CAPACITY
    && build.zstd.value.compress(data).Some? && build.zstd.value.compress(data).value != data
  }

  /**
  Between equal builds whose algorithms get back what they compress, exactly two things go wrong: raw data is
  mistaken for compressed data, or the data is too large for Zstd. Otherwise payloads come back as sent.
  */
  lemma TransparentExactlyWhenNoGuardFails(
    build: Build, packetType: PacketType, messageId: U32, data: seq<Byte>, options: Options, tail: seq<Byte>)
    requires Fits(build, data, options)
    requires var algorithm := AlgorithmFor(build, Requested(options));
      algorithm.Some? ==> InvertsWhatItCompresses(algorithm.value, data)
    ensures var bytes := Serialize(BuildPacket(build, packetType, messageId, data, options));
            Received(build, bytes + tail) == Some(data) <==>
            !Mistaken(build, data, Requested(options)) && !TooLargeForZstd(build, data, Requested(options))
  {
    hide Received, BuildPacket, Serialize;
    ReceivedIsDecodedWireForm(build, build, packetType, messageId, data, options, tail);
  }

  /**
  Between equal builds, payloads come back whatever is requested, if the algorithm inverts itself on the
  data, or rejects it both ways, or is missing; Zstd on top needs the data to be within its capacity.
  */
  lemma TransparentBetweenEqualBuilds(
    build: Build, packetType: PacketType, messageId: U32, data: seq<Byte>, options: Options, tail: seq<Byte>)
    requires Fits(build, data, options)
    requires var algorithm := AlgorithmFor(build, Requested(options));
      algorithm.Some? ==> Inverts(algorithm.value, data) || RejectsBoth(algorithm.value, data)
    requires Requested(options).Zstd? ==> |data| <= ZSTD_CAPACITY
    ensures Received(build, Serialize(BuildPacket(build, packetType, messageId, data, options)) + tail) == Some(data)
  {
    hide Received, BuildPacket, Serialize;
    TransparentExactlyWhenReversed(build, build, packetType, messageId, data, options, tail);
  }

  /**
  Zstd itself may be flawless: data it really compresses comes back exactly if it is within the capacity.
  Beyond it the receiver is handed the compressed bytes.
  */
  lemma ZstdTransparentExactlyWithinCapacity(
    build: Build, packetType: PacketType, messageId: U32, data: seq<Byte>, options: Options, tail: seq<Byte>)
    requires Fits(build, data, options) && Requested(options).Zstd?
    requires build.zstd.Some? && Inverts(build.zstd.value, data)
    requires build.zstd.value.compress(data).value != data
    ensures Received(build, Serialize(BuildPacket(build, packetType, messageId, data, options)) + tail)
         == Some(if |data| <= 1_048_576 then data else build.zstd.value.compress(data).value)
  {
    hide Received, BuildPacket, Serialize;
    ReceivedIsDecodedWireForm(build, build, packetType, messageId, data, options, tail);
  }

  /**
  Between builds that differ: a receiver without the algorithm returns the data exactly if the wire form is
  the data itself; a sender without it is understood exactly if the receiver does not turn the raw data
  into something else.
  */
  lemma TransparentAcrossBuildsExactlyWhen(
    sender: Build, receiver: Build, packetType: PacketType, messageId: U32, data: seq<Byte>, options: Options,
    tail: seq<Byte>)
    requires Fits(sender, data, options) && !Requested(options).NoCompression?
    ensures var sent := AlgorithmFor(sender, Requested(options));
      var read := AlgorithmFor(receiver, Requested(options));
      var received := Received(receiver, Serialize(BuildPacket(sender, packetType, messageId, data, options)) + tail);
      && (read.None? ==> (received == Some(data) <==> OnTheWire(sender, data, Requested(options)) == data))
      && (sent.None? && read.Some? ==>
            (received == Some(data) <==> !Misread(read.value, data, Requested(options))))
  {
    hide Received, BuildPacket, Serialize;
    TransparentExactlyWhenReversed(sender, receiver, packetType, messageId, data, options, tail);
  }

  /** Raw data that fails to compress but happens to decompress arrives as something else. */
  lemma RawDataMayBeMistakenForCompressed() returns (build: Build, data: seq<Byte>, options: Options)
    ensures Fits(build, data, options)
    ensures Received(build, Serialize(BuildPacket(build, OneWay, 1, data, options)) + []).Some?
    ensures Received(build, Serialize(BuildPacket(build, OneWay, 1, data, options)) + []) != Some(data)
  {
    hide Received, BuildPacket, Serialize;
    var zlib := Algorithm(_ => None, data => if data == [7] then Some([8]) else None);
    build, data, options := Build(Some(zlib), None), [7], Options(Some(Zlib), None, None);
    ReceivedIsDecodedWireForm(build, build, OneWay, 1, data, options, []);
  }
}
