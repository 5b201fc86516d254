/**
 The ATRX envelope: header, length-prefixed metadata, length-prefixed payload.  Compression and
 metadata encoding are parameters; all that is asked of them is that decoding inverts encoding.
 */
module Atrx {
  import opened Wrappers
  import opened Beast

  const MAGIC: Bytes := [0x41, 0x54, 0x52, 0x58]
  const VERSION: Byte := 0x02
  const LEGACY_VERSION: Byte := 0x01
  const HEADER_SIZE: nat := 8
  const FLAG_ZSTD_COMPRESSED: Byte := 0x01
  const U32_LIMIT: nat := 0x1_0000_0000

  datatype Metadata = Metadata(
    receiverDid: string, windowStart: string, windowEnd: string, clockSource: string,
    protocol: string, demodSoftware: string, frameCount: int,
    gainDb: Option<string>, sdrHardware: Option<string>, sampleRateHz: Option<int>,
    centerFreqHz: Option<int>, ntpServer: Option<string>)

  datatype Codec = Codec(
    compress: Bytes -> Bytes, decompress: Bytes -> Option<Bytes>,
    encode: Metadata -> Bytes, decode: Bytes -> Option<Metadata>)
  {
    ghost predicate Inverts() {
      && (forall frames :: decompress(compress(frames)) == Some(frames))
      && (forall metadata :: decode(encode(metadata)) == Some(metadata))
    }
  }

  // ---- big-endian lengths ----

  function PutU32(n: nat): (b: Bytes)
    requires n < U32_LIMIT
    ensures |b| == 4
  {
    [n / 0x100_0000, n / 0x1_0000 % 0x100, n / 0x100 % 0x100, n % 0x100]
  }

  /** The big-endian value of n bytes. */
  function BigEndian(b: Bytes, at: nat, n: nat): nat
    requires at + n <= |b|
  {
    if n == 0 then 0 else BigEndian(b, at, n - 1) * 0x100 + b[at + n - 1]
  }

  function GetU32(b: Bytes, at: nat): nat
    requires at + 4 <= |b|
  {
    BigEndian(b, at, 4)
  }

  /** A number from its quotient and its last base-256 digit. */
  lemma LastDigit(n: nat)
    ensures n == n / 0x100 * 0x100 + n % 0x100
  {
  }

  lemma Digits(n: nat)
    requires n < U32_LIMIT
    ensures n == ((n / 0x100_0000 * 0x100 + n / 0x1_0000 % 0x100) * 0x100 + n / 0x100 % 0x100) * 0x100 + n % 0x100
  {
    LastDigit(n);
    LastDigit(n / 0x100);
    LastDigit(n / 0x1_0000);
    assert n / 0x100 / 0x100 == n / 0x1_0000 && n / 0x1_0000 / 0x100 == n / 0x100_0000;
  }

  lemma U32RoundTrip(n: nat, b: Bytes, at: nat)
    requires n < U32_LIMIT && at + 4 <= |b| && b[at..at + 4] == PutU32(n)
    ensures GetU32(b, at) == n
  {
    Digits(n);
    assert b[at] == b[at..at + 4][0] && b[at + 1] == b[at..at + 4][1];
    assert b[at + 2] == b[at..at + 4][2] && b[at + 3] == b[at..at + 4][3];
    assert BigEndian(b, at, 1) == BigEndian(b, at, 0) * 0x100 + b[at];
    assert BigEndian(b, at, 2) == BigEndian(b, at, 1) * 0x100 + b[at + 1];
    assert BigEndian(b, at, 3) == BigEndian(b, at, 2) * 0x100 + b[at + 2];
  }

  lemma {:induction false} BigEndianBytes(b: Bytes, at: nat, c: Bytes, offset: nat, n: nat)
    requires at + n <= |b| && offset + n <= |c| && b[at..at + n] == c[offset..offset + n]
    ensures BigEndian(b, at, n) == BigEndian(c, offset, n)
  {
    if n > 0 {
      assert b[at..at + n - 1] == b[at..at + n][..n - 1] && c[offset..offset + n - 1] == c[offset..offset + n][..n - 1];
      assert b[at + n - 1] == b[at..at + n][n - 1] && c[offset + n - 1] == c[offset..offset + n][n - 1];
      BigEndianBytes(b, at, c, offset, n - 1);
    }
  }

  // ---- building ----

  datatype BuildError = LengthOverflow

  function Envelope(meta: Bytes, payload: Bytes): Bytes
    requires |meta| < U32_LIMIT && |payload| < U32_LIMIT
  {
    MAGIC + [VERSION, FLAG_ZSTD_COMPRESSED, 0, 0] + PutU32(|meta|) + meta + PutU32(|payload|) + payload
  }

  function Build(codec: Codec, metadata: Metadata, frames: Bytes): Result<Bytes, BuildError> {
    var meta, payload := codec.encode(metadata), codec.compress(frames);
    if |meta| >= U32_LIMIT || |payload| >= U32_LIMIT then Err(LengthOverflow) else Ok(Envelope(meta, payload))
  }

  method BuildAtrxBlob(codec: Codec, metadata: Metadata, frames: Bytes) returns (r: Result<Bytes, BuildError>)
    ensures r == Build(codec, metadata, frames)
  {
    var header := new Byte[HEADER_SIZE](_ => 0);
    for i := 0 to |MAGIC|
      invariant header[..i] == MAGIC[..i]
      invariant forall j :: i <= j < header.Length ==> header[j] == 0
    {
      header[i] := MAGIC[i];
    }
    header[4] := VERSION;
    header[5] := FLAG_ZSTD_COMPRESSED;
    assert header[..4] == MAGIC;
    assert header[..] == MAGIC + [VERSION, FLAG_ZSTD_COMPRESSED, 0, 0];
    var cborBytes := codec.encode(metadata);
    if |cborBytes| >= U32_LIMIT {
      return Err(LengthOverflow);
    }
    var metadataLengthPrefix := PutU32(|cborBytes|);
    var compressedFrames := codec.compress(frames);
    if |compressedFrames| >= U32_LIMIT {
      return Err(LengthOverflow);
    }
    var payloadLengthPrefix := PutU32(|compressedFrames|);
    r := Ok(header[..] + metadataLengthPrefix + cborBytes + payloadLengthPrefix + compressedFrames);
  }

  // ---- parsing ----

  datatype ParseError =
    | TooShort | BadMagic | NonZeroReserved | UnsupportedVersion | ShortMetadata | BadMetadata
    | ShortPayload | TrailingData | BadPayload | FrameCountMismatch

  datatype Blob = Blob(version: Byte, flags: Byte, metadata: Metadata, frames: Bytes)

  function CountFrames(protocol: string, frames: Bytes): nat {
    if protocol == "beast-1090" then Count(Plain, frames) else LineSigns(frames, true)
  }

  /** Where the metadata block ends, for a buffer that starts with an envelope. */
  function MetadataEnd(b: Bytes): nat
    requires |b| >= HEADER_SIZE + 4
  {
    HEADER_SIZE + 4 + GetU32(b, HEADER_SIZE)
  }

  function PayloadOf(b: Bytes): Result<Bytes, ParseError>
    requires |b| >= HEADER_SIZE + 4 && MetadataEnd(b) <= |b|
  {
    var end := MetadataEnd(b);
    if b[4] == LEGACY_VERSION then Ok(b[end..])
    else if |b| < end + 4 then Err(ShortPayload)
    else
      var payloadEnd := end + 4 + GetU32(b, end);
      if |b| < payloadEnd then Err(ShortPayload)
      else if |b| > payloadEnd then Err(TrailingData)
      else Ok(b[end + 4..payloadEnd])
  }

  function Decode(codec: Codec, b: Bytes, metadata: Metadata, payload: Bytes): Result<Blob, ParseError>
    requires |b| >= HEADER_SIZE
  {
    match if b[5] % 2 != 0 then codec.decompress(payload) else Some(payload)
    case None => Err(BadPayload)
    case Some(frames) =>
      if CountFrames(metadata.protocol, frames) != metadata.frameCount then Err(FrameCountMismatch)
      else Ok(Blob(b[4], b[5], metadata, frames))
  }

  function Parse(codec: Codec, b: Bytes): Result<Blob, ParseError> {
    if |b| < HEADER_SIZE + 4 then Err(TooShort)
    else if b[..4] != MAGIC then Err(BadMagic)
    else if b[6] != 0 || b[7] != 0 then Err(NonZeroReserved)
    else if b[4] != VERSION && b[4] != LEGACY_VERSION then Err(UnsupportedVersion)
    else if |b| < MetadataEnd(b) then Err(ShortMetadata)
    else
      match codec.decode(b[HEADER_SIZE + 4..MetadataEnd(b)])
      case None => Err(BadMetadata)
      case Some(metadata) =>
        match PayloadOf(b)
        case Err(e) => Err(e)
        case Ok(payload) => Decode(codec, b, metadata, payload)
  }

  // ---- framing ----

  /** A version 2 section whose two declared lengths account for every byte. */
  predicate WellFramed(b: Bytes) {
    && |b| >= HEADER_SIZE + 4 && b[..4] == MAGIC && b[4] == VERSION
    && |b| >= MetadataEnd(b) + 4
    && |b| == MetadataEnd(b) + 4 + GetU32(b, MetadataEnd(b))
  }

  /** A version 1 section runs to the end of the buffer, wherever that is. */
  predicate Legacy(b: Bytes) {
    |b| >= HEADER_SIZE + 4 && b[..4] == MAGIC && b[4] == LEGACY_VERSION
  }

  lemma EnvelopeFields(meta: Bytes, payload: Bytes)
    requires |meta| < U32_LIMIT && |payload| < U32_LIMIT
    ensures var b := Envelope(meta, payload);
      && |b| == HEADER_SIZE + 4 + |meta| + 4 + |payload|
      && b[..4] == MAGIC && b[4] == VERSION && b[5] == FLAG_ZSTD_COMPRESSED && b[6] == 0 && b[7] == 0
      && MetadataEnd(b) == HEADER_SIZE + 4 + |meta|
      && b[HEADER_SIZE + 4..MetadataEnd(b)] == meta
      && GetU32(b, MetadataEnd(b)) == |payload|
      && b[MetadataEnd(b) + 4..] == payload
  {
    var b := Envelope(meta, payload);
    var header := MAGIC + [VERSION, FLAG_ZSTD_COMPRESSED, 0, 0];
    var metaLength, payloadLength := PutU32(|meta|), PutU32(|payload|);
    var m := HEADER_SIZE + 4 + |meta|;
    assert b == header + metaLength + (meta + payloadLength + payload);
    Middle(header, metaLength, meta + payloadLength + payload);
    U32RoundTrip(|meta|, b, HEADER_SIZE);
    assert b == header + metaLength + meta + (payloadLength + payload);
    Middle(header + metaLength, meta, payloadLength + payload);
    Middle(header + metaLength + meta, payloadLength, payload);
    U32RoundTrip(|payload|, b, m);
    assert b[..4] == MAGIC;
  }

  lemma Middle(a: Bytes, x: Bytes, c: Bytes)
    ensures (a + x + c)[|a|..|a| + |x|] == x && (a + x + c)[|a| + |x|..] == c
  {
  }

  /** The number of frames: those of the automaton for BEAST, and lines that begin with a sign for all else. */
  predicate HasFrames(protocol: string, frames: Bytes, n: int) {
    n == if protocol == "beast-1090" then Count(Plain, frames) else UatLines(Lines(frames))
  }

  lemma CountIsOfFrames(protocol: string, frames: Bytes, n: int)
    ensures HasFrames(protocol, frames, n) <==> CountFrames(protocol, frames) == n
  {
    LinesAreLineSigns(frames);
  }

  /** What is built parses back: the same metadata and frames, whenever the declared count is right. */
  lemma BuildParse(codec: Codec, metadata: Metadata, frames: Bytes)
    requires codec.Inverts() && Build(codec, metadata, frames).Ok?
    ensures WellFramed(Build(codec, metadata, frames).value)
    ensures Parse(codec, Build(codec, metadata, frames).value) ==
              if HasFrames(metadata.protocol, frames, metadata.frameCount)
              then Ok(Blob(VERSION, FLAG_ZSTD_COMPRESSED, metadata, frames))
              else Err(FrameCountMismatch)
  {
    var meta, payload := codec.encode(metadata), codec.compress(frames);
    CountIsOfFrames(metadata.protocol, frames, metadata.frameCount);
    EnvelopeFields(meta, payload);
    var b := Envelope(meta, payload);
    assert b[MetadataEnd(b) + 4..|b|] == b[MetadataEnd(b) + 4..];
    assert codec.decode(meta) == Some(metadata) && codec.decompress(payload) == Some(frames);
  }

  /** A buffer that parses is a whole section, and its frame count is the one it declares. */
  lemma ParseSound(codec: Codec, b: Bytes)
    requires Parse(codec, b).Ok?
    ensures var p := Parse(codec, b).value;
      && (if p.version == VERSION then WellFramed(b) else Legacy(b))
      && HasFrames(p.metadata.protocol, p.frames, p.metadata.frameCount)
  {
    var p := Parse(codec, b).value;
    CountIsOfFrames(p.metadata.protocol, p.frames, p.metadata.frameCount);
  }
}
