/**
 The path of raw radio bytes: a BEAST client collects them, the adapter wraps each window in an ATRX
 blob, and the daemon parses, restamps and concatenates the blobs of a window into one upload.
 */
module RawCapture {
  import opened Wrappers
  import opened Beast
  import opened Atrx
  import opened AtrxSplit

  class BeastClient {
    var chunks: seq<Bytes>
    // All bytes received, and all bytes handed over by flushes.
    ghost var received: Bytes
    ghost var flushed: Bytes

    /** No byte is lost or duplicated: what was received is what was flushed, then what is held. */
    ghost predicate Valid()
      reads this
    {
      received == flushed + Join(chunks)
    }

    constructor ()
      ensures Valid() && received == [] && flushed == []
    {
      chunks, received, flushed := [], [], [];
    }

    method OnData(chunk: Bytes)
      requires Valid()
      modifies this
      ensures Valid() && received == old(received) + chunk && flushed == old(flushed)
      ensures chunks == old(chunks) + [chunk]
    {
      assert (chunks + [chunk])[..|chunks|] == chunks;
      chunks := chunks + [chunk];
      received := received + chunk;
    }

    method Flush() returns (accumulated: Bytes)
      requires Valid()
      modifies this
      ensures Valid() && chunks == [] && received == old(received)
      ensures accumulated == Join(old(chunks)) && flushed == old(flushed) + accumulated
    {
      accumulated := Concatenate(chunks);
      chunks := [];
      flushed := flushed + accumulated;
    }
  }

  method Concatenate(pieces: seq<Bytes>) returns (all: Bytes)
    ensures all == Join(pieces)
  {
    all := [];
    for i := 0 to |pieces|
      invariant all == Join(pieces[..i])
    {
      assert pieces[..i + 1][..i] == pieces[..i];
      all := all + pieces[i];
    }
    assert pieces[..|pieces|] == pieces;
  }

  // ---- the adapter ----

  function CaptureMetadata(sourceId: string, windowStart: string, windowEnd: string, frameCount: int): Metadata {
    Metadata(sourceId, windowStart, windowEnd, "system", "beast-1090", "readsb", frameCount,
             None, None, None, None, None)
  }

  /** The blob of one window; none for a window without a counted frame. */
  function CaptureBlob(codec: Codec, sourceId: string, windowStart: string, windowEnd: string, raw: Bytes)
    : Option<Result<Bytes, BuildError>>
  {
    if Count(Plain, raw) == 0 then None
    else Some(Build(codec, CaptureMetadata(sourceId, windowStart, windowEnd, Count(Plain, raw)), raw))
  }

  /** What the section says of its window: who captured it and when, and the decoder and clock behind it. */
  predicate SaysOfWindow(m: Metadata, receiverDid: string, windowStart: string, windowEnd: string) {
    m.receiverDid == receiverDid && m.windowStart == windowStart && m.windowEnd == windowEnd
  }

  predicate SaysOfDecoder(m: Metadata, clockSource: string, protocol: string, demodSoftware: string, frameCount: int) {
    && m.clockSource == clockSource && m.protocol == protocol && m.demodSoftware == demodSoftware
    && m.frameCount == frameCount
    && m.gainDb == None && m.sdrHardware == None && m.sampleRateHz == None && m.centerFreqHz == None
    && m.ntpServer == None
  }

  /** The blob that the adapter writes for a window with a counted frame holds its bytes, its window and its count. */
  lemma CaptureBlobTells(codec: Codec, sourceId: string, windowStart: string, windowEnd: string, raw: Bytes)
    requires codec.Inverts()
    ensures CaptureBlob(codec, sourceId, windowStart, windowEnd, raw).None? <==> Count(Plain, raw) == 0
    ensures match CaptureBlob(codec, sourceId, windowStart, windowEnd, raw)
      case Some(Ok(blob)) =>
        && Parse(codec, blob).Ok? && Parse(codec, blob).value.frames == raw
        && SaysOfWindow(Parse(codec, blob).value.metadata, sourceId, windowStart, windowEnd)
        && SaysOfDecoder(Parse(codec, blob).value.metadata, "system", "beast-1090", "readsb", Count(Plain, raw))
      case _ => true
  {
    match CaptureBlob(codec, sourceId, windowStart, windowEnd, raw)
    case Some(Ok(_)) => BuildParse(codec, CaptureMetadata(sourceId, windowStart, windowEnd, Count(Plain, raw)), raw);
    case _ =>
  }

  datatype RawCaptureMessage = RawCaptureMessage(filePath: string, windowStart: string, windowEnd: string)

  /** The capture side of the adapter.  A Date is its milliseconds, which iso renders. */
  class ReadsbAdapter {
    const sourceId: string
    const beastClient: BeastClient?
    const iso: int -> string
    var batchWindowStart: Option<int>
    var written: seq<RawCaptureMessage>
    // The windows flushed so far, blobs or not.
    ghost var windows: seq<Bytes>

    /** Every byte received is in one flushed window, in order, or still held. */
    ghost predicate Valid()
      reads this, beastClient
    {
      beastClient != null ==> beastClient.Valid() && beastClient.flushed == Join(windows)
    }

    constructor (sourceId: string, beastClient: BeastClient?, iso: int -> string)
      requires beastClient != null ==> beastClient.Valid() && beastClient.flushed == []
      ensures Valid() && this.sourceId == sourceId && this.beastClient == beastClient && this.iso == iso
      ensures batchWindowStart == None && written == [] && windows == []
    {
      this.sourceId, this.beastClient, this.iso := sourceId, beastClient, iso;
      batchWindowStart, written, windows := None, [], [];
    }

    method StartBatchWindow(now: int)
      requires Valid()
      modifies this`batchWindowStart
      ensures Valid() && batchWindowStart == Some(now)
    {
      batchWindowStart := Some(now);
    }

    /**
     The callback of the batch timer up to its await: the blob to write, if there is one.  A window
     without a counted frame ends here and the next one starts; a blob that cannot be built is thrown.
     */
    method FlushBatchWindow(codec: Codec, now: int, later: int) returns (blob: Option<Result<Bytes, BuildError>>)
      requires Valid()
      modifies this`batchWindowStart, this`windows, beastClient
      ensures Valid()
      ensures beastClient == null || old(batchWindowStart).None? ==>
                blob == None && unchanged(this) && (beastClient != null ==> unchanged(beastClient))
      ensures beastClient != null && old(batchWindowStart).Some? ==>
                var raw := Join(old(beastClient.chunks));
                && beastClient.chunks == [] && beastClient.received == old(beastClient.received)
                && windows == old(windows) + [raw]
                && blob == CaptureBlob(codec, sourceId, iso(old(batchWindowStart).value), iso(now), raw)
                && batchWindowStart == if Count(Plain, raw) == 0 then Some(later) else old(batchWindowStart)
    {
      if beastClient == null || batchWindowStart.None? {
        return None;
      }
      var rawFrames := beastClient.Flush();
      assert (windows + [rawFrames])[..|windows|] == windows;
      windows := windows + [rawFrames];
      if |rawFrames| == 0 {
        batchWindowStart := Some(later);
        return None;
      }
      var frameCount := CountBeastFrames(rawFrames);
      if frameCount == 0 {
        batchWindowStart := Some(later);
        return None;
      }
      var metadata := CaptureMetadata(sourceId, iso(batchWindowStart.value), iso(now), frameCount);
      var built := BuildAtrxBlob(codec, metadata, rawFrames);
      blob := Some(built);
    }

    /** The rest of it, once the file is written or not: the message, unless something failed, and a new window. */
    method FileWritten(filePath: string, windowEnd: int, writeOk: bool, connected: bool, now: int)
      requires Valid() && batchWindowStart.Some?
      modifies this`batchWindowStart, this`written
      ensures Valid() && batchWindowStart == Some(now)
      ensures written == old(written) +
                (if writeOk && connected
                 then [RawCaptureMessage(filePath, iso(old(batchWindowStart).value), iso(windowEnd))] else [])
    {
      if writeOk && connected {
        written := written + [RawCaptureMessage(filePath, iso(batchWindowStart.value), iso(windowEnd))];
      }
      batchWindowStart := Some(now);
    }
  }

  // ---- the daemon ----

  /** The station and the window the daemon stamps on every capture. */
  datatype Stamp = Stamp(receiverDid: string, windowStart: string, windowEnd: string)

  function Restamped(m: Metadata, stamp: Stamp): Metadata {
    Metadata(stamp.receiverDid, stamp.windowStart, stamp.windowEnd, m.clockSource, m.protocol, m.demodSoftware,
             m.frameCount, None, None, None, None, None)
  }

  /** One capture file, parsed and rebuilt; none if it cannot be read, parsed or rebuilt. */
  function Restamp(codec: Codec, stamp: Stamp, file: Option<Bytes>): Option<Bytes> {
    match file
    case None => None
    case Some(content) =>
      match Parse(codec, content)
      case Err(_) => None
      case Ok(parsed) =>
        match Build(codec, Restamped(parsed.metadata, stamp), parsed.frames)
        case Err(_) => None
        case Ok(blob) => Some(blob)
  }

  function RestampAll(codec: Codec, stamp: Stamp, files: seq<Option<Bytes>>): seq<Bytes> {
    if files == [] then []
    else
      var rest := RestampAll(codec, stamp, files[..|files| - 1]);
      match Restamp(codec, stamp, files[|files| - 1])
      case None => rest
      case Some(blob) => rest + [blob]
  }

  /** The capture loop of a flush: a file that fails is skipped, the others go on. */
  method ProcessCaptures(codec: Codec, stamp: Stamp, files: seq<Option<Bytes>>) returns (upload: Option<Bytes>)
    ensures var blobs := RestampAll(codec, stamp, files);
      upload == if blobs == [] then None else Some(ConcatAtrxBlobs(blobs))
  {
    var atrxBlobs: seq<Bytes> := [];
    for i := 0 to |files|
      invariant atrxBlobs == RestampAll(codec, stamp, files[..i])
    {
      assert files[..i + 1][..i] == files[..i];
      if files[i].Some? {
        var parsed := Parse(codec, files[i].value);
        if parsed.Ok? {
          var restamped := BuildAtrxBlob(codec, Restamped(parsed.value.metadata, stamp), parsed.value.frames);
          if restamped.Ok? {
            atrxBlobs := atrxBlobs + [restamped.value];
          }
        }
      }
    }
    assert files[..|files|] == files;
    upload := if |atrxBlobs| > 0 then Some(ConcatAtrxBlobs(atrxBlobs)) else None;
  }

  /** Whatever the files hold, the upload splits into the restamped blobs, and each of them parses. */
  lemma {:induction false} UploadAlwaysReadable(codec: Codec, stamp: Stamp, files: seq<Option<Bytes>>)
    requires codec.Inverts()
    ensures var blobs := RestampAll(codec, stamp, files);
      && (forall i :: 0 <= i < |blobs| ==> WellFramed(blobs[i]) && Parse(codec, blobs[i]).Ok?)
      && Split(ConcatAtrxBlobs(blobs), 0) == Ok(blobs)
  {
    var blobs := RestampAll(codec, stamp, files);
    if files != [] {
      var n := |files| - 1;
      UploadAlwaysReadable(codec, stamp, files[..n]);
      if Restamp(codec, stamp, files[n]).Some? {
        RestampedParses(codec, stamp, files[n].value);
      }
    }
    SplitConcat(blobs, 0);
  }

  /**
   Restamping keeps the frames and their count, the clock, the protocol and the decoder, replaces the
   station and the window, and drops what is optional.
   */
  lemma RestampedParses(codec: Codec, stamp: Stamp, file: Bytes)
    requires codec.Inverts() && Restamp(codec, stamp, Some(file)).Some?
    ensures var parsed, blob := Parse(codec, file), Restamp(codec, stamp, Some(file)).value;
      && parsed.Ok? && WellFramed(blob) && Parse(codec, blob).Ok?
      && var m, p := parsed.value.metadata, Parse(codec, blob).value;
         && p.version == VERSION && p.flags == FLAG_ZSTD_COMPRESSED && p.frames == parsed.value.frames
         && SaysOfWindow(p.metadata, stamp.receiverDid, stamp.windowStart, stamp.windowEnd)
         && SaysOfDecoder(p.metadata, m.clockSource, m.protocol, m.demodSoftware, m.frameCount)
  {
    ParseSound(codec, file);
    var parsed := Parse(codec, file).value;
    BuildParse(codec, Restamped(parsed.metadata, stamp), parsed.frames);
  }

  // ---- end to end ----

  datatype Capture = Capture(sourceId: string, windowStart: string, windowEnd: string, raw: Bytes)

  /** The lengths that the envelope must hold, when the adapter writes the capture and when the daemon rewrites it. */
  ghost predicate Encodable(codec: Codec, stamp: Stamp, c: Capture) {
    var n := Count(Plain, c.raw);
    var m := CaptureMetadata(c.sourceId, c.windowStart, c.windowEnd, n);
    && n > 0
    && |codec.compress(c.raw)| < U32_LIMIT
    && |codec.encode(m)| < U32_LIMIT
    && |codec.encode(Restamped(m, stamp))| < U32_LIMIT
  }

  /** What the adapter wrote for the capture. */
  function FileOf(codec: Codec, c: Capture): Option<Bytes> {
    match CaptureBlob(codec, c.sourceId, c.windowStart, c.windowEnd, c.raw)
    case Some(Ok(blob)) => Some(blob)
    case _ => None
  }

  function FilesOf(codec: Codec, captures: seq<Capture>): seq<Option<Bytes>> {
    seq(|captures|, i requires 0 <= i < |captures| => FileOf(codec, captures[i]))
  }

  /** What a reader of the upload finds in the section of the capture. */
  ghost predicate Recovers(codec: Codec, stamp: Stamp, section: Bytes, c: Capture) {
    && Parse(codec, section).Ok?
    && var p := Parse(codec, section).value;
      && p.frames == c.raw
      && SaysOfWindow(p.metadata, stamp.receiverDid, stamp.windowStart, stamp.windowEnd)
      && SaysOfDecoder(p.metadata, "system", "beast-1090", "readsb", Count(Plain, c.raw))
  }

  lemma CaptureSurvives(codec: Codec, stamp: Stamp, c: Capture)
    requires codec.Inverts() && Encodable(codec, stamp, c)
    ensures Restamp(codec, stamp, FileOf(codec, c)).Some?
    ensures var section := Restamp(codec, stamp, FileOf(codec, c)).value;
      WellFramed(section) && Recovers(codec, stamp, section, c)
  {
    var m := CaptureMetadata(c.sourceId, c.windowStart, c.windowEnd, Count(Plain, c.raw));
    BuildParse(codec, m, c.raw);
    BuildParse(codec, Restamped(m, stamp), c.raw);
  }

  ghost predicate AllRecover(codec: Codec, stamp: Stamp, blobs: seq<Bytes>, captures: seq<Capture>) {
    && |blobs| == |captures|
    && forall i :: 0 <= i < |captures| ==> WellFramed(blobs[i]) && Recovers(codec, stamp, blobs[i], captures[i])
  }

  lemma OneMoreRecovers(codec: Codec, stamp: Stamp, blobs: seq<Bytes>, captures: seq<Capture>, blob: Bytes, c: Capture)
    requires AllRecover(codec, stamp, blobs, captures) && WellFramed(blob) && Recovers(codec, stamp, blob, c)
    ensures AllRecover(codec, stamp, blobs + [blob], captures + [c])
  {
  }

  lemma RestampOneMore(codec: Codec, stamp: Stamp, captures: seq<Capture>, c: Capture)
    requires Restamp(codec, stamp, FileOf(codec, c)).Some?
    ensures RestampAll(codec, stamp, FilesOf(codec, captures + [c]))
              == RestampAll(codec, stamp, FilesOf(codec, captures)) + [Restamp(codec, stamp, FileOf(codec, c)).value]
  {
    var files := FilesOf(codec, captures + [c]);
    assert files[..|captures|] == FilesOf(codec, captures) && files[|captures|] == FileOf(codec, c);
  }

  lemma {:induction false} AllCapturesSurvive(codec: Codec, stamp: Stamp, captures: seq<Capture>)
    requires codec.Inverts() && forall c :: c in captures ==> Encodable(codec, stamp, c)
    ensures AllRecover(codec, stamp, RestampAll(codec, stamp, FilesOf(codec, captures)), captures)
  {
    if captures != [] {
      var front, last := captures[..|captures| - 1], captures[|captures| - 1];
      assert captures == front + [last];
      AllCapturesSurvive(codec, stamp, front);
      CaptureSurvives(codec, stamp, last);
      RestampOneMore(codec, stamp, front, last);
      OneMoreRecovers(codec, stamp, RestampAll(codec, stamp, FilesOf(codec, front)), front,
                      Restamp(codec, stamp, FileOf(codec, last)).value, last);
    }
  }

  /**
   From radio bytes to upload and back: splitting the upload gives one section per capture, in
   order, and each section parses to exactly the captured bytes with their frame count.
   */
  lemma CapturesRoundTrip(codec: Codec, stamp: Stamp, captures: seq<Capture>) returns (sections: seq<Bytes>)
    requires codec.Inverts() && forall c :: c in captures ==> Encodable(codec, stamp, c)
    ensures Split(ConcatAtrxBlobs(RestampAll(codec, stamp, FilesOf(codec, captures))), 0) == Ok(sections)
    ensures |sections| == |captures|
    ensures forall i :: 0 <= i < |captures| ==> Recovers(codec, stamp, sections[i], captures[i])
  {
    sections := RestampAll(codec, stamp, FilesOf(codec, captures));
    AllCapturesSurvive(codec, stamp, captures);
    SplitConcat(sections, 0);
  }
}
