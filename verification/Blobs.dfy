/** Splitting a window whose compressed telemetry or manifest is too large for one sighting record. */
module Blobs {
  import opened Wrappers
  import opened Tracker
  import opened Batch

  const TELEMETRY_BLOB_MAX_BYTES: nat := 2_000_000
  const MANIFEST_MAX_ENTRIES: nat := 1000

  datatype Limits = Limits(maxBlobBytes: nat, maxManifestEntries: nat)

  const LEXICON_LIMITS := Limits(TELEMETRY_BLOB_MAX_BYTES, MANIFEST_MAX_ENTRIES)

  /** Length of the compressed JSON; the compressor itself is not interpreted. */
  type Size = Telemetry -> nat

  predicate Fits(t: Telemetry, size: Size, limits: Limits) {
    size(t) <= limits.maxBlobBytes && |t| <= limits.maxManifestEntries
  }

  function Mid(n: nat): nat { (n + 1) / 2 }

  /** The error names the aircraft that cannot be split further. */
  function ChunkTelemetry(t: Telemetry, size: Size, limits: Limits): Result<seq<Telemetry>, Hex>
    decreases |t|
  {
    if t == [] then Ok([])
    else if Fits(t, size, limits) then Ok([t])
    else if |t| == 1 then Err(t[0].hex)
    else
      var mid := Mid(|t|);
      match ChunkTelemetry(t[..mid], size, limits)
      case Err(hex) => Err(hex)
      case Ok(first) =>
        match ChunkTelemetry(t[mid..], size, limits)
        case Err(hex) => Err(hex)
        case Ok(second) => Ok(first + second)
  }

  /** Distributes the rows over two fresh objects; their own key order is again the order of `t`. */
  method SplitHalves(t: Telemetry) returns (firstHalf: Telemetry, secondHalf: Telemetry)
    requires KeyOrdered(t)
    ensures firstHalf == t[..Mid(|t|)] && secondHalf == t[Mid(|t|)..]
  {
    firstHalf, secondHalf := [], [];
    var mid := Mid(|t|);
    for i := 0 to |t|
      invariant firstHalf == t[..if i < mid then i else mid]
      invariant secondHalf == t[mid..if i < mid then mid else i]
    {
      if i < mid {
        SlotAtEnd(firstHalf, t[i]);
        firstHalf := InsertRow(firstHalf, t[i]);
      } else {
        SlotAtEnd(secondHalf, t[i]);
        secondHalf := InsertRow(secondHalf, t[i]);
      }
    }
  }

  lemma SlotAtEnd(t: Telemetry, row: Row)
    requires forall i :: 0 <= i < |t| ==> !Precedes(row.hex, t[i].hex)
    ensures InsertRow(t, row) == t + [row]
  {
    assert Slot(t, row.hex) == |t|;
  }

  function Concat(chunks: seq<Telemetry>): Telemetry {
    if chunks == [] then [] else Concat(chunks[..|chunks| - 1]) + chunks[|chunks| - 1]
  }

  lemma {:induction false} ConcatAppend(a: seq<Telemetry>, b: seq<Telemetry>)
    ensures Concat(a + b) == Concat(a) + Concat(b)
  {
    if b == [] {
      assert a + b == a;
    } else {
      ConcatAppend(a, b[..|b| - 1]);
      assert (a + b)[..|a + b| - 1] == a + b[..|b| - 1];
    }
  }

  lemma SplitChunks(t: Telemetry, size: Size, limits: Limits)
    requires |t| > 1 && !Fits(t, size, limits)
    ensures var a, b := ChunkTelemetry(t[..Mid(|t|)], size, limits), ChunkTelemetry(t[Mid(|t|)..], size, limits);
      ChunkTelemetry(t, size, limits) ==
        if a.Err? then Err(a.error) else if b.Err? then Err(b.error) else Ok(a.value + b.value)
  {
  }

  /** The chunks are consecutive pieces of the window in key order, and each one fits. */
  ghost predicate IsPartition(chunks: seq<Telemetry>, t: Telemetry, size: Size, limits: Limits) {
    && Concat(chunks) == t
    && forall k :: 0 <= k < |chunks| ==> chunks[k] != [] && Fits(chunks[k], size, limits)
  }

  lemma JoinPartitions(a: seq<Telemetry>, t: Telemetry, b: seq<Telemetry>, u: Telemetry, size: Size, limits: Limits)
    requires IsPartition(a, t, size, limits) && IsPartition(b, u, size, limits)
    ensures IsPartition(a + b, t + u, size, limits)
  {
    ConcatAppend(a, b);
  }

  lemma {:induction false} ChunksPartition(t: Telemetry, size: Size, limits: Limits)
    requires ChunkTelemetry(t, size, limits).Ok?
    ensures IsPartition(ChunkTelemetry(t, size, limits).value, t, size, limits)
    decreases |t|
  {
    if t == [] {
      assert Concat([]) == t;
    } else if Fits(t, size, limits) {
      assert Concat([t]) == Concat([]) + t;
    } else {
      var mid := Mid(|t|);
      SplitChunks(t, size, limits);
      var a, b := ChunkTelemetry(t[..mid], size, limits), ChunkTelemetry(t[mid..], size, limits);
      ChunksPartition(t[..mid], size, limits);
      ChunksPartition(t[mid..], size, limits);
      JoinPartitions(a.value, t[..mid], b.value, t[mid..], size, limits);
      assert t == t[..mid] + t[mid..];
    }
  }

  lemma {:induction false} ConcatRow(chunks: seq<Telemetry>, i: nat) returns (k: nat, j: nat)
    requires i < |Concat(chunks)|
    ensures k < |chunks| && j < |chunks[k]| && chunks[k][j] == Concat(chunks)[i]
  {
    var n := |chunks| - 1;
    var m := |Concat(chunks[..n])|;
    if i < m {
      k, j := ConcatRow(chunks[..n], i);
    } else {
      k, j := n, i - m;
    }
  }

  /** Dropping aircraft from a window never makes its blob larger. */
  ghost predicate Monotone(size: Size) {
    forall t: Telemetry, i, j :: 0 <= i <= j <= |t| ==> size(t[i..j]) <= size(t)
  }

  predicate TooLarge(row: Row, size: Size, limits: Limits) {
    size([row]) > limits.maxBlobBytes
  }

  lemma {:induction false} FailureNamesFirst(t: Telemetry, size: Size, limits: Limits) returns (i: nat)
    requires Monotone(size) && limits.maxManifestEntries >= 1
    requires ChunkTelemetry(t, size, limits).Err?
    ensures i < |t| && ChunkTelemetry(t, size, limits) == Err(t[i].hex) && TooLarge(t[i], size, limits)
    ensures forall j :: 0 <= j < i ==> !TooLarge(t[j], size, limits)
    decreases |t|
  {
    if |t| == 1 {
      assert t == [t[0]];
      i := 0;
    } else {
      var mid := Mid(|t|);
      if ChunkTelemetry(t[..mid], size, limits).Err? {
        i := FailureNamesFirst(t[..mid], size, limits);
        assert forall j :: 0 <= j < i ==> t[..mid][j] == t[j];
      } else {
        i := FailureNamesFirst(t[mid..], size, limits);
        assert forall j :: 0 <= j < i ==> t[mid..][j] == t[mid + j];
        forall j | 0 <= j < mid ensures !TooLarge(t[j], size, limits) {
          SuccessMeansAllFit(t[..mid], size, limits, j);
        }
        i := mid + i;
      }
    }
  }

  lemma SuccessMeansAllFit(t: Telemetry, size: Size, limits: Limits, i: nat)
    requires Monotone(size) && ChunkTelemetry(t, size, limits).Ok? && i < |t|
    ensures !TooLarge(t[i], size, limits)
  {
    ChunksPartition(t, size, limits);
    var chunks := ChunkTelemetry(t, size, limits).value;
    var k, j := ConcatRow(chunks, i);
    assert chunks[k][j..j + 1] == [t[i]];
  }

  /** Chunking fails exactly when some single aircraft is too large on its own, and names the first one. */
  lemma ChunkingFailsExactly(t: Telemetry, size: Size, limits: Limits)
    requires Monotone(size) && limits.maxManifestEntries >= 1
    ensures ChunkTelemetry(t, size, limits).Err? <==> exists i :: 0 <= i < |t| && TooLarge(t[i], size, limits)
    ensures forall i :: 0 <= i < |t| && TooLarge(t[i], size, limits)
              && (forall j :: 0 <= j < i ==> !TooLarge(t[j], size, limits))
              ==> ChunkTelemetry(t, size, limits) == Err(t[i].hex)
  {
    if ChunkTelemetry(t, size, limits).Err? {
      var i := FailureNamesFirst(t, size, limits);
    } else {
      forall i | 0 <= i < |t| ensures !TooLarge(t[i], size, limits) {
        SuccessMeansAllFit(t, size, limits, i);
      }
    }
  }

  /** How many times the window is compressed. */
  function Compressions(t: Telemetry, size: Size, limits: Limits): nat
    decreases |t|
  {
    if t == [] then 0
    else if Fits(t, size, limits) || |t| == 1 then 1
    else
      var mid := Mid(|t|);
      1 + Compressions(t[..mid], size, limits)
        + if ChunkTelemetry(t[..mid], size, limits).Ok? then Compressions(t[mid..], size, limits) else 0
  }

  lemma {:induction false} CompressionsBounded(t: Telemetry, size: Size, limits: Limits)
    requires t != []
    ensures 1 <= Compressions(t, size, limits) <= 2 * |t| - 1
    decreases |t|
  {
    if !Fits(t, size, limits) && |t| > 1 {
      CompressionsBounded(t[..Mid(|t|)], size, limits);
      CompressionsBounded(t[Mid(|t|)..], size, limits);
    }
  }

  /** When only the manifest limit L binds, every chunk is at least half full. */
  ghost predicate BytesNeverBind(t: Telemetry, size: Size, limits: Limits) {
    forall i, j :: 0 <= i <= j <= |t| ==> size(t[i..j]) <= limits.maxBlobBytes
  }

  lemma HalvesNeverBind(t: Telemetry, size: Size, limits: Limits, mid: nat)
    requires mid <= |t| && BytesNeverBind(t, size, limits)
    ensures size(t) <= limits.maxBlobBytes
    ensures BytesNeverBind(t[..mid], size, limits) && BytesNeverBind(t[mid..], size, limits)
  {
    assert t[0..|t|] == t;
    forall i, j | 0 <= i <= j <= mid ensures size(t[..mid][i..j]) <= limits.maxBlobBytes {
      assert t[..mid][i..j] == t[i..j];
    }
    forall i, j | 0 <= i <= j <= |t| - mid ensures size(t[mid..][i..j]) <= limits.maxBlobBytes {
      assert t[mid..][i..j] == t[mid + i..mid + j];
    }
  }

  lemma {:induction false} ChunkCount(t: Telemetry, size: Size, limits: Limits)
    requires limits.maxManifestEntries >= 1 && |t| >= Mid(limits.maxManifestEntries)
    requires BytesNeverBind(t, size, limits)
    ensures ChunkTelemetry(t, size, limits).Ok?
    ensures var c := |ChunkTelemetry(t, size, limits).value|;
      c * Mid(limits.maxManifestEntries) <= |t| <= c * limits.maxManifestEntries
    decreases |t|
  {
    var mid := Mid(|t|);
    HalvesNeverBind(t, size, limits, mid);
    if !Fits(t, size, limits) {
      ChunkCount(t[..mid], size, limits);
      ChunkCount(t[mid..], size, limits);
      SplitChunks(t, size, limits);
      var x := |ChunkTelemetry(t[..mid], size, limits).value|;
      var y := |ChunkTelemetry(t[mid..], size, limits).value|;
      Distribute(x, y, Mid(limits.maxManifestEntries));
      Distribute(x, y, limits.maxManifestEntries);
    }
  }

  lemma Distribute(x: nat, y: nat, k: nat)
    ensures (x + y) * k == x * k + y * k
  {
  }
}
