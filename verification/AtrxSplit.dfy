/** Concatenating ATRX sections into one upload, and splitting the upload by its declared lengths alone. */
module AtrxSplit {
  import opened Wrappers
  import opened Beast
  import opened Atrx

  datatype SplitError = Truncated(offset: nat) | InvalidMagic(offset: nat) | Unsupported(version: Byte, offset: nat)

  function ConcatAtrxBlobs(blobs: seq<Bytes>): Bytes {
    if blobs == [] then [] else blobs[0] + ConcatAtrxBlobs(blobs[1..])
  }

  /** Where the version 2 section at the front of `b` ends, if it is all there. */
  function SectionEnd(b: Bytes): Option<nat>
    requires |b| >= HEADER_SIZE + 4
  {
    if MetadataEnd(b) + 4 > |b| then None
    else
      var end := MetadataEnd(b) + 4 + GetU32(b, MetadataEnd(b));
      if end > |b| then None else Some(end)
  }

  /** Splits what is left of an upload, `offset` bytes into it. */
  function Split(b: Bytes, offset: nat): Result<seq<Bytes>, SplitError>
    decreases |b|
  {
    if b == [] then Ok([])
    else if |b| < HEADER_SIZE + 4 then Err(Truncated(offset))
    else if b[..4] != MAGIC then Err(InvalidMagic(offset))
    else if b[4] == LEGACY_VERSION then Ok([b])
    else if b[4] != VERSION then Err(Unsupported(b[4], offset))
    else
      match SectionEnd(b)
      case None => Err(Truncated(offset))
      case Some(end) => Prepend([b[..end]], Split(b[end..], offset + end))
  }

  function Prepend(sections: seq<Bytes>, r: Result<seq<Bytes>, SplitError>): Result<seq<Bytes>, SplitError> {
    match r
    case Err(e) => Err(e)
    case Ok(rest) => Ok(sections + rest)
  }

  lemma PrependTwice(a: seq<Bytes>, b: seq<Bytes>, r: Result<seq<Bytes>, SplitError>)
    ensures Prepend(a, Prepend(b, r)) == Prepend(a + b, r)
  {
    if r.Ok? {
      assert a + (b + r.value) == (a + b) + r.value;
    }
  }

  /** The end of the version 2 section that starts at `offset`. */
  function SectionAt(c: Bytes, offset: nat): (r: Result<nat, SplitError>)
    requires offset < |c|
    ensures r.Ok? ==> offset + HEADER_SIZE + 8 <= r.value <= |c|
  {
    if offset + HEADER_SIZE + 4 > |c| then Err(Truncated(offset))
    else if c[offset..offset + 4] != MAGIC then Err(InvalidMagic(offset))
    else if c[offset + 4] != VERSION then Err(Unsupported(c[offset + 4], offset))
    else
      var metadataEnd := offset + HEADER_SIZE + 4 + GetU32(c, offset + HEADER_SIZE);
      if metadataEnd + 4 > |c| then Err(Truncated(offset))
      else
        var sectionEnd := metadataEnd + 4 + GetU32(c, metadataEnd);
        if sectionEnd > |c| then Err(Truncated(offset)) else Ok(sectionEnd)
  }

  predicate LegacyAt(c: Bytes, offset: nat) {
    offset + HEADER_SIZE + 4 <= |c| && c[offset..offset + 4] == MAGIC && c[offset + 4] == LEGACY_VERSION
  }

  /** The whole split, once `sections` has been cut off the front of the upload. */
  ghost predicate SoFar(c: Bytes, sections: seq<Bytes>, offset: nat) {
    offset <= |c| && Split(c, 0) == Prepend(sections, Split(c[offset..], offset))
  }

  lemma SplitStep(c: Bytes, sections: seq<Bytes>, offset: nat)
    requires SoFar(c, sections, offset) && offset < |c|
    ensures LegacyAt(c, offset) ==> Split(c, 0) == Ok(sections + [c[offset..]])
    ensures !LegacyAt(c, offset) && SectionAt(c, offset).Err? ==> Split(c, 0) == Err(SectionAt(c, offset).error)
    ensures !LegacyAt(c, offset) && SectionAt(c, offset).Ok? ==>
              SoFar(c, sections + [c[offset..SectionAt(c, offset).value]], SectionAt(c, offset).value)
  {
    SplitAt(c, offset);
    if !LegacyAt(c, offset) && SectionAt(c, offset).Ok? {
      var end := SectionAt(c, offset).value;
      PrependTwice(sections, [c[offset..end]], Split(c[end..], end));
    }
  }

  lemma SplitEnds(c: Bytes, sections: seq<Bytes>, offset: nat)
    ensures SoFar(c, [], 0)
    ensures SoFar(c, sections, offset) && offset == |c| ==> Split(c, 0) == Ok(sections)
  {
    assert c[0..] == c;
    assert Split(c, 0).Ok? ==> [] + Split(c, 0).value == Split(c, 0).value;
    assert c[|c|..] == [] && sections + [] == sections;
  }

  lemma SuffixU32(c: Bytes, offset: nat, at: nat)
    requires offset + at + 4 <= |c|
    ensures GetU32(c[offset..], at) == GetU32(c, offset + at)
  {
    assert c[offset..][at..at + 4] == c[offset + at..offset + at + 4];
    BigEndianBytes(c[offset..], at, c, offset + at, 4);
  }

  /** Reading a section in place is reading it at the front of what is left. */
  lemma SectionInPlace(c: Bytes, offset: nat)
    requires offset + HEADER_SIZE + 4 <= |c| && c[offset..offset + 4] == MAGIC && c[offset + 4] == VERSION
    ensures SectionAt(c, offset)
              == match SectionEnd(c[offset..]) case None => Err(Truncated(offset)) case Some(end) => Ok(offset + end)
  {
    SuffixU32(c, offset, HEADER_SIZE);
    var metadataEnd := offset + HEADER_SIZE + 4 + GetU32(c, offset + HEADER_SIZE);
    if metadataEnd + 4 <= |c| {
      SuffixU32(c, offset, metadataEnd - offset);
    }
  }

  lemma SplitAt(c: Bytes, offset: nat)
    requires offset < |c|
    ensures LegacyAt(c, offset) ==> Split(c[offset..], offset) == Ok([c[offset..]])
    ensures !LegacyAt(c, offset) && SectionAt(c, offset).Err? ==>
              Split(c[offset..], offset) == Err(SectionAt(c, offset).error)
    ensures !LegacyAt(c, offset) && SectionAt(c, offset).Ok? ==>
              Split(c[offset..], offset) == Prepend([c[offset..SectionAt(c, offset).value]],
                                                    Split(c[SectionAt(c, offset).value..], SectionAt(c, offset).value))
  {
    var rest := c[offset..];
    if |rest| >= HEADER_SIZE + 4 {
      assert rest[..4] == c[offset..offset + 4];
      if rest[..4] == MAGIC && rest[4] == VERSION {
        SectionInPlace(c, offset);
        if SectionAt(c, offset).Ok? {
          var end := SectionAt(c, offset).value;
          assert rest[..end - offset] == c[offset..end] && rest[end - offset..] == c[end..];
        }
      }
    }
  }

  method SplitAtrxBlobs(concatenated: Bytes) returns (r: Result<seq<Bytes>, SplitError>)
    ensures r == Split(concatenated, 0)
  {
    var sections: seq<Bytes> := [];
    var offset := 0;
    SplitEnds(concatenated, [], 0);
    while offset < |concatenated|
      invariant 0 <= offset <= |concatenated|
      invariant SoFar(concatenated, sections, offset)
    {
      SplitStep(concatenated, sections, offset);
      if offset + HEADER_SIZE + 4 > |concatenated| {
        return Err(Truncated(offset));
      }
      if concatenated[offset..offset + 4] != MAGIC {
        return Err(InvalidMagic(offset));
      }
      var version := concatenated[offset + 4];
      var metadataEnd := offset + HEADER_SIZE + 4 + GetU32(concatenated, offset + HEADER_SIZE);
      if version == LEGACY_VERSION {
        return Ok(sections + [concatenated[offset..]]);
      }
      if version != VERSION {
        return Err(Unsupported(version, offset));
      }
      if metadataEnd + 4 > |concatenated| {
        return Err(Truncated(offset));
      }
      var sectionEnd := metadataEnd + 4 + GetU32(concatenated, metadataEnd);
      if sectionEnd > |concatenated| {
        return Err(Truncated(offset));
      }
      sections := sections + [concatenated[offset..sectionEnd]];
      offset := sectionEnd;
    }
    SplitEnds(concatenated, sections, offset);
    r := Ok(sections);
  }

  /** A list an upload may be made of: version 2 sections, and a version 1 section only at the end. */
  ghost predicate Uploadable(blobs: seq<Bytes>) {
    forall i :: 0 <= i < |blobs| ==> WellFramed(blobs[i]) || (i == |blobs| - 1 && Legacy(blobs[i]))
  }

  lemma SectionInFront(b: Bytes, rest: Bytes)
    requires WellFramed(b)
    ensures |b + rest| >= HEADER_SIZE + 4 && (b + rest)[..4] == MAGIC && (b + rest)[4] == VERSION
    ensures SectionEnd(b + rest) == Some(|b|)
  {
    assert (b + rest)[..4] == b[..4];
    SameU32(b, rest, HEADER_SIZE);
    SameU32(b, rest, MetadataEnd(b));
  }

  lemma SameU32(b: Bytes, rest: Bytes, at: nat)
    requires at + 4 <= |b|
    ensures GetU32(b + rest, at) == GetU32(b, at)
  {
    assert (b + rest)[at..at + 4] == b[at..at + 4];
    BigEndianBytes(b + rest, at, b, at, 4);
  }

  lemma SplitFirst(b: Bytes, rest: Bytes, offset: nat)
    requires WellFramed(b)
    ensures Split(b + rest, offset) == Prepend([b], Split(rest, offset + |b|))
  {
    SectionInFront(b, rest);
    assert (b + rest)[..|b|] == b && (b + rest)[|b|..] == rest;
  }

  /** Splitting undoes concatenation, whatever the sections contain. */
  lemma {:induction false} SplitConcat(blobs: seq<Bytes>, offset: nat)
    requires Uploadable(blobs)
    ensures Split(ConcatAtrxBlobs(blobs), offset) == Ok(blobs)
  {
    if blobs != [] {
      var b, rest := blobs[0], ConcatAtrxBlobs(blobs[1..]);
      if WellFramed(b) {
        SplitFirst(b, rest, offset);
        assert forall i :: 0 <= i < |blobs[1..]| ==> blobs[1..][i] == blobs[i + 1];
        SplitConcat(blobs[1..], offset + |b|);
        assert [b] + blobs[1..] == blobs;
      } else {
        assert blobs[1..] == [] && rest == [] && b + rest == b && blobs == [b];
      }
    }
  }

  lemma EndOfWellFramed(b: Bytes)
    requires |b| >= HEADER_SIZE + 4 && b[..4] == MAGIC && b[4] == VERSION && SectionEnd(b).Some?
    ensures WellFramed(b[..SectionEnd(b).value])
  {
    var s := b[..SectionEnd(b).value];
    assert s[..4] == b[..4];
    assert b == s + b[SectionEnd(b).value..];
    SameU32(s, b[SectionEnd(b).value..], HEADER_SIZE);
    SameU32(s, b[SectionEnd(b).value..], MetadataEnd(b));
  }

  lemma SectionFirst(section: Bytes, rest: seq<Bytes>)
    requires WellFramed(section) && Uploadable(rest)
    ensures Uploadable([section] + rest) && ConcatAtrxBlobs([section] + rest) == section + ConcatAtrxBlobs(rest)
  {
    var all := [section] + rest;
    assert all[1..] == rest;
    forall i | 0 <= i < |all| ensures WellFramed(all[i]) || (i == |all| - 1 && Legacy(all[i])) {
      if i > 0 { assert all[i] == rest[i - 1]; }
    }
  }

  /** Concatenation undoes splitting, and an accepted upload is made of well-framed sections. */
  lemma {:induction false} ConcatSplit(b: Bytes, offset: nat)
    requires Split(b, offset).Ok?
    ensures Uploadable(Split(b, offset).value)
    ensures ConcatAtrxBlobs(Split(b, offset).value) == b
    decreases |b|
  {
    if b != [] && b[4] == VERSION {
      var end := SectionEnd(b).value;
      EndOfWellFramed(b);
      ConcatSplit(b[end..], offset + end);
      SectionFirst(b[..end], Split(b[end..], offset + end).value);
      assert b == b[..end] + b[end..];
    } else if b != [] {
      assert [b][1..] == [] && ConcatAtrxBlobs([b]) == b + [];
    }
  }

  /** An upload is accepted exactly when it is a concatenation of sections, and then in one way only. */
  lemma UploadsDecomposeUniquely(b: Bytes, xs: seq<Bytes>, ys: seq<Bytes>)
    ensures Split(b, 0).Ok? <==> exists blobs :: Uploadable(blobs) && ConcatAtrxBlobs(blobs) == b
    ensures Uploadable(xs) && Uploadable(ys) && ConcatAtrxBlobs(xs) == ConcatAtrxBlobs(ys) ==> xs == ys
  {
    if Split(b, 0).Ok? {
      ConcatSplit(b, 0);
    }
    if blobs :| Uploadable(blobs) && ConcatAtrxBlobs(blobs) == b {
      SplitConcat(blobs, 0);
    }
    if Uploadable(xs) && Uploadable(ys) {
      SplitConcat(xs, 0);
      SplitConcat(ys, 0);
    }
  }

  /** No version 2 section is a proper prefix of another. */
  lemma SectionsArePrefixFree(a: Bytes, b: Bytes)
    requires WellFramed(a) && WellFramed(b) && a <= b
    ensures a == b
  {
    assert b == a + b[|a|..];
    SectionInFront(a, b[|a|..]);
  }
}
