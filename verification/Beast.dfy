/** Counting frames in raw captures: BEAST binary with doubled escape bytes, and UAT text lines. */
module Beast {

  type Byte = b: int | 0 <= b < 256
  type Bytes = seq<Byte>

  const BEAST_ESCAPE: Byte := 0x1a

  predicate IsFrameType(b: Byte) { b == 0x31 || b == 0x32 || b == 0x33 }

  // ---- the counting loop, and the automaton it is ----

  datatype Mode = Plain | Escaped

  /** Reading byte by byte: what follows an escape byte is consumed with it and may be a frame type. */
  function After(m: Mode, s: Bytes): Mode
    decreases s
  {
    if s == [] then m
    else if m.Plain? && s[0] == BEAST_ESCAPE then After(Escaped, s[1..])
    else After(Plain, s[1..])
  }

  function Count(m: Mode, s: Bytes): nat
    decreases s
  {
    if s == [] then 0
    else if m.Plain? then Count(if s[0] == BEAST_ESCAPE then Escaped else Plain, s[1..])
    else (if IsFrameType(s[0]) then 1 else 0) + Count(Plain, s[1..])
  }

  method CountBeastFrames(payload: Bytes) returns (count: nat)
    ensures count == Count(Plain, payload)
  {
    count := 0;
    var i := 0;
    while i < |payload|
      invariant 0 <= i <= |payload| + 1
      invariant count + (if i < |payload| then Count(Plain, payload[i..]) else 0) == Count(Plain, payload)
    {
      if payload[i] == BEAST_ESCAPE {
        assert payload[i..][1..] == payload[i + 1..];
        assert i + 1 < |payload| ==> payload[i + 1..][1..] == payload[i + 2..];
        if i + 1 < |payload| && payload[i + 1] == BEAST_ESCAPE {
          i := i + 2;
          continue;
        }
        if i + 1 < |payload| && (payload[i + 1] == 0x31 || payload[i + 1] == 0x32 || payload[i + 1] == 0x33) {
          count := count + 1;
        }
        i := i + 2;
        continue;
      }
      assert payload[i..][1..] == payload[i + 1..];
      i := i + 1;
    }
  }

  lemma {:induction false} CountConcat(m: Mode, a: Bytes, b: Bytes)
    ensures Count(m, a + b) == Count(m, a) + Count(After(m, a), b)
    ensures After(m, a + b) == After(After(m, a), b)
    decreases a
  {
    if a == [] {
      assert a + b == b;
    } else {
      assert (a + b)[1..] == a[1..] + b;
      CountConcat(if m.Plain? && a[0] == BEAST_ESCAPE then Escaped else Plain, a[1..], b);
    }
  }

  lemma {:induction false} ModesDifferByOne(s: Bytes)
    ensures -1 <= Count(Plain, s) - Count(Escaped, s) <= 1
  {
    if s != [] {
      ModesDifferByOne(s[1..]);
    }
  }

  /** A cut between escape pairs loses nothing; any cut changes the total by at most one frame. */
  lemma CutCostsAtMostOneFrame(a: Bytes, b: Bytes)
    ensures After(Plain, a) == Plain ==> Count(Plain, a) + Count(Plain, b) == Count(Plain, a + b)
    ensures -1 <= Count(Plain, a) + Count(Plain, b) - Count(Plain, a + b) <= 1
  {
    CountConcat(Plain, a, b);
    ModesDifferByOne(b);
  }

  function Join(pieces: seq<Bytes>): Bytes {
    if pieces == [] then [] else Join(pieces[..|pieces| - 1]) + pieces[|pieces| - 1]
  }

  function Total(pieces: seq<Bytes>): nat {
    if pieces == [] then 0 else Total(pieces[..|pieces| - 1]) + Count(Plain, pieces[|pieces| - 1])
  }

  /** A stream flushed in n pieces is miscounted by at most n - 1 frames in all. */
  lemma {:induction false} FlushesCostAtMostOneFrameEach(pieces: seq<Bytes>)
    requires pieces != []
    ensures -(|pieces| - 1) <= Total(pieces) - Count(Plain, Join(pieces)) <= |pieces| - 1
  {
    var n := |pieces| - 1;
    if n == 0 {
      assert Join(pieces[..0]) == [] && Total(pieces[..0]) == 0;
      assert [] + pieces[0] == pieces[0];
    } else {
      FlushesCostAtMostOneFrameEach(pieces[..n]);
      CutCostsAtMostOneFrame(Join(pieces[..n]), pieces[n]);
    }
  }

  // ---- escaping ----

  /** A message on the wire: escape byte, type, then the body with every escape byte doubled. */
  datatype BeastMessage = BeastMessage(kind: Byte, body: Bytes)

  function Escape(body: Bytes): Bytes {
    if body == [] then []
    else (if body[0] == BEAST_ESCAPE then [BEAST_ESCAPE, BEAST_ESCAPE] else [body[0]]) + Escape(body[1..])
  }

  function Wire(messages: seq<BeastMessage>): Bytes {
    if messages == [] then []
    else [BEAST_ESCAPE, messages[0].kind] + Escape(messages[0].body) + Wire(messages[1..])
  }

  function Frames(messages: seq<BeastMessage>): nat {
    if messages == [] then 0 else (if IsFrameType(messages[0].kind) then 1 else 0) + Frames(messages[1..])
  }

  lemma {:induction false} EscapedBodyIsSilent(body: Bytes)
    ensures Count(Plain, Escape(body)) == 0 && After(Plain, Escape(body)) == Plain
  {
    if body != [] {
      var head := if body[0] == BEAST_ESCAPE then [BEAST_ESCAPE, BEAST_ESCAPE] else [body[0]];
      EscapedBodyIsSilent(body[1..]);
      CountConcat(Plain, head, Escape(body[1..]));
      assert head[1..] == if body[0] == BEAST_ESCAPE then [BEAST_ESCAPE] else [];
      assert [BEAST_ESCAPE][1..] == [];
    }
  }

  /** The counter finds exactly the messages of the three frame types, whatever bytes their bodies hold. */
  lemma {:induction false} CountingUndoesEscaping(messages: seq<BeastMessage>)
    ensures Count(Plain, Wire(messages)) == Frames(messages)
  {
    if messages != [] {
      var m := messages[0];
      var head := [BEAST_ESCAPE, m.kind];
      CountingUndoesEscaping(messages[1..]);
      EscapedBodyIsSilent(m.body);
      CountConcat(Plain, head + Escape(m.body), Wire(messages[1..]));
      CountConcat(Plain, head, Escape(m.body));
      assert head[1..] == [m.kind] && head[1..][1..] == [];
    }
  }

  // ---- UAT text ----

  const NEWLINE: Byte := 0x0a
  const PLUS: Byte := 0x2b
  const MINUS: Byte := 0x2d

  /** The pieces between newline bytes, as String.split returns them. */
  function Lines(s: Bytes): (lines: seq<Bytes>)
    ensures lines != []
  {
    if s == [] then [[]]
    else if s[0] == NEWLINE then [[]] + Lines(s[1..])
    else
      var rest := Lines(s[1..]);
      [[s[0]] + rest[0]] + rest[1..]
  }

  predicate IsUatLine(line: Bytes) {
    line != [] && (line[0] == PLUS || line[0] == MINUS)
  }

  /** Reading byte by byte: the signs at the start of the text or just after a newline. */
  function LineSigns(s: Bytes, atStart: bool): nat
    decreases s
  {
    if s == [] then 0
    else (if atStart && (s[0] == PLUS || s[0] == MINUS) then 1 else 0) + LineSigns(s[1..], s[0] == NEWLINE)
  }

  method CountUatFrames(payload: Bytes) returns (count: nat)
    ensures count == LineSigns(payload, true)
  {
    var lines := Lines(payload);
    count := 0;
    for i := 0 to |lines|
      invariant count == UatLines(lines[..i])
    {
      assert lines[..i + 1][..i] == lines[..i];
      if |lines[i]| > 0 && (lines[i][0] == PLUS || lines[i][0] == MINUS) {
        count := count + 1;
      }
    }
    assert lines[..|lines|] == lines;
    LinesAreLineSigns(payload);
  }

  function UatLines(lines: seq<Bytes>): nat {
    if lines == [] then 0
    else UatLines(lines[..|lines| - 1]) + (if IsUatLine(lines[|lines| - 1]) then 1 else 0)
  }

  lemma {:induction false} UatLinesFront(line: Bytes, lines: seq<Bytes>)
    ensures UatLines([line] + lines) == (if IsUatLine(line) then 1 else 0) + UatLines(lines)
  {
    if lines == [] {
      assert [line] + lines == [line] && [line][..0] == [];
    } else {
      var n := |lines| - 1;
      UatLinesFront(line, lines[..n]);
      assert ([line] + lines)[..n + 1] == [line] + lines[..n];
    }
  }

  /** Splitting into lines and looking at each first byte counts the line signs. */
  lemma {:induction false} LinesAreLineSigns(s: Bytes)
    ensures LineSigns(s, true) == UatLines(Lines(s))
    ensures LineSigns(s, false) == UatLines(Lines(s)[1..])
  {
    var lines := Lines(s);
    assert lines == [lines[0]] + lines[1..];
    UatLinesFront(lines[0], lines[1..]);
    if s == [] {
      assert lines[1..] == [];
    } else {
      var rest := Lines(s[1..]);
      LinesAreLineSigns(s[1..]);
      assert lines[1..] == if s[0] == NEWLINE then rest else rest[1..];
    }
  }

  lemma {:induction false} LineSignsConcat(a: Bytes, b: Bytes, atStart: bool)
    requires a != []
    ensures LineSigns(a + b, atStart) == LineSigns(a, atStart) + LineSigns(b, a[|a| - 1] == NEWLINE)
    decreases a
  {
    assert (a + b)[1..] == a[1..] + b;
    if |a| == 1 {
      assert a[1..] + b == b;
    } else {
      LineSignsConcat(a[1..], b, a[0] == NEWLINE);
    }
  }

  /** Concatenating captures that end their last line adds their frame counts. */
  lemma UatCountsAdd(a: Bytes, b: Bytes)
    requires a == [] || a[|a| - 1] == NEWLINE
    ensures LineSigns(a + b, true) == LineSigns(a, true) + LineSigns(b, true)
  {
    if a == [] {
      assert a + b == b;
    } else {
      LineSignsConcat(a, b, true);
    }
  }
}
