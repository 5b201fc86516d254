/**
 What a connection delivers does not depend on how its text was cut into data events, except in one
 case: a connection that greets twice under one source destroys itself while its loop goes on
 reading, and whether the lines after that still count then depends on the cut.
 */
module Framing {
  import opened Wrappers
  import opened AdapterServer

  function Feed(parse: Parser, s: Server, c: ConnId, chunks: seq<string>): Server
    decreases |chunks|
  {
    if chunks == [] then s else Feed(parse, OnData(parse, s, c, chunks[0]), c, chunks[1..])
  }

  function Text(chunks: seq<string>): string
    decreases |chunks|
  {
    if chunks == [] then "" else chunks[0] + Text(chunks[1..])
  }

  // ---- the loop, line by line ----

  /** The loop, after one line. */
  function After(parse: Parser, c: ConnId, o: Outcome, rest: string): Processed
    requires c in o.s.conns
  {
    if o.stopped then Processed(o.s, true, rest) else Process(parse, o.s, c, rest)
  }

  lemma ProcessLine(parse: Parser, s: Server, c: ConnId, text: string, i: nat)
    requires c in s.conns && LineEnd(text) == Some(i)
    ensures Process(parse, s, c, text) == After(parse, c, HandleLine(parse, s, c, text[..i]), text[i + 1..])
  {
  }

  lemma {:induction false} LineEndAppend(a: string, b: string)
    ensures LineEnd(a).Some? ==> LineEnd(a + b) == LineEnd(a)
  {
    if a != "" && a[0] != '\n' {
      LineEndAppend(a[1..], b);
      assert (a + b)[1..] == a[1..] + b;
    }
  }

  lemma {:induction false} LineEndIsNewline(a: string)
    requires LineEnd(a).Some?
    ensures a[LineEnd(a).value] == '\n'
  {
    if a[0] != '\n' {
      LineEndIsNewline(a[1..]);
    }
  }

  lemma {:induction false} LineEndNone(a: string)
    ensures LineEnd(a) == None <==> '\n' !in a
  {
    if a != "" && a[0] != '\n' {
      LineEndNone(a[1..]);
      assert a == [a[0]] + a[1..];
    }
  }

  lemma LineEndTake(text: string, k: nat)
    requires k <= |text| && LineEnd(text).Some? && LineEnd(text).value < k
    ensures LineEnd(text[..k]) == LineEnd(text)
  {
    LineEndNone(text[..k]);
    LineEndIsNewline(text);
    assert text[..k][LineEnd(text).value] == '\n';
    LineEndAppend(text[..k], text[k..]);
    assert text[..k] + text[k..] == text;
  }

  /** The first line of a text with more after it, in both. */
  lemma FirstLine(a: string, b: string) returns (i: nat, line: string, rest: string)
    requires LineEnd(a).Some?
    ensures LineEnd(a) == LineEnd(a + b) == Some(i) && i < |a|
    ensures line == a[..i] == (a + b)[..i]
    ensures rest == a[i + 1..] && (a + b)[i + 1..] == rest + b
  {
    i := LineEnd(a).value;
    LineEndAppend(a, b);
    assert (a + b)[..i] == a[..i] && (a + b)[i + 1..] == a[i + 1..] + b;
    line, rest := a[..i], a[i + 1..];
  }

  /** What Process makes of a text followed by more text, from what it makes of the text. */
  function Resume(parse: Parser, p: Processed, c: ConnId, more: string): Processed
    requires c in p.s.conns
  {
    if p.stopped then Processed(p.s, true, p.rest + more) else Process(parse, p.s, c, p.rest + more)
  }

  lemma {:induction false} ProcessAppend(parse: Parser, s: Server, c: ConnId, a: string, b: string)
    requires c in s.conns
    ensures Process(parse, s, c, a + b) == Resume(parse, Process(parse, s, c, a), c, b)
    decreases |a|
  {
    if LineEnd(a).Some? {
      var i, line, rest := FirstLine(a, b);
      ProcessLine(parse, s, c, a, i);
      ProcessLine(parse, s, c, a + b, i);
      var o := HandleLine(parse, s, c, line);
      if !o.stopped {
        ProcessAppend(parse, o.s, c, rest, b);
      }
    }
  }

  function WithBuffer(p: Processed, c: ConnId, buffer: string): Processed
    requires c in p.s.conns
  {
    p.(s := SetBuffer(p.s, c, buffer))
  }

  lemma GreetingIgnoresBuffer(s: Server, c: ConnId, sourceId: SourceId, protocol: string, buffer: string)
    requires c in s.conns
    ensures HandleHandshake(SetBuffer(s, c, buffer), c, sourceId, protocol)
              == SetBuffer(HandleHandshake(s, c, sourceId, protocol), c, buffer)
  {
    assert HandleHandshake(SetBuffer(s, c, buffer), c, sourceId, protocol).conns
        == SetBuffer(HandleHandshake(s, c, sourceId, protocol), c, buffer).conns;
  }

  lemma LineIgnoresBuffer(parse: Parser, s: Server, c: ConnId, line: string, buffer: string)
    requires c in s.conns
    ensures var o := HandleLine(parse, s, c, line);
      HandleLine(parse, SetBuffer(s, c, buffer), c, line) == Outcome(SetBuffer(o.s, c, buffer), o.stopped)
  {
    if parse(line).Handshake? {
      GreetingIgnoresBuffer(s, c, parse(line).sourceId, parse(line).protocol, buffer);
    }
  }

  /** The loop reads the text it is given, not the buffer field. */
  lemma {:induction false} BufferIsIrrelevant(parse: Parser, s: Server, c: ConnId, text: string, buffer: string)
    requires c in s.conns
    ensures Process(parse, SetBuffer(s, c, buffer), c, text) == WithBuffer(Process(parse, s, c, text), c, buffer)
    decreases |text|
  {
    if LineEnd(text).Some? {
      var i := LineEnd(text).value;
      var line := text[..i];
      ProcessLine(parse, s, c, text, i);
      ProcessLine(parse, SetBuffer(s, c, buffer), c, text, i);
      LineIgnoresBuffer(parse, s, c, line, buffer);
      var o := HandleLine(parse, s, c, line);
      if !o.stopped {
        BufferIsIrrelevant(parse, o.s, c, text[i + 1..], buffer);
      }
    }
  }

  // ---- lines that count ----

  /** Complete lines that a connection past its handshake acts on: data and handshakes. */
  function Spoken(parse: Parser, text: string): nat
    decreases |text|
  {
    match LineEnd(text)
    case None => 0
    case Some(i) => (if Speaks(parse, text[..i]) then 1 else 0) + Spoken(parse, text[i + 1..])
  }

  predicate Speaks(parse: Parser, line: string) {
    parse(line).Handshake? || parse(line).Data?
  }

  lemma {:induction false} SpokenGrows(parse: Parser, a: string, b: string)
    ensures Spoken(parse, a) <= Spoken(parse, a + b)
    decreases |a|
  {
    if LineEnd(a).Some? {
      var i, line, rest := FirstLine(a, b);
      SpokenGrows(parse, rest, b);
    }
  }

  /** Past the handshake every spoken line leaves a trace: a delivery or a greeting. */
  function Traces(s: Server): nat {
    |s.routed| + |s.greetings|
  }

  ghost predicate Done(s: Server, c: ConnId) {
    c in s.conns && s.conns[c].handshakeDone && s.conns[c].sourceId.Some?
  }

  ghost predicate Traced(s: Server, t: Server, c: ConnId, n: nat)
    requires c in s.conns && c in t.conns
  {
    && Traces(t) == Traces(s) + n
    && (n == 0 ==> t == s)
    && (s.conns[c].destroyed ==> t.conns[c].destroyed)
  }

  lemma DoneLine(parse: Parser, s: Server, c: ConnId, line: string)
    requires Done(s, c)
    ensures var o := HandleLine(parse, s, c, line);
      !o.stopped && Done(o.s, c) && Traced(s, o.s, c, if Speaks(parse, line) then 1 else 0)
  {
  }

  lemma {:induction false} DoneText(parse: Parser, s: Server, c: ConnId, text: string)
    requires Done(s, c)
    ensures var p := Process(parse, s, c, text);
      !p.stopped && Done(p.s, c) && Traced(s, p.s, c, Spoken(parse, text))
    decreases |text|
  {
    if LineEnd(text).Some? {
      var i := LineEnd(text).value;
      var line, rest := text[..i], text[i + 1..];
      ProcessLine(parse, s, c, text, i);
      DoneLine(parse, s, c, line);
      var t := HandleLine(parse, s, c, line).s;
      DoneText(parse, t, c, rest);
      assert Traced(s, Process(parse, t, c, rest).s, c, (if Speaks(parse, line) then 1 else 0) + Spoken(parse, rest));
    }
  }

  // ---- greeting twice under one source ----

  predicate Holds(s: Server, c: ConnId, sourceId: SourceId) {
    Lookup(s.active, sourceId) == Some(c)
  }

  /** What a line means for a connection that holds these sources. */
  datatype Verdict = Breaks | Repeats | Goes(done: bool, held: set<SourceId>)

  function Judge(parse: Parser, done: bool, held: set<SourceId>, line: string): Verdict {
    match parse(line)
    case Blank => Goes(done, held)
    case Handshake(sourceId, _) => if sourceId in held then Repeats else Goes(true, held + {sourceId})
    case _ => if done then Goes(done, held) else Breaks
  }

  /**
   The text after the line in which such a connection first greets under a source it holds; None when
   it never does, or breaks the protocol first.
   */
  function AfterRepeat(parse: Parser, done: bool, held: set<SourceId>, text: string): Option<string>
    decreases |text|
  {
    match LineEnd(text)
    case None => None
    case Some(i) =>
      match Judge(parse, done, held, text[..i])
      case Breaks => None
      case Repeats => Some(text[i + 1..])
      case Goes(done', held') => AfterRepeat(parse, done', held', text[i + 1..])
  }

  /** Looking for a repeat in a text goes on as looking in what is left of it. */
  ghost predicate ScanResumes(
    parse: Parser, done: bool, held: set<SourceId>, text: string, done': bool, held': set<SourceId>, rest: string)
  {
    AfterRepeat(parse, done, held, text) == AfterRepeat(parse, done', held', rest)
  }

  lemma RepeatLine(parse: Parser, done: bool, held: set<SourceId>, text: string, i: nat, line: string, rest: string)
    requires LineEnd(text) == Some(i) && line == text[..i] && rest == text[i + 1..]
    ensures var verdict := Judge(parse, done, held, line);
      verdict.Goes? ==> ScanResumes(parse, done, held, text, verdict.done, verdict.held, rest)
  {
  }

  /** The connection is open, past its handshake or not, and these are the sources it holds. */
  ghost predicate Open(s: Server, c: ConnId, done: bool, held: set<SourceId>) {
    && c in s.conns && !s.conns[c].destroyed
    && s.conns[c].handshakeDone == done
    && (done ==> s.conns[c].sourceId.Some?)
    && forall sourceId: SourceId :: sourceId in held <==> Holds(s, c, sourceId)
  }

  lemma {:induction false} BindLookup(active: seq<Binding>, sourceId: SourceId, c: ConnId, other: SourceId)
    ensures Lookup(Bind(active, sourceId, c), other) == if other == sourceId then Some(c) else Lookup(active, other)
  {
    if active != [] {
      BindLookup(active[1..], sourceId, c, other);
    }
  }

  lemma GreetingHolds(s: Server, c: ConnId, held: set<SourceId>, sourceId: SourceId, protocol: string)
    requires c in s.conns && Open(s, c, s.conns[c].handshakeDone, held)
    ensures var t := HandleHandshake(s, c, sourceId, protocol);
      if sourceId in held then Done(t, c) && t.conns[c].destroyed else Open(t, c, true, held + {sourceId})
  {
    var t := HandleHandshake(s, c, sourceId, protocol);
    forall other: SourceId ensures other in held + {sourceId} <==> Holds(t, c, other) {
      BindLookup(s.active, sourceId, c, other);
    }
  }

  /** A line of an open connection: greeting under a held source is what orphans it. */
  lemma OpenLine(parse: Parser, s: Server, c: ConnId, done: bool, held: set<SourceId>, line: string)
    requires Open(s, c, done, held)
    ensures var o := HandleLine(parse, s, c, line);
      match Judge(parse, done, held, line)
      case Breaks => o.stopped && o.s.conns[c].destroyed
      case Repeats => !o.stopped && Done(o.s, c) && o.s.conns[c].destroyed
      case Goes(done', held') => !o.stopped && Open(o.s, c, done', held')
  {
    if parse(line).Handshake? {
      GreetingHolds(s, c, held, parse(line).sourceId, parse(line).protocol);
    }
  }

  lemma {:induction false} RepeatStays(parse: Parser, done: bool, held: set<SourceId>, a: string, b: string)
    requires AfterRepeat(parse, done, held, a).Some?
    ensures AfterRepeat(parse, done, held, a + b) == Some(AfterRepeat(parse, done, held, a).value + b)
    decreases |a|
  {
    var i, line, rest := FirstLine(a, b);
    var verdict := Judge(parse, done, held, line);
    if verdict.Goes? {
      RepeatStays(parse, verdict.done, verdict.held, rest, b);
    }
  }

  /** The first line with its newline. */
  lemma CutLine(text: string) returns (i: nat, first: string, rest: string)
    requires LineEnd(text).Some?
    ensures LineEnd(text) == LineEnd(first) == Some(i) && |first| == i + 1 && first[i] == '\n'
    ensures text == first + rest && first[..i] == text[..i] && rest == text[i + 1..]
  {
    i := LineEnd(text).value;
    first, rest := text[..i + 1], text[i + 1..];
    LineEndTake(text, i + 1);
    LineEndIsNewline(text);
  }

  predicate EndsLine(text: string) {
    text != "" && text[|text| - 1] == '\n'
  }

  /** The text up to the end of the line that repeats the greeting. */
  lemma {:induction false} RepeatHead(parse: Parser, done: bool, held: set<SourceId>, text: string)
    returns (head: string)
    requires AfterRepeat(parse, done, held, text).Some?
    ensures text == head + AfterRepeat(parse, done, held, text).value
    ensures AfterRepeat(parse, done, held, head) == Some("")
    ensures EndsLine(head)
    decreases |text|
  {
    var i, first, rest := CutLine(text);
    var verdict := Judge(parse, done, held, text[..i]);
    if verdict.Goes? {
      var more := RepeatHead(parse, verdict.done, verdict.held, rest);
      head := Joined(first, i, more, rest, AfterRepeat(parse, verdict.done, verdict.held, rest).value);
      RepeatLine(parse, done, held, head, i, text[..i], more);
      RepeatLine(parse, done, held, text, i, text[..i], rest);
    } else {
      head := first;
      assert first[i + 1..] == "";
    }
  }

  lemma Joined(first: string, i: nat, more: string, rest: string, tail: string) returns (head: string)
    requires LineEnd(first) == Some(i) && |first| == i + 1 && rest == more + tail && EndsLine(more)
    ensures head == first + more && first + rest == head + tail && EndsLine(head)
    ensures LineEnd(head) == Some(i) && head[..i] == first[..i] && head[i + 1..] == more
  {
    head := first + more;
    LineEndAppend(first, more);
    assert first + (more + tail) == head + tail;
    assert head[..i] == first[..i] && head[i + 1..] == more;
    assert head[|head| - 1] == more[|more| - 1];
  }

  /** With the repeated greeting the connection is orphaned, and the loop goes on with what follows. */
  lemma {:induction false} RepeatOrphans(
    parse: Parser, s: Server, c: ConnId, done: bool, held: set<SourceId>, text: string, more: string)
    returns (t: Server)
    requires Open(s, c, done, held) && AfterRepeat(parse, done, held, text).Some?
    ensures Done(t, c) && t.conns[c].destroyed
    ensures var rest := AfterRepeat(parse, done, held, text).value;
      && Process(parse, s, c, text) == Process(parse, t, c, rest)
      && Process(parse, s, c, text + more) == Process(parse, t, c, rest + more)
    decreases |text|
  {
    var i, line, rest := FirstLine(text, more);
    ProcessLine(parse, s, c, text, i);
    ProcessLine(parse, s, c, text + more, i);
    OpenLine(parse, s, c, done, held, line);
    t := HandleLine(parse, s, c, line).s;
    var verdict := Judge(parse, done, held, line);
    if verdict.Goes? {
      t := RepeatOrphans(parse, t, c, verdict.done, verdict.held, rest, more);
    }
  }

  /** Without a repeated greeting the connection is open after the text, unless it broke the protocol. */
  lemma {:induction false} NoRepeat(
    parse: Parser, s: Server, c: ConnId, done: bool, held: set<SourceId>, text: string, more: string)
    returns (done': bool, held': set<SourceId>)
    requires Open(s, c, done, held) && AfterRepeat(parse, done, held, text) == None
    ensures var p := Process(parse, s, c, text);
      && (p.stopped ==> p.s.conns[c].destroyed)
      && (!p.stopped ==> Open(p.s, c, done', held') && LineEnd(p.rest) == None)
      && (!p.stopped ==> ScanResumes(parse, done, held, text + more, done', held', p.rest + more))
    decreases |text|
  {
    done', held' := done, held;
    if LineEnd(text).Some? {
      var i, line, rest := FirstLine(text, more);
      ProcessLine(parse, s, c, text, i);
      RepeatLine(parse, done, held, text, i, line, rest);
      RepeatLine(parse, done, held, text + more, i, line, rest + more);
      OpenLine(parse, s, c, done, held, line);
      var verdict := Judge(parse, done, held, line);
      if verdict.Goes? {
        var t := HandleLine(parse, s, c, line).s;
        done', held' := NoRepeat(parse, t, c, verdict.done, verdict.held, rest, more);
      }
    }
  }
}
