/** Every way of cutting a connection's text into data events, and exactly when the cut can be seen. */
module Cutting {
  import opened Wrappers
  import opened AdapterServer
  import opened Framing

  /** Equal, but for what is left in the buffer of a dead connection. */
  predicate Alike(s: Server, t: Server, c: ConnId) {
    && c in s.conns && c in t.conns
    && s.conns[c].destroyed == t.conns[c].destroyed
    && (if s.conns[c].destroyed then SetBuffer(s, c, "") == SetBuffer(t, c, "") else s == t)
  }

  /** An open connection between two data events. */
  predicate Live(s: Server, c: ConnId) {
    && c in s.conns && !s.conns[c].destroyed
    && (s.conns[c].handshakeDone ==> s.conns[c].sourceId.Some?)
    && LineEnd(s.conns[c].dataBuffer) == None
  }

  /** The sources registered to a connection. */
  function Held(s: Server, c: ConnId): set<SourceId> {
    set b | b in s.active && Lookup(s.active, b.sourceId) == Some(c) :: b.sourceId
  }

  lemma {:induction false} LookupBound(active: seq<Binding>, sourceId: SourceId)
    ensures Lookup(active, sourceId).Some? ==> Binding(sourceId, Lookup(active, sourceId).value) in active
  {
    if active != [] {
      LookupBound(active[1..], sourceId);
    }
  }

  lemma HeldIsHeld(s: Server, c: ConnId)
    requires Live(s, c)
    ensures Open(s, c, s.conns[c].handshakeDone, Held(s, c))
  {
    forall sourceId: SourceId ensures sourceId in Held(s, c) <==> Holds(s, c, sourceId) {
      LookupBound(s.active, sourceId);
    }
  }

  /**
   The text greets under a source the connection holds, and a line that counts comes after.  This
   can be told from the text, the connection's leftover buffer and the sources registered to it.
   */
  predicate SpeaksAfterRepeat(parse: Parser, done: bool, held: set<SourceId>, text: string) {
    var rest := AfterRepeat(parse, done, held, text);
    rest.Some? && Spoken(parse, rest.value) > 0
  }

  predicate CutMatters(parse: Parser, s: Server, c: ConnId, text: string)
    requires c in s.conns
  {
    SpeaksAfterRepeat(parse, s.conns[c].handshakeDone, Held(s, c), s.conns[c].dataBuffer + text)
  }

  /** The text repeats a greeting. */
  predicate Greets(parse: Parser, s: Server, c: ConnId, text: string)
    requires c in s.conns
  {
    AfterRepeat(parse, s.conns[c].handshakeDone, Held(s, c), s.conns[c].dataBuffer + text).Some?
  }

  lemma {:induction false} DeadIsDeaf(parse: Parser, s: Server, c: ConnId, chunks: seq<string>)
    requires c in s.conns && s.conns[c].destroyed
    ensures Feed(parse, s, c, chunks) == s
    decreases |chunks|
  {
    if chunks != [] {
      DeadIsDeaf(parse, s, c, chunks[1..]);
    }
  }

  function Read(parse: Parser, s: Server, c: ConnId, text: string): Processed
    requires c in s.conns
  {
    Process(parse, s, c, s.conns[c].dataBuffer + text)
  }

  lemma ReadMore(parse: Parser, s: Server, c: ConnId, a: string, b: string)
    requires c in s.conns
    ensures Read(parse, s, c, a + b) == Resume(parse, Read(parse, s, c, a), c, b)
  {
    ProcessAppend(parse, s, c, s.conns[c].dataBuffer + a, b);
    assert s.conns[c].dataBuffer + a + b == s.conns[c].dataBuffer + (a + b);
  }

  /** A data event leaves what the next one starts from, whenever the loop did not stop. */
  lemma ReadOn(parse: Parser, s: Server, c: ConnId, a: string, b: string)
    requires c in s.conns && !s.conns[c].destroyed
    ensures var p, t := Read(parse, s, c, a), OnData(parse, s, c, a);
      && t == SetBuffer(p.s, c, p.rest)
      && (!p.stopped ==> Read(parse, t, c, b) == WithBuffer(Read(parse, s, c, a + b), c, p.rest))
  {
    var p := Read(parse, s, c, a);
    ReadMore(parse, s, c, a, b);
    if !p.stopped {
      BufferIsIrrelevant(parse, p.s, c, p.rest + b, p.rest);
    }
  }

  /** Cutting before the repeat, or where the loop stops, changes nothing. */
  lemma CutBefore(parse: Parser, s: Server, c: ConnId, a: string, b: string)
    requires Live(s, c) && !Greets(parse, s, c, a)
    ensures var t := OnData(parse, s, c, a);
      && c in t.conns
      && (t.conns[c].destroyed ==> Alike(t, OnData(parse, s, c, a + b), c))
      && (!t.conns[c].destroyed ==>
            && Live(t, c)
            && OnData(parse, t, c, b) == OnData(parse, s, c, a + b)
            && CutMatters(parse, t, c, b) == CutMatters(parse, s, c, a + b))
  {
    var p := Read(parse, s, c, a);
    HeldIsHeld(s, c);
    ReadOn(parse, s, c, a, b);
    if p.stopped {
      CutStopped(parse, s, c, a, b);
    } else {
      CutOpen(parse, s, c, a, b);
    }
  }

  lemma CutStopped(parse: Parser, s: Server, c: ConnId, a: string, b: string)
    requires Live(s, c) && !Greets(parse, s, c, a) && Read(parse, s, c, a).stopped
    ensures var t := SetBuffer(Read(parse, s, c, a).s, c, Read(parse, s, c, a).rest);
      t.conns[c].destroyed && Alike(t, OnData(parse, s, c, a + b), c)
  {
    HeldIsHeld(s, c);
    var _, _ := NoRepeat(parse, s, c, s.conns[c].handshakeDone, Held(s, c), s.conns[c].dataBuffer + a, b);
    ReadMore(parse, s, c, a, b);
  }

  lemma CutOpen(parse: Parser, s: Server, c: ConnId, a: string, b: string)
    requires Live(s, c) && !Greets(parse, s, c, a) && !Read(parse, s, c, a).stopped
    ensures var t := SetBuffer(Read(parse, s, c, a).s, c, Read(parse, s, c, a).rest);
      Live(t, c) && CutMatters(parse, t, c, b) == CutMatters(parse, s, c, a + b)
  {
    var full := s.conns[c].dataBuffer + a;
    HeldIsHeld(s, c);
    var done, held := NoRepeat(parse, s, c, s.conns[c].handshakeDone, Held(s, c), full, b);
    assert full + b == s.conns[c].dataBuffer + (a + b);
    OpenAfter(Read(parse, s, c, a), c, done, held);
  }

  lemma OpenAfter(p: Processed, c: ConnId, done: bool, held: set<SourceId>)
    requires Open(p.s, c, done, held) && LineEnd(p.rest) == None
    ensures var t := SetBuffer(p.s, c, p.rest);
      Live(t, c) && t.conns[c].handshakeDone == done && t.conns[c].dataBuffer == p.rest && Held(t, c) == held
  {
    var t := SetBuffer(p.s, c, p.rest);
    HeldIsHeld(t, c);
    forall sourceId: SourceId ensures sourceId in Held(t, c) <==> sourceId in held {
      assert Holds(t, c, sourceId) == Holds(p.s, c, sourceId);
    }
  }

  /** Past the repeat the connection is dead, and silence after it leaves the rest as it was. */
  lemma CutAfter(parse: Parser, s: Server, c: ConnId, a: string, b: string)
    requires Live(s, c) && Greets(parse, s, c, a) && !CutMatters(parse, s, c, a + b)
    ensures var t := OnData(parse, s, c, a);
      c in t.conns && t.conns[c].destroyed && Alike(t, OnData(parse, s, c, a + b), c)
  {
    var done, held, full := s.conns[c].handshakeDone, Held(s, c), s.conns[c].dataBuffer + a;
    assert full + b == s.conns[c].dataBuffer + (a + b);
    RepeatStays(parse, done, held, full, b);
    var rest := AfterRepeat(parse, done, held, full).value;
    SpokenGrows(parse, rest, b);
    HeldIsHeld(s, c);
    var t := RepeatOrphans(parse, s, c, done, held, full, b);
    DoneText(parse, t, c, rest);
    DoneText(parse, t, c, rest + b);
  }

  lemma {:induction false} UnseenCuts(parse: Parser, s: Server, c: ConnId, chunks: seq<string>)
    requires Live(s, c) && !CutMatters(parse, s, c, Text(chunks))
    ensures Alike(Feed(parse, s, c, chunks), OnData(parse, s, c, Text(chunks)), c)
    decreases |chunks|
  {
    if chunks == [] {
      assert s.conns[c].dataBuffer + "" == s.conns[c].dataBuffer;
    } else {
      var a, b := chunks[0], Text(chunks[1..]);
      var t := OnData(parse, s, c, a);
      if !Greets(parse, s, c, a) {
        CutBefore(parse, s, c, a, b);
        if t.conns[c].destroyed {
          DeadIsDeaf(parse, t, c, chunks[1..]);
        } else {
          UnseenCuts(parse, t, c, chunks[1..]);
        }
      } else {
        CutAfter(parse, s, c, a, b);
        DeadIsDeaf(parse, t, c, chunks[1..]);
      }
    }
  }

  /** The cut that shows: just after the line that repeats the greeting. */
  lemma SeenCut(parse: Parser, s: Server, c: ConnId, text: string) returns (chunks: seq<string>)
    requires Live(s, c) && CutMatters(parse, s, c, text)
    ensures Text(chunks) == text
    ensures var cut, whole := Feed(parse, s, c, chunks), OnData(parse, s, c, text);
      Traces(cut) < Traces(whole) && !Alike(cut, whole, c)
  {
    var done, held, buffer := s.conns[c].handshakeDone, Held(s, c), s.conns[c].dataBuffer;
    var head := RepeatHead(parse, done, held, buffer + text);
    LineEndNone(buffer);
    var a, b := PastBuffer(buffer, text, head, AfterRepeat(parse, done, held, buffer + text).value);
    chunks := [a, b];
    assert chunks[1..] == [b] && Text([b]) == b;
    HeldIsHeld(s, c);
    var t := RepeatOrphans(parse, s, c, done, held, head, b);
    assert "" + b == b;
    DoneText(parse, t, c, b);
    DeadIsDeaf(parse, OnData(parse, s, c, a), c, [b]);
  }

  lemma PastBuffer(buffer: string, text: string, head: string, rest: string) returns (a: string, b: string)
    requires buffer + text == head + rest && '\n' !in buffer && EndsLine(head)
    ensures text == a + b && buffer + a == head && b == rest
  {
    assert (buffer + text)[|head| - 1] == '\n';
    assert |buffer| < |head|;
    a, b := text[..|head| - |buffer|], text[|head| - |buffer|..];
    assert buffer + a == (buffer + text)[..|head|] == (head + rest)[..|head|];
    assert b == (buffer + text)[|head|..] == (head + rest)[|head|..];
  }

  /** Framing does not depend on the cut, exactly unless a line that counts follows a repeated greeting. */
  lemma CutsAreUnseenExactlyWhen(parse: Parser, s: Server, c: ConnId, text: string)
    requires Live(s, c)
    ensures (forall chunks: seq<string> :: Text(chunks) == text ==>
               Alike(Feed(parse, s, c, chunks), OnData(parse, s, c, text), c))
            <==> !CutMatters(parse, s, c, text)
  {
    if CutMatters(parse, s, c, text) {
      var chunks := SeenCut(parse, s, c, text);
      assert Text(chunks) == text;
    } else {
      forall chunks: seq<string> | Text(chunks) == text
        ensures Alike(Feed(parse, s, c, chunks), OnData(parse, s, c, text), c)
      {
        UnseenCuts(parse, s, c, chunks);
      }
    }
  }

  // ---- one greeting per connection ----

  /** Handshake lines among the complete lines of a text. */
  function Greetings(parse: Parser, text: string): nat
    decreases |text|
  {
    match LineEnd(text)
    case None => 0
    case Some(i) => (if parse(text[..i]).Handshake? then 1 else 0) + Greetings(parse, text[i + 1..])
  }

  lemma {:induction false} FewGreetingsNeverRepeat(parse: Parser, done: bool, held: set<SourceId>, text: string)
    requires Greetings(parse, text) <= (if held == {} then 1 else 0)
    ensures AfterRepeat(parse, done, held, text) == None
    decreases |text|
  {
    if LineEnd(text).Some? {
      var i := LineEnd(text).value;
      var verdict := Judge(parse, done, held, text[..i]);
      if verdict.Goes? {
        FewGreetingsNeverRepeat(parse, verdict.done, verdict.held, text[i + 1..]);
      }
    }
  }

  /** A connection that greets once, and nothing more, delivers the same however its text is cut. */
  lemma OneGreetingHidesCuts(parse: Parser, s: Server, c: ConnId, chunks: seq<string>)
    requires Live(s, c)
    requires Greetings(parse, s.conns[c].dataBuffer + Text(chunks)) <= (if Held(s, c) == {} then 1 else 0)
    ensures Alike(Feed(parse, s, c, chunks), OnData(parse, s, c, Text(chunks)), c)
  {
    FewGreetingsNeverRepeat(parse, s.conns[c].handshakeDone, Held(s, c), s.conns[c].dataBuffer + Text(chunks));
    UnseenCuts(parse, s, c, chunks);
  }

  /** "h" greets under source "a"; anything else is data. */
  function SampleParse(line: string): Parsed {
    if line == "h" then Handshake("a", "beast") else Data(line)
  }

  lemma SampleLine(s: Server, sign: char, rest: string) returns (text: string)
    requires 0 in s.conns && sign != '\n'
    ensures text == [sign, '\n'] + rest && LineEnd(text) == Some(1) && text[..1] == [sign] && text[2..] == rest
    ensures Process(SampleParse, s, 0, text) == After(SampleParse, 0, HandleLine(SampleParse, s, 0, [sign]), rest)
  {
    text := [sign, '\n'] + rest;
    assert text[1..][0] == '\n' && LineEnd(text[1..]) == Some(0);
    ProcessLine(SampleParse, s, 0, text, 1);
  }

  const GREETED := HandleLine(SampleParse, OnConnect(EMPTY, 0), 0, "h").s
  const ORPHANED := HandleLine(SampleParse, GREETED, 0, "h").s

  lemma SampleGreetings()
    ensures 0 in GREETED.conns && !GREETED.conns[0].destroyed
    ensures 0 in ORPHANED.conns && ORPHANED.conns[0].destroyed && ORPHANED.routed == []
    ensures HandleLine(SampleParse, ORPHANED, 0, "d").s.routed == [Delivery("a", "d")]
    ensures !HandleLine(SampleParse, ORPHANED, 0, "d").stopped
  {
  }

  lemma SampleTwice(rest: string)
    ensures Process(SampleParse, OnConnect(EMPTY, 0), 0, "h\nh\n" + rest)
              == After(SampleParse, 0, Outcome(ORPHANED, false), rest)
  {
    SampleGreetings();
    var h := SampleLine(GREETED, 'h', rest);
    var hh := SampleLine(OnConnect(EMPTY, 0), 'h', h);
    assert hh == "h\nh\n" + rest;
  }

  /** One text, two cuts: the last line is delivered in one of them and lost in the other. */
  lemma RepeatedGreetingShowsTheCut()
    ensures var s := OnConnect(EMPTY, 0);
      && Live(s, 0)
      && OnData(SampleParse, s, 0, "h\nh\n" + "d\n").routed == [Delivery("a", "d")]
      && OnData(SampleParse, OnData(SampleParse, s, 0, "h\nh\n"), 0, "d\n").routed == []
  {
    SampleGreetings();
    var s := OnConnect(EMPTY, 0);
    SampleTwice("d\n");
    SampleTwice("");
    var d := SampleLine(ORPHANED, 'd', "");
    assert d == "d\n" && "h\nh\n" + "" == "h\nh\n";
    assert "" + "h\nh\n" == "h\nh\n" && "" + ("h\nh\n" + "d\n") == "h\nh\n" + "d\n";
  }
}
