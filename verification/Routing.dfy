/**
 What is routed is what was said.  The messages that a connection has routed are told here from the parser
 and the text it sent alone: those of its complete data lines, in order, each under the source of its
 latest handshake line, up to a line that breaks the protocol.
 */
module Routing {
  import opened Wrappers
  import opened AdapterServer
  import opened Framing
  import opened Cutting
  import opened Registry

  // ---- the meaning of a text ----

  /** The lines of a text that end in it, the first of which has begun with `begun`. */
  function CompleteLines(begun: string, text: string): seq<string>
    decreases |text|
  {
    if text == "" then []
    else if text[0] == '\n' then [begun] + CompleteLines("", text[1..])
    else CompleteLines(begun + [text[0]], text[1..])
  }

  /** What of a text comes after its last complete line. */
  function Unfinished(begun: string, text: string): string
    decreases |text|
  {
    if text == "" then begun
    else if text[0] == '\n' then Unfinished("", text[1..])
    else Unfinished(begun + [text[0]], text[1..])
  }

  /** The data messages of the lines, under the source of the latest handshake; nothing counts before one. */
  function Messages(parse: Parser, speaker: Option<SourceId>, lines: seq<string>): seq<Delivery>
    decreases |lines|
  {
    if lines == [] then []
    else
      match parse(lines[0])
      case Blank => Messages(parse, speaker, lines[1..])
      case Handshake(sourceId, _) => Messages(parse, Some(sourceId), lines[1..])
      case Bad => if speaker.None? then [] else Messages(parse, speaker, lines[1..])
      case Data(message) =>
        if speaker.None? then [] else [Delivery(speaker.value, message)] + Messages(parse, speaker, lines[1..])
  }

  /** Under which source the text after these lines is said. */
  function SpeakerAfter(parse: Parser, speaker: Option<SourceId>, lines: seq<string>): Option<SourceId>
    decreases |lines|
  {
    if lines == [] then speaker
    else SpeakerAfter(parse, if parse(lines[0]).Handshake? then Some(parse(lines[0]).sourceId) else speaker, lines[1..])
  }

  /** The handshakes of the lines, as the connection's greetings. */
  function Handshakes(parse: Parser, c: ConnId, speaker: Option<SourceId>, lines: seq<string>): seq<Binding>
    decreases |lines|
  {
    if lines == [] then []
    else
      match parse(lines[0])
      case Handshake(sourceId, _) => [Binding(sourceId, c)] + Handshakes(parse, c, Some(sourceId), lines[1..])
      case Blank => Handshakes(parse, c, speaker, lines[1..])
      case _ => if speaker.None? then [] else Handshakes(parse, c, speaker, lines[1..])
  }

  /** Some line before the first handshake is neither blank nor a handshake. */
  predicate BreaksProtocol(parse: Parser, speaker: Option<SourceId>, lines: seq<string>)
    decreases |lines|
  {
    lines != [] && speaker.None? &&
      match parse(lines[0])
      case Blank => BreaksProtocol(parse, None, lines[1..])
      case Handshake(_, _) => false
      case _ => true
  }

  // ---- texts and lines ----

  lemma {:induction false} LinesAppend(begun: string, a: string, b: string)
    ensures CompleteLines(begun, a + b) == CompleteLines(begun, a) + CompleteLines(Unfinished(begun, a), b)
    ensures Unfinished(begun, a + b) == Unfinished(Unfinished(begun, a), b)
    decreases |a|
  {
    if a == "" {
      assert a + b == b;
    } else {
      assert (a + b)[1..] == a[1..] + b;
      LinesAppend(if a[0] == '\n' then "" else begun + [a[0]], a[1..], b);
    }
  }

  /** A text without a newline is the beginning of a line. */
  lemma {:induction false} NoLine(begun: string, text: string)
    requires '\n' !in text
    ensures CompleteLines(begun, text) == [] && Unfinished(begun, text) == begun + text
    decreases |text|
  {
    if text != "" {
      NoLine(begun + [text[0]], text[1..]);
    }
  }

  lemma {:induction false} FirstLineOf(begun: string, text: string, i: nat)
    requires LineEnd(text) == Some(i)
    ensures CompleteLines(begun, text) == [begun + text[..i]] + CompleteLines("", text[i + 1..])
    ensures Unfinished(begun, text) == Unfinished("", text[i + 1..])
    decreases |text|
  {
    if text[0] == '\n' {
      assert begun + text[..0] == begun;
    } else {
      FirstLineOf(begun + [text[0]], text[1..], i - 1);
      assert text[1..][i..] == text[i + 1..];
      assert (begun + [text[0]]) + text[1..][..i - 1] == begun + text[..i];
    }
  }

  lemma {:induction false} HandshakesAppend(
    parse: Parser, c: ConnId, speaker: Option<SourceId>, a: seq<string>, b: seq<string>)
    requires !BreaksProtocol(parse, speaker, a)
    ensures Handshakes(parse, c, speaker, a + b)
         == Handshakes(parse, c, speaker, a) + Handshakes(parse, c, SpeakerAfter(parse, speaker, a), b)
    decreases |a|
  {
    if a == [] {
      assert a + b == b;
    } else {
      var next := if parse(a[0]).Handshake? then Some(parse(a[0]).sourceId) else speaker;
      assert (a + b)[0] == a[0] && (a + b)[1..] == a[1..] + b;
      HandshakesAppend(parse, c, next, a[1..], b);
    }
  }

  lemma {:induction false} MessagesAppend(parse: Parser, speaker: Option<SourceId>, a: seq<string>, b: seq<string>)
    requires !BreaksProtocol(parse, speaker, a)
    ensures Messages(parse, speaker, a + b)
         == Messages(parse, speaker, a) + Messages(parse, SpeakerAfter(parse, speaker, a), b)
    ensures SpeakerAfter(parse, speaker, a + b) == SpeakerAfter(parse, SpeakerAfter(parse, speaker, a), b)
    ensures BreaksProtocol(parse, speaker, a + b) <==> BreaksProtocol(parse, SpeakerAfter(parse, speaker, a), b)
    decreases |a|
  {
    if a == [] {
      assert a + b == b;
    } else {
      var next := if parse(a[0]).Handshake? then Some(parse(a[0]).sourceId) else speaker;
      assert (a + b)[0] == a[0] && (a + b)[1..] == a[1..] + b;
      MessagesAppend(parse, next, a[1..], b);
    }
  }

  // ---- the loop ----

  /** The source the connection has greeted under, if it has. */
  function Speaker(conn: Conn): Option<SourceId> {
    if conn.handshakeDone then conn.sourceId else None
  }

  /** From s to t the connection has routed these messages, and it speaks on as this source. */
  ghost predicate Said(s: Server, t: Server, c: ConnId, messages: seq<Delivery>, speaker: Option<SourceId>)
    requires c in s.conns && c in t.conns
  {
    t.routed == s.routed + messages && Speaker(t.conns[c]) == speaker
  }

  lemma LineIsSaid(parse: Parser, s: Server, c: ConnId, line: string)
    requires c in s.conns && (s.conns[c].handshakeDone ==> s.conns[c].sourceId.Some?)
    ensures var o, speaker := HandleLine(parse, s, c, line), Speaker(s.conns[c]);
      && Said(s, o.s, c, Messages(parse, speaker, [line]), SpeakerAfter(parse, speaker, [line]))
      && o.s.greetings == s.greetings + Handshakes(parse, c, speaker, [line])
      && (o.s.conns[c].handshakeDone ==> o.s.conns[c].sourceId.Some?)
      && (o.stopped <==> BreaksProtocol(parse, speaker, [line]))
      && (o.stopped ==> o.s.conns[c].destroyed)
  {
    assert [line][1..] == [];
  }

  lemma {:induction false} TextIsSaid(parse: Parser, s: Server, c: ConnId, text: string)
    requires c in s.conns && (s.conns[c].handshakeDone ==> s.conns[c].sourceId.Some?)
    ensures var p, speaker, lines := Process(parse, s, c, text), Speaker(s.conns[c]), CompleteLines("", text);
      && p.s.routed == s.routed + Messages(parse, speaker, lines)
      && (p.stopped <==> BreaksProtocol(parse, speaker, lines))
      && (p.stopped ==> p.s.conns[c].destroyed)
      && (!p.stopped ==> Speaker(p.s.conns[c]) == SpeakerAfter(parse, speaker, lines)
                         && p.rest == Unfinished("", text))
    decreases |text|
  {
    if LineEnd(text).None? {
      LineEndNone(text);
      NoLine("", text);
    } else {
      var i := LineEnd(text).value;
      var line, rest := text[..i], text[i + 1..];
      ProcessLine(parse, s, c, text, i);
      FirstLineOf("", text, i);
      assert "" + line == line;
      LineIsSaid(parse, s, c, line);
      LineThenLines(parse, c, Speaker(s.conns[c]), line, CompleteLines("", rest));
      var o := HandleLine(parse, s, c, line);
      if !o.stopped {
        TextIsSaid(parse, o.s, c, rest);
      }
    }
  }

  lemma {:induction false} TextGreets(parse: Parser, s: Server, c: ConnId, text: string)
    requires c in s.conns && (s.conns[c].handshakeDone ==> s.conns[c].sourceId.Some?)
    ensures Process(parse, s, c, text).s.greetings
         == s.greetings + Handshakes(parse, c, Speaker(s.conns[c]), CompleteLines("", text))
    decreases |text|
  {
    if LineEnd(text).None? {
      LineEndNone(text);
      NoLine("", text);
    } else {
      var i := LineEnd(text).value;
      ProcessLine(parse, s, c, text, i);
      var o := HandleLine(parse, s, c, text[..i]);
      LineIsSaid(parse, s, c, text[..i]);
      if !o.stopped {
        TextGreets(parse, o.s, c, text[i + 1..]);
      }
      GreetsOn(parse, s, c, text, i);
    }
  }

  /** The handshakes of a text are those of its first line and of the rest. */
  lemma GreetsOn(parse: Parser, s: Server, c: ConnId, text: string, i: nat)
    requires c in s.conns && LineEnd(text) == Some(i)
    ensures var speaker, line, rest := Speaker(s.conns[c]), text[..i], CompleteLines("", text[i + 1..]);
      var all := Handshakes(parse, c, speaker, CompleteLines("", text));
      if BreaksProtocol(parse, speaker, [line]) then all == Handshakes(parse, c, speaker, [line]) == []
      else
        var next := Handshakes(parse, c, SpeakerAfter(parse, speaker, [line]), rest);
        s.greetings + all == s.greetings + Handshakes(parse, c, speaker, [line]) + next
  {
    FirstLineOf("", text, i);
    assert "" + text[..i] == text[..i];
    LineThenLines(parse, c, Speaker(s.conns[c]), text[..i], CompleteLines("", text[i + 1..]));
  }

  lemma LineThenLines(parse: Parser, c: ConnId, speaker: Option<SourceId>, line: string, lines: seq<string>)
    ensures BreaksProtocol(parse, speaker, [line]) ==>
              BreaksProtocol(parse, speaker, [line] + lines)
              && Messages(parse, speaker, [line] + lines) == Messages(parse, speaker, [line]) == []
              && Handshakes(parse, c, speaker, [line] + lines) == Handshakes(parse, c, speaker, [line]) == []
    ensures !BreaksProtocol(parse, speaker, [line]) ==>
              var next := SpeakerAfter(parse, speaker, [line]);
              && Messages(parse, speaker, [line] + lines)
                   == Messages(parse, speaker, [line]) + Messages(parse, next, lines)
              && Handshakes(parse, c, speaker, [line] + lines)
                   == Handshakes(parse, c, speaker, [line]) + Handshakes(parse, c, next, lines)
              && SpeakerAfter(parse, speaker, [line] + lines) == SpeakerAfter(parse, next, lines)
              && (BreaksProtocol(parse, speaker, [line] + lines) <==> BreaksProtocol(parse, next, lines))
  {
    assert ([line] + lines)[0] == line && [line][1..] == [];
    assert !BreaksProtocol(parse, speaker, []) && Messages(parse, speaker, []) == [];
    if !BreaksProtocol(parse, speaker, [line]) {
      HandshakesAppend(parse, c, speaker, [line], lines);
      MessagesAppend(parse, speaker, [line], lines);
    }
  }

  /**
   A data event of an open connection routes exactly the messages of the lines that it completes, after all
   that was routed before, and greets with the handshakes among them.
   */
  lemma DataIsRouted(parse: Parser, s: Server, c: ConnId, chunk: string)
    requires Live(s, c)
    ensures OnData(parse, s, c, chunk).greetings
         == s.greetings + Handshakes(parse, c, Speaker(s.conns[c]), CompleteLines(s.conns[c].dataBuffer, chunk))
    ensures OnData(parse, s, c, chunk).routed
         == s.routed + Messages(parse, Speaker(s.conns[c]), CompleteLines(s.conns[c].dataBuffer, chunk))
  {
    var buffer := s.conns[c].dataBuffer;
    TextIsSaid(parse, s, c, buffer + chunk);
    TextGreets(parse, s, c, buffer + chunk);
    BufferIsBegun(buffer, chunk);
  }

  lemma BufferIsBegun(buffer: string, chunk: string)
    requires LineEnd(buffer) == None
    ensures CompleteLines("", buffer + chunk) == CompleteLines(buffer, chunk)
    ensures Unfinished("", buffer + chunk) == Unfinished(buffer, chunk)
  {
    LineEndNone(buffer);
    NoLine("", buffer);
    assert "" + buffer == buffer;
    LinesAppend("", buffer, chunk);
  }

  // ---- whole runs ----

  predicate Hears(s: Server, e: Event, c: ConnId) {
    e.Receive? && e.rc == c && c in s.conns && !s.conns[c].destroyed
  }

  /** All that the server has read of the connection: what came while it was open. */
  function Heard(parse: Parser, events: seq<Event>, c: ConnId): string {
    if events == [] then ""
    else
      var front, e := events[..|events| - 1], events[|events| - 1];
      Heard(parse, front, c) + (if Hears(Run(parse, front), e, c) then e.chunk else "")
  }

  function NewlyRouted(s: Server, t: Server): seq<Delivery> {
    if |s.routed| <= |t.routed| then t.routed[|s.routed|..] else []
  }

  /** All that was routed at the data events of the connection. */
  function RoutedBy(parse: Parser, events: seq<Event>, c: ConnId): seq<Delivery> {
    if events == [] then []
    else
      var front, e := events[..|events| - 1], events[|events| - 1];
      RoutedBy(parse, front, c)
        + (if e.Receive? && e.rc == c then NewlyRouted(Run(parse, front), Run(parse, events)) else [])
  }

  /** What a connection is ready to go on from, while it is open. */
  ghost predicate ReadsOn(parse: Parser, s: Server, c: ConnId, heard: string) {
    c in s.conns && !s.conns[c].destroyed ==>
      && s.conns[c].dataBuffer == Unfinished("", heard)
      && Speaker(s.conns[c]) == SpeakerAfter(parse, None, CompleteLines("", heard))
      && !BreaksProtocol(parse, None, CompleteLines("", heard))
  }

  /** A connection keeps its text and its source, whatever happens to others; and what is destroyed stays so. */
  ghost predicate LeavesAlone(s: Server, t: Server, c: ConnId) {
    c in s.conns ==>
      && c in t.conns && t.conns[c].dataBuffer == s.conns[c].dataBuffer
      && Speaker(t.conns[c]) == Speaker(s.conns[c])
      && (s.conns[c].destroyed ==> t.conns[c].destroyed)
  }

  ghost predicate LeavesOthers(s: Server, t: Server, d: ConnId) {
    && (forall c :: c != d ==> LeavesAlone(s, t, c))
    && (forall c :: c in t.conns ==> c in s.conns)
  }

  lemma LineLeavesOthers(parse: Parser, s: Server, d: ConnId, line: string)
    requires d in s.conns
    ensures LeavesOthers(s, HandleLine(parse, s, d, line).s, d)
  {
  }

  lemma OthersLeftAlone(s: Server, t: Server, u: Server, d: ConnId)
    requires LeavesOthers(s, t, d) && LeavesOthers(t, u, d)
    ensures LeavesOthers(s, u, d)
  {
    forall c | c != d ensures LeavesAlone(s, u, c) {
      assert LeavesAlone(s, t, c) && LeavesAlone(t, u, c);
    }
  }

  lemma {:induction false} TextLeavesOthers(parse: Parser, s: Server, d: ConnId, text: string)
    requires d in s.conns
    ensures LeavesOthers(s, Process(parse, s, d, text).s, d)
    decreases |text|
  {
    if LineEnd(text).Some? {
      var i := LineEnd(text).value;
      ProcessLine(parse, s, d, text, i);
      LineLeavesOthers(parse, s, d, text[..i]);
      var o := HandleLine(parse, s, d, text[..i]);
      if !o.stopped {
        TextLeavesOthers(parse, o.s, d, text[i + 1..]);
        OthersLeftAlone(s, o.s, Process(parse, o.s, d, text[i + 1..]).s, d);
      }
    }
  }

  lemma DataLeavesOthers(parse: Parser, s: Server, d: ConnId, chunk: string)
    ensures LeavesOthers(s, OnData(parse, s, d, chunk), d)
  {
    if d in s.conns && !s.conns[d].destroyed {
      var p := Process(parse, s, d, s.conns[d].dataBuffer + chunk);
      TextLeavesOthers(parse, s, d, s.conns[d].dataBuffer + chunk);
      OthersLeftAlone(s, p.s, SetBuffer(p.s, d, p.rest), d);
    }
  }

  /** Events that are not data route nothing, and no event but its own data touches what a connection reads. */
  lemma OtherEventsRouteNothing(parse: Parser, s: Server, e: Event, c: ConnId)
    requires !e.Receive?
    ensures Apply(parse, s, e).routed == s.routed && Apply(parse, s, e).greetings == s.greetings
    ensures LeavesAlone(s, Apply(parse, s, e), c)
    ensures c !in s.conns && c in Apply(parse, s, e).conns ==>
              Apply(parse, s, e).conns[c].dataBuffer == "" && Speaker(Apply(parse, s, e).conns[c]) == None
  {
  }

  lemma OwnDataReadsOn(parse: Parser, s: Server, c: ConnId, chunk: string, heard: string)
    requires Live(s, c) && ReadsOn(parse, s, c, heard)
    ensures ReadsOn(parse, OnData(parse, s, c, chunk), c, heard + chunk)
    ensures OnData(parse, s, c, chunk).routed
         == s.routed + Messages(parse, SpeakerAfter(parse, None, CompleteLines("", heard)),
                                CompleteLines(Unfinished("", heard), chunk))
    ensures Messages(parse, None, CompleteLines("", heard + chunk))
         == Messages(parse, None, CompleteLines("", heard))
            + Messages(parse, SpeakerAfter(parse, None, CompleteLines("", heard)),
                       CompleteLines(Unfinished("", heard), chunk))
  {
    var buffer := s.conns[c].dataBuffer;
    TextIsSaid(parse, s, c, buffer + chunk);
    BufferIsBegun(buffer, chunk);
    LinesAppend("", heard, chunk);
    MessagesAppend(parse, None, CompleteLines("", heard), CompleteLines(buffer, chunk));
  }

  lemma NothingHeard(parse: Parser)
    ensures CompleteLines("", "") == [] && Unfinished("", "") == ""
    ensures SpeakerAfter(parse, None, []) == None && !BreaksProtocol(parse, None, [])
  {
  }

  ghost predicate RoutesWhatIsSaid(parse: Parser, events: seq<Event>, c: ConnId) {
    && RoutedBy(parse, events, c) == Messages(parse, None, CompleteLines("", Heard(parse, events, c)))
    && ReadsOn(parse, Run(parse, events), c, Heard(parse, events, c))
    && (c !in Run(parse, events).conns ==> Heard(parse, events, c) == "")
  }

  lemma OneEventMore(parse: Parser, front: seq<Event>, e: Event, c: ConnId)
    ensures var s, t := Run(parse, front), Run(parse, front + [e]);
      && t == Apply(parse, s, e)
      && Heard(parse, front + [e], c)
           == (if Hears(s, e, c) then Heard(parse, front, c) + e.chunk else Heard(parse, front, c))
      && RoutedBy(parse, front + [e], c)
           == (if e.Receive? && e.rc == c then RoutedBy(parse, front, c) + NewlyRouted(s, t)
               else RoutedBy(parse, front, c))
  {
    assert (front + [e])[..|front|] == front;
  }

  lemma EventKeepsRoutes(parse: Parser, front: seq<Event>, e: Event, c: ConnId)
    requires RoutesWhatIsSaid(parse, front, c)
    ensures RoutesWhatIsSaid(parse, front + [e], c)
  {
    var s, heard := Run(parse, front), Heard(parse, front, c);
    OneEventMore(parse, front, e, c);
    NothingHeard(parse);
    if Hears(s, e, c) {
      OpenConnectionsAreLive(parse, front, c);
      OwnDataReadsOn(parse, s, c, e.chunk, heard);
    } else if e.Receive? {
      DataLeavesOthers(parse, s, e.rc, e.chunk);
      assert e.rc == c ==> Run(parse, front + [e]) == s;
      assert e.rc != c ==> LeavesAlone(s, Run(parse, front + [e]), c);
    } else {
      OtherEventsRouteNothing(parse, s, e, c);
    }
  }

  /**
   In every run, with any number of connections that greet, break off and replace each other: what was
   routed at the data events of a connection is the list of messages of the text that was read of it,
   whole and unchanged, in order, each under the source it had greeted under.
   */
  lemma {:induction false} MessagesAreRoutedAsSaid(parse: Parser, events: seq<Event>, c: ConnId)
    ensures RoutesWhatIsSaid(parse, events, c)
  {
    if events == [] {
      NothingHeard(parse);
    } else {
      var n := |events| - 1;
      MessagesAreRoutedAsSaid(parse, events[..n], c);
      EventKeepsRoutes(parse, events[..n], events[n], c);
      assert events == events[..n] + [events[n]];
    }
  }

  /**
   One event more, told from the text alone: data of an open connection routes the messages and greets
   with the handshakes of the lines it completes, from where the text read of it so far had come to;
   nothing else is ever routed, and nobody else greets.
   */
  lemma OneEventRoutes(parse: Parser, events: seq<Event>, e: Event)
    ensures var s, t := Run(parse, events), Run(parse, events + [e]);
      if e.Receive? && e.rc in s.conns && !s.conns[e.rc].destroyed then
        var heard := Heard(parse, events, e.rc);
        var speaker := SpeakerAfter(parse, None, CompleteLines("", heard));
        var lines := CompleteLines(Unfinished("", heard), e.chunk);
        && t.routed == s.routed + Messages(parse, speaker, lines)
        && t.greetings == s.greetings + Handshakes(parse, e.rc, speaker, lines)
      else t.routed == s.routed && t.greetings == s.greetings
  {
    var s := Run(parse, events);
    OneEventMore(parse, events, e, 0);
    if !e.Receive? {
      OtherEventsRouteNothing(parse, s, e, 0);
    } else if e.rc in s.conns && !s.conns[e.rc].destroyed {
      OpenConnectionsAreLive(parse, events, e.rc);
      MessagesAreRoutedAsSaid(parse, events, e.rc);
      DataIsRouted(parse, s, e.rc, e.chunk);
    }
  }
}
