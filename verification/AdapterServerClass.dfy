/** The adapter server as the object it is: fields updated by its event handlers. */
module AdapterServerClass {
  import opened Wrappers
  import Spec = AdapterServer
  import Framing

  type Conn = Spec.Conn
  type ConnId = Spec.ConnId
  type SourceId = Spec.SourceId
  type Binding = Spec.Binding

  /** What the rest of the buffer comes to. */
  ghost function Drained(parse: Spec.Parser, s: Spec.Server, c: ConnId): Spec.Server
    requires c in s.conns
  {
    var p := Spec.Process(parse, s, c, s.conns[c].dataBuffer);
    Spec.SetBuffer(p.s, c, p.rest)
  }

  lemma DrainedIsData(parse: Spec.Parser, s: Spec.Server, c: ConnId, chunk: string)
    requires c in s.conns && !s.conns[c].destroyed
    ensures Spec.OnData(parse, s, c, chunk)
              == Drained(parse, Spec.SetBuffer(s, c, s.conns[c].dataBuffer + chunk), c)
  {
    var text := s.conns[c].dataBuffer + chunk;
    Framing.BufferIsIrrelevant(parse, s, c, text, text);
  }

  /** One turn of the loop takes the first line off the buffer, then handles it. */
  lemma DrainedByLine(parse: Spec.Parser, s: Spec.Server, c: ConnId, i: nat)
    requires c in s.conns && Spec.LineEnd(s.conns[c].dataBuffer) == Some(i)
    ensures var text := s.conns[c].dataBuffer;
      var o := Spec.HandleLine(parse, Spec.SetBuffer(s, c, text[i + 1..]), c, text[..i]);
      && (o.stopped ==> Drained(parse, s, c) == o.s)
      && (!o.stopped ==> Drained(parse, s, c) == Drained(parse, o.s, c))
  {
    var text := s.conns[c].dataBuffer;
    var rest := text[i + 1..];
    Framing.ProcessLine(parse, s, c, text, i);
    Framing.LineIgnoresBuffer(parse, s, c, text[..i], rest);
    var o := Spec.HandleLine(parse, s, c, text[..i]);
    if !o.stopped {
      Framing.BufferIsIrrelevant(parse, o.s, c, rest, rest);
    }
  }

  /** Unbinding removes the first entry of the connection, or nothing. */
  lemma {:induction false} UnbindAt(active: seq<Binding>, c: ConnId, i: nat)
    requires i <= |active| && (forall j :: 0 <= j < i ==> active[j].conn != c)
    requires i < |active| ==> active[i].conn == c
    ensures Spec.Unbind(active, c) == if i == |active| then active else active[..i] + active[i + 1..]
  {
    if i > 0 {
      UnbindAt(active[1..], c, i - 1);
      assert active == [active[0]] + active[1..];
    }
  }

  class AdapterServer {
    var conns: map<ConnId, Conn>
    var pending: set<ConnId>
    var connections: seq<Binding>
    ghost var routed: seq<Spec.Delivery>
    ghost var greetings: seq<Binding>
    ghost var gone: set<ConnId>

    ghost function View(): Spec.Server
      reads this
    {
      Spec.Server(conns, pending, connections, routed, greetings, gone)
    }

    constructor ()
      ensures View() == Spec.EMPTY
    {
      conns, pending, connections := map[], {}, [];
      routed, greetings, gone := [], [], {};
    }

    method HandleNewConnection(c: ConnId)
      requires c !in conns
      modifies this
      ensures View() == Spec.OnConnect(old(View()), c)
    {
      conns := conns[c := Spec.Conn(None, "", false, true, false, "")];
      pending := pending + {c};
    }

    method HandleData(parse: Spec.Parser, c: ConnId, chunk: string)
      requires c in conns && !conns[c].destroyed
      modifies this
      ensures View() == Spec.OnData(parse, old(View()), c, chunk)
    {
      DrainedIsData(parse, View(), c, chunk);
      conns := conns[c := conns[c].(dataBuffer := conns[c].dataBuffer + chunk)];
      ProcessBuffer(parse, c);
    }

    method ProcessBuffer(parse: Spec.Parser, c: ConnId)
      requires c in conns
      modifies this
      ensures View() == Drained(parse, old(View()), c)
    {
      while true
        invariant c in conns
        invariant Drained(parse, View(), c) == Drained(parse, old(View()), c)
        decreases |conns[c].dataBuffer|
      {
        var newlineIndex := IndexOfNewline(conns[c].dataBuffer);
        if newlineIndex == None {
          break;
        }
        var i := newlineIndex.value;
        ghost var s := View();
        DrainedByLine(parse, s, c, i);
        var line := conns[c].dataBuffer[..i];
        conns := conns[c := conns[c].(dataBuffer := conns[c].dataBuffer[i + 1..])];
        ghost var t := View();
        LineKeepsBuffer(parse, t, c, line);

        match parse(line)
        case Blank =>
        case Bad =>
          if !conns[c].handshakeDone {
            conns := Spec.Destroy(conns, c);
            return;
          }
        case Handshake(sourceId, protocol) =>
          HandleHandshake(c, sourceId, protocol);
        case Data(message) =>
          if conns[c].handshakeDone {
            RouteMessage(c, message);
          } else {
            conns := Spec.Destroy(conns, c);
            return;
          }
      }
    }

    method HandleHandshake(c: ConnId, sourceId: SourceId, protocol: string)
      requires c in conns
      modifies this
      ensures View() == Spec.HandleHandshake(old(View()), c, sourceId, protocol)
    {
      var conn := conns[c];
      conn := conn.(timer := false);
      conn := conn.(handshakeDone := true, protocol := protocol);
      conn := conn.(sourceId := Some(sourceId));
      conns := conns[c := conn];
      pending := pending - {c};
      var previous := Spec.Lookup(connections, sourceId);
      if previous.Some? {
        conns := Spec.Drop(conns, previous.value);
      }
      connections := Spec.Bind(connections, sourceId, c);
      greetings := greetings + [Spec.Binding(sourceId, c)];
    }

    method RouteMessage(c: ConnId, message: string)
      requires c in conns
      modifies this`routed
      ensures View() == Spec.RouteMessage(old(View()), c, message)
    {
      if conns[c].sourceId == None {
        return;
      }
      routed := routed + [Spec.Delivery(conns[c].sourceId.value, message)];
    }

    method CleanupConnection(c: ConnId)
      requires c in conns
      modifies this
      ensures View() == Spec.CleanupConnection(old(View()), c)
    {
      conns := Spec.Drop(conns, c);
      gone := gone + {c};
      if c in pending {
        pending := pending - {c};
        return;
      }
      var i := 0;
      while i < |connections|
        invariant 0 <= i <= |connections|
        invariant forall j :: 0 <= j < i ==> connections[j].conn != c
      {
        if connections[i].conn == c {
          UnbindAt(connections, c, i);
          connections := connections[..i] + connections[i + 1..];
          return;
        }
        i := i + 1;
      }
      UnbindAt(connections, c, i);
    }

    method DropPending()
      modifies this`conns
      ensures DroppedSoFar(old(conns), conns, pending)
    {
      var waiting := pending;
      while waiting != {}
        invariant waiting <= pending
        invariant DroppedSoFar(old(conns), conns, pending - waiting)
        decreases |waiting|
      {
        var c :| c in waiting;
        conns := Spec.Drop(conns, c);
        waiting := waiting - {c};
      }
    }

    method DropActive()
      modifies this`conns
      ensures DroppedSoFar(old(conns), conns, Spec.Bound(connections))
    {
      var done := 0;
      while done < |connections|
        invariant 0 <= done <= |connections|
        invariant DroppedSoFar(old(conns), conns, Spec.Bound(connections[..done]))
      {
        assert connections[..done + 1] == connections[..done] + [connections[done]];
        assert Spec.Bound(connections[..done + 1]) == Spec.Bound(connections[..done]) + {connections[done].conn};
        conns := Spec.Drop(conns, connections[done].conn);
        done := done + 1;
      }
      assert connections[..done] == connections;
    }

    method Stop()
      modifies this
      ensures View() == Spec.OnStop(old(View()))
    {
      gone := gone + (pending + Spec.Bound(connections));
      DropPending();
      pending := {};
      DropActive();
      connections := [];
      assert conns == Spec.OnStop(old(View())).conns;
    }
  }

  ghost predicate DroppedSoFar(before: map<ConnId, Conn>, after: map<ConnId, Conn>, dropped: set<ConnId>) {
    && before.Keys == after.Keys
    && forall c :: c in before ==>
         after[c] == if c in dropped then before[c].(timer := false, destroyed := true) else before[c]
  }

  lemma LineKeepsBuffer(parse: Spec.Parser, s: Spec.Server, c: ConnId, line: string)
    requires c in s.conns
    ensures Spec.HandleLine(parse, s, c, line).s.conns[c].dataBuffer == s.conns[c].dataBuffer
  {
  }

  method IndexOfNewline(text: string) returns (index: Option<nat>)
    ensures index == Spec.LineEnd(text)
    ensures index.Some? ==> text[index.value] == '\n' && '\n' !in text[..index.value]
    ensures index == None ==> '\n' !in text
  {
    var i := 0;
    while i < |text|
      invariant 0 <= i <= |text| && '\n' !in text[..i]
      invariant Spec.LineEnd(text) == match Spec.LineEnd(text[i..]) case None => None case Some(k) => Some(i + k)
    {
      if text[i] == '\n' {
        return Some(i);
      }
      i := i + 1;
    }
    assert text[..i] == text;
    return None;
  }
}
