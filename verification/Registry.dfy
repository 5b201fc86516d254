/**
 The registry over whole runs.  However often connections greet, a source is registered to nobody but
 its latest greeter, and at most one open connection speaks for it.  When every connection greets at
 most once, the registry is exact: it holds the latest greeter of each source that is still there.
 */
module Registry {
  import opened Wrappers
  import opened AdapterServer
  import opened Framing
  import opened Cutting

  /** The connection that greeted last under a source. */
  function LastGreeter(greetings: seq<Binding>, sourceId: SourceId): Option<ConnId> {
    if greetings == [] then None
    else
      var last := greetings[|greetings| - 1];
      if last.sourceId == sourceId then Some(last.conn) else LastGreeter(greetings[..|greetings| - 1], sourceId)
  }

  // ---- what holds in every run ----

  /** A connection is past its handshake exactly when it has greeted, and it carries a source it greeted under. */
  ghost predicate GreetersKnown(s: Server) {
    && (forall b :: b in s.greetings ==> b.conn in s.conns && s.conns[b.conn].handshakeDone)
    && (forall c :: c in s.conns && s.conns[c].handshakeDone ==>
          s.conns[c].sourceId.Some? && Binding(s.conns[c].sourceId.value, c) in s.greetings)
  }

  /** What has been let go is destroyed for good, and only a connection that waits has a timer. */
  ghost predicate GoneStayGone(s: Server) {
    && (forall c :: c in s.gone ==> c in s.conns && s.conns[c].destroyed && !s.conns[c].timer)
    && (forall c :: c in s.conns && s.conns[c].timer ==> !s.conns[c].handshakeDone)
  }

  /** Waiting: known, not yet past the handshake, not let go. */
  ghost predicate PendingIsExact(s: Server) {
    forall c :: c in s.pending <==> c in s.conns && !s.conns[c].handshakeDone && c !in s.gone
  }

  predicate DistinctKeys(active: seq<Binding>) {
    forall i, j :: 0 <= i < j < |active| ==> active[i].sourceId != active[j].sourceId
  }

  /** A source is registered to nobody but the connection that greeted last under it. */
  ghost predicate NamesLastGreeters(s: Server) {
    forall sourceId: SourceId, c: ConnId ::
      Lookup(s.active, sourceId) == Some(c) ==> LastGreeter(s.greetings, sourceId) == Some(c)
  }

  /** And it is registered to that one, unless that one is gone. */
  ghost predicate KeepsThePresent(s: Server) {
    forall sourceId: SourceId, c: ConnId ::
      LastGreeter(s.greetings, sourceId) == Some(c) && c !in s.gone ==> Lookup(s.active, sourceId) == Some(c)
  }

  /** The connection's data messages are routed. */
  predicate Speaks(conn: Conn) {
    conn.handshakeDone && !conn.destroyed
  }

  ghost predicate HoldsItsSource(s: Server, c: ConnId) {
    c in s.conns && s.conns[c].handshakeDone ==>
      s.conns[c].sourceId.Some? && Lookup(s.active, s.conns[c].sourceId.value) == Some(c)
  }

  /** A connection that may still deliver is the one registered for its source. */
  ghost predicate OnlyHoldersDeliver(s: Server) {
    forall c :: c in s.conns && Speaks(s.conns[c]) ==> HoldsItsSource(s, c)
  }

  ghost predicate Safe(s: Server) {
    && GreetersKnown(s) && GoneStayGone(s) && PendingIsExact(s)
    && DistinctKeys(s.active) && NamesLastGreeters(s) && KeepsThePresent(s) && OnlyHoldersDeliver(s)
  }

  // ---- the registry as a map ----

  lemma {:induction false} LookupIsMember(active: seq<Binding>, sourceId: SourceId, c: ConnId)
    requires DistinctKeys(active)
    ensures Lookup(active, sourceId) == Some(c) <==> Binding(sourceId, c) in active
  {
    if active != [] {
      LookupIsMember(active[1..], sourceId, c);
      assert active == [active[0]] + active[1..];
      if active[0].sourceId == sourceId {
        assert forall b :: b in active[1..] ==> b.sourceId != sourceId;
      }
    }
  }

  lemma {:induction false} BindKeys(active: seq<Binding>, sourceId: SourceId, c: ConnId)
    requires DistinctKeys(active)
    ensures DistinctKeys(Bind(active, sourceId, c))
    ensures forall b :: b in Bind(active, sourceId, c) <==>
              b == Binding(sourceId, c) || (b in active && b.sourceId != sourceId)
  {
    if active != [] {
      BindKeys(active[1..], sourceId, c);
      assert active == [active[0]] + active[1..];
      assert forall b :: b in active[1..] ==> b.sourceId != active[0].sourceId;
    }
  }

  /** How many sources are registered to a connection. */
  function Bindings(active: seq<Binding>, c: ConnId): nat {
    if active == [] then 0 else (if active[0].conn == c then 1 else 0) + Bindings(active[1..], c)
  }

  lemma {:induction false} UnbindDropsOne(active: seq<Binding>, c: ConnId)
    ensures Bindings(Unbind(active, c), c) == if Bindings(active, c) == 0 then 0 else Bindings(active, c) - 1
  {
    if active != [] && active[0].conn != c {
      UnbindDropsOne(active[1..], c);
      assert Unbind(active, c)[1..] == Unbind(active[1..], c);
    }
  }

  lemma {:induction false} UnbindKeeps(active: seq<Binding>, c: ConnId, b: Binding)
    ensures b in Unbind(active, c) ==> b in active
    ensures b in active && b.conn != c ==> b in Unbind(active, c)
  {
    if active != [] {
      assert active == [active[0]] + active[1..];
      UnbindKeeps(active[1..], c, b);
    }
  }

  lemma {:induction false} UnbindKeepsKeys(active: seq<Binding>, c: ConnId)
    requires DistinctKeys(active)
    ensures DistinctKeys(Unbind(active, c))
  {
    if active != [] {
      UnbindKeepsKeys(active[1..], c);
      if active[0].conn != c {
        var rest := Unbind(active[1..], c);
        forall j | 0 <= j < |rest| ensures rest[j].sourceId != active[0].sourceId {
          UnbindKeeps(active[1..], c, rest[j]);
          var i :| 0 <= i < |active[1..]| && active[1..][i] == rest[j];
          assert active[i + 1] == rest[j];
        }
      }
    }
  }

  lemma {:induction false} NoBindings(active: seq<Binding>, c: ConnId)
    ensures Bindings(active, c) == 0 <==> c !in Bound(active)
  {
    if active != [] {
      NoBindings(active[1..], c);
      assert active == [active[0]] + active[1..];
      assert Bound(active) == {active[0].conn} + Bound(active[1..]);
    }
  }

  /** Cleaning up removes every trace of a connection exactly when it held at most one source. */
  lemma CleanupIsCompleteExactlyWhen(s: Server, c: ConnId)
    requires c in s.conns && c !in s.pending
    ensures c !in Bound(CleanupConnection(s, c).active) <==> Bindings(s.active, c) <= 1
  {
    UnbindDropsOne(s.active, c);
    NoBindings(Unbind(s.active, c), c);
  }

  lemma {:induction false} OneSourceOneBinding(active: seq<Binding>, c: ConnId, sourceId: SourceId)
    requires DistinctKeys(active)
    requires forall b :: b in active && b.conn == c ==> b.sourceId == sourceId
    ensures Bindings(active, c) <= 1
  {
    if active != [] {
      var rest := active[1..];
      assert active == [active[0]] + rest;
      OneSourceOneBinding(rest, c, sourceId);
      if active[0].conn == c {
        assert forall b :: b in rest ==> b.sourceId != sourceId;
        NoBindings(rest, c);
      }
    }
  }

  lemma {:induction false} LastGreeterGreeted(greetings: seq<Binding>, sourceId: SourceId)
    ensures var last := LastGreeter(greetings, sourceId);
      last.Some? ==> Binding(sourceId, last.value) in greetings
  {
    if greetings != [] {
      LastGreeterGreeted(greetings[..|greetings| - 1], sourceId);
    }
  }

  lemma RegisteredHasGreeted(s: Server, sourceId: SourceId, c: ConnId)
    requires Safe(s) && Lookup(s.active, sourceId) == Some(c)
    ensures c in s.conns && s.conns[c].handshakeDone && Binding(sourceId, c) in s.greetings
  {
    LastGreeterGreeted(s.greetings, sourceId);
  }

  // ---- every step keeps it ----

  lemma GreetingKeepsRegistry(s: Server, t: Server, c: ConnId, sourceId: SourceId)
    requires NamesLastGreeters(s) && KeepsThePresent(s) && c !in s.gone
    requires t.active == Bind(s.active, sourceId, c) && t.gone == s.gone
    requires t.greetings == s.greetings + [Binding(sourceId, c)]
    ensures NamesLastGreeters(t) && KeepsThePresent(t)
  {
    assert t.greetings[..|s.greetings|] == s.greetings;
    forall other: SourceId, d: ConnId
      ensures Lookup(t.active, other) == Some(d) ==> LastGreeter(t.greetings, other) == Some(d)
      ensures LastGreeter(t.greetings, other) == Some(d) && d !in t.gone ==> Lookup(t.active, other) == Some(d)
    {
      BindLookup(s.active, sourceId, c, other);
    }
  }

  lemma GreetingKeepsHolders(s: Server, c: ConnId, sourceId: SourceId, protocol: string)
    requires OnlyHoldersDeliver(s) && c in s.conns
    ensures var t := HandleHandshake(s, c, sourceId, protocol);
      OnlyHoldersDeliver(t) && HoldsItsSource(t, c)
  {
    var t := HandleHandshake(s, c, sourceId, protocol);
    BindLookup(s.active, sourceId, c, sourceId);
    forall d | d in t.conns && Speaks(t.conns[d]) ensures HoldsItsSource(t, d) {
      if d != c {
        assert HoldsItsSource(s, d);
        BindLookup(s.active, sourceId, c, t.conns[d].sourceId.value);
      }
    }
  }

  lemma GreetingKeepsFacts(s: Server, c: ConnId, sourceId: SourceId, protocol: string)
    requires GreetersKnown(s) && GoneStayGone(s) && PendingIsExact(s) && c in s.conns && c !in s.gone
    ensures var t := HandleHandshake(s, c, sourceId, protocol);
      GreetersKnown(t) && GoneStayGone(t) && PendingIsExact(t)
  {
  }

  lemma GreetingKeepsSafe(s: Server, c: ConnId, sourceId: SourceId, protocol: string)
    requires Safe(s) && c in s.conns && c !in s.gone
    ensures var t := HandleHandshake(s, c, sourceId, protocol);
      Safe(t) && HoldsItsSource(t, c)
  {
    GreetingKeepsRegistry(s, HandleHandshake(s, c, sourceId, protocol), c, sourceId);
    BindKeys(s.active, sourceId, c);
    GreetingKeepsHolders(s, c, sourceId, protocol);
    GreetingKeepsFacts(s, c, sourceId, protocol);
  }

  /** From s to t, what was routed went out under sources that are registered to the connection. */
  ghost predicate RoutesAsHolder(s: Server, t: Server, c: ConnId) {
    && s.routed <= t.routed && s.greetings <= t.greetings
    && (forall i :: |s.routed| <= i < |t.routed| ==> Lookup(t.active, t.routed[i].sourceId) == Some(c))
    && (forall sourceId: SourceId :: Lookup(s.active, sourceId) == Some(c) ==> Lookup(t.active, sourceId) == Some(c))
  }

  /** The connection whose text is read is not gone, and holds the source it carries even when destroyed. */
  ghost predicate Reading(s: Server, c: ConnId) {
    c in s.conns && c !in s.gone && HoldsItsSource(s, c)
  }

  lemma LineKeepsSafe(parse: Parser, s: Server, c: ConnId, line: string)
    requires Safe(s) && Reading(s, c)
    ensures var o := HandleLine(parse, s, c, line);
      Safe(o.s) && Reading(o.s, c) && RoutesAsHolder(s, o.s, c)
  {
    match parse(line)
    case Handshake(sourceId, protocol) =>
      GreetingKeepsSafe(s, c, sourceId, protocol);
      forall other: SourceId | Lookup(s.active, other) == Some(c)
        ensures Lookup(HandleHandshake(s, c, sourceId, protocol).active, other) == Some(c)
      {
        BindLookup(s.active, sourceId, c, other);
      }
    case _ =>
  }

  lemma RoutesOn(s: Server, t: Server, u: Server, c: ConnId)
    requires RoutesAsHolder(s, t, c) && RoutesAsHolder(t, u, c)
    ensures RoutesAsHolder(s, u, c)
  {
    forall i | |s.routed| <= i < |u.routed| ensures Lookup(u.active, u.routed[i].sourceId) == Some(c) {
      if i < |t.routed| {
        assert u.routed[i] == t.routed[i];
      }
    }
  }

  lemma {:induction false} TextKeepsSafe(parse: Parser, s: Server, c: ConnId, text: string)
    requires Safe(s) && Reading(s, c)
    ensures var t := Process(parse, s, c, text).s;
      Safe(t) && Reading(t, c) && RoutesAsHolder(s, t, c)
    decreases |text|
  {
    if LineEnd(text).Some? {
      var i := LineEnd(text).value;
      ProcessLine(parse, s, c, text, i);
      LineKeepsSafe(parse, s, c, text[..i]);
      var o := HandleLine(parse, s, c, text[..i]);
      if !o.stopped {
        TextKeepsSafe(parse, o.s, c, text[i + 1..]);
        RoutesOn(s, o.s, Process(parse, o.s, c, text[i + 1..]).s, c);
      }
    }
  }

  lemma OpenIsReading(s: Server, c: ConnId)
    requires Safe(s) && c in s.conns && !s.conns[c].destroyed
    ensures Reading(s, c)
  {
    if s.conns[c].handshakeDone {
      assert Speaks(s.conns[c]);
    }
  }

  lemma DataKeepsSafe(parse: Parser, s: Server, c: ConnId, chunk: string)
    requires Safe(s)
    ensures Safe(OnData(parse, s, c, chunk)) && RoutesAsHolder(s, OnData(parse, s, c, chunk), c)
  {
    if c in s.conns && !s.conns[c].destroyed {
      var p := Process(parse, s, c, s.conns[c].dataBuffer + chunk);
      OpenIsReading(s, c);
      TextKeepsSafe(parse, s, c, s.conns[c].dataBuffer + chunk);
      BufferKeepsSafe(p.s, c, p.rest);
    }
  }

  lemma BufferKeepsSafe(s: Server, c: ConnId, buffer: string)
    requires Safe(s) && c in s.conns
    ensures Safe(SetBuffer(s, c, buffer))
  {
    var t := SetBuffer(s, c, buffer);
    forall d | d in t.conns && Speaks(t.conns[d]) ensures HoldsItsSource(t, d) {
      assert HoldsItsSource(s, d);
    }
  }

  lemma CleanupKeepsRegistry(s: Server, c: ConnId)
    requires Safe(s) && c in s.conns
    ensures var t := CleanupConnection(s, c);
      DistinctKeys(t.active) && NamesLastGreeters(t) && KeepsThePresent(t) && OnlyHoldersDeliver(t)
  {
    var t := CleanupConnection(s, c);
    UnbindKeepsKeys(s.active, c);
    forall sourceId: SourceId, d: ConnId
      ensures Lookup(t.active, sourceId) == Some(d) ==> Lookup(s.active, sourceId) == Some(d)
      ensures Lookup(s.active, sourceId) == Some(d) && d != c ==> Lookup(t.active, sourceId) == Some(d)
    {
      UnbindKeeps(s.active, c, Binding(sourceId, d));
      LookupIsMember(s.active, sourceId, d);
      LookupIsMember(t.active, sourceId, d);
    }
    forall d | d in t.conns && Speaks(t.conns[d]) ensures HoldsItsSource(t, d) {
      assert HoldsItsSource(s, d);
    }
  }

  lemma CleanupKeepsSafe(s: Server, c: ConnId)
    requires Safe(s) && c in s.conns
    ensures Safe(CleanupConnection(s, c))
  {
    CleanupKeepsRegistry(s, c);
  }

  lemma StopKeepsSafe(s: Server)
    requires Safe(s)
    ensures Safe(OnStop(s)) && forall c :: c in s.conns ==> OnStop(s).conns[c].destroyed
  {
    var t := OnStop(s);
    forall sourceId: SourceId, c: ConnId | LastGreeter(t.greetings, sourceId) == Some(c) ensures c in t.gone {
      LookupIsMember(s.active, sourceId, c);
    }
    forall c | c in s.conns ensures t.conns[c].destroyed {
      if Speaks(s.conns[c]) {
        assert HoldsItsSource(s, c);
        LookupIsMember(s.active, s.conns[c].sourceId.value, c);
      }
    }
    forall c | c in Bound(s.active) ensures c in s.conns && s.conns[c].handshakeDone {
      var b :| b in s.active && b.conn == c;
      LookupIsMember(s.active, b.sourceId, c);
      RegisteredHasGreeted(s, b.sourceId, c);
    }
  }

  lemma ConnectKeepsSafe(s: Server, c: ConnId)
    requires Safe(s) && c !in s.conns
    ensures Safe(OnConnect(s, c))
  {
    var t := OnConnect(s, c);
    forall d | d in t.conns && Speaks(t.conns[d]) ensures HoldsItsSource(t, d) {
      assert HoldsItsSource(s, d);
    }
  }

  lemma TimeoutKeepsSafe(s: Server, c: ConnId)
    requires Safe(s) && c in s.conns
    ensures Safe(OnTimeout(s, c))
  {
    var t := OnTimeout(s, c);
    forall d | d in t.conns && Speaks(t.conns[d]) ensures HoldsItsSource(t, d) {
      assert HoldsItsSource(s, d);
    }
  }

  lemma StepKeepsSafe(parse: Parser, s: Server, e: Event)
    requires Safe(s)
    ensures Safe(Apply(parse, s, e))
  {
    match e
    case Connect(c) => if c !in s.conns { ConnectKeepsSafe(s, c); }
    case Receive(c, chunk) => DataKeepsSafe(parse, s, c, chunk);
    case Closed(c) => if c in s.conns { CleanupKeepsSafe(s, c); }
    case Timeout(c) => if c in s.conns && s.conns[c].timer { TimeoutKeepsSafe(s, c); }
    case Stop => StopKeepsSafe(s);
  }

  /** In every run, however often connections greet. */
  lemma {:induction false} RegistryIsSafe(parse: Parser, events: seq<Event>)
    ensures Safe(Run(parse, events))
  {
    if events != [] {
      RegistryIsSafe(parse, events[..|events| - 1]);
      StepKeepsSafe(parse, Run(parse, events[..|events| - 1]), events[|events| - 1]);
    }
  }

  // ---- theorems about every run ----

  /** Two connections whose data messages are routed under the same source. */
  predicate SpeakAlike(s: Server, c: ConnId, d: ConnId) {
    && c in s.conns && d in s.conns && Speaks(s.conns[c]) && Speaks(s.conns[d])
    && s.conns[c].sourceId == s.conns[d].sourceId
  }

  /** Waiting and registered connections are apart, and one open connection at most speaks for a source. */
  lemma OneVoicePerSource(parse: Parser, events: seq<Event>, c: ConnId, d: ConnId)
    ensures var s := Run(parse, events);
      && s.pending !! Bound(s.active) && DistinctKeys(s.active)
      && (SpeakAlike(s, c, d) ==> c == d)
  {
    RegistryIsSafe(parse, events);
    var s := Run(parse, events);
    forall b | b in s.active ensures b.conn !in s.pending {
      LookupIsMember(s.active, b.sourceId, b.conn);
      RegisteredHasGreeted(s, b.sourceId, b.conn);
    }
    assert c in s.conns && Speaks(s.conns[c]) ==> HoldsItsSource(s, c);
    assert d in s.conns && Speaks(s.conns[d]) ==> HoldsItsSource(s, d);
  }

  /** What a data event routes, it routes under sources that are registered to its connection. */
  lemma DeliveriesAreTheHolders(parse: Parser, events: seq<Event>, c: ConnId, chunk: string)
    ensures var s := Run(parse, events);
      var t := OnData(parse, s, c, chunk);
      && s.routed <= t.routed
      && forall i :: |s.routed| <= i < |t.routed| ==> Lookup(t.active, t.routed[i].sourceId) == Some(c)
  {
    RegistryIsSafe(parse, events);
    DataKeepsSafe(parse, Run(parse, events), c, chunk);
  }

  /** Stopping leaves no connection open. */
  lemma StopLeavesNothingOpen(parse: Parser, events: seq<Event>, c: ConnId)
    ensures var s := Run(parse, events);
      c in s.conns ==> OnStop(s).conns[c].destroyed
  {
    RegistryIsSafe(parse, events);
    StopKeepsSafe(Run(parse, events));
  }

  lemma {:induction false} UnbindNothing(active: seq<Binding>, c: ConnId)
    requires c !in Bound(active)
    ensures Unbind(active, c) == active
  {
    if active != [] {
      assert active[0] in active && active == [active[0]] + active[1..];
      assert forall b :: b in active[1..] ==> b in active;
      UnbindNothing(active[1..], c);
    }
  }

  /**
   In any state, an error or close event of one connection keeps the others: every binding of another
   connection and every other waiting one.  If the connection holds nothing any more, because it was
   replaced, the registry does not change at all.
   */
  lemma StaleCloseKeepsReplacement(s: Server, c: ConnId, b: Binding)
    requires c in s.conns
    ensures var t := CleanupConnection(s, c);
      && (b in s.active && b.conn != c ==> b in t.active)
      && (b in t.active ==> b in s.active)
      && t.pending == s.pending - {c}
      && (c !in Bound(s.active) ==> t.active == s.active)
  {
    UnbindKeeps(s.active, c, b);
    if c !in Bound(s.active) {
      UnbindNothing(s.active, c);
    }
  }

  // ---- when no connection greets twice ----

  /** Each connection has greeted at most once so far. */
  ghost predicate SingleGreetings(greetings: seq<Binding>) {
    forall i, j :: 0 <= i < j < |greetings| ==> greetings[i].conn != greetings[j].conn
  }

  /** Every greeter carries the source it greeted under, and nothing is registered to one that is gone. */
  ghost predicate Exact(s: Server) {
    && (forall b :: b in s.greetings ==> b.conn in s.conns && s.conns[b.conn].sourceId == Some(b.sourceId))
    && (forall b :: b in s.active ==> b.conn !in s.gone)
  }

  /** A source is registered to the connection that greeted last under it, unless that one is gone. */
  ghost predicate RegistryIsCurrent(s: Server) {
    forall sourceId: SourceId, c: ConnId ::
      Lookup(s.active, sourceId) == Some(c) <==> LastGreeter(s.greetings, sourceId) == Some(c) && c !in s.gone
  }

  ghost predicate Inv(s: Server) {
    Safe(s) && Exact(s)
  }

  lemma GreetsTwice(s: Server, c: ConnId, sourceId: SourceId)
    requires GreetersKnown(s) && c in s.conns && s.conns[c].handshakeDone
    ensures !SingleGreetings(s.greetings + [Binding(sourceId, c)])
  {
    var i :| 0 <= i < |s.greetings| && s.greetings[i] == Binding(s.conns[c].sourceId.value, c);
    var greetings := s.greetings + [Binding(sourceId, c)];
    assert greetings[i].conn == greetings[|s.greetings|].conn;
  }

  lemma GreetingKeepsExact(s: Server, c: ConnId, sourceId: SourceId, protocol: string)
    requires Inv(s) && c in s.conns && c !in s.gone && !s.conns[c].handshakeDone
    ensures Exact(HandleHandshake(s, c, sourceId, protocol))
  {
    var t := HandleHandshake(s, c, sourceId, protocol);
    BindKeys(s.active, sourceId, c);
    forall b | b in t.greetings ensures b.conn in t.conns && t.conns[b.conn].sourceId == Some(b.sourceId) {
      assert b in s.greetings ==> b.conn in s.conns && s.conns[b.conn].handshakeDone;
    }
  }

  lemma LineKeepsExact(parse: Parser, s: Server, c: ConnId, line: string)
    requires Inv(s) && Reading(s, c) && SingleGreetings(HandleLine(parse, s, c, line).s.greetings)
    ensures Exact(HandleLine(parse, s, c, line).s)
  {
    match parse(line)
    case Handshake(sourceId, protocol) =>
      if s.conns[c].handshakeDone {
        GreetsTwice(s, c, sourceId);
      } else {
        GreetingKeepsExact(s, c, sourceId, protocol);
      }
    case _ =>
  }

  lemma {:induction false} TextKeepsExact(parse: Parser, s: Server, c: ConnId, text: string)
    requires Inv(s) && Reading(s, c) && SingleGreetings(Process(parse, s, c, text).s.greetings)
    ensures Exact(Process(parse, s, c, text).s)
    decreases |text|
  {
    if LineEnd(text).Some? {
      var i := LineEnd(text).value;
      ProcessLine(parse, s, c, text, i);
      LineKeepsSafe(parse, s, c, text[..i]);
      var o := HandleLine(parse, s, c, text[..i]);
      if !o.stopped {
        TextKeepsSafe(parse, o.s, c, text[i + 1..]);
        LineKeepsExact(parse, s, c, text[..i]);
        TextKeepsExact(parse, o.s, c, text[i + 1..]);
      } else {
        LineKeepsExact(parse, s, c, text[..i]);
      }
    }
  }

  /** Hence no connection is registered twice, and cleaning it up leaves nothing of it. */
  lemma CleanupIsComplete(s: Server, c: ConnId)
    requires Inv(s) && c in s.conns
    ensures Bindings(s.active, c) <= 1
    ensures c !in Bound(CleanupConnection(s, c).active)
  {
    var sourceId: SourceId := s.conns[c].sourceId.GetOr("-");
    forall b | b in s.active && b.conn == c ensures b.sourceId == sourceId && c !in s.pending {
      LookupIsMember(s.active, b.sourceId, c);
      RegisteredHasGreeted(s, b.sourceId, c);
    }
    OneSourceOneBinding(s.active, c, sourceId);
    if c !in s.pending {
      CleanupIsCompleteExactlyWhen(s, c);
    }
  }

  lemma CleanupKeepsExact(s: Server, c: ConnId)
    requires Inv(s) && c in s.conns
    ensures Exact(CleanupConnection(s, c))
  {
    var t := CleanupConnection(s, c);
    CleanupIsComplete(s, c);
    forall b | b in t.active ensures b.conn !in t.gone {
      UnbindKeeps(s.active, c, b);
    }
  }

  lemma StepKeepsExact(parse: Parser, s: Server, e: Event)
    requires Inv(s) && SingleGreetings(Apply(parse, s, e).greetings)
    ensures Exact(Apply(parse, s, e))
  {
    match e
    case Connect(_) =>
    case Receive(c, chunk) =>
      if c in s.conns && !s.conns[c].destroyed {
        OpenIsReading(s, c);
        TextKeepsExact(parse, s, c, s.conns[c].dataBuffer + chunk);
      }
    case Closed(c) => if c in s.conns { CleanupKeepsExact(s, c); }
    case Timeout(_) =>
    case Stop =>
  }

  lemma GreetingsGrow(parse: Parser, s: Server, e: Event)
    requires Safe(s)
    ensures s.greetings <= Apply(parse, s, e).greetings
  {
    if e.Receive? {
      DataKeepsSafe(parse, s, e.rc, e.chunk);
    }
  }

  lemma {:induction false} RunIsExact(parse: Parser, events: seq<Event>)
    requires SingleGreetings(Run(parse, events).greetings)
    ensures Inv(Run(parse, events))
  {
    RegistryIsSafe(parse, events);
    if events != [] {
      var before, e := events[..|events| - 1], events[|events| - 1];
      RegistryIsSafe(parse, before);
      GreetingsGrow(parse, Run(parse, before), e);
      RunIsExact(parse, before);
      StepKeepsExact(parse, Run(parse, before), e);
    }
  }

  /** In every run in which no connection greets twice, the registry is exact. */
  lemma RegistryIsExact(parse: Parser, events: seq<Event>)
    requires SingleGreetings(Run(parse, events).greetings)
    ensures var s := Run(parse, events);
      RegistryIsCurrent(s) && PendingIsExact(s) && forall c :: c in s.gone ==> c !in Bound(s.active)
  {
    RunIsExact(parse, events);
    var s := Run(parse, events);
    forall sourceId: SourceId, c: ConnId
      ensures Lookup(s.active, sourceId) == Some(c) <==> LastGreeter(s.greetings, sourceId) == Some(c) && c !in s.gone
    {
      LookupIsMember(s.active, sourceId, c);
    }
  }

  /** Then a repeated error or close event changes nothing at all. */
  lemma RepeatedCloseIsNothing(parse: Parser, events: seq<Event>, c: ConnId)
    requires SingleGreetings(Run(parse, events).greetings) && c in Run(parse, events).gone
    ensures Apply(parse, Run(parse, events), Closed(c)) == Run(parse, events)
  {
    RunIsExact(parse, events);
    var s := Run(parse, events);
    UnbindNothing(s.active, c);
    assert CleanupConnection(s, c).gone == s.gone;
    assert CleanupConnection(s, c).conns == s.conns;
  }

  /**
   A connection that greets under two sources and is then cleaned up once leaves the second one
   registered to it, although it is destroyed.
   */
  lemma SecondGreetingLeavesStaleKey(c: ConnId, first: SourceId, second: SourceId, protocol: string)
    requires first != second
    ensures var s := HandleHandshake(HandleHandshake(OnConnect(EMPTY, c), c, first, protocol), c, second, protocol);
      var t := CleanupConnection(s, c);
      && Bindings(s.active, c) == 2
      && t.conns[c].destroyed && Lookup(t.active, second) == Some(c) && Lookup(t.active, first) == None
  {
    var once := HandleHandshake(OnConnect(EMPTY, c), c, first, protocol);
    var s := HandleHandshake(once, c, second, protocol);
    assert once.active == [Binding(first, c)];
    assert once.active[1..] == [];
    assert s.active == [Binding(first, c)] + Bind([], second, c);
    assert s.active[1..] == [Binding(second, c)];
    assert s.active[1..][1..] == [];
    assert Bindings(s.active[1..], c) == 1;
  }

  // ---- between data events every open connection is live ----

  /** What cutting needs of a connection holds in every run, however often connections greet. */
  ghost predicate AllLive(s: Server) {
    forall c :: c in s.conns ==>
      && (s.conns[c].handshakeDone ==> s.conns[c].sourceId.Some?)
      && (!s.conns[c].destroyed ==> LineEnd(s.conns[c].dataBuffer) == None)
      && (!s.conns[c].destroyed && !s.conns[c].handshakeDone ==> s.conns[c].timer)
  }

  lemma {:induction false} TextKeepsAllLive(parse: Parser, s: Server, c: ConnId, text: string)
    requires AllLive(s) && c in s.conns
    ensures var p := Process(parse, s, c, text);
      AllLive(p.s) && (p.stopped ==> p.s.conns[c].destroyed) && (!p.stopped ==> LineEnd(p.rest) == None)
    decreases |text|
  {
    if LineEnd(text).Some? {
      var i := LineEnd(text).value;
      ProcessLine(parse, s, c, text, i);
      LineKeepsAllLive(parse, s, c, text[..i]);
      var o := HandleLine(parse, s, c, text[..i]);
      if !o.stopped {
        TextKeepsAllLive(parse, o.s, c, text[i + 1..]);
      }
    }
  }

  lemma LineKeepsAllLive(parse: Parser, s: Server, c: ConnId, line: string)
    requires AllLive(s) && c in s.conns
    ensures var o := HandleLine(parse, s, c, line);
      AllLive(o.s) && (o.stopped ==> o.s.conns[c].destroyed)
  {
  }

  lemma {:induction false} OpenConnectionsAreLive(parse: Parser, events: seq<Event>, c: ConnId)
    requires var s := Run(parse, events); c in s.conns && !s.conns[c].destroyed
    ensures Live(Run(parse, events), c)
  {
    RunIsLive(parse, events);
  }

  /**
   In every run a connection that is open and has not greeted is destroyed when the handshake timeout comes,
   and a connection that has greeted is not touched by it.
   */
  lemma SilentConnectionsTimeOut(parse: Parser, events: seq<Event>, c: ConnId)
    requires c in Run(parse, events).conns
    ensures var s, t := Run(parse, events), Run(parse, events + [Timeout(c)]);
      && (s.conns[c].handshakeDone ==> t == s)
      && (!s.conns[c].handshakeDone ==> c in t.conns && t.conns[c].destroyed)
      && t.active == s.active && forall d :: d in s.conns && d != c ==> d in t.conns && t.conns[d] == s.conns[d]
  {
    RunIsLive(parse, events);
    RegistryIsSafe(parse, events);
    assert (events + [Timeout(c)])[..|events|] == events;
  }

  lemma {:induction false} RunIsLive(parse: Parser, events: seq<Event>)
    ensures AllLive(Run(parse, events))
  {
    if events != [] {
      var before, e := events[..|events| - 1], events[|events| - 1];
      RunIsLive(parse, before);
      var s := Run(parse, before);
      if e.Receive? && e.rc in s.conns && !s.conns[e.rc].destroyed {
        TextKeepsAllLive(parse, s, e.rc, s.conns[e.rc].dataBuffer + e.chunk);
      }
    }
  }
}
