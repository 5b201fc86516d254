/**
 The adapter server: newline-delimited messages cut from a character stream, and the registry of
 connections by source.  Connections are named by ids, so the registry, the pending set and the
 events all refer to the same connection.  Trimming, JSON parsing
 and validation of a line are one parameter.
 */
module AdapterServer {
  import opened Wrappers

  type ConnId = nat

  /** Validation turns away a handshake whose source is the empty string. */
  type SourceId = s: string | s != "" witness "s"

  /**
   What a line turns out to be once it is trimmed, parsed and validated.  Bad covers malformed JSON
   and messages that fail validation.
   */
  datatype Parsed = Blank | Bad | Handshake(sourceId: SourceId, protocol: string) | Data(message: string)

  type Parser = string -> Parsed

  datatype Conn = Conn(
    sourceId: Option<SourceId>, protocol: string, handshakeDone: bool, timer: bool,
    destroyed: bool, dataBuffer: string)

  datatype Binding = Binding(sourceId: SourceId, conn: ConnId)

  datatype Delivery = Delivery(sourceId: SourceId, message: string)

  /**
   Connections, the pending set, and the registry (a Map, in insertion order); and what has
   happened: messages routed, handshakes accepted, connections let go.
   */
  datatype Server = Server(
    conns: map<ConnId, Conn>, pending: set<ConnId>, active: seq<Binding>,
    routed: seq<Delivery>, greetings: seq<Binding>, gone: set<ConnId>)

  const EMPTY := Server(map[], {}, [], [], [], {})

  // ---- the registry as a map ----

  function Lookup(active: seq<Binding>, sourceId: SourceId): Option<ConnId> {
    if active == [] then None
    else if active[0].sourceId == sourceId then Some(active[0].conn)
    else Lookup(active[1..], sourceId)
  }

  /** Map.set: an existing key keeps its place. */
  function Bind(active: seq<Binding>, sourceId: SourceId, c: ConnId): seq<Binding> {
    if active == [] then [Binding(sourceId, c)]
    else if active[0].sourceId == sourceId then [Binding(sourceId, c)] + active[1..]
    else [active[0]] + Bind(active[1..], sourceId, c)
  }

  /** Deletes the first entry of the connection, if it has one. */
  function Unbind(active: seq<Binding>, c: ConnId): seq<Binding> {
    if active == [] then []
    else if active[0].conn == c then active[1..]
    else [active[0]] + Unbind(active[1..], c)
  }

  // ---- one line ----

  function Destroy(conns: map<ConnId, Conn>, c: ConnId): map<ConnId, Conn> {
    if c in conns then conns[c := conns[c].(destroyed := true)] else conns
  }

  /** Clears the timer and destroys the socket. */
  function Drop(conns: map<ConnId, Conn>, c: ConnId): map<ConnId, Conn> {
    if c in conns then conns[c := conns[c].(timer := false, destroyed := true)] else conns
  }

  function HandleHandshake(s: Server, c: ConnId, sourceId: SourceId, protocol: string): Server
    requires c in s.conns
  {
    var conn := s.conns[c].(timer := false, handshakeDone := true, protocol := protocol, sourceId := Some(sourceId));
    var conns := s.conns[c := conn];
    var previous := Lookup(s.active, sourceId);
    s.(conns := if previous.Some? then Drop(conns, previous.value) else conns,
       pending := s.pending - {c},
       active := Bind(s.active, sourceId, c),
       greetings := s.greetings + [Binding(sourceId, c)])
  }

  function RouteMessage(s: Server, c: ConnId, message: string): Server
    requires c in s.conns
  {
    match s.conns[c].sourceId
    case None => s
    case Some(sourceId) => s.(routed := s.routed + [Delivery(sourceId, message)])
  }

  /** The server after a line, and whether the loop returns there. */
  datatype Outcome = Outcome(s: Server, stopped: bool)

  function HandleLine(parse: Parser, s: Server, c: ConnId, line: string): (o: Outcome)
    requires c in s.conns
    ensures c in o.s.conns
  {
    match parse(line)
    case Blank => Outcome(s, false)
    case Bad => if s.conns[c].handshakeDone then Outcome(s, false) else Outcome(s.(conns := Destroy(s.conns, c)), true)
    case Handshake(sourceId, protocol) => Outcome(HandleHandshake(s, c, sourceId, protocol), false)
    case Data(message) =>
      if s.conns[c].handshakeDone then Outcome(RouteMessage(s, c, message), false)
      else Outcome(s.(conns := Destroy(s.conns, c)), true)
  }

  // ---- the buffer loop ----

  function LineEnd(text: string): (i: Option<nat>)
    ensures i.Some? ==> i.value < |text|
  {
    if text == "" then None
    else if text[0] == '\n' then Some(0)
    else match LineEnd(text[1..])
      case None => None
      case Some(i) => Some(i + 1)
  }

  datatype Processed = Processed(s: Server, stopped: bool, rest: string)

  function Process(parse: Parser, s: Server, c: ConnId, text: string): (p: Processed)
    requires c in s.conns
    ensures c in p.s.conns
    decreases |text|
  {
    match LineEnd(text)
    case None => Processed(s, false, text)
    case Some(i) =>
      var o := HandleLine(parse, s, c, text[..i]);
      if o.stopped then Processed(o.s, true, text[i + 1..]) else Process(parse, o.s, c, text[i + 1..])
  }

  function SetBuffer(s: Server, c: ConnId, buffer: string): Server
    requires c in s.conns
  {
    s.(conns := s.conns[c := s.conns[c].(dataBuffer := buffer)])
  }

  /** A destroyed socket delivers nothing more. */
  function OnData(parse: Parser, s: Server, c: ConnId, chunk: string): Server {
    if c !in s.conns || s.conns[c].destroyed then s
    else
      var p := Process(parse, s, c, s.conns[c].dataBuffer + chunk);
      SetBuffer(p.s, c, p.rest)
  }

  // ---- the other events ----

  function OnConnect(s: Server, c: ConnId): Server {
    s.(conns := s.conns[c := Conn(None, "", false, true, false, "")], pending := s.pending + {c})
  }

  function CleanupConnection(s: Server, c: ConnId): Server
    requires c in s.conns
  {
    var conns := Drop(s.conns, c);
    if c in s.pending then s.(conns := conns, pending := s.pending - {c}, gone := s.gone + {c})
    else s.(conns := conns, active := Unbind(s.active, c), gone := s.gone + {c})
  }

  function OnTimeout(s: Server, c: ConnId): Server
    requires c in s.conns
  {
    s.(conns := Drop(s.conns, c))
  }

  function Bound(active: seq<Binding>): set<ConnId> {
    set b | b in active :: b.conn
  }

  function OnStop(s: Server): Server {
    var dropped := s.pending + Bound(s.active);
    s.(conns := map c | c in s.conns ::
                  if c in dropped then s.conns[c].(timer := false, destroyed := true) else s.conns[c],
       pending := {}, active := [], gone := s.gone + dropped)
  }

  datatype Event =
    | Connect(c: ConnId)
    | Receive(rc: ConnId, chunk: string)
    | Closed(cc: ConnId)   // an error or a close event, which may repeat
    | Timeout(tc: ConnId)
    | Stop

  function Apply(parse: Parser, s: Server, e: Event): Server {
    match e
    case Connect(c) => if c in s.conns then s else OnConnect(s, c)
    case Receive(c, chunk) => OnData(parse, s, c, chunk)
    case Closed(c) => if c in s.conns then CleanupConnection(s, c) else s
    case Timeout(c) => if c in s.conns && s.conns[c].timer then OnTimeout(s, c) else s
    case Stop => OnStop(s)
  }

  function Run(parse: Parser, events: seq<Event>): Server {
    if events == [] then EMPTY else Apply(parse, Run(parse, events[..|events| - 1]), events[|events| - 1])
  }
}
