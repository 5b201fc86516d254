/**
 The daemon core as a transition system.  Its callbacks and timers run to completion between
 awaits.  Each await-free segment is one step or a few, and the steps of different aircraft
 messages, flushes and drains interleave freely: every schedule of the code is a run, and `AsWritten`
 marks runs that are such schedules.  `Core` is what the process holds; `History` is what has happened,
 kept for stating properties only.
 */
module DaemonModel {
  import opened Wrappers
  import opened Tracker
  import opened Batch
  import opened Blobs
  import opened Records
  import opened Beast
  import opened Atrx
  import opened AtrxSplit
  import opened RawCapture
  import Queue

  /**
   The parts of the daemon that are not interpreted: distances, compressed sizes, the codec of the raw
   captures and the text of a date; and two settings, whether captures are uploaded and the station.
   */
  datatype Config = Config(
    range: Range, size: Size, codec: Codec, iso: int -> string, rawCaptureEnabled: bool, receiverDid: string)

  /**
   A flush between two awaits: chunks [next..] are still to be uploaded, the captures in `paths` go
   into one blob before the first of them, and `rawCapture` is that blob once it is uploaded.
   */
  datatype FlushTask = FlushTask(
    windowStart: int, windowEnd: int, chunks: seq<Telemetry>, next: nat, paths: seq<string>,
    rawCapture: Option<Bytes>)

  /** The aircraft in hand has had its batch refs taken, its record is not yet sent. */
  datatype Hand = Hand(entry: Entry, refs: seq<StrongRef>)

  /** The departures of one aircraft message that its callback has not yet reached. */
  datatype DepartTask = DepartTask(waiting: seq<Entry>, hand: Option<Hand>)

  datatype Core = Core(
    tracker: Tracker.State,
    window: Telemetry, windowStart: int, rawCapturePaths: seq<string>,
    index: map<Hex, seq<StrongRef>>,
    flushes: map<nat, FlushTask>, nextFlush: nat,
    departs: map<nat, DepartTask>, nextDepart: nat,
    queue: Queue.State)

  /** How the publication of a departed aircraft's flight record ends. */
  datatype FlightOutcome = NoIdentity | Published(aircraftRef: StrongRef) | Refused(refusedRef: StrongRef)

  datatype Action =
    | Message(aircraft: seq<Observation>, epoch: real)
    | DropDepartures(dropped: nat)
    | TakeRefs(task: nat)
    | FlightDone(done: nat, outcome: FlightOutcome)
    | RawCaptured(path: string)
    | FlushTick
    | RawUploaded(raw: nat, files: seq<Option<Bytes>>)
    | UploadFailed(upload: nat)
    | SightingPublished(flush: nat, ref: StrongRef)
    | SightingRefused(refused: nat)
    | Drain(step: Queue.Step)
    | Resent(drain: nat, resentRef: StrongRef)

  /** `at` is the wall clock, in milliseconds, when the step runs. */
  datatype Event = Event(at: int, act: Action)

  const INITIAL := Core(EMPTY, [], 0, [], map[], map[], 0, map[], 0, Queue.START)

  // ---- the steps ----

  function AddArrivals(window: Telemetry, arrivals: seq<Arrival>): Telemetry {
    if arrivals == [] then window
    else
      var n := |arrivals| - 1;
      AddPosition(AddArrivals(window, arrivals[..n]), arrivals[n].hex, arrivals[n].report)
  }

  function Lookup(index: map<Hex, seq<StrongRef>>, hex: Hex): seq<StrongRef> {
    if hex in index then index[hex] else []
  }

  /** Records a published sighting for every aircraft of its manifest. */
  function IndexAll(index: map<Hex, seq<StrongRef>>, hexes: seq<Hex>, ref: StrongRef): map<Hex, seq<StrongRef>> {
    if hexes == [] then index
    else
      var n := |hexes| - 1;
      var before := IndexAll(index, hexes[..n], ref);
      before[hexes[n] := Lookup(before, hexes[n]) + [ref]]
  }

  function TaskRecord(task: FlushTask): Option<SightingRecord>
    requires task.next < |task.chunks|
  {
    var chunk := task.chunks[task.next];
    BuildBatchRecord(task.windowStart, task.windowEnd, chunk, SourceList(chunk),
                     if task.next == 0 then task.rawCapture else None)
  }

  /** What a flush stamps on its captures. */
  function StampOf(cfg: Config, task: FlushTask): Stamp {
    Stamp(cfg.receiverDid, cfg.iso(task.windowStart), cfg.iso(task.windowEnd))
  }

  /** The capture files of a flush, read, restamped and joined; none if every file fails. */
  function CaptureUpload(cfg: Config, task: FlushTask, files: seq<Option<Bytes>>): Option<Bytes> {
    var blobs := RestampAll(cfg.codec, StampOf(cfg, task), files);
    if blobs == [] then None else Some(ConcatAtrxBlobs(blobs))
  }

  /** The flush moves on to its next chunk, or is over. */
  function Advance(flushes: map<nat, FlushTask>, f: nat): map<nat, FlushTask>
    requires f in flushes
  {
    var task := flushes[f].(next := flushes[f].next + 1);
    if task.next < |task.chunks| then flushes[f := task] else flushes - {f}
  }

  function OnMessage(cfg: Config, d: Core, aircraft: seq<Observation>, epoch: real): Core {
    var o := Update(d.tracker, aircraft, epoch, cfg.range);
    d.(tracker := o.state,
       window := AddArrivals(d.window, Arrivals(o.positions)),
       departs := d.departs[d.nextDepart := DepartTask(o.departed, None)],
       nextDepart := d.nextDepart + 1)
  }

  function OnTake(d: Core, t: nat): Core
    requires t in d.departs && d.departs[t].waiting != []
  {
    var e := d.departs[t].waiting[0];
    var hand := if e.positionCount == 0 then None else Some(Hand(e, Lookup(d.index, e.icaoHex)));
    d.(index := d.index - {e.icaoHex},
       departs := d.departs[t := DepartTask(d.departs[t].waiting[1..], hand)])
  }

  ghost function OnFlightDone(d: Core, t: nat, outcome: FlightOutcome, now: int): Core
    requires t in d.departs && d.departs[t].hand.Some?
  {
    var hand := d.departs[t].hand.value;
    var d1 := d.(departs := d.departs[t := d.departs[t].(hand := None)]);
    match outcome
    case NoIdentity => d1
    case Published(_) => d1
    case Refused(aircraftRef) =>
      match BuildFlightRecord(hand.entry, aircraftRef, hand.refs)
      case None => d1
      case Some(record) => d1.(queue := Queue.Next(d.queue, Queue.Put(Flight(record), now)))
  }

  function OnFlushTick(cfg: Config, d: Core, now: int): Core {
    var d1 := d.(window := [], windowStart := now, rawCapturePaths := []);
    if d.window == [] then d1
    else
      match ChunkTelemetry(d.window, cfg.size, LEXICON_LIMITS)
      case Err(_) => d1.(nextFlush := d.nextFlush + 1)
      case Ok(chunks) =>
        var paths := if cfg.rawCaptureEnabled then d.rawCapturePaths else [];
        d1.(flushes := d.flushes[d.nextFlush := FlushTask(d.windowStart, now, chunks, 0, paths, None)],
            nextFlush := d.nextFlush + 1)
  }

  function OnSightingPublished(d: Core, f: nat, ref: StrongRef): Core
    requires f in d.flushes && d.flushes[f].next < |d.flushes[f].chunks|
  {
    var task := d.flushes[f];
    d.(index := IndexAll(d.index, Keys(task.chunks[task.next]), ref), flushes := Advance(d.flushes, f))
  }

  ghost function OnSightingRefused(d: Core, f: nat, now: int): Core
    requires f in d.flushes && d.flushes[f].next < |d.flushes[f].chunks|
  {
    match TaskRecord(d.flushes[f])
    case None => d.(flushes := Advance(d.flushes, f))
    case Some(record) =>
      d.(queue := Queue.Next(d.queue, Queue.Put(Sighting(record), now)), flushes := Advance(d.flushes, f))
  }

  predicate Flushing(d: Core, f: nat) {
    f in d.flushes && d.flushes[f].next < |d.flushes[f].chunks|
  }

  /** A step that is not enabled does nothing, so every list of events is a run. */
  ghost predicate Enabled(cfg: Config, d: Core, act: Action) {
    match act
    case Message(_, _) => true
    case DropDepartures(t) => t in d.departs && d.departs[t].hand.None?
    case TakeRefs(t) => t in d.departs && d.departs[t].waiting != [] && d.departs[t].hand.None?
    case FlightDone(t, _) => t in d.departs && d.departs[t].hand.Some?
    case RawCaptured(_) => true
    case FlushTick => true
    case RawUploaded(f, files) =>
      && Flushing(d, f) && d.flushes[f].next == 0 && d.flushes[f].rawCapture.None?
      && |files| == |d.flushes[f].paths| && CaptureUpload(cfg, d.flushes[f], files).Some?
    case UploadFailed(f) => Flushing(d, f)
    case SightingPublished(f, _) => Flushing(d, f)
    case SightingRefused(f) => Flushing(d, f)
    case Drain(step) => !step.Put? && !step.Acked? && Queue.Enabled(d.queue, step)
    case Resent(drain, _) => Queue.Enabled(d.queue, Queue.Acked(drain))
  }

  ghost function Next(cfg: Config, d: Core, at: int, act: Action): Core
    requires Enabled(cfg, d, act)
  {
    match act
    case Message(aircraft, epoch) => OnMessage(cfg, d, aircraft, epoch)
    case DropDepartures(t) => d.(departs := d.departs[t := DepartTask([], None)])
    case TakeRefs(t) => OnTake(d, t)
    case FlightDone(t, outcome) => OnFlightDone(d, t, outcome, at)
    case RawCaptured(path) => d.(rawCapturePaths := d.rawCapturePaths + [path])
    case FlushTick => OnFlushTick(cfg, d, at)
    case RawUploaded(f, files) =>
      d.(flushes := d.flushes[f := d.flushes[f].(rawCapture := CaptureUpload(cfg, d.flushes[f], files))])
    case UploadFailed(f) => d.(flushes := d.flushes - {f})
    case SightingPublished(f, ref) => OnSightingPublished(d, f, ref)
    case SightingRefused(f) => OnSightingRefused(d, f, at)
    case Drain(step) => d.(queue := Queue.Next(d.queue, step))
    case Resent(drain, _) => d.(queue := Queue.Next(d.queue, Queue.Acked(drain)))
  }

  // ---- what has happened ----

  /**
   One position the tracker emitted: its place among all of them, its aircraft, the session of that
   aircraft, counted from one, and the message time.
   */
  datatype Item = Item(no: nat, hex: Hex, session: nat, at: int, report: PositionReport)

  /** What became of a chunk: published under a ref, handed to the retry queue under an id, or lost. */
  datatype Fate = InSighting(ref: StrongRef) | InQueue(id: nat) | Lost

  /** A window that has been swapped out: the items it held, its chunks, and their fates so far. */
  datatype Closed = Closed(items: seq<Item>, chunks: seq<Telemetry>, fates: seq<Fate>)

  /** A sighting the repository accepted: its ref, its chunk, and the positions of that chunk's window. */
  datatype Accepted = Accepted(ref: StrongRef, chunk: Telemetry, items: seq<Item>)

  /** The refs the departure of a session took from the index, when so many sightings had been published. */
  datatype Taken = Taken(entry: Entry, session: nat, refs: seq<StrongRef>, published: nat)

  /** A flight record that was published, or put in the retry queue under an id, and the taking it came from. */
  datatype Sent = Sent(record: FlightRecord, taking: nat, queued: Option<nat>)

  /** Where a capture is: on the list, with a flush that has not begun its chunks, in its blob, or given up. */
  datatype CaptureFate = OnList | WithFlush(flush: nat) | InBlob(blob: nat, section: Bytes) | Dropped

  datatype Captured = Captured(path: string, fate: CaptureFate)

  /**
   `clock` is the timestamp of the latest aircraft message, `begun` how many sessions of an aircraft
   there have been, `leaving` the sessions of the entries that wait to depart.  `sightings` are those
   published by flushes, `retried` those published by drains, `refused` the positions of those that
   were put in the retry queue; `repository` holds the records of both kinds that were accepted.
   */
  datatype History = History(
    clock: int,
    log: seq<Item>, current: seq<Item>, closed: seq<Closed>,
    begun: map<Hex, nat>, leaving: map<nat, seq<nat>>,
    sightings: seq<Accepted>, refused: map<nat, seq<Item>>, retried: seq<Accepted>,
    repository: map<StrongRef, SightingRecord>,
    takings: seq<Taken>, inHand: map<nat, nat>, flights: seq<Sent>,
    captures: seq<Captured>,
    mail: Queue.History)

  const NO_HISTORY :=
    History(0, [], [], [], map[], map[], [], map[], [], map[], [], map[], [], [], Queue.NOTHING)

  function Begun(begun: map<Hex, nat>, hex: Hex): nat {
    if hex in begun then begun[hex] else 0
  }

  /** An aircraft that is mentioned and not tracked opens a session. */
  function OpenSessions(begun: map<Hex, nat>, s: Tracker.State, mentioned: set<Hex>): map<Hex, nat> {
    map hex | hex in begun.Keys + mentioned ::
      Begun(begun, hex) + (if hex in mentioned && hex !in s.entries then 1 else 0)
  }

  function ItemOf(begun: map<Hex, nat>, at: int, no: nat, a: Arrival): Item {
    Item(no, a.hex, Begun(begun, a.hex), at, a.report)
  }

  function ItemsOf(begun: map<Hex, nat>, at: int, first: nat, arrivals: seq<Arrival>): seq<Item> {
    seq(|arrivals|, i requires 0 <= i < |arrivals| => ItemOf(begun, at, first + i, arrivals[i]))
  }

  function SessionsOf(begun: map<Hex, nat>, departed: seq<Entry>): seq<nat> {
    seq(|departed|, i requires 0 <= i < |departed| => Begun(begun, departed[i].icaoHex))
  }

  function Leaving(h: History, t: nat): seq<nat> {
    if t in h.leaving then h.leaving[t] else []
  }

  function ToArrivals(items: seq<Item>): seq<Arrival> {
    seq(|items|, i requires 0 <= i < |items| => Arrival(items[i].hex, items[i].report))
  }

  function AddFate(closed: seq<Closed>, f: nat, fate: Fate): seq<Closed> {
    if f < |closed| then closed[f := closed[f].(fates := closed[f].fates + [fate])] else closed
  }

  function AllLost(n: int): seq<Fate> {
    if n <= 0 then [] else [Lost] + AllLost(n - 1)
  }

  function LoseRest(closed: seq<Closed>, f: nat): seq<Closed> {
    if f < |closed| then
      closed[f := closed[f].(fates := closed[f].fates + AllLost(|closed[f].chunks| - |closed[f].fates|))]
    else closed
  }

  function CloseWindow(cfg: Config, d: Core, h: History): Closed {
    match ChunkTelemetry(d.window, cfg.size, LEXICON_LIMITS)
    case Err(_) => Closed(h.current, [d.window], [Lost])
    case Ok(chunks) => Closed(h.current, chunks, [])
  }

  /** The captures of one fate meet another. */
  function Meet(captures: seq<Captured>, before: CaptureFate, after: CaptureFate): seq<Captured> {
    seq(|captures|, i requires 0 <= i < |captures| =>
      if captures[i].fate == before then captures[i].(fate := after) else captures[i])
  }

  /** What restamping makes of each file, if anything. */
  function Outcomes(codec: Codec, stamp: Stamp, files: seq<Option<Bytes>>): seq<Option<Bytes>> {
    seq(|files|, i requires 0 <= i < |files| => Restamp(codec, stamp, files[i]))
  }

  /** A file that can be restamped goes into the blob, any other is given up. */
  function FileFate(f: nat, outcome: Option<Bytes>): CaptureFate {
    match outcome
    case None => Dropped
    case Some(section) => InBlob(f, section)
  }

  /** The captures of a flush meet the fates of their files, in order. */
  function MeetFiles(captures: seq<Captured>, f: nat, outcomes: seq<Option<Bytes>>): seq<Captured> {
    if captures == [] || outcomes == [] then captures
    else
      var front, last, n := captures[..|captures| - 1], captures[|captures| - 1], |outcomes| - 1;
      if last.fate == WithFlush(f)
      then MeetFiles(front, f, outcomes[..n]) + [last.(fate := FileFate(f, outcomes[n]))]
      else MeetFiles(front, f, outcomes) + [last]
  }

  /** Once the first chunk is attempted, captures that are not in a blob never will be. */
  function GiveUpCaptures(d: Core, captures: seq<Captured>, f: nat): seq<Captured>
    requires f in d.flushes
  {
    if d.flushes[f].next == 0 then Meet(captures, WithFlush(f), Dropped) else captures
  }

  /** What a tick does with the captures on the list. */
  function TickFate(cfg: Config, d: Core): CaptureFate {
    if cfg.rawCaptureEnabled && d.window != [] && ChunkTelemetry(d.window, cfg.size, LEXICON_LIMITS).Ok?
    then WithFlush(d.nextFlush) else Dropped
  }

  ghost function RecordFlight(d: Core, h: History, at: int, t: nat, outcome: FlightOutcome): History
    requires t in d.departs && d.departs[t].hand.Some?
  {
    var hand := d.departs[t].hand.value;
    var h1 := h.(inHand := h.inHand - {t});
    if outcome.NoIdentity? then h1
    else
      var ref := if outcome.Published? then outcome.aircraftRef else outcome.refusedRef;
      match BuildFlightRecord(hand.entry, ref, hand.refs)
      case None => h1
      case Some(record) =>
        h1.(flights := h.flights + [Sent(record, if t in h.inHand then h.inHand[t] else |h.takings|,
                                         if outcome.Refused? then Some(d.queue.table.nextId) else None)],
            mail := if outcome.Refused? then Queue.Record'(d.queue, h.mail, Queue.Put(Flight(record), at)) else h.mail)
  }

  ghost function RecordRefusal(d: Core, h: History, at: int, f: nat): History
    requires Flushing(d, f)
  {
    var h1 := h.(captures := GiveUpCaptures(d, h.captures, f));
    match TaskRecord(d.flushes[f])
    case None => h1.(closed := AddFate(h.closed, f, Lost))
    case Some(record) =>
      var id := d.queue.table.nextId;
      h1.(closed := AddFate(h.closed, f, InQueue(id)),
          refused := h.refused[id := ItemsOfWindow(h, f)],
          mail := Queue.Record'(d.queue, h.mail, Queue.Put(Sighting(record), at)))
  }

  function ItemsOfWindow(h: History, f: nat): seq<Item> {
    if f < |h.closed| then h.closed[f].items else []
  }

  ghost function RecordPublication(d: Core, h: History, f: nat, ref: StrongRef): History
    requires Flushing(d, f)
  {
    var task := d.flushes[f];
    var record := TaskRecord(task);
    h.(closed := AddFate(h.closed, f, InSighting(ref)),
       captures := GiveUpCaptures(d, h.captures, f),
       sightings := h.sightings + [Accepted(ref, task.chunks[task.next], ItemsOfWindow(h, f))],
       repository := if record.Some? then h.repository[ref := record.value] else h.repository)
  }

  /** A drain publishes the sighting again under a ref of its own, which nobody looks at. */
  ghost function RecordResent(d: Core, h: History, drain: nat, ref: StrongRef): History
    requires drain in d.queue.drains && d.queue.drains[drain] != []
  {
    var entry := d.queue.drains[drain][0];
    var h1 := h.(mail := Queue.Record'(d.queue, h.mail, Queue.Acked(drain)));
    if entry.record.Sighting? then
      var items := if entry.id in h.refused then h.refused[entry.id] else [];
      h1.(retried := h.retried + [Accepted(ref, entry.record.sighting.telemetry, items)],
          repository := h.repository[ref := entry.record.sighting])
    else h1
  }

  ghost function RecordMessage(cfg: Config, d: Core, h: History, aircraft: seq<Observation>, epoch: real): History {
    var o := Update(d.tracker, aircraft, epoch, cfg.range);
    var begun := OpenSessions(h.begun, d.tracker, Mentioned(aircraft));
    var items := ItemsOf(begun, DateMs(epoch), |h.log|, Arrivals(o.positions));
    h.(clock := DateMs(epoch), log := h.log + items, current := h.current + items, begun := begun,
       leaving := h.leaving[d.nextDepart := SessionsOf(begun, o.departed)])
  }

  ghost function RecordTaking(d: Core, h: History, t: nat): History
    requires t in d.departs && d.departs[t].waiting != []
  {
    var e, leaving := d.departs[t].waiting[0], Leaving(h, t);
    h.(takings := h.takings + [Taken(e, if leaving == [] then 0 else leaving[0],
                                     Lookup(d.index, e.icaoHex), |h.sightings|)],
       leaving := h.leaving[t := if leaving == [] then [] else leaving[1..]],
       inHand := if e.positionCount == 0 then h.inHand else h.inHand[t := |h.takings|])
  }

  ghost function RecordTick(cfg: Config, d: Core, h: History): History {
    var h1 := h.(captures := Meet(h.captures, OnList, TickFate(cfg, d)));
    if d.window == [] then h1 else h1.(current := [], closed := h.closed + [CloseWindow(cfg, d, h)])
  }

  ghost function Recorded(cfg: Config, d: Core, h: History, at: int, act: Action): History
    requires Enabled(cfg, d, act)
  {
    match act
    case Message(aircraft, epoch) => RecordMessage(cfg, d, h, aircraft, epoch)
    case DropDepartures(t) => h.(leaving := h.leaving[t := []])
    case TakeRefs(t) => RecordTaking(d, h, t)
    case FlightDone(t, outcome) => RecordFlight(d, h, at, t, outcome)
    case RawCaptured(path) => h.(captures := h.captures + [Captured(path, OnList)])
    case FlushTick => RecordTick(cfg, d, h)
    case RawUploaded(f, files) =>
      h.(captures := MeetFiles(h.captures, f, Outcomes(cfg.codec, StampOf(cfg, d.flushes[f]), files)))
    case UploadFailed(f) => h.(closed := LoseRest(h.closed, f), captures := GiveUpCaptures(d, h.captures, f))
    case SightingPublished(f, ref) => RecordPublication(d, h, f, ref)
    case SightingRefused(f) => RecordRefusal(d, h, at, f)
    case Drain(step) => h.(mail := Queue.Record'(d.queue, h.mail, step))
    case Resent(drain, ref) => RecordResent(d, h, drain, ref)
  }

  datatype World = World(d: Core, h: History)

  ghost predicate IsFreshRef(h: History, ref: StrongRef) {
    forall s :: s in h.sightings || s in h.retried ==> s.ref != ref
  }

  /** The repository never hands out the same ref twice. */
  ghost predicate Possible(cfg: Config, w: World, act: Action) {
    && Enabled(cfg, w.d, act)
    && (act.SightingPublished? ==> IsFreshRef(w.h, act.ref))
    && (act.Resent? ==> IsFreshRef(w.h, act.resentRef))
  }

  ghost function Step(cfg: Config, w: World, e: Event): World {
    if Possible(cfg, w, e.act) then
      World(Next(cfg, w.d, e.at, e.act), Recorded(cfg, w.d, w.h, e.at, e.act))
    else w
  }

  ghost function Run(cfg: Config, events: seq<Event>): World {
    if events == [] then World(INITIAL, NO_HISTORY)
    else Step(cfg, Run(cfg, events[..|events| - 1]), events[|events| - 1])
  }

  // ---- runs as the code produces them ----

  const BEGINNING := World(INITIAL, NO_HISTORY)

  ghost function Thereafter(cfg: Config, w: World, events: seq<Event>): World
    decreases |events|
  {
    if events == [] then w else Thereafter(cfg, Step(cfg, w, events[0]), events[1..])
  }

  /**
   The steps above are finer than the code.  Between a message and its first departure there is an
   await only when a frame is being signed, and none between the end of one departure and the refs of
   the next.  This is the callback that goes on at once after a step, when nothing is being signed.
   */
  ghost function GoesOn(cfg: Config, w: World, e: Event): Option<nat> {
    match e.act
    case Message(_, _) => HasMore(Step(cfg, w, e).d, w.d.nextDepart)
    case TakeRefs(t) => HasMore(Step(cfg, w, e).d, t)
    case FlightDone(t, _) => HasMore(Step(cfg, w, e).d, t)
    case _ => None
  }

  function HasMore(d: Core, t: nat): Option<nat> {
    if t in d.departs && d.departs[t].waiting != [] && d.departs[t].hand.None? then Some(t) else None
  }

  /** Every step happens, and what goes on without an await goes on next: the code can take this path. */
  ghost predicate AsWritten(cfg: Config, w: World, events: seq<Event>)
    decreases |events|
  {
    events != [] ==>
      && Possible(cfg, w, events[0].act)
      && (GoesOn(cfg, w, events[0]).Some? ==>
            |events| > 1 && events[1].act == TakeRefs(GoesOn(cfg, w, events[0]).value))
      && AsWritten(cfg, Step(cfg, w, events[0]), events[1..])
  }

  lemma {:induction false} ThereafterSnoc(cfg: Config, w: World, events: seq<Event>, e: Event)
    ensures Thereafter(cfg, w, events + [e]) == Step(cfg, Thereafter(cfg, w, events), e)
    decreases |events|
  {
    if events == [] {
      assert [e][1..] == [] && [] + [e] == [e];
    } else {
      assert (events + [e])[1..] == events[1..] + [e];
      ThereafterSnoc(cfg, Step(cfg, w, events[0]), events[1..], e);
    }
  }

  lemma {:induction false} RunIsThereafter(cfg: Config, events: seq<Event>)
    ensures Run(cfg, events) == Thereafter(cfg, BEGINNING, events)
  {
    if events != [] {
      var n := |events| - 1;
      RunIsThereafter(cfg, events[..n]);
      ThereafterSnoc(cfg, BEGINNING, events[..n], events[n]);
      assert events == events[..n] + [events[n]];
    }
  }

  /** The world after some run: any interleaving of any events. */
  ghost predicate Reachable(cfg: Config, w: World) {
    exists events :: Run(cfg, events) == w
  }

  lemma ReachableStep(cfg: Config, w: World, e: Event)
    requires Reachable(cfg, w)
    ensures Reachable(cfg, Step(cfg, w, e))
  {
    var events :| Run(cfg, events) == w;
    assert (events + [e])[..|events|] == events;
    assert Run(cfg, events + [e]) == Step(cfg, w, e);
  }
}
