/**
 Four schedules that the code can take.  When the window is flushed in time the departure takes its
 sighting, so the theorem on exact provenance speaks of runs that exist.  When the window outlives
 the departure, the departing session goes without its sighting and a later session takes it instead.
 When a departure waits behind another one and is overtaken by a later session without positions, its
 sighting is thrown away.  When a sighting is refused and a drain publishes it, it is never cited.
 */
module Scenarios {
  import opened Wrappers
  import opened Tracker
  import opened Batch
  import opened Blobs
  import opened Records
  import opened DaemonModel
  import opened Sessions
  import opened Handover
  import opened Citation
  import opened Exactness
  import Queue

  function Chunk(ac: Observation, epoch: real): Telemetry
    requires Positioned(ac)
  {
    [Row(ac.icaoHex, [BuildReport(ac, epoch)])]
  }

  /** The position of the aircraft as the message records it. */
  function Seen(w: World, ac: Observation, epoch: real): Item
    requires Positioned(ac)
  {
    Item(|w.h.log|, ac.icaoHex, Begun(BegunWith(w, [ac]), ac.icaoHex), DateMs(epoch), BuildReport(ac, epoch))
  }

  /** How many sessions have begun once these aircraft are mentioned. */
  function BegunWith(w: World, aircraft: seq<Observation>): map<Hex, nat> {
    OpenSessions(w.h.begun, w.d.tracker, Mentioned(aircraft))
  }

  lemma SessionsOfOne(w: World, ac: Observation, hex: Hex)
    ensures Begun(BegunWith(w, [ac]), hex)
         == Begun(w.h.begun, hex) + (if hex == ac.icaoHex && hex !in w.d.tracker.entries then 1 else 0)
    ensures Begun(BegunWith(w, []), hex) == Begun(w.h.begun, hex)
  {
    assert ac in [ac] && Mentioned([]) == {};
    assert forall h :: h in Mentioned([ac]) ==> h == ac.icaoHex;
  }

  // ---- updates of a tracker with at most two aircraft ----

  function One(e: Entry): Tracker.State {
    State([e.icaoHex], map[e.icaoHex := e])
  }

  function Two(e: Entry, f: Entry): Tracker.State {
    State([e.icaoHex, f.icaoHex], map[e.icaoHex := e, f.icaoHex := f])
  }

  lemma {:induction false} NobodyLeaves(s: Tracker.State, order: seq<Hex>, m: set<Hex>, now: int)
    requires forall h :: h in order ==> !Departs(s, m, now, h)
    ensures Staying(s, order, m, now) == order && Departing(s, order, m, now) == []
  {
    if order != [] {
      NobodyLeaves(s, order[..|order| - 1], m, now);
      assert order == order[..|order| - 1] + [order[|order| - 1]];
    }
  }

  lemma {:induction false} EverybodyLeaves(s: Tracker.State, order: seq<Hex>, m: set<Hex>, now: int)
    requires forall h :: h in order ==> Departs(s, m, now, h)
    ensures Staying(s, order, m, now) == []
    ensures |Departing(s, order, m, now)| == |order|
    ensures forall i :: 0 <= i < |order| ==>
              order[i] in s.entries && Departing(s, order, m, now)[i] == s.entries[order[i]]
  {
    if order != [] {
      EverybodyLeaves(s, order[..|order| - 1], m, now);
    }
  }

  lemma AllStay(s: Tracker.State, m: set<Hex>, now: int)
    requires s.Wf() && forall h :: h in s.entries ==> !Departs(s, m, now, h)
    ensures Remove(s, m, now) == s && Departing(s, s.order, m, now) == []
  {
    NobodyLeaves(s, s.order, m, now);
  }

  lemma AllGo(s: Tracker.State, m: set<Hex>, now: int)
    requires s.Wf() && forall h :: h in s.entries ==> Departs(s, m, now, h)
    ensures Remove(s, m, now) == EMPTY
    ensures |Departing(s, s.order, m, now)| == |s.order|
    ensures forall i :: 0 <= i < |s.order| ==> Departing(s, s.order, m, now)[i] == s.entries[s.order[i]]
  {
    EverybodyLeaves(s, s.order, m, now);
    assert Remove(s, m, now).entries.Keys == {};
  }

  /** A new aircraft in an empty tracker. */
  lemma FirstUpdate(ac: Observation, epoch: real, range: Range)
    ensures Update(EMPTY, [ac], epoch, range)
              == Outcome(One(Open(ac, epoch, range)), [], if Positioned(ac) then Chunk(ac, epoch) else [])
  {
    var e := Open(ac, epoch, range);
    assert [ac][..0] == [];
    assert AbsorbAll(EMPTY, [ac], epoch, range)
        == Cycle(One(e), if Positioned(ac) then Chunk(ac, epoch) else []);
    assert ac in [ac] && ac.icaoHex in Mentioned([ac]);
    AllStay(One(e), Mentioned([ac]), DateMs(epoch));
  }

  /** A new aircraft beside one that was seen less than a minute ago. */
  lemma SecondUpdate(e: Entry, ac: Observation, epoch: real, range: Range)
    requires Positioned(ac) && ac.icaoHex != e.icaoHex && !IsOverdue(e, DateMs(epoch))
    ensures Update(One(e), [ac], epoch, range) == Outcome(Two(e, Open(ac, epoch, range)), [], Chunk(ac, epoch))
  {
    var f := Open(ac, epoch, range);
    assert [ac][..0] == [] && [e.icaoHex] + [f.icaoHex] == [e.icaoHex, f.icaoHex];
    assert AbsorbAll(One(e), [ac], epoch, range) == Cycle(Two(e, f), Chunk(ac, epoch));
    assert ac in [ac] && ac.icaoHex in Mentioned([ac]);
    AllStay(Two(e, f), Mentioned([ac]), DateMs(epoch));
  }

  lemma LastUpdate(e: Entry, epoch: real, range: Range)
    requires IsOverdue(e, DateMs(epoch))
    ensures Update(One(e), [], epoch, range) == Outcome(EMPTY, [e], [])
  {
    assert AbsorbAll(One(e), [], epoch, range) == Cycle(One(e), []) && Mentioned([]) == {};
    AllGo(One(e), {}, DateMs(epoch));
  }

  lemma LastTwoUpdate(e: Entry, f: Entry, epoch: real, range: Range)
    requires e.icaoHex != f.icaoHex && IsOverdue(e, DateMs(epoch)) && IsOverdue(f, DateMs(epoch))
    ensures Update(Two(e, f), [], epoch, range) == Outcome(EMPTY, [e, f], [])
  {
    assert AbsorbAll(Two(e, f), [], epoch, range) == Cycle(Two(e, f), []) && Mentioned([]) == {};
    AllGo(Two(e, f), {}, DateMs(epoch));
  }

  // ---- steps ----

  function Appear(ac: Observation, epoch: real): Event {
    Event(DateMs(epoch), Message([ac], epoch))
  }

  function Silence(epoch: real): Event {
    Event(DateMs(epoch), Message([], epoch))
  }

  function Take(t: nat): Event {
    Event(0, TakeRefs(t))
  }

  /** One step taken the way the code can take it, unless its callback goes on at once. */
  ghost predicate Leads(cfg: Config, w: World, e: Event, v: World) {
    Possible(cfg, w, e.act) && Step(cfg, w, e) == v && GoesOn(cfg, w, e).None?
  }

  /** One step whose callback goes on at once with the departures of task t. */
  ghost predicate LeadsOn(cfg: Config, w: World, e: Event, v: World, t: nat) {
    Possible(cfg, w, e.act) && Step(cfg, w, e) == v && GoesOn(cfg, w, e) == Some(t)
  }

  ghost predicate Path(cfg: Config, w: World, events: seq<Event>, v: World) {
    AsWritten(cfg, w, events) && Thereafter(cfg, w, events) == v
  }

  lemma PathOf(cfg: Config, w: World, e: Event, v: World)
    requires Leads(cfg, w, e, v)
    ensures Path(cfg, w, [e], v)
  {
    assert [e][1..] == [];
  }

  lemma PathOfTwo(cfg: Config, w: World, a: Event, b: Event, u: World, v: World, t: nat)
    requires LeadsOn(cfg, w, a, u, t) && b.act == TakeRefs(t) && Leads(cfg, u, b, v)
    ensures Path(cfg, w, [a, b], v)
  {
    assert [a, b][1..] == [b];
    PathOf(cfg, u, b, v);
  }

  lemma {:induction false} PathsJoin(
    cfg: Config, w: World, first: seq<Event>, u: World, second: seq<Event>, v: World)
    requires Path(cfg, w, first, u) && Path(cfg, u, second, v)
    ensures Path(cfg, w, first + second, v)
    decreases |first|
  {
    if first == [] {
      assert first + second == second;
    } else {
      assert (first + second)[1..] == first[1..] + second;
      PathsJoin(cfg, Step(cfg, w, first[0]), first[1..], u, second, v);
    }
  }

  lemma ThreeJoin(
    cfg: Config, w: World, a: seq<Event>, w1: World, b: seq<Event>, w2: World, c: seq<Event>, w3: World)
    requires Path(cfg, w, a, w1) && Path(cfg, w1, b, w2) && Path(cfg, w2, c, w3)
    ensures Path(cfg, w, a + b + c, w3)
  {
    PathsJoin(cfg, w, a, w1, b, w2);
    PathsJoin(cfg, w, a + b, w2, c, w3);
  }

  /** Two paths from the beginning are one run that the code can take. */
  lemma PathsAreRun(cfg: Config, first: seq<Event>, w: World, second: seq<Event>, v: World)
    requires Path(cfg, BEGINNING, first, w) && Path(cfg, w, second, v)
    ensures AsWritten(cfg, BEGINNING, first + second) && Run(cfg, first + second) == v
  {
    PathsJoin(cfg, BEGINNING, first, w, second, v);
    RunIsThereafter(cfg, first + second);
  }

  /** What a message does besides adding positions. */
  ghost function MessagedBy(
    w: World, aircraft: seq<Observation>, tracker: Tracker.State, departed: seq<Entry>, epoch: real): World
  {
    World(
      w.d.(tracker := tracker, departs := w.d.departs[w.d.nextDepart := DepartTask(departed, None)],
           nextDepart := w.d.nextDepart + 1),
      w.h.(clock := DateMs(epoch), begun := BegunWith(w, aircraft),
           leaving := w.h.leaving[w.d.nextDepart := SessionsOf(BegunWith(w, aircraft), departed)]))
  }

  ghost function Positions(w: World, ac: Observation, epoch: real): World
    requires Positioned(ac)
  {
    World(w.d.(window := Chunk(ac, epoch)),
          w.h.(log := w.h.log + [Seen(w, ac, epoch)], current := [Seen(w, ac, epoch)]))
  }

  /** A message whose update adds one position to an empty window and lets nobody depart. */
  lemma AppearStep(cfg: Config, w: World, ac: Observation, epoch: real, s: Tracker.State)
    requires Positioned(ac) && w.d.window == [] && w.h.current == []
    requires Update(w.d.tracker, [ac], epoch, cfg.range) == Outcome(s, [], Chunk(ac, epoch))
    ensures Leads(cfg, w, Appear(ac, epoch), MessagedBy(Positions(w, ac, epoch), [ac], s, [], epoch))
  {
    AppearCore(cfg, w, ac, epoch, s);
    AppearHistory(cfg, w, ac, epoch, s);
  }

  lemma AppearCore(cfg: Config, w: World, ac: Observation, epoch: real, s: Tracker.State)
    requires Positioned(ac) && w.d.window == []
    requires Update(w.d.tracker, [ac], epoch, cfg.range) == Outcome(s, [], Chunk(ac, epoch))
    ensures OnMessage(cfg, w.d, [ac], epoch) == MessagedBy(Positions(w, ac, epoch), [ac], s, [], epoch).d
  {
    ChunkArrivals(ac, epoch);
  }

  lemma AppearHistory(cfg: Config, w: World, ac: Observation, epoch: real, s: Tracker.State)
    requires Positioned(ac) && w.h.current == []
    requires Update(w.d.tracker, [ac], epoch, cfg.range) == Outcome(s, [], Chunk(ac, epoch))
    ensures RecordMessage(cfg, w.d, w.h, [ac], epoch) == MessagedBy(Positions(w, ac, epoch), [ac], s, [], epoch).h
  {
    ChunkArrivals(ac, epoch);
    assert ItemsOf(BegunWith(w, [ac]), DateMs(epoch), |w.h.log|, Arrivals(Chunk(ac, epoch))) == [Seen(w, ac, epoch)];
  }

  lemma ChunkArrivals(ac: Observation, epoch: real)
    requires Positioned(ac)
    ensures Arrivals(Chunk(ac, epoch)) == [Arrival(ac.icaoHex, BuildReport(ac, epoch))]
    ensures AddArrivals([], Arrivals(Chunk(ac, epoch))) == Chunk(ac, epoch)
  {
    OneArrival(ac.icaoHex, BuildReport(ac, epoch));
  }

  lemma OneArrival(hex: Hex, r: PositionReport)
    ensures Arrivals([Row(hex, [r])]) == [Arrival(hex, r)]
    ensures AddArrivals([], [Arrival(hex, r)]) == [Row(hex, [r])]
  {
    var rows, arrivals := [Row(hex, [r])], [Arrival(hex, r)];
    assert rows[..0] == [] && arrivals[..0] == [] && RowArrivals(rows[0]) == arrivals;
  }

  /** A message without positions. */
  lemma QuietMessage(
    cfg: Config, w: World, aircraft: seq<Observation>, epoch: real, s: Tracker.State, departed: seq<Entry>)
    requires Update(w.d.tracker, aircraft, epoch, cfg.range) == Outcome(s, departed, [])
    ensures var e := Event(DateMs(epoch), Message(aircraft, epoch));
      var v := MessagedBy(w, aircraft, s, departed, epoch);
      if departed == [] then Leads(cfg, w, e, v) else LeadsOn(cfg, w, e, v, w.d.nextDepart)
  {
    assert Arrivals([]) == [] && AddArrivals(w.d.window, []) == w.d.window;
    assert ItemsOf(BegunWith(w, aircraft), DateMs(epoch), |w.h.log|, []) == [];
    assert w.h.log + [] == w.h.log && w.h.current + [] == w.h.current;
  }

  function Flush(swap: int, f: nat, ref: StrongRef, end: int): seq<Event> {
    [Event(swap, FlushTick), Event(end, SightingPublished(f, ref))]
  }

  /** The record of the only chunk of a window. */
  function RecordOf(d: Core, swap: int): SightingRecord {
    SightingRecord(d.windowStart, swap, Keys(d.window), d.window, SourceList(d.window), None)
  }

  /** The flush of a window with one aircraft and no captures, and its only chunk's publication. */
  ghost function Flushed(w: World, ref: StrongRef, hex: Hex, swap: int): World {
    World(
      w.d.(window := [], windowStart := swap, nextFlush := w.d.nextFlush + 1,
           index := w.d.index[hex := DaemonModel.Lookup(w.d.index, hex) + [ref]]),
      w.h.(current := [],
           closed := w.h.closed + [Closed(w.h.current, [w.d.window], [InSighting(ref)])],
           repository := w.h.repository[ref := RecordOf(w.d, swap)],
           sightings := w.h.sightings + [Accepted(ref, w.d.window, w.h.current)]))
  }

  ghost predicate Settled(w: World) {
    && w.d.flushes == map[] && w.d.nextFlush == |w.h.closed| && w.d.rawCapturePaths == [] && w.h.captures == []
  }

  /** A window of one aircraft is closed, and its only chunk is still to be published. */
  ghost predicate Ticked(w: World, v: World, row: Row, swap: int) {
    && v.d == w.d.(window := [], windowStart := swap, nextFlush := w.d.nextFlush + 1,
                   flushes := map[w.d.nextFlush := FlushTask(w.d.windowStart, swap, [[row]], 0, [], None)])
    && v.h == w.h.(current := [], closed := w.h.closed + [Closed(w.h.current, [[row]], [])])
  }

  lemma TickStep(cfg: Config, w: World, row: Row, swap: int) returns (v: World)
    requires w.d.window == [row] && Fits([row], cfg.size, LEXICON_LIMITS) && Settled(w)
    ensures Leads(cfg, w, Event(swap, FlushTick), v) && Ticked(w, v, row, swap)
  {
    v := Step(cfg, w, Event(swap, FlushTick));
    assert Meet(w.h.captures, OnList, TickFate(cfg, w.d)) == w.h.captures;
  }

  lemma FlushPath(cfg: Config, w: World, row: Row, ref: StrongRef, swap: int, end: int)
    requires w.d.window == [row] && Fits([row], cfg.size, LEXICON_LIMITS) && Settled(w) && IsFreshRef(w.h, ref)
    ensures Path(cfg, w, Flush(swap, w.d.nextFlush, ref, end), Flushed(w, ref, row.hex, swap))
  {
    var f, tick := w.d.nextFlush, Event(swap, FlushTick);
    var last := Event(end, SightingPublished(f, ref));
    var w1 := TickStep(cfg, w, row, swap);
    OnlyChunkStep(cfg, w, w1, row, ref, swap, end);
    PathOf(cfg, w, tick, w1);
    PathOf(cfg, w1, last, Flushed(w, ref, row.hex, swap));
    PathsJoin(cfg, w, [tick], w1, [last], Flushed(w, ref, row.hex, swap));
    assert [tick] + [last] == Flush(swap, f, ref, end);
  }

  /** From w to v the window was published, and departures were left alone. */
  ghost predicate AfterFlush(w: World, v: World, ref: StrongRef, hex: Hex) {
    && v.d.tracker == w.d.tracker && v.d.window == [] && v.d.departs == w.d.departs
    && v.d.nextDepart == w.d.nextDepart && v.d.nextFlush == w.d.nextFlush + 1
    && v.d.index == w.d.index[hex := DaemonModel.Lookup(w.d.index, hex) + [ref]]
    && v.h.clock == w.h.clock && v.h.current == [] && v.h.begun == w.h.begun && v.h.leaving == w.h.leaving
    && v.h.takings == w.h.takings && v.h.inHand == w.h.inHand && v.h.retried == w.h.retried
    && v.h.sightings == w.h.sightings + [Accepted(ref, w.d.window, w.h.current)]
    && v.h.closed == w.h.closed + [Closed(w.h.current, [w.d.window], [InSighting(ref)])] && Settled(v)
  }

  lemma FlushLeads(cfg: Config, w: World, row: Row, ref: StrongRef, swap: int, end: int) returns (v: World)
    requires w.d.window == [row] && Fits([row], cfg.size, LEXICON_LIMITS) && Settled(w) && IsFreshRef(w.h, ref)
    ensures Path(cfg, w, Flush(swap, w.d.nextFlush, ref, end), v) && AfterFlush(w, v, ref, row.hex)
  {
    FlushPath(cfg, w, row, ref, swap, end);
    v := Flushed(w, ref, row.hex, swap);
  }

  lemma OnlyChunkStep(cfg: Config, w: World, w1: World, row: Row, ref: StrongRef, swap: int, end: int)
    requires w.d.window == [row] && Settled(w) && IsFreshRef(w.h, ref) && Ticked(w, w1, row, swap)
    ensures Leads(cfg, w1, Event(end, SightingPublished(w.d.nextFlush, ref)), Flushed(w, ref, row.hex, swap))
  {
    var f := w.d.nextFlush;
    var w2 := Step(cfg, w1, Event(end, SightingPublished(f, ref)));
    assert Keys([row]) == [row.hex] && [row.hex][..0] == [];
    assert IndexAll(w.d.index, [row.hex][..0], ref) == w.d.index;
    assert w2.d.flushes == map[] && [] + [InSighting(ref)] == [InSighting(ref)];
    assert w2.d == Flushed(w, ref, row.hex, swap).d;
    OnlyChunkHistory(w, w1, row, ref, swap);
  }

  lemma OnlyChunkHistory(w: World, w1: World, row: Row, ref: StrongRef, swap: int)
    requires w.d.window == [row] && Settled(w) && Ticked(w, w1, row, swap)
    ensures RecordPublication(w1.d, w1.h, w.d.nextFlush, ref) == Flushed(w, ref, row.hex, swap).h
  {
    assert [] + [InSighting(ref)] == [InSighting(ref)];
    assert AddFate(w1.h.closed, w.d.nextFlush, InSighting(ref))
        == w.h.closed + [Closed(w.h.current, [[row]], [InSighting(ref)])];
    assert GiveUpCaptures(w1.d, w1.h.captures, w.d.nextFlush) == w.h.captures;
  }

  /** Taking for a session with positions: its callback awaits next. */
  ghost function Took(w: World, t: nat, e: Entry, n: nat, rest: seq<Entry>, ns: seq<nat>): World {
    var refs := DaemonModel.Lookup(w.d.index, e.icaoHex);
    World(
      w.d.(index := w.d.index - {e.icaoHex}, departs := w.d.departs[t := DepartTask(rest, Some(Hand(e, refs)))]),
      w.h.(takings := w.h.takings + [Taken(e, n, refs, |w.h.sightings|)], leaving := w.h.leaving[t := ns],
           inHand := w.h.inHand[t := |w.h.takings|]))
  }

  lemma TakeStep(cfg: Config, w: World, t: nat, e: Entry, n: nat, rest: seq<Entry>, ns: seq<nat>)
    requires t in w.d.departs && w.d.departs[t] == DepartTask([e] + rest, None) && e.positionCount > 0
    requires Leaving(w.h, t) == [n] + ns
    ensures Leads(cfg, w, Take(t), Took(w, t, e, n, rest, ns))
  {
    assert ([e] + rest)[1..] == rest && ([n] + ns)[1..] == ns;
  }

  /** Taking for the last session of a message, without positions, only clears the index. */
  ghost function Cleared(w: World, t: nat, e: Entry, n: nat): World {
    World(
      w.d.(index := w.d.index - {e.icaoHex}, departs := w.d.departs[t := DepartTask([], None)]),
      w.h.(takings := w.h.takings + [Taken(e, n, DaemonModel.Lookup(w.d.index, e.icaoHex), |w.h.sightings|)],
           leaving := w.h.leaving[t := []]))
  }

  lemma ClearStep(cfg: Config, w: World, t: nat, e: Entry, n: nat)
    requires t in w.d.departs && w.d.departs[t] == DepartTask([e], None) && e.positionCount == 0
    requires Leaving(w.h, t) == [n]
    ensures Leads(cfg, w, Take(t), Cleared(w, t, e, n))
  {
    assert [e][1..] == [] && [n][1..] == [];
  }

  // ---- flushed in time ----

  ghost predicate TimelyFrom(cfg: Config, w: World, events: seq<Event>, hex: Hex)
    decreases |events|
  {
    events != [] ==> Timely(cfg, w, events[0], hex) && TimelyFrom(cfg, Step(cfg, w, events[0]), events[1..], hex)
  }

  lemma OneMoreTimely(cfg: Config, first: seq<Event>, e: Event, hex: Hex)
    requires TimelyRun(cfg, first, hex) && Timely(cfg, Run(cfg, first), e, hex)
    ensures TimelyRun(cfg, first + [e], hex)
  {
    var longer := first + [e];
    forall k | 0 <= k < |longer| ensures Timely(cfg, Run(cfg, longer[..k]), longer[k], hex) {
      assert longer[..k] == first[..k];
      assert first[..|first|] == first;
    }
  }

  lemma RunSnoc(cfg: Config, first: seq<Event>, e: Event)
    ensures Run(cfg, first + [e]) == Step(cfg, Run(cfg, first), e)
  {
    assert (first + [e])[..|first|] == first;
  }

  lemma {:induction false} TimelyFromIsTimelyRun(cfg: Config, first: seq<Event>, events: seq<Event>, hex: Hex)
    requires TimelyRun(cfg, first, hex) && TimelyFrom(cfg, Run(cfg, first), events, hex)
    ensures TimelyRun(cfg, first + events, hex)
    decreases |events|
  {
    if events == [] {
      assert first + events == first;
    } else {
      OneMoreTimely(cfg, first, events[0], hex);
      RunSnoc(cfg, first, events[0]);
      assert first + [events[0]] + events[1..] == first + events;
      TimelyFromIsTimelyRun(cfg, first + [events[0]], events[1..], hex);
    }
  }

  lemma {:induction false} TimelyJoin(cfg: Config, w: World, first: seq<Event>, second: seq<Event>, hex: Hex)
    requires TimelyFrom(cfg, w, first, hex) && TimelyFrom(cfg, Thereafter(cfg, w, first), second, hex)
    ensures TimelyFrom(cfg, w, first + second, hex)
    decreases |first|
  {
    if first == [] {
      assert first + second == second;
    } else {
      assert (first + second)[1..] == first[1..] + second;
      TimelyJoin(cfg, Step(cfg, w, first[0]), first[1..], second, hex);
    }
  }

  ghost function AfterAppear(cfg: Config, w: World, ac: Observation, seen: real): World
    requires Positioned(ac)
  {
    MessagedBy(Positions(w, ac, seen), [ac], One(Open(ac, seen, cfg.range)), [], seen)
  }

  ghost function AfterSilence(w: World, e: Entry, gone: real): World {
    MessagedBy(w, [], EMPTY, [e], gone)
  }

  lemma AppearPath(cfg: Config, w: World, ac: Observation, seen: real)
    requires Positioned(ac) && w.d.tracker == EMPTY && w.d.window == [] && w.h.current == []
    ensures Path(cfg, w, [Appear(ac, seen)], AfterAppear(cfg, w, ac, seen))
    ensures Begun(AfterAppear(cfg, w, ac, seen).h.begun, ac.icaoHex) == Begun(w.h.begun, ac.icaoHex) + 1
    ensures Seen(w, ac, seen).session == Begun(w.h.begun, ac.icaoHex) + 1
  {
    FirstUpdate(ac, seen, cfg.range);
    AppearStep(cfg, w, ac, seen, One(Open(ac, seen, cfg.range)));
    PathOf(cfg, w, Appear(ac, seen), AfterAppear(cfg, w, ac, seen));
    SessionsOfOne(w, ac, ac.icaoHex);
  }

  /** From w to u one aircraft appeared in an empty tracker, with its first position of a session. */
  ghost predicate Appeared(w: World, u: World, e: Entry, row: Row, it: Item, seen: int) {
    && u.d.tracker == One(e) && u.d.window == [row] && u.h.current == [it] && u.h.clock == seen
    && it.hex == e.icaoHex && it.session == Begun(w.h.begun, e.icaoHex) + 1
    && (forall hex :: Begun(u.h.begun, hex) == Begun(w.h.begun, hex) + (if hex == e.icaoHex then 1 else 0))
    && u.d.index == w.d.index && u.d.nextDepart == w.d.nextDepart + 1
    && u.d.departs == w.d.departs[w.d.nextDepart := DepartTask([], None)]
    && u.h.takings == w.h.takings && u.h.inHand == w.h.inHand && SameFlushes(w, u)
  }

  lemma AppearLeads(cfg: Config, w: World, ac: Observation, seen: real) returns (u: World)
    requires Positioned(ac) && w.d.tracker == EMPTY && w.d.window == [] && w.h.current == []
    ensures Path(cfg, w, [Appear(ac, seen)], u)
    ensures Appeared(w, u, Open(ac, seen, cfg.range), Chunk(ac, seen)[0], Seen(w, ac, seen), DateMs(seen))
  {
    AppearPath(cfg, w, ac, seen);
    u := AfterAppear(cfg, w, ac, seen);
    forall hex ensures Begun(u.h.begun, hex) == Begun(w.h.begun, hex) + (if hex == ac.icaoHex then 1 else 0) {
      SessionsOfOne(w, ac, hex);
    }
  }

  /** Nothing that a flush or a drain does has happened. */
  ghost predicate SameFlushes(w: World, v: World) {
    && v.h.sightings == w.h.sightings && v.h.retried == w.h.retried
    && v.d.flushes == w.d.flushes && v.d.nextFlush == w.d.nextFlush && v.h.closed == w.h.closed
    && v.d.rawCapturePaths == w.d.rawCapturePaths && v.h.captures == w.h.captures
  }

  /** From w to v one departure took what the index had, and nothing else changed that matters here. */
  ghost predicate Departed(w: World, v: World, e: Entry) {
    && v.h.takings == w.h.takings
         + [Taken(e, Begun(w.h.begun, e.icaoHex), DaemonModel.Lookup(w.d.index, e.icaoHex), |w.h.sightings|)]
    && v.d.index == w.d.index - {e.icaoHex} && SameFlushes(w, v)
    && Begun(v.h.begun, e.icaoHex) == Begun(w.h.begun, e.icaoHex)
    && v.d.tracker == EMPTY && v.d.window == w.d.window && v.h.current == w.h.current
    && v.d.nextDepart == w.d.nextDepart + 1
  }

  /** A single aircraft departs, and its refs are taken in the same breath. */
  lemma DepartPath(cfg: Config, w: World, e: Entry, gone: real) returns (v: World)
    requires w.d.tracker == One(e) && IsOverdue(e, DateMs(gone)) && e.positionCount > 0
    ensures Path(cfg, w, [Silence(gone), Take(w.d.nextDepart)], v) && Departed(w, v, e)
  {
    var t, n := w.d.nextDepart, Begun(w.h.begun, e.icaoHex);
    var u := AfterSilence(w, e, gone);
    LastUpdate(e, gone, cfg.range);
    QuietMessage(cfg, w, [], gone, EMPTY, [e]);
    NobodyMentioned(w, e.icaoHex);
    assert [e] + [] == [e] && SessionsOf(BegunWith(w, []), [e]) == [n] + [];
    TakeStep(cfg, u, t, e, n, [], []);
    v := Took(u, t, e, n, [], []);
    PathOfTwo(cfg, w, Silence(gone), Take(t), u, v, t);
  }

  lemma NobodyMentioned(w: World, hex: Hex)
    ensures Begun(BegunWith(w, []), hex) == Begun(w.h.begun, hex)
  {
    assert Mentioned([]) == {};
  }

  ghost predicate AllSettled(closed: seq<Closed>) {
    forall f :: 0 <= f < |closed| ==> |closed[f].chunks| <= |closed[f].fates|
  }

  lemma NothingPending(h: History, it: Item)
    requires AllSettled(h.closed) && h.current == []
    ensures !Pending(h, it)
  {
  }

  lemma NothingWaiting(d: Core, hex: Hex)
    requires forall t :: t in d.departs ==> d.departs[t].waiting == []
    ensures !IsWaiting(d, hex)
  {
  }

  lemma AppearIsTimely(cfg: Config, ac: Observation, seen: real, hex: Hex)
    requires Positioned(ac) && 0 <= DateMs(seen)
    ensures TimelyFrom(cfg, BEGINNING, [Appear(ac, seen)], hex)
  {
    FirstUpdate(ac, seen, cfg.range);
    forall it ensures !Pending(NO_HISTORY, it) {
      NothingPending(NO_HISTORY, it);
    }
    NothingWaiting(INITIAL, hex);
    assert [Appear(ac, seen)][1..] == [];
  }

  lemma FlushIsTimely(cfg: Config, w: World, row: Row, ref: StrongRef, swap: int, end: int, hex: Hex)
    requires w.d.window == [row] && Fits([row], cfg.size, LEXICON_LIMITS) && Settled(w)
    requires forall t :: t in w.d.departs ==> w.d.departs[t].waiting == []
    ensures TimelyFrom(cfg, w, Flush(swap, w.d.nextFlush, ref, end), hex)
  {
    var events := Flush(swap, w.d.nextFlush, ref, end);
    var w1 := TickStep(cfg, w, row, swap);
    NothingWaiting(w1.d, hex);
    assert events[1..] == [Event(end, SightingPublished(w.d.nextFlush, ref))] && events[1..][1..] == [];
  }

  lemma DepartIsTimely(cfg: Config, w: World, e: Entry, gone: real, hex: Hex)
    requires w.d.tracker == One(e) && IsOverdue(e, DateMs(gone)) && w.h.clock <= DateMs(gone)
    requires AllSettled(w.h.closed) && w.h.current == []
    requires forall t :: t in w.d.departs ==> w.d.departs[t].waiting == []
    ensures TimelyFrom(cfg, w, [Silence(gone), Take(w.d.nextDepart)], hex)
  {
    var events := [Silence(gone), Take(w.d.nextDepart)];
    LastUpdate(e, gone, cfg.range);
    forall it ensures !Pending(w.h, it) {
      NothingPending(w.h, it);
    }
    NothingWaiting(w.d, hex);
    assert events[1..] == [Take(w.d.nextDepart)] && events[1..][1..] == [];
  }

  /** The world in which one aircraft has been seen, flushed and published. */
  ghost predicate OneSeen(w: World, e: Entry, seen: int, s: Accepted) {
    && w.d.tracker == One(e) && w.h.clock == seen && w.d.window == [] && w.h.current == []
    && Settled(w) && AllSettled(w.h.closed) && w.d.nextFlush == 1
    && w.d.nextDepart == 1 && (forall t :: t in w.d.departs ==> w.d.departs[t].waiting == [])
    && w.h.takings == [] && w.h.inHand == map[] && w.h.sightings == [s] && w.h.retried == []
    && w.d.index == map[e.icaoHex := [s.ref]]
    && (forall hex :: Begun(w.h.begun, hex) == if hex == e.icaoHex then 1 else 0)
  }

  function SightingOf(ac: Observation, seen: real, ref: StrongRef, it: Item): Accepted
    requires Positioned(ac)
  {
    Accepted(ref, Chunk(ac, seen), [it])
  }

  lemma SeenPath(cfg: Config, ac: Observation, seen: real, swap: int, ref: StrongRef, end: int) returns (w: World)
    requires Positioned(ac) && Fits(Chunk(ac, seen), cfg.size, LEXICON_LIMITS)
    ensures Path(cfg, BEGINNING, [Appear(ac, seen)] + Flush(swap, 0, ref, end), w)
    ensures OneSeen(w, Open(ac, seen, cfg.range), DateMs(seen), SightingOf(ac, seen, ref, Seen(BEGINNING, ac, seen)))
    ensures Seen(BEGINNING, ac, seen).session == 1
  {
    var u := AppearLeads(cfg, BEGINNING, ac, seen);
    w := FlushLeads(cfg, u, Chunk(ac, seen)[0], ref, swap, end);
    PathsJoin(cfg, BEGINNING, [Appear(ac, seen)], u, Flush(swap, 0, ref, end), w);
    assert [] + [ref] == [ref];
  }

  lemma SeenIsTimely(cfg: Config, ac: Observation, seen: real, swap: int, ref: StrongRef, end: int, hex: Hex)
    requires Positioned(ac) && Fits(Chunk(ac, seen), cfg.size, LEXICON_LIMITS) && 0 <= DateMs(seen)
    ensures TimelyFrom(cfg, BEGINNING, [Appear(ac, seen)] + Flush(swap, 0, ref, end), hex)
  {
    AppearPath(cfg, BEGINNING, ac, seen);
    AppearIsTimely(cfg, ac, seen, hex);
    FlushIsTimely(cfg, AfterAppear(cfg, BEGINNING, ac, seen), Chunk(ac, seen)[0], ref, swap, end, hex);
    TimelyJoin(cfg, BEGINNING, [Appear(ac, seen)], Flush(swap, 0, ref, end), hex);
  }

  /** Seen, flushed and published, then silent for a minute of message time. */
  function InTimeRun(ac: Observation, seen: real, swap: int, ref: StrongRef, end: int, gone: real): seq<Event> {
    [Appear(ac, seen)] + Flush(swap, 0, ref, end) + [Silence(gone), Take(1)]
  }

  /** There are runs the code can take that are timely for every aircraft, with something to take. */
  lemma InTimeTakesItsSighting(
    cfg: Config, ac: Observation, seen: real, swap: int, ref: StrongRef, end: int, gone: real, hex: Hex)
    requires Positioned(ac) && Fits(Chunk(ac, seen), cfg.size, LEXICON_LIMITS)
    requires 0 <= DateMs(seen) <= DateMs(gone) - DEPARTURE_THRESHOLD_MS
    ensures var events := InTimeRun(ac, seen, swap, ref, end, gone);
      && AsWritten(cfg, BEGINNING, events) && TimelyRun(cfg, events, hex)
      && Run(cfg, events).h.takings == [Taken(Open(ac, seen, cfg.range), 1, [ref], 1)]
  {
    var first, second := [Appear(ac, seen)] + Flush(swap, 0, ref, end), [Silence(gone), Take(1)];
    var w := SeenPath(cfg, ac, seen, swap, ref, end);
    var v := DepartPath(cfg, w, Open(ac, seen, cfg.range), gone);
    PathsAreRun(cfg, first, w, second, v);
    InTimeIsTimely(cfg, ac, seen, swap, ref, end, gone, hex);
  }

  lemma InTimeIsTimely(
    cfg: Config, ac: Observation, seen: real, swap: int, ref: StrongRef, end: int, gone: real, hex: Hex)
    requires Positioned(ac) && Fits(Chunk(ac, seen), cfg.size, LEXICON_LIMITS)
    requires 0 <= DateMs(seen) <= DateMs(gone) - DEPARTURE_THRESHOLD_MS
    ensures TimelyRun(cfg, InTimeRun(ac, seen, swap, ref, end, gone), hex)
  {
    var first, second := [Appear(ac, seen)] + Flush(swap, 0, ref, end), [Silence(gone), Take(1)];
    var w := SeenPath(cfg, ac, seen, swap, ref, end);
    SeenIsTimely(cfg, ac, seen, swap, ref, end, hex);
    DepartIsTimely(cfg, w, Open(ac, seen, cfg.range), gone, hex);
    TimelyJoin(cfg, BEGINNING, first, second, hex);
    TimelyFromIsTimelyRun(cfg, [], first + second, hex);
    assert [] + (first + second) == first + second;
  }

  // ---- flushed too late ----

  /** A session from its only position to its departure, with no flush in between. */
  function Session(ac: Observation, seen: real, gone: real, t: nat): seq<Event> {
    [Appear(ac, seen)] + [Silence(gone), Take(t)]
  }

  /** From w to v one session passed: it took what the index had, and left its position in the window. */
  ghost predicate SessionPassed(w: World, v: World, e: Entry, n: nat, row: Row, it: Item) {
    && v.h.takings == w.h.takings + [Taken(e, n, DaemonModel.Lookup(w.d.index, e.icaoHex), |w.h.sightings|)]
    && v.d.index == w.d.index - {e.icaoHex} && SameFlushes(w, v)
    && v.d.tracker == EMPTY && v.d.window == [row] && v.h.current == [it] && it.hex == e.icaoHex && it.session == n
    && Begun(v.h.begun, e.icaoHex) == n && v.d.nextDepart == w.d.nextDepart + 2
  }

  lemma AppearedAndDeparted(w: World, u: World, v: World, e: Entry, row: Row, it: Item, seen: int)
    requires Appeared(w, u, e, row, it, seen) && Departed(u, v, e)
    ensures SessionPassed(w, v, e, Begun(w.h.begun, e.icaoHex) + 1, row, it)
  {
  }

  lemma SessionPath(cfg: Config, w: World, ac: Observation, seen: real, gone: real) returns (v: World)
    requires Positioned(ac) && w.d.tracker == EMPTY && w.d.window == [] && w.h.current == []
    requires DateMs(seen) <= DateMs(gone) - DEPARTURE_THRESHOLD_MS
    ensures Path(cfg, w, Session(ac, seen, gone, w.d.nextDepart + 1), v)
    ensures SessionPassed(w, v, Open(ac, seen, cfg.range), Begun(w.h.begun, ac.icaoHex) + 1, Chunk(ac, seen)[0],
                          Seen(w, ac, seen))
  {
    var u: World;
    u, v := SessionLeads(cfg, w, ac, seen, gone);
    AppearedAndDeparted(w, u, v, Open(ac, seen, cfg.range), Chunk(ac, seen)[0], Seen(w, ac, seen), DateMs(seen));
  }

  lemma SessionLeads(cfg: Config, w: World, ac: Observation, seen: real, gone: real) returns (u: World, v: World)
    requires Positioned(ac) && w.d.tracker == EMPTY && w.d.window == [] && w.h.current == []
    requires DateMs(seen) <= DateMs(gone) - DEPARTURE_THRESHOLD_MS
    ensures Appeared(w, u, Open(ac, seen, cfg.range), Chunk(ac, seen)[0], Seen(w, ac, seen), DateMs(seen))
    ensures Departed(u, v, Open(ac, seen, cfg.range))
    ensures Path(cfg, w, Session(ac, seen, gone, w.d.nextDepart + 1), v)
  {
    u := AppearLeads(cfg, w, ac, seen);
    v := DepartPath(cfg, u, Open(ac, seen, cfg.range), gone);
    PathsJoin(cfg, w, [Appear(ac, seen)], u, [Silence(gone), Take(w.d.nextDepart + 1)], v);
  }

  lemma OneSighting(s: Accepted, hex: Hex, session: nat, other: nat)
    requires |s.chunk| == 1 && s.chunk[0].hex == hex && |s.items| == 1
    requires s.items[0].hex == hex && s.items[0].session == session && other != session
    ensures RefsFor([s], hex, session) == [s.ref] && RefsFor([s], hex, other) == []
  {
    assert [s][..0] == [];
  }

  /** One aircraft, once departed, whose only sighting came too late. */
  ghost predicate Missed(w: World, e: Entry, s: Accepted) {
    && w.d.tracker == EMPTY && w.d.window == [] && w.h.current == [] && w.d.nextDepart == 2
    && w.h.takings == [Taken(e, 1, [], 0)] && w.h.sightings == [s] && w.h.retried == []
    && DaemonModel.Lookup(w.d.index, e.icaoHex) == [s.ref] && Begun(w.h.begun, e.icaoHex) == 1
    && |s.chunk| == 1 && s.chunk[0].hex == e.icaoHex && |s.items| == 1
    && s.items[0].hex == e.icaoHex && s.items[0].session == 1
  }

  /** The first session departs; the flush comes after it. */
  lemma MissedSighting(
    cfg: Config, ac: Observation, seen: real, gone: real, swap: int, ref: StrongRef, end: int)
    returns (w: World, s: Accepted)
    requires Positioned(ac) && Fits(Chunk(ac, seen), cfg.size, LEXICON_LIMITS)
    requires DateMs(seen) <= DateMs(gone) - DEPARTURE_THRESHOLD_MS
    ensures Path(cfg, BEGINNING, Session(ac, seen, gone, 1) + Flush(swap, 0, ref, end), w)
    ensures Missed(w, Open(ac, seen, cfg.range), s) && s.ref == ref
  {
    var v: World;
    v, w := MissedLeads(cfg, ac, seen, gone, swap, ref, end);
    s := Accepted(ref, v.d.window, v.h.current);
    PassedAndFlushed(v, w, Open(ac, seen, cfg.range), Chunk(ac, seen)[0], Seen(BEGINNING, ac, seen), ref);
  }

  lemma MissedLeads(
    cfg: Config, ac: Observation, seen: real, gone: real, swap: int, ref: StrongRef, end: int)
    returns (v: World, w: World)
    requires Positioned(ac) && Fits(Chunk(ac, seen), cfg.size, LEXICON_LIMITS)
    requires DateMs(seen) <= DateMs(gone) - DEPARTURE_THRESHOLD_MS
    ensures Path(cfg, BEGINNING, Session(ac, seen, gone, 1) + Flush(swap, 0, ref, end), w)
    ensures SessionPassed(BEGINNING, v, Open(ac, seen, cfg.range), 1, Chunk(ac, seen)[0], Seen(BEGINNING, ac, seen))
    ensures AfterFlush(v, w, ref, ac.icaoHex)
  {
    v := SessionPath(cfg, BEGINNING, ac, seen, gone);
    w := ThenFlush(cfg, BEGINNING, Session(ac, seen, gone, 1), v, Chunk(ac, seen)[0], ref, swap, end);
  }

  lemma ThenFlush(
    cfg: Config, w: World, first: seq<Event>, v: World, row: Row, ref: StrongRef, swap: int, end: int)
    returns (u: World)
    requires Path(cfg, w, first, v) && v.d.window == [row] && Fits([row], cfg.size, LEXICON_LIMITS)
    requires Settled(v) && IsFreshRef(v.h, ref)
    ensures Path(cfg, w, first + Flush(swap, v.d.nextFlush, ref, end), u) && AfterFlush(v, u, ref, row.hex)
  {
    u := FlushLeads(cfg, v, row, ref, swap, end);
    PathsJoin(cfg, w, first, v, Flush(swap, v.d.nextFlush, ref, end), u);
  }

  lemma PassedAndFlushed(v: World, w: World, e: Entry, row: Row, it: Item, ref: StrongRef)
    requires SessionPassed(BEGINNING, v, e, 1, row, it) && AfterFlush(v, w, ref, row.hex) && row.hex == e.icaoHex
    ensures Missed(w, e, Accepted(ref, v.d.window, v.h.current))
  {
    assert [] + [ref] == [ref];
  }

  /** The next session takes what the first one missed. */
  lemma ForeignSighting(
    cfg: Config, w: World, e: Entry, s: Accepted, again: Observation, seen: real, gone: real) returns (v: World)
    requires Missed(w, e, s) && Positioned(again) && again.icaoHex == e.icaoHex
    requires DateMs(seen) <= DateMs(gone) - DEPARTURE_THRESHOLD_MS
    ensures Path(cfg, w, Session(again, seen, gone, 3), v) && v.h.sightings == [s] && v.h.retried == []
    ensures v.h.takings == [Taken(e, 1, [], 0), Taken(Open(again, seen, cfg.range), 2, [s.ref], 1)]
  {
    v := SessionPath(cfg, w, again, seen, gone);
  }

  /**
   A window that outlives the departure: the first session departs without a sighting although its
   only position is published afterwards, and the next session of the aircraft departs with that
   sighting, which holds none of its positions.  The two may even have begun at the same time.
   */
  lemma LateFlushMisplacesTheSighting(
    cfg: Config, ac: Observation, seen: real, gone: real, swap: int, ref: StrongRef, end: int,
    again: Observation, seen': real, gone': real)
    requires Positioned(ac) && Positioned(again) && again.icaoHex == ac.icaoHex
    requires DateMs(seen) <= DateMs(gone) - DEPARTURE_THRESHOLD_MS
    requires DateMs(seen') <= DateMs(gone') - DEPARTURE_THRESHOLD_MS
    requires Fits(Chunk(ac, seen), cfg.size, LEXICON_LIMITS)
    ensures var events := Session(ac, seen, gone, 1) + Flush(swap, 0, ref, end) + Session(again, seen', gone', 3);
      var h := Run(cfg, events).h;
      && AsWritten(cfg, BEGINNING, events)
      && h.takings == [Taken(Open(ac, seen, cfg.range), 1, [], 0), Taken(Open(again, seen', cfg.range), 2, [ref], 1)]
      && RefsFor(Everything(h), ac.icaoHex, 1) == [ref] && RefsFor(Everything(h), ac.icaoHex, 2) == []
  {
    var first, second := Session(ac, seen, gone, 1) + Flush(swap, 0, ref, end), Session(again, seen', gone', 3);
    var w, s := MissedSighting(cfg, ac, seen, gone, swap, ref, end);
    var v := ForeignSighting(cfg, w, Open(ac, seen, cfg.range), s, again, seen', gone');
    PathsAreRun(cfg, first, w, second, v);
    assert Everything(v.h) == [s];
    OneSighting(s, ac.icaoHex, 1, 2);
  }

  // ---- overtaken ----

  /** Two aircraft are seen, each published in a window of its own. */
  function TwoSeen(
    b: Observation, seen: real, refB: StrongRef, ac: Observation, seen': real, ref: StrongRef, swap: int): seq<Event>
  {
    [Appear(b, seen)] + Flush(swap, 0, refB, swap) + ([Appear(ac, seen')] + Flush(swap, 1, ref, swap))
  }

  /** What the overtaking needs to know of the world in which both wait to fall silent. */
  ghost predicate BothSeen(w: World, eb: Entry, refB: StrongRef, ea: Entry, ref: StrongRef) {
    && w.d.tracker == Two(eb, ea) && w.d.window == [] && w.d.nextDepart == 2
    && w.h.takings == [] && w.h.inHand == map[] && |w.h.sightings| == 2
    && DaemonModel.Lookup(w.d.index, eb.icaoHex) == [refB] && DaemonModel.Lookup(w.d.index, ea.icaoHex) == [ref]
    && Begun(w.h.begun, eb.icaoHex) == 1 && Begun(w.h.begun, ea.icaoHex) == 1
    && RefsFor(Everything(w.h), ea.icaoHex, 1) == [ref]
  }

  /** The second aircraft appears beside the first. */
  lemma SecondAppears(cfg: Config, w: World, eb: Entry, s: Accepted, seen: int, ac: Observation, seen': real)
    returns (u: World)
    requires OneSeen(w, eb, seen, s) && Positioned(ac) && ac.icaoHex != eb.icaoHex && !IsOverdue(eb, DateMs(seen'))
    ensures Path(cfg, w, [Appear(ac, seen')], u)
    ensures u.d.tracker == Two(eb, Open(ac, seen', cfg.range)) && u.d.window == Chunk(ac, seen') && u.d.nextDepart == 2
    ensures u.h.current == [Seen(w, ac, seen')] && Seen(w, ac, seen').session == 1
    ensures Begun(u.h.begun, eb.icaoHex) == 1 && Begun(u.h.begun, ac.icaoHex) == 1
    ensures u.d.index == w.d.index && u.h.takings == [] && u.h.inHand == map[] && SameFlushes(w, u)
  {
    var ea := Open(ac, seen', cfg.range);
    SecondUpdate(eb, ac, seen', cfg.range);
    AppearStep(cfg, w, ac, seen', Two(eb, ea));
    u := MessagedBy(Positions(w, ac, seen'), [ac], Two(eb, ea), [], seen');
    PathOf(cfg, w, Appear(ac, seen'), u);
    SessionsOfOne(w, ac, eb.icaoHex);
    SessionsOfOne(w, ac, ea.icaoHex);
  }

  lemma SecondPath(
    cfg: Config, w: World, eb: Entry, s: Accepted, seen: int, ac: Observation, seen': real, ref: StrongRef, swap: int)
    returns (v: World)
    requires OneSeen(w, eb, seen, s) && |s.chunk| == 1 && s.chunk[0].hex == eb.icaoHex && s.ref != ref
    requires Positioned(ac) && ac.icaoHex != eb.icaoHex && !IsOverdue(eb, DateMs(seen'))
    requires Fits(Chunk(ac, seen'), cfg.size, LEXICON_LIMITS)
    ensures Path(cfg, w, [Appear(ac, seen')] + Flush(swap, 1, ref, swap), v)
    ensures BothSeen(v, eb, s.ref, Open(ac, seen', cfg.range), ref)
  {
    var u := SecondAppears(cfg, w, eb, s, seen, ac, seen');
    v := FlushLeads(cfg, u, Chunk(ac, seen')[0], ref, swap, swap);
    PathsJoin(cfg, w, [Appear(ac, seen')], u, Flush(swap, 1, ref, swap), v);
    var t := SightingOf(ac, seen', ref, Seen(w, ac, seen'));
    TwoSightings(s, t, ac.icaoHex, 1);
    assert [] + [ref] == [ref] && Everything(v.h) == [s, t];
  }

  lemma TwoSeenPath(
    cfg: Config, b: Observation, seen: real, refB: StrongRef, ac: Observation, seen': real, ref: StrongRef, swap: int)
    returns (w: World)
    requires Positioned(b) && Positioned(ac) && b.icaoHex != ac.icaoHex && refB != ref
    requires DateMs(seen) <= DateMs(seen') < DateMs(seen) + DEPARTURE_THRESHOLD_MS
    requires Fits(Chunk(b, seen), cfg.size, LEXICON_LIMITS) && Fits(Chunk(ac, seen'), cfg.size, LEXICON_LIMITS)
    ensures Path(cfg, BEGINNING, TwoSeen(b, seen, refB, ac, seen', ref, swap), w)
    ensures BothSeen(w, Open(b, seen, cfg.range), refB, Open(ac, seen', cfg.range), ref)
  {
    var u := SeenPath(cfg, b, seen, swap, refB, swap);
    var s := SightingOf(b, seen, refB, Seen(BEGINNING, b, seen));
    w := SecondPath(cfg, u, Open(b, seen, cfg.range), s, DateMs(seen), ac, seen', ref, swap);
    PathsJoin(cfg, BEGINNING, [Appear(b, seen)] + Flush(swap, 0, refB, swap), u,
              [Appear(ac, seen')] + Flush(swap, 1, ref, swap), w);
  }

  lemma TwoSightings(s: Accepted, t: Accepted, hex: Hex, session: nat)
    requires |s.chunk| == 1 && s.chunk[0].hex != hex
    requires |t.chunk| == 1 && t.chunk[0].hex == hex
    requires |t.items| == 1 && t.items[0].hex == hex && t.items[0].session == session
    ensures RefsFor([s, t], hex, session) == [t.ref]
  {
    assert [s, t][..1] == [s] && [s][..0] == [];
    assert Holds(t, hex, session) && !HasRow(s.chunk, hex);
    assert RefsFor([s], hex, session) == [];
  }

  /** Nothing has been published since. */
  ghost predicate SameSightings(w: World, v: World) {
    v.h.sightings == w.h.sightings && v.h.retried == w.h.retried
  }

  /** Both fall silent; the first is taken in hand, the second waits behind it. */
  lemma BothDepartPath(cfg: Config, w: World, eb: Entry, refB: StrongRef, ea: Entry, ref: StrongRef, gone: real)
    returns (v: World)
    requires BothSeen(w, eb, refB, ea, ref) && eb.icaoHex != ea.icaoHex && eb.positionCount > 0
    requires IsOverdue(eb, DateMs(gone)) && IsOverdue(ea, DateMs(gone))
    ensures Path(cfg, w, [Silence(gone), Take(2)], v)
    ensures v.d.tracker == EMPTY && v.d.nextDepart == 3 && SameSightings(w, v)
    ensures 2 in v.d.departs && v.d.departs[2].waiting == [ea] && v.d.departs[2].hand.Some? && Leaving(v.h, 2) == [1]
    ensures DaemonModel.Lookup(v.d.index, ea.icaoHex) == [ref] && v.h.takings == [Taken(eb, 1, [refB], 2)]
    ensures Begun(v.h.begun, ea.icaoHex) == 1
  {
    var u := MessagedBy(w, [], EMPTY, [eb, ea], gone);
    LastTwoUpdate(eb, ea, gone, cfg.range);
    QuietMessage(cfg, w, [], gone, EMPTY, [eb, ea]);
    NobodyMentioned(w, eb.icaoHex);
    NobodyMentioned(w, ea.icaoHex);
    assert [eb] + [ea] == [eb, ea] && SessionsOf(BegunWith(w, []), [eb, ea]) == [1] + [1];
    TakeStep(cfg, u, 2, eb, 1, [ea], [1]);
    v := Took(u, 2, eb, 1, [ea], [1]);
    PathOfTwo(cfg, w, Silence(gone), Take(2), u, v, 2);
  }

  /** A single aircraft without positions departs: all it does is clear the index. */
  lemma EmptyDepartPath(cfg: Config, w: World, e: Entry, gone: real) returns (v: World)
    requires w.d.tracker == One(e) && IsOverdue(e, DateMs(gone)) && e.positionCount == 0
    ensures Path(cfg, w, [Silence(gone), Take(w.d.nextDepart)], v) && Glimpsed(w, v, e, Begun(w.h.begun, e.icaoHex))
  {
    var t, n := w.d.nextDepart, Begun(w.h.begun, e.icaoHex);
    var u := SilenceLeads(cfg, w, e, gone);
    ClearStep(cfg, u, t, e, n);
    v := Cleared(u, t, e, n);
    PathOfTwo(cfg, w, Silence(gone), Take(t), u, v, t);
    ClearedIsGlimpsed(w, u, e, n);
  }

  lemma ClearedIsGlimpsed(w: World, u: World, e: Entry, n: nat)
    requires u.d.departs == w.d.departs[w.d.nextDepart := DepartTask([e], None)]
    requires u.h.leaving == w.h.leaving[w.d.nextDepart := [n]]
    requires u.d.index == w.d.index && u.h.takings == w.h.takings && SameSightings(w, u)
    ensures Glimpsed(w, Cleared(u, w.d.nextDepart, e, n), e, n)
  {
  }

  /** A single aircraft falls silent: its departure waits, and is reached at once. */
  lemma SilenceLeads(cfg: Config, w: World, e: Entry, gone: real) returns (u: World)
    requires w.d.tracker == One(e) && IsOverdue(e, DateMs(gone))
    ensures LeadsOn(cfg, w, Silence(gone), u, w.d.nextDepart)
    ensures u.d.departs == w.d.departs[w.d.nextDepart := DepartTask([e], None)]
    ensures u.h.leaving == w.h.leaving[w.d.nextDepart := [Begun(w.h.begun, e.icaoHex)]]
    ensures u.d.index == w.d.index && u.h.takings == w.h.takings && SameSightings(w, u)
  {
    LastUpdate(e, gone, cfg.range);
    QuietMessage(cfg, w, [], gone, EMPTY, [e]);
    NobodyMentioned(w, e.icaoHex);
    u := AfterSilence(w, e, gone);
    assert SessionsOf(BegunWith(w, []), [e]) == [Begun(w.h.begun, e.icaoHex)];
  }

  /** Earlier departures still wait where they did. */
  ghost predicate SameWaiting(w: World, v: World, next: nat) {
    forall t :: t in w.d.departs && t < next ==>
      t in v.d.departs && v.d.departs[t] == w.d.departs[t] && Leaving(v.h, t) == Leaving(w.h, t)
  }

  ghost predicate Glimpsed(w: World, v: World, e: Entry, n: nat) {
    && SameSightings(w, v) && DaemonModel.Lookup(v.d.index, e.icaoHex) == []
    && v.h.takings == w.h.takings + [Taken(e, n, DaemonModel.Lookup(w.d.index, e.icaoHex), |w.h.sightings|)]
    && SameWaiting(w, v, w.d.nextDepart)
  }

  /** The second aircraft is glimpsed without a position and departs again, with nobody before it. */
  lemma GlimpsePath(cfg: Config, w: World, ac: Observation, again: real, gone: real) returns (v: World)
    requires !Positioned(ac) && w.d.tracker == EMPTY
    requires DateMs(again) <= DateMs(gone) - DEPARTURE_THRESHOLD_MS
    ensures Path(cfg, w, [Appear(ac, again)] + [Silence(gone), Take(w.d.nextDepart + 1)], v)
    ensures Glimpsed(w, v, Open(ac, again, cfg.range), Begun(w.h.begun, ac.icaoHex) + 1)
  {
    var u := GlimpseMessage(cfg, w, ac, again);
    v := EmptyDepartPath(cfg, u, Open(ac, again, cfg.range), gone);
    PathsJoin(cfg, w, [Appear(ac, again)], u, [Silence(gone), Take(w.d.nextDepart + 1)], v);
  }

  lemma GlimpseMessage(cfg: Config, w: World, ac: Observation, again: real) returns (u: World)
    requires !Positioned(ac) && w.d.tracker == EMPTY
    ensures Path(cfg, w, [Appear(ac, again)], u)
    ensures var e := Open(ac, again, cfg.range);
      && u.d.tracker == One(e) && e.positionCount == 0 && e.lastSeen == DateMs(again)
      && u.d.nextDepart == w.d.nextDepart + 1 && u.d.index == w.d.index
      && SameSightings(w, u) && u.h.takings == w.h.takings && SameWaiting(w, u, w.d.nextDepart)
      && Begun(u.h.begun, ac.icaoHex) == Begun(w.h.begun, ac.icaoHex) + 1
  {
    var e := Open(ac, again, cfg.range);
    u := MessagedBy(w, [ac], One(e), [], again);
    FirstUpdate(ac, again, cfg.range);
    QuietMessage(cfg, w, [ac], again, One(e), []);
    PathOf(cfg, w, Appear(ac, again), u);
    SessionsOfOne(w, ac, ac.icaoHex);
  }

  /** The first departure ends without an identity, and the second is reached in the same breath. */
  lemma ReachedPath(cfg: Config, w: World, t: nat, e: Entry, n: nat) returns (v: World)
    requires t in w.d.departs && w.d.departs[t].waiting == [e] && w.d.departs[t].hand.Some? && e.positionCount > 0
    requires Leaving(w.h, t) == [n]
    ensures Path(cfg, w, [Event(0, FlightDone(t, NoIdentity)), Take(t)], v)
    ensures SameSightings(w, v)
    ensures v.h.takings == w.h.takings + [Taken(e, n, DaemonModel.Lookup(w.d.index, e.icaoHex), |w.h.sightings|)]
  {
    var done := Event(0, FlightDone(t, NoIdentity));
    var u := Step(cfg, w, done);
    assert [e] + [] == [e] && [n] + [] == [n];
    TakeStep(cfg, u, t, e, n, [], []);
    v := Took(u, t, e, n, [], []);
    PathOfTwo(cfg, w, done, Take(t), u, v, t);
  }

  /** Both depart; the second is glimpsed and departs again; then the first is over and the second is reached. */
  function Overtaking(gone: real, glimpse: Observation, again: real, gone': real): seq<Event> {
    [Silence(gone), Take(2)] + ([Appear(glimpse, again)] + [Silence(gone'), Take(4)])
    + [Event(0, FlightDone(2, NoIdentity)), Take(2)]
  }

  /**
   Publishing in time is not enough.  Two aircraft depart at one message, and while the publication for
   the first is awaited the second is glimpsed without a position and departs again.  That departure,
   with nobody before it, is reached first and throws the sighting away.
   */
  lemma OvertakenDepartureLosesItsSighting(
    cfg: Config, b: Observation, seen: real, refB: StrongRef, ac: Observation, seen': real, ref: StrongRef, swap: int,
    gone: real, glimpse: Observation, again: real, gone': real)
    requires Positioned(b) && Positioned(ac) && b.icaoHex != ac.icaoHex && refB != ref
    requires DateMs(seen) <= DateMs(seen') < DateMs(seen) + DEPARTURE_THRESHOLD_MS
    requires DateMs(seen') <= DateMs(gone) - DEPARTURE_THRESHOLD_MS
    requires Fits(Chunk(b, seen), cfg.size, LEXICON_LIMITS) && Fits(Chunk(ac, seen'), cfg.size, LEXICON_LIMITS)
    requires !Positioned(glimpse) && glimpse.icaoHex == ac.icaoHex
    requires DateMs(again) <= DateMs(gone') - DEPARTURE_THRESHOLD_MS
    ensures var events := TwoSeen(b, seen, refB, ac, seen', ref, swap) + Overtaking(gone, glimpse, again, gone');
      var h := Run(cfg, events).h;
      && AsWritten(cfg, BEGINNING, events)
      && h.takings == [Taken(Open(b, seen, cfg.range), 1, [refB], 2),
                       Taken(Open(glimpse, again, cfg.range), 2, [ref], 2), Taken(Open(ac, seen', cfg.range), 1, [], 2)]
      && RefsFor(Everything(h), ac.icaoHex, 1) == [ref]
  {
    var w := TwoSeenPath(cfg, b, seen, refB, ac, seen', ref, swap);
    var eb, ea := Open(b, seen, cfg.range), Open(ac, seen', cfg.range);
    var v := OvertakingPath(cfg, w, eb, refB, ea, ref, gone, glimpse, again, gone');
    var first, rest := TwoSeen(b, seen, refB, ac, seen', ref, swap), Overtaking(gone, glimpse, again, gone');
    PathsAreRun(cfg, first, w, rest, v);
  }

  lemma OvertakingPath(
    cfg: Config, w: World, eb: Entry, refB: StrongRef, ea: Entry, ref: StrongRef,
    gone: real, glimpse: Observation, again: real, gone': real)
    returns (v: World)
    requires BothSeen(w, eb, refB, ea, ref) && eb.icaoHex != ea.icaoHex && eb.positionCount > 0 && ea.positionCount > 0
    requires IsOverdue(eb, DateMs(gone)) && IsOverdue(ea, DateMs(gone))
    requires !Positioned(glimpse) && glimpse.icaoHex == ea.icaoHex
    requires DateMs(again) <= DateMs(gone') - DEPARTURE_THRESHOLD_MS
    ensures Path(cfg, w, Overtaking(gone, glimpse, again, gone'), v)
    ensures v.h.takings ==
      [Taken(eb, 1, [refB], 2), Taken(Open(glimpse, again, cfg.range), 2, [ref], 2), Taken(ea, 1, [], 2)]
    ensures SameSightings(w, v)
  {
    v := OvertakingLeads(cfg, w, eb, refB, ea, ref, gone, glimpse, again, gone');
    assert v.h.takings == [Taken(eb, 1, [refB], 2)] + [Taken(Open(glimpse, again, cfg.range), 2, [ref], 2)]
                          + [Taken(ea, 1, [], 2)];
  }

  lemma OvertakingLeads(
    cfg: Config, w: World, eb: Entry, refB: StrongRef, ea: Entry, ref: StrongRef,
    gone: real, glimpse: Observation, again: real, gone': real)
    returns (v: World)
    requires BothSeen(w, eb, refB, ea, ref) && eb.icaoHex != ea.icaoHex && eb.positionCount > 0 && ea.positionCount > 0
    requires IsOverdue(eb, DateMs(gone)) && IsOverdue(ea, DateMs(gone))
    requires !Positioned(glimpse) && glimpse.icaoHex == ea.icaoHex
    requires DateMs(again) <= DateMs(gone') - DEPARTURE_THRESHOLD_MS
    ensures Path(cfg, w, Overtaking(gone, glimpse, again, gone'), v)
    ensures SameSightings(w, v) && |w.h.sightings| == 2
    ensures v.h.takings == [Taken(eb, 1, [refB], 2)] + [Taken(Open(glimpse, again, cfg.range), 2, [ref], 2)]
                           + [Taken(ea, 1, [], 2)]
  {
    var u1 := BothDepartPath(cfg, w, eb, refB, ea, ref, gone);
    var u2 := GlimpsePath(cfg, u1, glimpse, again, gone');
    v := ReachedPath(cfg, u2, 2, ea, 1);
    ThreeJoin(cfg, w, [Silence(gone), Take(2)], u1, [Appear(glimpse, again)] + [Silence(gone'), Take(4)], u2,
              [Event(0, FlightDone(2, NoIdentity)), Take(2)], v);
  }

  // ---- refused, and published by a drain ----

  /** What a refused sighting leaves behind: a queue entry that a drain reads once it is due. */
  function QueuedAt(d: Core, swap: int): Queue.QueueEntry {
    Queue.QueueEntry(1, Record.Sighting(RecordOf(d, swap)), 0)
  }

  /** The window is closed, its only chunk refused, and published by a drain under a ref of its own. */
  function Retry(d: Core, swap: int, end: int, due: int, ref: StrongRef): seq<Event> {
    [Event(swap, FlushTick), Event(end, SightingRefused(0)),
     Event(due, Drain(Queue.Begin([QueuedAt(d, swap)], due))), Event(due, Resent(0, ref))]
  }

  /** In front of the first flush, with an empty queue and one position in the window. */
  ghost predicate Untouched(w: World, row: Row) {
    && w.d.window == [row] && Settled(w) && w.h.closed == [] && w.d.queue == Queue.START && w.h.mail == Queue.NOTHING
    && w.h.sightings == [] && w.h.retried == []
  }

  /** From w to v nothing changed for departures, and the window was published by a drain only. */
  ghost predicate ByDrain(w: World, v: World, ref: StrongRef) {
    && v.d.tracker == w.d.tracker && v.d.index == w.d.index && v.d.nextDepart == w.d.nextDepart
    && v.h.takings == w.h.takings && v.h.begun == w.h.begun
    && v.h.sightings == [] && v.h.retried == [Accepted(ref, w.d.window, w.h.current)]
  }

  lemma RefusedStep(cfg: Config, w: World, w1: World, row: Row, swap: int, end: int) returns (v: World)
    requires Untouched(w, row) && Ticked(w, w1, row, swap)
    ensures Leads(cfg, w1, Event(end, SightingRefused(0)), v)
    ensures v.d == w1.d.(flushes := map[], queue := v.d.queue)
    ensures v.d.queue.table == Queue.Enqueue(Queue.START.table, Record.Sighting(RecordOf(w.d, swap)), end)
    ensures v.d.queue.drains == map[] && v.d.queue.nextDrain == 0
    ensures v.h.takings == w.h.takings && v.h.begun == w.h.begun && v.h.sightings == [] && v.h.retried == []
    ensures v.h.refused == w.h.refused[1 := w.h.current]
  {
    v := Step(cfg, w1, Event(end, SightingRefused(0)));
    assert w1.h.closed == [Closed(w.h.current, [[row]], [])];
    assert TaskRecord(w1.d.flushes[0]) == Some(RecordOf(w.d, swap));
  }

  lemma DrainPath(cfg: Config, w: World, v1: World, swap: int, end: int, due: int, ref: StrongRef) returns (v: World)
    requires v1.d.queue.table == Queue.Enqueue(Queue.START.table, Record.Sighting(RecordOf(w.d, swap)), end)
    requires v1.d.queue.drains == map[] && v1.d.queue.nextDrain == 0 && end + Queue.BASE_DELAY_MS <= due
    requires v1.h.sightings == [] && v1.h.retried == [] && 1 in v1.h.refused
    ensures Path(cfg, v1, [Event(due, Drain(Queue.Begin([QueuedAt(w.d, swap)], due))), Event(due, Resent(0, ref))], v)
    ensures v.d == v1.d.(queue := v.d.queue)
    ensures v.h.takings == v1.h.takings && v.h.begun == v1.h.begun && v.h.sightings == []
    ensures v.h.retried == [Accepted(ref, w.d.window, v1.h.refused[1])]
  {
    var first, last := Event(due, Drain(Queue.Begin([QueuedAt(w.d, swap)], due))), Event(due, Resent(0, ref));
    var v2 := Step(cfg, v1, first);
    assert Queue.IsReadyList(v1.d.queue.table, due, [QueuedAt(w.d, swap)]) by {
      assert forall id :: Queue.IsReady(v1.d.queue.table, id, due) ==> id == 1;
      assert [QueuedAt(w.d, swap)][0].id == 1;
    }
    assert v2.d.queue.drains == map[0 := [QueuedAt(w.d, swap)]];
    PathOf(cfg, v1, first, v2);
    v := ResentStep(cfg, v2, QueuedAt(w.d, swap), due, ref);
    PathOf(cfg, v2, last, v);
    PathsJoin(cfg, v1, [first], v2, [last], v);
    assert [first] + [last] == [first, last];
  }

  lemma ResentStep(cfg: Config, w: World, entry: Queue.QueueEntry, due: int, ref: StrongRef) returns (v: World)
    requires w.d.queue.drains == map[0 := [entry]] && entry.record.Sighting? && entry.id in w.h.refused
    requires w.h.sightings == [] && w.h.retried == []
    ensures Leads(cfg, w, Event(due, Resent(0, ref)), v)
    ensures v.d == w.d.(queue := v.d.queue)
    ensures v.h.takings == w.h.takings && v.h.begun == w.h.begun && v.h.sightings == []
    ensures v.h.retried == [Accepted(ref, entry.record.sighting.telemetry, w.h.refused[entry.id])]
  {
    v := Step(cfg, w, Event(due, Resent(0, ref)));
  }

  lemma RetryPath(cfg: Config, w: World, row: Row, swap: int, end: int, due: int, ref: StrongRef) returns (v: World)
    requires Untouched(w, row) && Fits([row], cfg.size, LEXICON_LIMITS) && end + Queue.BASE_DELAY_MS <= due
    ensures Path(cfg, w, Retry(w.d, swap, end, due, ref), v) && ByDrain(w, v, ref)
  {
    var tick, refused := Event(swap, FlushTick), Event(end, SightingRefused(0));
    var w1 := TickStep(cfg, w, row, swap);
    var w2 := RefusedStep(cfg, w, w1, row, swap, end);
    v := DrainPath(cfg, w, w2, swap, end, due, ref);
    PathOf(cfg, w, tick, w1);
    PathOf(cfg, w1, refused, w2);
    ThreeJoin(cfg, w, [tick], w1, [refused], w2,
              [Event(due, Drain(Queue.Begin([QueuedAt(w.d, swap)], due))), Event(due, Resent(0, ref))], v);
    assert [tick] + [refused] + [Event(due, Drain(Queue.Begin([QueuedAt(w.d, swap)], due))), Event(due, Resent(0, ref))]
        == Retry(w.d, swap, end, due, ref);
  }

  function RetryRun(
    cfg: Config, ac: Observation, seen: real, swap: int, end: int, due: int, ref: StrongRef, gone: real): seq<Event>
    requires Positioned(ac)
  {
    [Appear(ac, seen)] + Retry(INITIAL.(window := Chunk(ac, seen)), swap, end, due, ref) + [Silence(gone), Take(1)]
  }

  /**
   A sighting that is refused and that a drain publishes before the departure is not cited: nobody enters its
   ref in the index.  The session departs with no ref, although its only position is published.
   */
  lemma RetriedSightingIsNeverCited(
    cfg: Config, ac: Observation, seen: real, swap: int, end: int, due: int, ref: StrongRef, gone: real)
    requires Positioned(ac) && Fits(Chunk(ac, seen), cfg.size, LEXICON_LIMITS)
    requires DateMs(seen) <= DateMs(gone) - DEPARTURE_THRESHOLD_MS && end + Queue.BASE_DELAY_MS <= due
    ensures var events := RetryRun(cfg, ac, seen, swap, end, due, ref, gone);
      var h := Run(cfg, events).h;
      && AsWritten(cfg, BEGINNING, events)
      && h.takings == [Taken(Open(ac, seen, cfg.range), 1, [], 0)]
      && RefsFor(Everything(h), ac.icaoHex, 1) == [ref]
  {
    var e, d := Open(ac, seen, cfg.range), INITIAL.(window := Chunk(ac, seen));
    var w := AfterAppear(cfg, BEGINNING, ac, seen);
    AppearPath(cfg, BEGINNING, ac, seen);
    assert RecordOf(w.d, swap) == RecordOf(d, swap) && QueuedAt(w.d, swap) == QueuedAt(d, swap);
    var u := RetryPath(cfg, w, Chunk(ac, seen)[0], swap, end, due, ref);
    var v := DepartPath(cfg, u, e, gone);
    PathsJoin(cfg, BEGINNING, [Appear(ac, seen)], w, Retry(d, swap, end, due, ref), u);
    PathsAreRun(cfg, [Appear(ac, seen)] + Retry(d, swap, end, due, ref), u, [Silence(gone), Take(1)], v);
    var s := Accepted(ref, Chunk(ac, seen), [Seen(BEGINNING, ac, seen)]);
    assert Everything(v.h) == [s];
    OneSighting(s, ac.icaoHex, 1, 2);
  }
}
