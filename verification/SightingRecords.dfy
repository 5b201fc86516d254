/**
 What sighting records say.  The record of every chunk, published or queued, holds exactly that chunk: its
 positions, its aircraft and its sources; and the window it names begins at one tick and ends at the next.
 */
module SightingRecords {
  import opened Wrappers
  import opened Tracker
  import opened Beast
  import opened Batch
  import opened DaemonModel
  import opened Conservation
  import opened Frames
  import opened Provenance
  import opened Captures

  datatype Bounds = Bounds(from: int, to: int)

  /** When the last tick was; zero stands for the start of the daemon. */
  function LastTick(events: seq<Event>): int {
    if events == [] then 0
    else
      var last := events[|events| - 1];
      if last.act.FlushTick? then last.at else LastTick(events[..|events| - 1])
  }

  /** The bounds of the windows that were swapped out with positions in them: from tick to tick. */
  ghost function Windows(cfg: Config, events: seq<Event>): seq<Bounds> {
    if events == [] then []
    else
      var front, last := events[..|events| - 1], events[|events| - 1];
      if last.act.FlushTick? && Run(cfg, front).d.window != [] then
        Windows(cfg, front) + [Bounds(LastTick(front), last.at)]
      else Windows(cfg, front)
  }

  /** The record is that of the chunk and the window. */
  ghost predicate TellsChunk(r: SightingRecord, b: Bounds, chunk: Telemetry) {
    && r.windowStart == b.from && r.windowEnd == b.to && r.telemetry == chunk
    && AllDifferent(r.manifest) && (forall hex :: hex in r.manifest <==> HasRow(chunk, hex))
    && Ascending(r.sources)
    && (forall x :: x in r.sources <==> exists row, p :: row in chunk && p in row.reports && p.source == x)
  }

  // ---- the invariant ----

  ghost predicate FlushesKnow(d: Core, windows: seq<Bounds>) {
    forall f :: f in d.flushes ==>
      f < |windows| && d.flushes[f].windowStart == windows[f].from && d.flushes[f].windowEnd == windows[f].to
  }

  /** The record of a settled chunk that is not lost. */
  ghost predicate RecordTells(h: History, windows: seq<Bounds>, f: nat, k: nat)
    requires f < |h.closed| && k < |h.closed[f].fates|
  {
    h.closed[f].fates[k].Lost? ||
      (&& RecordOfChunk(h, f, k).Some? && f < |windows| && k < |h.closed[f].chunks|
       && TellsChunk(RecordOfChunk(h, f, k).value, windows[f], h.closed[f].chunks[k]))
  }

  ghost predicate AllTell(w: World, windows: seq<Bounds>) {
    && |windows| == |w.h.closed| && FlushesKnow(w.d, windows)
    && forall f, k :: 0 <= f < |w.h.closed| && 0 <= k < |w.h.closed[f].fates| ==> RecordTells(w.h, windows, f, k)
  }

  // ---- a record is made ----

  lemma ChunkIsOrdered(w: World, f: nat, k: nat)
    requires Conservation.Inv(w) && f < |w.h.closed| && k < |w.h.closed[f].chunks|
    ensures KeyOrdered(w.h.closed[f].chunks[k])
  {
    var c := w.h.closed[f];
    assert WellSplit(c);
    WindowKeepsArrivals(ToArrivals(c.items), "");
    ChunkKeyOrdered(c.chunks, k);
  }

  lemma BuiltTells(windowStart: int, windowEnd: int, chunk: Telemetry, rawCapture: Option<Bytes>)
    requires KeyOrdered(chunk) && chunk != []
    ensures var r := BuildBatchRecord(windowStart, windowEnd, chunk, SourceList(chunk), rawCapture);
      r.Some? && TellsChunk(r.value, Bounds(windowStart, windowEnd), chunk)
  {
    var r := BuildBatchRecord(windowStart, windowEnd, chunk, SourceList(chunk), rawCapture).value;
    SourceListSorts(chunk);
    forall hex ensures AllDifferent(r.manifest) && (hex in r.manifest <==> HasRow(chunk, hex)) {
      ManifestListsTheAircraft(chunk, hex);
    }
  }

  lemma TaskTells(w: World, windows: seq<Bounds>, f: nat)
    requires Conservation.Inv(w) && FlushesKnow(w.d, windows) && |windows| == |w.h.closed| && Flushing(w.d, f)
    ensures f < |w.h.closed| && |w.h.closed[f].fates| < |w.h.closed[f].chunks|
    ensures TaskRecord(w.d.flushes[f]).Some?
    ensures TellsChunk(TaskRecord(w.d.flushes[f]).value, windows[f], w.h.closed[f].chunks[|w.h.closed[f].fates|])
  {
    var c, task := w.h.closed[f], w.d.flushes[f];
    assert WellSplit(c) && Tracks(w.d, f, c);
    ChunkIsOrdered(w, f, task.next);
    BuiltTells(task.windowStart, task.windowEnd, c.chunks[task.next], if task.next == 0 then task.rawCapture else None);
  }

  // ---- each step ----

  lemma OldRecordTells(h: History, h': History, windows: seq<Bounds>, windows': seq<Bounds>, f: nat, k: nat)
    requires FatesInv(h) && Bounded(h.closed) && RecordsStay(h, h') && windows <= windows'
    requires f < |h.closed| && f < |h'.closed| && k < |h.closed[f].fates| && RecordTells(h, windows, f, k)
    requires h.closed[f].fates <= h'.closed[f].fates && h'.closed[f].chunks == h.closed[f].chunks
    ensures RecordTells(h', windows', f, k)
  {
    assert h'.closed[f].fates[k] == h.closed[f].fates[k];
    FatesAreKnown(h);
    assert FateKnown(h, h.closed[f].fates[k]);
  }

  lemma TellingExtends(w: World, w': World, windows: seq<Bounds>, windows': seq<Bounds>)
    requires AllTell(w, windows) && windows <= windows' && FatesInv(w.h) && Bounded(w.h.closed)
    requires RecordsStay(w.h, w'.h) && Extends(w.h.closed, w'.h.closed)
    requires |windows'| == |w'.h.closed| && FlushesKnow(w'.d, windows')
    requires forall f: nat, k: nat :: NewFate(w.h.closed, w'.h.closed, f, k) ==> RecordTells(w'.h, windows', f, k)
    ensures AllTell(w', windows')
  {
    forall f, k | 0 <= f < |w'.h.closed| && 0 <= k < |w'.h.closed[f].fates| ensures RecordTells(w'.h, windows', f, k) {
      if f < |w.h.closed| && k < |w.h.closed[f].fates| {
        OldRecordTells(w.h, w'.h, windows, windows', f, k);
      } else {
        assert NewFate(w.h.closed, w'.h.closed, f, k);
      }
    }
  }

  /** The only new fate is that of the next chunk of a flush. */
  lemma NewRecordTells(h: History, h': History, windows: seq<Bounds>, f: nat, fate: Fate)
    requires f < |h.closed| && h'.closed == AddFate(h.closed, f, fate) && f < |windows|
    requires |h.closed[f].fates| < |h.closed[f].chunks|
    requires RecordOfChunk(h', f, |h.closed[f].fates|).Some?
    requires TellsChunk(RecordOfChunk(h', f, |h.closed[f].fates|).value, windows[f],
                        h.closed[f].chunks[|h.closed[f].fates|])
    ensures forall g: nat, k: nat :: NewFate(h.closed, h'.closed, g, k) ==> RecordTells(h', windows, g, k)
  {
    assert RecordTells(h', windows, f, |h.closed[f].fates|);
  }

  lemma PublishedTells(cfg: Config, w: World, e: Event, windows: seq<Bounds>)
    requires Conservation.Inv(w) && AllTell(w, windows) && e.act.SightingPublished? && Possible(cfg, w, e.act)
    ensures var h' := Step(cfg, w, e).h;
      forall f: nat, k: nat :: NewFate(w.h.closed, h'.closed, f, k) ==> RecordTells(h', windows, f, k)
  {
    TaskTells(w, windows, e.act.flush);
    PublishedRecord(cfg, w, e);
    StepCloses(cfg, w, e);
    NewRecordTells(w.h, Step(cfg, w, e).h, windows, e.act.flush, InSighting(e.act.ref));
  }

  lemma RefusedTells(cfg: Config, w: World, e: Event, windows: seq<Bounds>)
    requires Conservation.Inv(w) && AllTell(w, windows) && e.act.SightingRefused? && Possible(cfg, w, e.act)
    ensures var h' := Step(cfg, w, e).h;
      forall f: nat, k: nat :: NewFate(w.h.closed, h'.closed, f, k) ==> RecordTells(h', windows, f, k)
  {
    TaskTells(w, windows, e.act.refused);
    RefusedSighting(cfg, w, e);
    StepCloses(cfg, w, e);
    RefusedFate(cfg, w, e.act.refused);
    NewRecordTells(w.h, Step(cfg, w, e).h, windows, e.act.refused, InQueue(w.d.queue.table.nextId));
  }

  lemma NewTell(cfg: Config, w: World, e: Event, windows: seq<Bounds>)
    requires Conservation.Inv(w) && AllTell(w, windows) && Possible(cfg, w, e.act)
    ensures var h' := Step(cfg, w, e).h;
      forall f: nat, k: nat :: NewFate(w.h.closed, h'.closed, f, k) ==> RecordTells(h', windows, f, k)
  {
    if e.act.SightingPublished? {
      PublishedTells(cfg, w, e, windows);
    } else if e.act.SightingRefused? {
      RefusedTells(cfg, w, e, windows);
    } else if e.act.UploadFailed? || e.act.FlushTick? {
      StepCloses(cfg, w, e);
      LostAreLost(cfg, w, e.act);
    } else {
      SettledNothing(cfg, w, e);
    }
  }

  /** A tick begins a flush of the window between it and the one before. */
  lemma TickKnows(cfg: Config, w: World, e: Event, windows: seq<Bounds>)
    requires FlushInv(w.d, w.h) && FlushesKnow(w.d, windows) && |windows| == |w.h.closed| && e.act.FlushTick?
    ensures var windows' := if w.d.window == [] then windows else windows + [Bounds(w.d.windowStart, e.at)];
      && FlushesKnow(Step(cfg, w, e).d, windows') && |windows'| == |Step(cfg, w, e).h.closed|
      && Step(cfg, w, e).d.windowStart == e.at
  {
    StepCloses(cfg, w, e);
  }

  /** Apart from a tick, a flush keeps its window while it lasts, and none begins. */
  ghost predicate FlushesLast(d: Core, d': Core) {
    && d'.windowStart == d.windowStart
    && forall f :: f in d'.flushes ==>
         f in d.flushes && d'.flushes[f].windowStart == d.flushes[f].windowStart
         && d'.flushes[f].windowEnd == d.flushes[f].windowEnd
  }

  lemma RefusalLasts(d: Core, f: nat, now: int)
    requires Flushing(d, f)
    ensures FlushesLast(d, OnSightingRefused(d, f, now))
  {
    RefusalChanges(d, f, now);
    assert OnSightingRefused(d, f, now).flushes == Advance(d.flushes, f);
  }

  lemma AttemptLasts(cfg: Config, w: World, e: Event)
    requires Possible(cfg, w, e.act) && (IsAttempt(e.act) || e.act.RawUploaded?)
    ensures FlushesLast(w.d, Step(cfg, w, e).d)
  {
    match e.act
    case RawUploaded(_, _) =>
    case UploadFailed(_) =>
    case SightingPublished(_, _) =>
    case SightingRefused(f) => RefusalLasts(w.d, f, e.at);
  }

  lemma OtherKnows(cfg: Config, w: World, e: Event, windows: seq<Bounds>)
    requires FlushInv(w.d, w.h) && FlushesKnow(w.d, windows) && |windows| == |w.h.closed|
    requires !e.act.FlushTick? && Possible(cfg, w, e.act)
    ensures FlushesKnow(Step(cfg, w, e).d, windows) && |windows| == |Step(cfg, w, e).h.closed|
    ensures Step(cfg, w, e).d.windowStart == w.d.windowStart
  {
    StepCloses(cfg, w, e);
    if IsAttempt(e.act) || e.act.RawUploaded? {
      AttemptLasts(cfg, w, e);
    } else if e.act.Message? {
      MessageTouches(cfg, w, e);
    } else {
      WindowsStay(cfg, w, e);
    }
  }

  lemma StepKeepsTelling(cfg: Config, w: World, e: Event, windows: seq<Bounds>)
    requires Conservation.Inv(w) && PlacesInv(w.d, w.h.captures) && AllTell(w, windows) && Possible(cfg, w, e.act)
    ensures AllTell(Step(cfg, w, e),
                    if e.act.FlushTick? && w.d.window != [] then windows + [Bounds(w.d.windowStart, e.at)] else windows)
  {
    var windows' :=
      if e.act.FlushTick? && w.d.window != [] then windows + [Bounds(w.d.windowStart, e.at)] else windows;
    if e.act.FlushTick? {
      TickKnows(cfg, w, e, windows);
    } else {
      OtherKnows(cfg, w, e, windows);
    }
    NewTell(cfg, w, e, windows);
    RecordsDoStay(cfg, w, e);
    WindowsBounded(w.d, w.h);
    StepExtends(cfg, w, e);
    NewTellLonger(w.h, Step(cfg, w, e).h, windows, windows');
    TellingExtends(w, Step(cfg, w, e), windows, windows');
  }

  lemma NewTellLonger(h: History, h': History, windows: seq<Bounds>, windows': seq<Bounds>)
    requires windows <= windows'
    requires forall f: nat, k: nat :: NewFate(h.closed, h'.closed, f, k) ==> RecordTells(h', windows, f, k)
    ensures forall f: nat, k: nat :: NewFate(h.closed, h'.closed, f, k) ==> RecordTells(h', windows', f, k)
  {
  }

  lemma {:induction false} RunTells(cfg: Config, events: seq<Event>)
    ensures AllTell(Run(cfg, events), Windows(cfg, events))
    ensures Run(cfg, events).d.windowStart == LastTick(events)
  {
    if events != [] {
      var n := |events| - 1;
      var w, e := Run(cfg, events[..n]), events[n];
      RunTells(cfg, events[..n]);
      RunInv(cfg, events[..n]);
      RunPlaces(cfg, events[..n]);
      if Possible(cfg, w, e.act) {
        StepKeepsTelling(cfg, w, e, Windows(cfg, events[..n]));
        if e.act.FlushTick? {
          TickKnows(cfg, w, e, Windows(cfg, events[..n]));
        } else {
          OtherKnows(cfg, w, e, Windows(cfg, events[..n]));
        }
      }
    }
  }
}
