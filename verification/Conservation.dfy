/**
 Position conservation over whole runs: every report the tracker emitted is, at every moment, in
 the current window or in exactly one chunk of one closed window, in emission order per aircraft;
 and every chunk has exactly one fate.  No timing is assumed.
 */
module Conservation {
  import opened Wrappers
  import opened Tracker
  import opened Batch
  import opened Blobs
  import opened Records
  import opened DaemonModel
  import opened Frames
  import Queue

  function ClosedItems(closed: seq<Closed>): seq<Item> {
    if closed == [] then [] else ClosedItems(closed[..|closed| - 1]) + closed[|closed| - 1].items
  }

  ghost predicate WellSplit(c: Closed) {
    && Concat(c.chunks) == Accumulate(ToArrivals(c.items))
    && (forall k :: 0 <= k < |c.chunks| ==> c.chunks[k] != [])
    && |c.fates| <= |c.chunks|
  }

  /** A closed window is still being flushed exactly when some chunk has no fate yet. */
  ghost predicate Tracks(d: Core, f: nat, c: Closed) {
    && (f in d.flushes <==> |c.fates| < |c.chunks|)
    && (f in d.flushes ==> d.flushes[f].chunks == c.chunks && d.flushes[f].next == |c.fates|)
  }

  ghost predicate LogInv(d: Core, h: History) {
    && h.log == ClosedItems(h.closed) + h.current
    && d.window == Accumulate(ToArrivals(h.current))
  }

  ghost predicate FlushInv(d: Core, h: History) {
    && |h.closed| == d.nextFlush
    && (forall f :: f in d.flushes ==> f < d.nextFlush)
    && (forall f :: 0 <= f < |h.closed| ==> WellSplit(h.closed[f]) && Tracks(d, f, h.closed[f]))
  }

  ghost predicate WindowsInv(d: Core, h: History) {
    LogInv(d, h) && FlushInv(d, h)
  }

  /** A published chunk is a published sighting; a refused one is in the retry queue's books. */
  ghost predicate FateHolds(h: History, c: Closed, k: nat)
    requires k < |c.fates| <= |c.chunks|
  {
    match c.fates[k]
    case InSighting(ref) => Accepted(ref, c.chunks[k], c.items) in h.sightings
    case InQueue(id) =>
      && id in h.mail.put && h.mail.put[id].Sighting? && h.mail.put[id].sighting.telemetry == c.chunks[k]
      && id in h.refused && h.refused[id] == c.items
    case Lost => true
  }

  ghost predicate FatesInv(h: History) {
    && (forall f, k :: 0 <= f < |h.closed| && 0 <= k < |h.closed[f].fates| <= |h.closed[f].chunks| ==>
          FateHolds(h, h.closed[f], k))
    && (forall s :: s in h.sightings ==> Traced(h, s))
  }

  ghost predicate IsFateOf(h: History, f: nat, k: nat, s: Accepted) {
    && f < |h.closed| && k < |h.closed[f].fates| <= |h.closed[f].chunks|
    && h.closed[f].fates[k] == InSighting(s.ref)
    && s.chunk == h.closed[f].chunks[k] && s.items == h.closed[f].items
  }

  /** A published sighting is some chunk of some closed window. */
  ghost predicate Traced(h: History, s: Accepted) {
    exists f: nat, k: nat :: IsFateOf(h, f, k, s)
  }

  ghost predicate IsQueued(h: History, f: nat, k: nat, id: nat) {
    && f < |h.closed| && k < |h.closed[f].fates| <= |h.closed[f].chunks|
    && h.closed[f].fates[k] == InQueue(id)
  }

  /** A sighting that was put in the retry queue is some refused chunk of some closed window. */
  ghost predicate Queued(h: History, id: nat) {
    exists f: nat, k: nat :: IsQueued(h, f, k, id)
  }

  ghost predicate IsRetryOf(h: History, f: nat, k: nat, id: nat, r: Accepted) {
    && IsQueued(h, f, k, id) && id in h.mail.acked
    && r.chunk == h.closed[f].chunks[k] && r.items == h.closed[f].items
  }

  /** What a drain published is a chunk that had been refused. */
  ghost predicate Retried(h: History, r: Accepted) {
    exists f: nat, k: nat, id: nat :: IsRetryOf(h, f, k, id, r)
  }

  ghost predicate RetriesInv(h: History) {
    && (forall id :: id in h.mail.put && h.mail.put[id].Sighting? ==> Queued(h, id))
    && (forall r :: r in h.retried ==> Retried(h, r))
  }

  ghost predicate Inv(w: World) {
    WindowsInv(w.d, w.h) && FatesInv(w.h) && RetriesInv(w.h) && Queue.Inv(w.d.queue, w.h.mail)
  }

  /** Nothing is taken out of the books of the retry queue. */
  ghost predicate BooksGrow(h: History, h': History) {
    && (forall id :: id in h.mail.put ==> id in h'.mail.put && h'.mail.put[id] == h.mail.put[id])
    && (forall id :: id in h.mail.put && id in h.refused ==> id in h'.refused && h'.refused[id] == h.refused[id])
    && h.mail.acked <= h'.mail.acked
  }

  // ---- small facts ----

  lemma ToArrivalsConcat(a: seq<Item>, b: seq<Item>)
    ensures ToArrivals(a + b) == ToArrivals(a) + ToArrivals(b)
  {
  }

  lemma ItemsAreArrivals(begun: map<Hex, nat>, at: int, first: nat, arrivals: seq<Arrival>)
    ensures ToArrivals(ItemsOf(begun, at, first, arrivals)) == arrivals
  {
  }

  lemma {:induction false} AccumulateConcat(a: seq<Arrival>, b: seq<Arrival>)
    ensures Accumulate(a + b) == AddArrivals(Accumulate(a), b)
  {
    if b == [] {
      assert a + b == a;
    } else {
      var n := |b| - 1;
      AccumulateConcat(a, b[..n]);
      assert (a + b)[..|a + b| - 1] == a + b[..n];
    }
  }

  lemma {:induction false} AllLostLength(n: int)
    ensures |AllLost(n)| == if n <= 0 then 0 else n
    ensures forall i :: 0 <= i < |AllLost(n)| ==> AllLost(n)[i] == Lost
  {
    if n > 0 { AllLostLength(n - 1); }
  }

  lemma {:induction false} ClosedItemsAddFates(closed: seq<Closed>, f: nat, fates: seq<Fate>)
    requires f < |closed|
    ensures ClosedItems(closed[f := closed[f].(fates := fates)]) == ClosedItems(closed)
  {
    var n := |closed| - 1;
    var closed' := closed[f := closed[f].(fates := fates)];
    if f < n {
      ClosedItemsAddFates(closed[..n], f, fates);
      assert closed'[..n] == closed[..n][f := closed[..n][f].(fates := fates)];
    } else {
      assert closed'[..n] == closed[..n];
    }
  }

  // ---- each step keeps the invariant ----

  lemma ArrivalsKeepLog(before: seq<Item>, current: seq<Item>, items: seq<Item>)
    ensures (before + current) + items == before + (current + items)
    ensures Accumulate(ToArrivals(current + items)) == AddArrivals(Accumulate(ToArrivals(current)), ToArrivals(items))
  {
    ToArrivalsConcat(current, items);
    AccumulateConcat(ToArrivals(current), ToArrivals(items));
  }

  lemma CloseWellSplit(cfg: Config, d: Core, h: History)
    requires WindowsInv(d, h) && d.window != []
    ensures WellSplit(CloseWindow(cfg, d, h)) && CloseWindow(cfg, d, h).chunks != []
  {
    var c := CloseWindow(cfg, d, h);
    assert Concat([d.window]) == Concat([]) + d.window;
    if ChunkTelemetry(d.window, cfg.size, LEXICON_LIMITS).Ok? {
      ChunksPartition(d.window, cfg.size, LEXICON_LIMITS);
      assert c.chunks == [] ==> Concat(c.chunks) == [];
    }
  }

  lemma ClosingKeepsWindows(d: Core, h: History, c: Closed, d': Core, h': History)
    requires WindowsInv(d, h) && WellSplit(c) && c.items == h.current
    requires d'.window == [] && d'.nextFlush == d.nextFlush + 1
    requires if |c.fates| < |c.chunks|
             then exists task: FlushTask :: task.chunks == c.chunks && task.next == |c.fates|
                                            && d'.flushes == d.flushes[d.nextFlush := task]
             else d'.flushes == d.flushes
    requires h'.log == h.log && h'.current == [] && h'.closed == h.closed + [c]
    ensures WindowsInv(d', h')
  {
    assert h'.closed[..|h.closed|] == h.closed;
    assert h'.log == ClosedItems(h'.closed) + [];
    assert ToArrivals([]) == [];
    forall f | 0 <= f < |h'.closed| ensures WellSplit(h'.closed[f]) && Tracks(d', f, h'.closed[f]) {
      if f < |h.closed| {
        assert h'.closed[f] == h.closed[f] && Tracks(d, f, h.closed[f]);
      }
    }
  }

  /** A tick of a window that holds something starts a flush of its chunks, or loses it whole. */
  lemma TickCloses(cfg: Config, d: Core, h: History, at: int)
    requires d.window != [] && CloseWindow(cfg, d, h).chunks != []
    ensures var c, d' := CloseWindow(cfg, d, h), OnFlushTick(cfg, d, at);
      && d'.window == [] && d'.nextFlush == d.nextFlush + 1 && c.items == h.current
      && (if |c.fates| < |c.chunks|
          then exists task: FlushTask :: task.chunks == c.chunks && task.next == |c.fates|
                                         && d'.flushes == d.flushes[d.nextFlush := task]
          else d'.flushes == d.flushes)
  {
    var c, d' := CloseWindow(cfg, d, h), OnFlushTick(cfg, d, at);
    if |c.fates| < |c.chunks| {
      var paths := if cfg.rawCaptureEnabled then d.rawCapturePaths else [];
      var task := FlushTask(d.windowStart, at, c.chunks, 0, paths, None);
      assert d'.flushes == d.flushes[d.nextFlush := task];
    }
  }

  lemma NonEmptyWindow(arrivals: seq<Arrival>)
    ensures Accumulate(arrivals) == [] ==> arrivals == []
  {
    if arrivals != [] {
      var n := |arrivals| - 1;
      WindowKeepsArrivals(arrivals, arrivals[n].hex);
      var i :| 0 <= i < |Accumulate(arrivals)| && Accumulate(arrivals)[i].hex == arrivals[n].hex;
    }
  }

  lemma AdvanceKeepsWindows(d: Core, h: History, f: nat, fate: Fate)
    requires WindowsInv(d, h) && Flushing(d, f)
    ensures WindowsInv(d.(flushes := Advance(d.flushes, f)), h.(closed := AddFate(h.closed, f, fate)))
  {
    ClosedItemsAddFates(h.closed, f, h.closed[f].fates + [fate]);
  }

  lemma UploadFailureKeepsWindows(d: Core, h: History, f: nat)
    requires WindowsInv(d, h) && Flushing(d, f)
    ensures WindowsInv(d.(flushes := d.flushes - {f}), h.(closed := LoseRest(h.closed, f)))
  {
    var c := h.closed[f];
    assert WellSplit(c) && Tracks(d, f, c);
    AllLostLength(|c.chunks| - |c.fates|);
    var fates := c.fates + AllLost(|c.chunks| - |c.fates|);
    ClosedItemsAddFates(h.closed, f, fates);
    assert LoseRest(h.closed, f) == h.closed[f := c.(fates := fates)];
    assert WellSplit(c.(fates := fates));
    SettledKeepsFlush(d, h, f, h.closed[f := c.(fates := fates)]);
  }

  lemma SettledKeepsFlush(d: Core, h: History, f: nat, closed': seq<Closed>)
    requires FlushInv(d, h) && Flushing(d, f) && |closed'| == |h.closed|
    requires forall g :: 0 <= g < |closed'| && g != f ==> closed'[g] == h.closed[g]
    requires WellSplit(closed'[f]) && |closed'[f].fates| == |closed'[f].chunks|
    ensures FlushInv(d.(flushes := d.flushes - {f}), h.(closed := closed'))
  {
    var d' := d.(flushes := d.flushes - {f});
    forall g | 0 <= g < |closed'| ensures WellSplit(closed'[g]) && Tracks(d', g, closed'[g]) {
      assert WellSplit(h.closed[g]) && Tracks(d, g, h.closed[g]);
    }
  }

  lemma FlushFrame(d: Core, h: History, d': Core, h': History)
    requires FlushInv(d, h)
    requires d'.flushes == d.flushes && d'.nextFlush == d.nextFlush && h'.closed == h.closed
    ensures FlushInv(d', h')
  {
  }

  /** Windows depend only on these parts of the world. */
  lemma WindowsFrame(d: Core, h: History, d': Core, h': History)
    requires WindowsInv(d, h)
    requires d'.window == d.window && d'.flushes == d.flushes && d'.nextFlush == d.nextFlush
    requires h'.log == h.log && h'.current == h.current && h'.closed == h.closed
    ensures WindowsInv(d', h')
  {
  }

  lemma StepKeepsWindows(cfg: Config, w: World, e: Event)
    requires WindowsInv(w.d, w.h)
    ensures WindowsInv(Step(cfg, w, e).d, Step(cfg, w, e).h)
  {
    if Possible(cfg, w, e.act) {
      match e.act
      case Message(_, _) => MessageStep(cfg, w, e);
      case FlushTick => TickStep(cfg, w, e);
      case RawUploaded(_, _) => RawStep(cfg, w, e);
      case UploadFailed(_) => FailureStep(cfg, w, e);
      case SightingPublished(_, _) => PublishStep(cfg, w, e);
      case SightingRefused(_) => RefuseStep(cfg, w, e);
      case _ => OtherStep(cfg, w, e);
    }
  }

  lemma OtherStep(cfg: Config, w: World, e: Event)
    requires WindowsInv(w.d, w.h) && (IsDeparture(e.act) || IsDrain(e.act) || e.act.RawCaptured?)
    ensures WindowsInv(Step(cfg, w, e).d, Step(cfg, w, e).h)
  {
    WindowsStay(cfg, w, e);
    WindowsFrame(w.d, w.h, Step(cfg, w, e).d, Step(cfg, w, e).h);
  }

  lemma TickStep(cfg: Config, w: World, e: Event)
    requires WindowsInv(w.d, w.h) && e.act.FlushTick?
    ensures WindowsInv(Step(cfg, w, e).d, Step(cfg, w, e).h)
  {
    TickTouches(cfg, w, e);
    TickResult(cfg, w, e);
    if w.d.window == [] {
      NonEmptyWindow(ToArrivals(w.h.current));
      WindowsFrame(w.d, w.h, Step(cfg, w, e).d, Step(cfg, w, e).h);
    } else {
      CloseWellSplit(cfg, w.d, w.h);
      TickCloses(cfg, w.d, w.h, e.at);
      ClosingKeepsWindows(w.d, w.h, CloseWindow(cfg, w.d, w.h), Step(cfg, w, e).d, Step(cfg, w, e).h);
    }
  }

  lemma TickResult(cfg: Config, w: World, e: Event)
    requires e.act.FlushTick?
    ensures var w' := Step(cfg, w, e);
      && w'.d == OnFlushTick(cfg, w.d, e.at)
      && w'.h.closed == (if w.d.window == [] then w.h.closed else w.h.closed + [CloseWindow(cfg, w.d, w.h)])
      && w'.h.current == (if w.d.window == [] then w.h.current else [])
  {
  }

  lemma FailureStep(cfg: Config, w: World, e: Event)
    requires WindowsInv(w.d, w.h) && e.act.UploadFailed? && Possible(cfg, w, e.act)
    ensures WindowsInv(Step(cfg, w, e).d, Step(cfg, w, e).h)
  {
    var w' := Step(cfg, w, e);
    FailureTouches(cfg, w, e);
    UploadFailureKeepsWindows(w.d, w.h, e.act.upload);
    WindowsFrame(w.d.(flushes := w.d.flushes - {e.act.upload}), w.h.(closed := LoseRest(w.h.closed, e.act.upload)),
                 w'.d, w'.h);
  }

  lemma PublishStep(cfg: Config, w: World, e: Event)
    requires WindowsInv(w.d, w.h) && e.act.SightingPublished? && Possible(cfg, w, e.act)
    ensures WindowsInv(Step(cfg, w, e).d, Step(cfg, w, e).h)
  {
    PublishTouches(cfg, w, e);
    FateStep(w, Step(cfg, w, e), e.act.flush, InSighting(e.act.ref));
  }

  lemma RefuseStep(cfg: Config, w: World, e: Event)
    requires WindowsInv(w.d, w.h) && e.act.SightingRefused? && Possible(cfg, w, e.act)
    ensures WindowsInv(Step(cfg, w, e).d, Step(cfg, w, e).h)
  {
    RefuseTouches(cfg, w, e);
    RefusedChunkHasRecord(w, e.act.refused);
    FateStep(w, Step(cfg, w, e), e.act.refused, InQueue(w.d.queue.table.nextId));
  }

  /** How many sessions have begun once the message is read. */
  function BegunAfter(w: World, e: Event): map<Hex, nat>
    requires e.act.Message?
  {
    OpenSessions(w.h.begun, w.d.tracker, Mentioned(e.act.aircraft))
  }

  lemma MessageStep(cfg: Config, w: World, e: Event)
    requires WindowsInv(w.d, w.h) && e.act.Message?
    ensures WindowsInv(Step(cfg, w, e).d, Step(cfg, w, e).h)
  {
    var o := Update(w.d.tracker, e.act.aircraft, e.act.epoch, cfg.range);
    var begun := BegunAfter(w, e);
    var items := ItemsOf(begun, DateMs(e.act.epoch), |w.h.log|, Arrivals(o.positions));
    ItemsAreArrivals(begun, DateMs(e.act.epoch), |w.h.log|, Arrivals(o.positions));
    ArrivalsKeepLog(ClosedItems(w.h.closed), w.h.current, items);
    var w' := Step(cfg, w, e);
    assert w'.d.window == AddArrivals(w.d.window, ToArrivals(items));
    FlushFrame(w.d, w.h, w'.d, w'.h);
  }

  lemma FateStep(w: World, w': World, f: nat, fate: Fate)
    requires WindowsInv(w.d, w.h) && Flushing(w.d, f)
    requires w'.d.window == w.d.window && w'.d.nextFlush == w.d.nextFlush
    requires w'.d.flushes == Advance(w.d.flushes, f) && w'.h.closed == AddFate(w.h.closed, f, fate)
    requires w'.h.log == w.h.log && w'.h.current == w.h.current
    ensures WindowsInv(w'.d, w'.h)
  {
    AdvanceKeepsWindows(w.d, w.h, f, fate);
    WindowsFrame(w.d.(flushes := Advance(w.d.flushes, f)), w.h.(closed := AddFate(w.h.closed, f, fate)), w'.d, w'.h);
  }

  lemma RawStep(cfg: Config, w: World, e: Event)
    requires WindowsInv(w.d, w.h) && e.act.RawUploaded? && Possible(cfg, w, e.act)
    ensures WindowsInv(Step(cfg, w, e).d, Step(cfg, w, e).h)
  {
    var w' := Step(cfg, w, e);
    forall g | 0 <= g < |w'.h.closed| ensures WellSplit(w'.h.closed[g]) && Tracks(w'.d, g, w'.h.closed[g]) {
      assert Tracks(w.d, g, w.h.closed[g]);
    }
  }

  // ---- fates ----

  /** A fate once given stays, the chunks of a closed window never change, and no window disappears. */
  ghost predicate Extends(closed: seq<Closed>, closed': seq<Closed>) {
    && |closed| <= |closed'|
    && forall f :: 0 <= f < |closed| ==>
         && closed'[f].items == closed[f].items && closed'[f].chunks == closed[f].chunks
         && closed[f].fates <= closed'[f].fates
  }

  /** The closed windows after a step. */
  ghost function ClosedAfter(cfg: Config, w: World, act: Action): seq<Closed>
    requires Possible(cfg, w, act)
  {
    match act
    case FlushTick => if w.d.window == [] then w.h.closed else w.h.closed + [CloseWindow(cfg, w.d, w.h)]
    case UploadFailed(f) => LoseRest(w.h.closed, f)
    case SightingPublished(f, ref) => AddFate(w.h.closed, f, InSighting(ref))
    case SightingRefused(f) =>
      AddFate(w.h.closed, f, if TaskRecord(w.d.flushes[f]).None? then Lost else InQueue(w.d.queue.table.nextId))
    case _ => w.h.closed
  }

  lemma StepCloses(cfg: Config, w: World, e: Event)
    requires Possible(cfg, w, e.act)
    ensures Step(cfg, w, e).h.closed == ClosedAfter(cfg, w, e.act)
  {
    if IsDeparture(e.act) || IsDrain(e.act) || e.act.RawCaptured? {
      WindowsStay(cfg, w, e);
    } else if e.act.Message? {
      MessageTouches(cfg, w, e);
    } else if e.act.RawUploaded? {
      UploadTouches(cfg, w, e);
    } else {
      FlushCloses(cfg, w, e);
    }
  }

  lemma FlushCloses(cfg: Config, w: World, e: Event)
    requires Possible(cfg, w, e.act) && (e.act.FlushTick? || IsAttempt(e.act))
    ensures Step(cfg, w, e).h.closed == ClosedAfter(cfg, w, e.act)
  {
  }

  ghost predicate Bounded(closed: seq<Closed>) {
    forall f :: 0 <= f < |closed| ==> |closed[f].fates| <= |closed[f].chunks|
  }

  lemma WindowsBounded(d: Core, h: History)
    requires FlushInv(d, h)
    ensures Bounded(h.closed)
  {
    assert forall f :: 0 <= f < |h.closed| ==> WellSplit(h.closed[f]);
  }

  lemma OneFateExtends(closed: seq<Closed>, f: nat, fates: seq<Fate>)
    requires Bounded(closed) && f < |closed|
    requires closed[f].fates <= fates && |fates| <= |closed[f].chunks|
    ensures var closed' := closed[f := closed[f].(fates := fates)];
      Extends(closed, closed') && Bounded(closed')
  {
  }

  lemma FailureExtends(d: Core, h: History, f: nat)
    requires FlushInv(d, h) && Flushing(d, f)
    ensures Extends(h.closed, LoseRest(h.closed, f)) && Bounded(LoseRest(h.closed, f))
  {
    var c := h.closed[f];
    WindowsBounded(d, h);
    assert Tracks(d, f, c);
    AllLostLength(|c.chunks| - |c.fates|);
    OneFateExtends(h.closed, f, c.fates + AllLost(|c.chunks| - |c.fates|));
  }

  lemma FateExtends(d: Core, h: History, f: nat, fate: Fate)
    requires FlushInv(d, h) && Flushing(d, f)
    ensures Extends(h.closed, AddFate(h.closed, f, fate)) && Bounded(AddFate(h.closed, f, fate))
  {
    WindowsBounded(d, h);
    assert Tracks(d, f, h.closed[f]);
    OneFateExtends(h.closed, f, h.closed[f].fates + [fate]);
  }

  lemma ClosedExtends(cfg: Config, w: World, act: Action)
    requires WindowsInv(w.d, w.h) && Possible(cfg, w, act)
    ensures Extends(w.h.closed, ClosedAfter(cfg, w, act)) && Bounded(ClosedAfter(cfg, w, act))
  {
    WindowsBounded(w.d, w.h);
    match act
    case UploadFailed(f) => FailureExtends(w.d, w.h, f);
    case SightingPublished(f, ref) => FateExtends(w.d, w.h, f, InSighting(ref));
    case SightingRefused(f) =>
      RefusedFate(cfg, w, f);
      FateExtends(w.d, w.h, f, InQueue(w.d.queue.table.nextId));
    case _ =>
  }

  lemma StepExtends(cfg: Config, w: World, e: Event)
    requires WindowsInv(w.d, w.h)
    ensures Extends(w.h.closed, Step(cfg, w, e).h.closed) && Bounded(Step(cfg, w, e).h.closed)
  {
    if Possible(cfg, w, e.act) {
      StepCloses(cfg, w, e);
      ClosedExtends(cfg, w, e.act);
    } else {
      WindowsBounded(w.d, w.h);
    }
  }

  /** The step newly gives chunk k of window f its fate. */
  ghost predicate NewFate(closed: seq<Closed>, closed': seq<Closed>, f: nat, k: nat) {
    && f < |closed'| && k < |closed'[f].fates|
    && (f < |closed| ==> |closed[f].fates| <= k)
  }

  /** The step gives up chunk k of window f. */
  ghost predicate Discards(closed: seq<Closed>, closed': seq<Closed>, f: nat, k: nat) {
    NewFate(closed, closed', f, k) && closed'[f].fates[k].Lost?
  }

  /** What is lost: all that a flush still holds when an upload fails, and a window that cannot be chunked. */
  predicate LossCause(cfg: Config, d: Core, act: Action, f: nat, k: nat) {
    || (act.UploadFailed? && act.upload == f && Flushing(d, f) && d.flushes[f].next <= k < |d.flushes[f].chunks|)
    || (act.FlushTick? && f == d.nextFlush && k == 0
        && d.window != [] && ChunkTelemetry(d.window, cfg.size, LEXICON_LIMITS).Err?)
  }

  lemma RefusedFate(cfg: Config, w: World, f: nat)
    requires FlushInv(w.d, w.h) && Possible(cfg, w, SightingRefused(f))
    ensures ClosedAfter(cfg, w, SightingRefused(f)) == AddFate(w.h.closed, f, InQueue(w.d.queue.table.nextId))
  {
    RefusedChunkHasRecord(w, f);
  }

  lemma FailureDiscards(d: Core, h: History, g: nat, f: nat, k: nat)
    requires FlushInv(d, h) && Flushing(d, g)
    ensures Discards(h.closed, LoseRest(h.closed, g), f, k)
       <==> g == f && d.flushes[g].next <= k < |d.flushes[g].chunks|
  {
    var c := h.closed[g];
    assert Tracks(d, g, c);
    AllLostLength(|c.chunks| - |c.fates|);
  }

  lemma DeliveryDiscardsNothing(closed: seq<Closed>, g: nat, fate: Fate, f: nat, k: nat)
    requires !fate.Lost?
    ensures !Discards(closed, AddFate(closed, g, fate), f, k)
  {
  }

  lemma AttemptDiscards(cfg: Config, w: World, act: Action, f: nat, k: nat)
    requires WindowsInv(w.d, w.h) && Possible(cfg, w, act) && IsAttempt(act)
    ensures Discards(w.h.closed, ClosedAfter(cfg, w, act), f, k) <==> LossCause(cfg, w.d, act, f, k)
  {
    match act
    case UploadFailed(g) => FailureDiscards(w.d, w.h, g, f, k);
    case SightingPublished(g, ref) => DeliveryDiscardsNothing(w.h.closed, g, InSighting(ref), f, k);
    case SightingRefused(g) =>
      RefusedFate(cfg, w, g);
      DeliveryDiscardsNothing(w.h.closed, g, InQueue(w.d.queue.table.nextId), f, k);
  }

  lemma AttemptKeepsChunks(cfg: Config, w: World, act: Action, f: nat)
    requires WindowsInv(w.d, w.h) && Possible(cfg, w, act) && IsAttempt(act)
    ensures f in w.d.flushes ==>
              f < |ClosedAfter(cfg, w, act)| && ClosedAfter(cfg, w, act)[f].chunks == w.d.flushes[f].chunks
  {
    ClosedExtends(cfg, w, act);
    if f in w.d.flushes {
      assert Tracks(w.d, f, w.h.closed[f]);
    }
  }

  lemma RefusedChunkHasRecord(w: World, f: nat)
    requires FlushInv(w.d, w.h) && Flushing(w.d, f)
    ensures f < |w.h.closed| && |w.h.closed[f].fates| < |w.h.closed[f].chunks|
    ensures TaskRecord(w.d.flushes[f]).Some?
    ensures TaskRecord(w.d.flushes[f]).value.telemetry == w.h.closed[f].chunks[|w.h.closed[f].fates|]
  {
    var c := w.h.closed[f];
    assert WellSplit(c) && Tracks(w.d, f, c);
  }

  lemma FatesFrame(h: History, h': History)
    requires FatesInv(h)
    requires h'.closed == h.closed && h'.sightings == h.sightings
    requires BooksGrow(h, h')
    ensures FatesInv(h')
  {
    forall f, k | 0 <= f < |h'.closed| && 0 <= k < |h'.closed[f].fates| <= |h'.closed[f].chunks|
      ensures FateHolds(h', h'.closed[f], k)
    {
      assert FateHolds(h, h.closed[f], k);
    }
    forall s | s in h'.sightings ensures Traced(h', s) {
      var f: nat, k: nat :| IsFateOf(h, f, k, s);
      assert IsFateOf(h', f, k, s);
    }
  }

  /** Fates survive when closed windows are extended and everything published or queued is kept. */
  lemma FatesExtend(h: History, h': History)
    requires FatesInv(h) && Extends(h.closed, h'.closed)
    requires Bounded(h'.closed)
    requires h.sightings <= h'.sightings
    requires BooksGrow(h, h')
    requires forall f, k ::
               (0 <= f < |h'.closed| && 0 <= k < |h'.closed[f].fates| && (f < |h.closed| ==> |h.closed[f].fates| <= k))
               ==> FateHolds(h', h'.closed[f], k)
    requires forall j :: |h.sightings| <= j < |h'.sightings| ==> Traced(h', h'.sightings[j])
    ensures FatesInv(h')
  {
    forall f, k | 0 <= f < |h'.closed| && 0 <= k < |h'.closed[f].fates| <= |h'.closed[f].chunks|
      ensures FateHolds(h', h'.closed[f], k)
    {
      if f < |h.closed| && k < |h.closed[f].fates| {
        assert |h.closed[f].fates| <= |h.closed[f].chunks|;
        assert FateHolds(h, h.closed[f], k);
        assert h'.closed[f].fates[k] == h.closed[f].fates[k];
        SightingsKept(h, h', Accepted(SomeRef(h.closed[f].fates[k]), h.closed[f].chunks[k], h.closed[f].items));
      }
    }
    forall s | s in h'.sightings ensures Traced(h', s) {
      var j :| 0 <= j < |h'.sightings| && h'.sightings[j] == s;
      if j < |h.sightings| {
        assert h.sightings[j] == s && s in h.sightings;
        var f: nat, k: nat :| IsFateOf(h, f, k, s);
        assert h'.closed[f].fates[k] == h.closed[f].fates[k];
        assert IsFateOf(h', f, k, s);
      }
    }
  }

  function SomeRef(fate: Fate): StrongRef {
    if fate.InSighting? then fate.ref else StrongRef("", "")
  }

  lemma SightingsKept(h: History, h': History, s: Accepted)
    requires h.sightings <= h'.sightings
    ensures s in h.sightings ==> s in h'.sightings
  {
    if s in h.sightings {
      var j :| 0 <= j < |h.sightings| && h.sightings[j] == s;
      assert h'.sightings[j] == s;
    }
  }

  lemma OneFateMore(h: History, h': History, f: nat, fate: Fate)
    requires FatesInv(h) && f < |h.closed| && |h.closed[f].fates| < |h.closed[f].chunks|
    requires Bounded(h.closed)
    requires h'.closed == AddFate(h.closed, f, fate)
    requires BooksGrow(h, h')
    requires FateHolds(h', h'.closed[f], |h.closed[f].fates|)
    requires if fate.InSighting?
             then h'.sightings == h.sightings
                    + [Accepted(fate.ref, h.closed[f].chunks[|h.closed[f].fates|], h.closed[f].items)]
             else h'.sightings == h.sightings
    ensures FatesInv(h')
  {
    forall j | |h.sightings| <= j < |h'.sightings| ensures Traced(h', h'.sightings[j]) {
      assert IsFateOf(h', f, |h.closed[f].fates|, h'.sightings[j]);
    }
    FatesExtend(h, h');
  }

  ghost predicate BooksKept(w: World, w': World) {
    Queue.Inv(w'.d.queue, w'.h.mail) && BooksGrow(w.h, w'.h)
  }

  /** The retry queue and its books, step by step. */
  lemma StepKeepsBooks(cfg: Config, w: World, e: Event)
    requires Queue.Inv(w.d.queue, w.h.mail)
    ensures BooksKept(w, Step(cfg, w, e))
  {
    if Possible(cfg, w, e.act) {
      match e.act
      case FlightDone(_, _) => FlightKeepsBooks(cfg, w, e);
      case SightingRefused(_) => RefusalKeepsBooks(cfg, w, e);
      case Drain(step) => DrainKeepsBooks(cfg, w, e);
      case Resent(_, _) => ResendKeepsBooks(cfg, w, e);
      case _ => OtherBooksStay(cfg, w, e);
    } else {
      SameBooks(w, w);
    }
  }

  lemma OtherBooksStay(cfg: Config, w: World, e: Event)
    requires Queue.Inv(w.d.queue, w.h.mail)
    requires !e.act.FlightDone? && !e.act.SightingRefused? && !IsDrain(e.act)
    ensures BooksKept(w, Step(cfg, w, e))
  {
    OtherKeepsBooks(cfg, w, e);
    SameBooks(w, Step(cfg, w, e));
  }

  lemma SameBooks(w: World, w': World)
    requires Queue.Inv(w.d.queue, w.h.mail) && SameMail(w, w') && w'.h.refused == w.h.refused
    ensures BooksKept(w, w')
  {
  }

  lemma OtherKeepsBooks(cfg: Config, w: World, e: Event)
    requires !e.act.FlightDone? && !e.act.SightingRefused? && !IsDrain(e.act)
    ensures SameMail(w, Step(cfg, w, e)) && Step(cfg, w, e).h.refused == w.h.refused
  {
    match e.act
    case Message(_, _) => MessageTouches(cfg, w, e);
    case DropDepartures(_) => DropTouches(cfg, w, e);
    case TakeRefs(_) => TakeTouches(cfg, w, e);
    case RawCaptured(_) => CapturedTouches(cfg, w, e);
    case FlushTick => TickTouches(cfg, w, e);
    case RawUploaded(_, _) => UploadTouches(cfg, w, e);
    case UploadFailed(_) => FailureTouches(cfg, w, e);
    case SightingPublished(_, _) => PublishTouches(cfg, w, e);
  }

  lemma FlightKeepsBooks(cfg: Config, w: World, e: Event)
    requires Queue.Inv(w.d.queue, w.h.mail) && e.act.FlightDone? && Possible(cfg, w, e.act)
    ensures BooksKept(w, Step(cfg, w, e))
  {
    DoneTouches(cfg, w, e);
    var hand := w.d.departs[e.act.done].hand.value;
    if e.act.outcome.Refused? {
      var record := BuildFlightRecord(hand.entry, e.act.outcome.refusedRef, hand.refs);
      if record.Some? {
        Queue.NextKeepsInv(w.d.queue, w.h.mail, Queue.Put(Flight(record.value), e.at));
      }
    }
  }

  lemma RefusalKeepsBooks(cfg: Config, w: World, e: Event)
    requires Queue.Inv(w.d.queue, w.h.mail) && e.act.SightingRefused? && Possible(cfg, w, e.act)
    ensures BooksKept(w, Step(cfg, w, e))
  {
    var record := TaskRecord(w.d.flushes[e.act.refused]);
    if record.Some? {
      Queue.NextKeepsInv(w.d.queue, w.h.mail, Queue.Put(Sighting(record.value), e.at));
      assert w.d.queue.table.nextId !in w.h.mail.put;
    }
  }

  lemma DrainKeepsBooks(cfg: Config, w: World, e: Event)
    requires Queue.Inv(w.d.queue, w.h.mail) && e.act.Drain? && Possible(cfg, w, e.act)
    ensures BooksKept(w, Step(cfg, w, e))
  {
    DrainTouches(cfg, w, e);
    Queue.NextKeepsInv(w.d.queue, w.h.mail, e.act.step);
  }

  lemma ResendKeepsBooks(cfg: Config, w: World, e: Event)
    requires Queue.Inv(w.d.queue, w.h.mail) && e.act.Resent? && Possible(cfg, w, e.act)
    ensures BooksKept(w, Step(cfg, w, e))
  {
    ResendTouches(cfg, w, e);
    Queue.NextKeepsInv(w.d.queue, w.h.mail, Queue.Acked(e.act.drain));
  }

  lemma StepKeepsFates(cfg: Config, w: World, e: Event)
    requires Inv(w)
    ensures FatesInv(Step(cfg, w, e).h)
  {
    if Possible(cfg, w, e.act) {
      StepKeepsBooks(cfg, w, e);
      match e.act
      case FlushTick => TickKeepsFates(cfg, w, e);
      case UploadFailed(_) => LossKeepsFates(cfg, w, e);
      case SightingPublished(_, _) => PublishedStepKeepsFates(cfg, w, e);
      case SightingRefused(_) => RefusedStepKeepsFates(cfg, w, e);
      case _ => OtherKeepsFates(cfg, w, e);
    }
  }

  lemma OtherKeepsFates(cfg: Config, w: World, e: Event)
    requires Inv(w) && !e.act.FlushTick? && !IsAttempt(e.act)
    requires BooksGrow(w.h, Step(cfg, w, e).h)
    ensures FatesInv(Step(cfg, w, e).h)
  {
    SettledNothing(cfg, w, e);
    FatesFrame(w.h, Step(cfg, w, e).h);
  }

  lemma SettledNothing(cfg: Config, w: World, e: Event)
    requires !e.act.FlushTick? && !IsAttempt(e.act)
    ensures Step(cfg, w, e).h.closed == w.h.closed && Step(cfg, w, e).h.sightings == w.h.sightings
  {
    match e.act
    case Message(_, _) => MessageTouches(cfg, w, e);
    case DropDepartures(_) => DropTouches(cfg, w, e);
    case TakeRefs(_) => TakeTouches(cfg, w, e);
    case FlightDone(_, _) => DoneTouches(cfg, w, e);
    case RawCaptured(_) => CapturedTouches(cfg, w, e);
    case RawUploaded(_, _) => UploadTouches(cfg, w, e);
    case Drain(_) => DrainTouches(cfg, w, e);
    case Resent(_, _) => ResendTouches(cfg, w, e);
  }

  lemma TickKeepsFates(cfg: Config, w: World, e: Event)
    requires Inv(w) && e.act.FlushTick? && Possible(cfg, w, e.act) && BooksGrow(w.h, Step(cfg, w, e).h)
    ensures FatesInv(Step(cfg, w, e).h)
  {
    TickTouches(cfg, w, e);
    StepCloses(cfg, w, e);
    StepExtends(cfg, w, e);
    FatesExtend(w.h, Step(cfg, w, e).h);
  }

  lemma LossKeepsFates(cfg: Config, w: World, e: Event)
    requires Inv(w) && e.act.UploadFailed? && Possible(cfg, w, e.act) && BooksGrow(w.h, Step(cfg, w, e).h)
    ensures FatesInv(Step(cfg, w, e).h)
  {
    FailureTouches(cfg, w, e);
    StepCloses(cfg, w, e);
    LostKeepFates(w.d, w.h, Step(cfg, w, e).h, e.act.upload);
  }

  lemma LostKeepFates(d: Core, h: History, h': History, f: nat)
    requires FatesInv(h) && FlushInv(d, h) && Flushing(d, f) && BooksGrow(h, h')
    requires h'.closed == LoseRest(h.closed, f) && h'.sightings == h.sightings
    ensures FatesInv(h')
  {
    FailureExtends(d, h, f);
    LostAreNew(d, h, f);
    FatesExtend(h, h');
  }

  lemma LostAreNew(d: Core, h: History, f: nat)
    requires FlushInv(d, h) && Flushing(d, f)
    ensures var closed' := LoseRest(h.closed, f);
      forall g: nat, k: nat :: NewFate(h.closed, closed', g, k) ==>
        closed'[g].fates[k].Lost? && g == f && k < |h.closed[f].chunks|
  {
    var c, closed' := h.closed[f], LoseRest(h.closed, f);
    assert WellSplit(c);
    var rest := AllLost(|c.chunks| - |c.fates|);
    AllLostLength(|c.chunks| - |c.fates|);
    forall g: nat, k: nat | NewFate(h.closed, closed', g, k)
      ensures closed'[g].fates[k].Lost? && g == f && k < |c.chunks|
    {
      assert g == f && closed'[g].fates[k] == rest[k - |c.fates|];
    }
  }

  lemma PublishedStepKeepsFates(cfg: Config, w: World, e: Event)
    requires Inv(w) && e.act.SightingPublished? && Possible(cfg, w, e.act) && BooksGrow(w.h, Step(cfg, w, e).h)
    ensures FatesInv(Step(cfg, w, e).h)
  {
    var f := e.act.flush;
    var c := w.h.closed[f];
    assert Tracks(w.d, f, c);
    WindowsBounded(w.d, w.h);
    StepCloses(cfg, w, e);
    PublishedSighting(cfg, w, e);
    var h' := Step(cfg, w, e).h;
    assert h'.sightings[|w.h.sightings|] == Accepted(e.act.ref, c.chunks[|c.fates|], c.items);
    OneFateMore(w.h, h', f, InSighting(e.act.ref));
  }

  lemma PublishedSighting(cfg: Config, w: World, e: Event)
    requires FlushInv(w.d, w.h) && e.act.SightingPublished? && Possible(cfg, w, e.act)
    ensures var f := e.act.flush;
      && f < |w.h.closed| && |w.h.closed[f].fates| < |w.h.closed[f].chunks|
      && Step(cfg, w, e).h.sightings == w.h.sightings
           + [Accepted(e.act.ref, w.h.closed[f].chunks[|w.h.closed[f].fates|], w.h.closed[f].items)]
  {
    assert Tracks(w.d, e.act.flush, w.h.closed[e.act.flush]);
  }

  lemma RefusedStepKeepsFates(cfg: Config, w: World, e: Event)
    requires Inv(w) && e.act.SightingRefused? && Possible(cfg, w, e.act) && BooksGrow(w.h, Step(cfg, w, e).h)
    ensures FatesInv(Step(cfg, w, e).h)
  {
    var f := e.act.refused;
    WindowsBounded(w.d, w.h);
    StepCloses(cfg, w, e);
    RefusedFate(cfg, w, f);
    RefuseTouches(cfg, w, e);
    RefusedSighting(cfg, w, e);
    OneFateMore(w.h, Step(cfg, w, e).h, f, InQueue(w.d.queue.table.nextId));
  }

  lemma RefusedSighting(cfg: Config, w: World, e: Event)
    requires FlushInv(w.d, w.h) && e.act.SightingRefused? && Possible(cfg, w, e.act)
    ensures var f, id, h' := e.act.refused, w.d.queue.table.nextId, Step(cfg, w, e).h;
      && f < |w.h.closed| && |w.h.closed[f].fates| < |w.h.closed[f].chunks|
      && TaskRecord(w.d.flushes[f]).Some?
      && h'.mail.put == w.h.mail.put[id := Sighting(TaskRecord(w.d.flushes[f]).value)]
      && TaskRecord(w.d.flushes[f]).value.telemetry == w.h.closed[f].chunks[|w.h.closed[f].fates|]
      && h'.refused == w.h.refused[id := w.h.closed[f].items] && h'.mail.acked == w.h.mail.acked
  {
    RefusedChunkHasRecord(w, e.act.refused);
  }

  // ---- retries ----

  /** What a step adds to the queue and to the retried sightings is traced. */
  ghost predicate NewEntries(h: History, h': History) {
    && (forall id :: id in h'.mail.put && id !in h.mail.put && h'.mail.put[id].Sighting? ==> Queued(h', id))
    && (forall r :: r in h'.retried && r !in h.retried ==> Retried(h', r))
  }

  lemma RetriesExtend(h: History, h': History)
    requires RetriesInv(h) && BooksGrow(h, h') && Extends(h.closed, h'.closed)
    requires Bounded(h'.closed)
    requires NewEntries(h, h')
    ensures RetriesInv(h')
  {
    forall id | id in h'.mail.put && h'.mail.put[id].Sighting? ensures Queued(h', id) {
      if id in h.mail.put {
        var f: nat, k: nat :| IsQueued(h, f, k, id);
        assert IsQueued(h', f, k, id);
      }
    }
    forall r | r in h'.retried ensures Retried(h', r) {
      if r in h.retried {
        var f: nat, k: nat, id: nat :| IsRetryOf(h, f, k, id, r);
        assert IsQueued(h', f, k, id);
        assert IsRetryOf(h', f, k, id, r);
      }
    }
  }

  /** Only a refused sighting and a refused flight are ever put in the queue, and only drains retry. */
  lemma StepKeepsRetries(cfg: Config, w: World, e: Event)
    requires Inv(w)
    ensures RetriesInv(Step(cfg, w, e).h)
  {
    if Possible(cfg, w, e.act) {
      StepKeepsBooks(cfg, w, e);
      StepExtends(cfg, w, e);
      NewEntriesAreTraced(cfg, w, e);
      RetriesExtend(w.h, Step(cfg, w, e).h);
    }
  }

  lemma NewEntriesAreTraced(cfg: Config, w: World, e: Event)
    requires Inv(w) && Possible(cfg, w, e.act)
    ensures NewEntries(w.h, Step(cfg, w, e).h)
  {
    match e.act
    case FlightDone(_, _) => FlightPutsNoSighting(cfg, w, e);
    case SightingRefused(_) => RefusalIsQueued(cfg, w, e);
    case Drain(_) => DrainPutsNothing(cfg, w, e);
    case Resent(_, _) => ResendIsRetry(cfg, w, e);
    case _ => OtherPutsNothing(cfg, w, e);
  }

  lemma OtherPutsNothing(cfg: Config, w: World, e: Event)
    requires !e.act.FlightDone? && !e.act.SightingRefused? && !IsDrain(e.act)
    ensures NewEntries(w.h, Step(cfg, w, e).h)
  {
    OtherKeepsBooks(cfg, w, e);
    match e.act
    case Message(_, _) => MessageTouches(cfg, w, e);
    case DropDepartures(_) => DropTouches(cfg, w, e);
    case TakeRefs(_) => TakeTouches(cfg, w, e);
    case RawCaptured(_) => CapturedTouches(cfg, w, e);
    case FlushTick => TickTouches(cfg, w, e);
    case RawUploaded(_, _) => UploadTouches(cfg, w, e);
    case UploadFailed(_) => FailureTouches(cfg, w, e);
    case SightingPublished(_, _) => PublishTouches(cfg, w, e);
  }

  lemma FlightPutsNoSighting(cfg: Config, w: World, e: Event)
    requires Possible(cfg, w, e.act) && e.act.FlightDone?
    ensures NewEntries(w.h, Step(cfg, w, e).h)
  {
    DoneTouches(cfg, w, e);
  }

  lemma DrainPutsNothing(cfg: Config, w: World, e: Event)
    requires Possible(cfg, w, e.act) && e.act.Drain?
    ensures NewEntries(w.h, Step(cfg, w, e).h)
  {
    DrainTouches(cfg, w, e);
  }

  lemma RefusalIsQueued(cfg: Config, w: World, e: Event)
    requires Inv(w) && Possible(cfg, w, e.act) && e.act.SightingRefused?
    ensures NewEntries(w.h, Step(cfg, w, e).h)
  {
    var f, id, h' := e.act.refused, w.d.queue.table.nextId, Step(cfg, w, e).h;
    RefuseTouches(cfg, w, e);
    RefusedSighting(cfg, w, e);
    StepCloses(cfg, w, e);
    RefusedFate(cfg, w, f);
    assert IsQueued(h', f, |w.h.closed[f].fates|, id);
  }

  lemma ResendIsRetry(cfg: Config, w: World, e: Event)
    requires Inv(w) && Possible(cfg, w, e.act) && e.act.Resent?
    ensures NewEntries(w.h, Step(cfg, w, e).h)
  {
    var h' := Step(cfg, w, e).h;
    ResendTouches(cfg, w, e);
    var entry := w.d.queue.drains[e.act.drain][0];
    ResentSighting(cfg, w, e);
    if entry.record.Sighting? {
      assert entry.id in w.h.mail.put && w.h.mail.put[entry.id] == entry.record;
      var f: nat, k: nat :| IsQueued(w.h, f, k, entry.id);
      assert FateHolds(w.h, w.h.closed[f], k);
      assert IsQueued(h', f, k, entry.id);
      assert IsRetryOf(h', f, k, entry.id, h'.retried[|w.h.retried|]);
    }
  }

  lemma ResentSighting(cfg: Config, w: World, e: Event)
    requires Possible(cfg, w, e.act) && e.act.Resent?
    ensures var entry, h' := w.d.queue.drains[e.act.drain][0], Step(cfg, w, e).h;
      && h'.mail.put == w.h.mail.put && h'.mail.acked == w.h.mail.acked + {entry.id}
      && h'.retried == w.h.retried
           + (if !entry.record.Sighting? then []
              else [Accepted(e.act.resentRef, entry.record.sighting.telemetry,
                             if entry.id in w.h.refused then w.h.refused[entry.id] else [])])
  {
    ResentHistory(w.d, w.h, e.act.drain, e.act.resentRef);
  }

  lemma ResentHistory(d: Core, h: History, drain: nat, ref: StrongRef)
    requires drain in d.queue.drains && d.queue.drains[drain] != []
    ensures var entry, h' := d.queue.drains[drain][0], RecordResent(d, h, drain, ref);
      && h'.mail.put == h.mail.put && h'.mail.acked == h.mail.acked + {entry.id}
      && h'.retried == h.retried
           + (if !entry.record.Sighting? then []
              else [Accepted(ref, entry.record.sighting.telemetry,
                             if entry.id in h.refused then h.refused[entry.id] else [])])
  {
  }

  // ---- every run ----

  lemma {:induction false} RunInv(cfg: Config, events: seq<Event>)
    ensures Inv(Run(cfg, events))
  {
    if events == [] {
      assert ToArrivals([]) == [];
    } else {
      var n := |events| - 1;
      RunInv(cfg, events[..n]);
      StepKeepsWindows(cfg, Run(cfg, events[..n]), events[n]);
      StepKeepsFates(cfg, Run(cfg, events[..n]), events[n]);
      StepKeepsRetries(cfg, Run(cfg, events[..n]), events[n]);
      StepKeepsBooks(cfg, Run(cfg, events[..n]), events[n]);
    }
  }

  lemma ReachableInv(cfg: Config, w: World)
    requires Reachable(cfg, w)
    ensures Inv(w)
  {
    var events :| Run(cfg, events) == w;
    RunInv(cfg, events);
  }

  /** The reports of `hex` in the chunks of all closed windows, window by window, chunk by chunk. */
  function InChunks(chunks: seq<Telemetry>, hex: Hex): seq<PositionReport> {
    if chunks == [] then [] else InChunks(chunks[..|chunks| - 1], hex) + Get(chunks[|chunks| - 1], hex)
  }

  function InClosed(closed: seq<Closed>, hex: Hex): seq<PositionReport> {
    if closed == [] then [] else InClosed(closed[..|closed| - 1], hex) + InChunks(closed[|closed| - 1].chunks, hex)
  }

  lemma KeyOrderedPrefix(t: Telemetry, u: Telemetry)
    requires KeyOrdered(t + u)
    ensures KeyOrdered(t) && forall hex :: HasRow(t, hex) ==> !HasRow(u, hex)
  {
    forall i, j | 0 <= i < j < |t| ensures t[i].hex != t[j].hex && !Precedes(t[j].hex, t[i].hex) {
      assert (t + u)[i] == t[i] && (t + u)[j] == t[j];
    }
    forall hex | HasRow(t, hex) ensures !HasRow(u, hex) {
      var i :| 0 <= i < |t| && t[i].hex == hex;
      forall j | 0 <= j < |u| ensures u[j].hex != hex {
        assert (t + u)[i] == t[i] && (t + u)[|t| + j] == u[j];
      }
    }
  }

  lemma {:induction false} ChunksHoldWindow(chunks: seq<Telemetry>, hex: Hex)
    requires KeyOrdered(Concat(chunks))
    ensures InChunks(chunks, hex) == Get(Concat(chunks), hex)
    ensures HasRow(Concat(chunks), hex) <==> exists k :: 0 <= k < |chunks| && HasRow(chunks[k], hex)
    ensures forall j, k :: 0 <= j < k < |chunks| && HasRow(chunks[j], hex) ==> !HasRow(chunks[k], hex)
  {
    if chunks != [] {
      var n := |chunks| - 1;
      var front, last := Concat(chunks[..n]), chunks[n];
      KeyOrderedPrefix(front, last);
      ChunksHoldWindow(chunks[..n], hex);
      GetConcat(front, last, hex);
      GetAbsent(front, hex);
      GetAbsent(last, hex);
      OneMoreChunk(chunks, hex, HasRow(front, hex));
    }
  }

  /** Which chunk has a row for the aircraft: one of the first ones, or the last. */
  lemma OneMoreChunk(chunks: seq<Telemetry>, hex: Hex, inFront: bool)
    requires chunks != []
    requires var front := chunks[..|chunks| - 1];
      && (inFront <==> exists k :: 0 <= k < |front| && HasRow(front[k], hex))
      && (forall j, k :: 0 <= j < k < |front| && HasRow(front[j], hex) ==> !HasRow(front[k], hex))
    requires inFront ==> !HasRow(chunks[|chunks| - 1], hex)
    ensures inFront || HasRow(chunks[|chunks| - 1], hex) <==> exists k :: 0 <= k < |chunks| && HasRow(chunks[k], hex)
    ensures forall j, k :: 0 <= j < k < |chunks| && HasRow(chunks[j], hex) ==> !HasRow(chunks[k], hex)
  {
    var front, n := chunks[..|chunks| - 1], |chunks| - 1;
    assert forall k :: 0 <= k < n ==> front[k] == chunks[k];
    forall k | 0 <= k < n && HasRow(chunks[k], hex) ensures inFront {
      assert HasRow(front[k], hex);
    }
    if inFront {
      var k :| 0 <= k < |front| && HasRow(front[k], hex);
      assert HasRow(chunks[k], hex);
    }
    forall j, k | 0 <= j < k < |chunks| && HasRow(chunks[j], hex) ensures !HasRow(chunks[k], hex) {
      if k < n {
        assert HasRow(front[j], hex);
        assert !HasRow(front[k], hex);
      }
    }
  }

  lemma {:induction false} ClosedHoldLog(d: Core, h: History, n: nat, hex: Hex)
    requires WindowsInv(d, h) && n <= |h.closed|
    ensures InClosed(h.closed[..n], hex) == ReportsOf(ToArrivals(ClosedItems(h.closed[..n])), hex)
  {
    if n > 0 {
      var c := h.closed[n - 1];
      ClosedHoldLog(d, h, n - 1, hex);
      assert h.closed[..n][..n - 1] == h.closed[..n - 1];
      assert WellSplit(c);
      WindowKeepsArrivals(ToArrivals(c.items), hex);
      ChunksHoldWindow(c.chunks, hex);
      ToArrivalsConcat(ClosedItems(h.closed[..n - 1]), c.items);
      ReportsOfConcat(ToArrivals(ClosedItems(h.closed[..n - 1])), ToArrivals(c.items), hex);
    } else {
      assert ToArrivals([]) == [];
    }
  }

  // ---- items and chunks ----

  lemma {:induction false} ItemArrives(items: seq<Item>, it: Item)
    requires it in items
    ensures ReportsOf(ToArrivals(items), it.hex) != []
  {
    var n := |items| - 1;
    assert ToArrivals(items)[..n] == ToArrivals(items[..n]);
    if items[n] != it {
      ItemArrives(items[..n], it);
    }
  }

  lemma {:induction false} ArrivalIsItem(items: seq<Item>, hex: Hex) returns (i: nat)
    requires ReportsOf(ToArrivals(items), hex) != []
    ensures i < |items| && items[i].hex == hex
  {
    var n := |items| - 1;
    assert ToArrivals(items)[..n] == ToArrivals(items[..n]);
    if items[n].hex == hex {
      i := n;
    } else {
      i := ArrivalIsItem(items[..n], hex);
    }
  }

  /** Every item of a closed window is in some chunk of it. */
  lemma ItemHasChunk(c: Closed, it: Item) returns (k: nat)
    requires WellSplit(c) && it in c.items
    ensures k < |c.chunks| && HasRow(c.chunks[k], it.hex)
  {
    ItemArrives(c.items, it);
    WindowKeepsArrivals(ToArrivals(c.items), it.hex);
    ChunksHoldWindow(c.chunks, it.hex);
    k :| 0 <= k < |c.chunks| && HasRow(c.chunks[k], it.hex);
  }
}
