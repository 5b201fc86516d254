/**
 The main results about the daemon.  Each is about every state that some interleaving of callbacks, timers and
 failures can reach, or about every step out of such a state, and follows from the invariants that the
 modules before it keep.
 */
module DaemonTheorems {
  import opened Tracker
  import opened Beast
  import opened Batch
  import opened Records
  import opened DaemonModel
  import opened Conservation
  import opened Frames
  import opened Sessions
  import opened Provenance
  import opened Handover
  import opened Citation
  import opened Exactness
  import opened Captures
  import opened FlightRecords
  import opened Observed
  import opened SightingRecords
  import opened DaemonQueue
  import H = TrackerHistory
  import Queue

  // ---- positions ----

  /**
   For every aircraft, the reports emitted so far are, in emission order, those in the chunks of
   the closed windows followed by those in the current window; and inside each closed window one
   chunk at most mentions the aircraft.
   */
  lemma PositionsAreConserved(cfg: Config, w: World, hex: Hex)
    requires Reachable(cfg, w)
    ensures ReportsOf(ToArrivals(w.h.log), hex) == InClosed(w.h.closed, hex) + Get(w.d.window, hex)
    ensures forall f, j, k ::
              (0 <= f < |w.h.closed| && 0 <= j < k < |w.h.closed[f].chunks| && HasRow(w.h.closed[f].chunks[j], hex))
              ==> !HasRow(w.h.closed[f].chunks[k], hex)
  {
    ReachableInv(cfg, w);
    var n := |w.h.closed|;
    assert w.h.closed[..n] == w.h.closed;
    ClosedHoldLog(w.d, w.h, n, hex);
    WindowKeepsArrivals(ToArrivals(w.h.current), hex);
    ToArrivalsConcat(ClosedItems(w.h.closed), w.h.current);
    ReportsOfConcat(ToArrivals(ClosedItems(w.h.closed)), ToArrivals(w.h.current), hex);
    forall f, j, k | 0 <= f < n && 0 <= j < k < |w.h.closed[f].chunks| && HasRow(w.h.closed[f].chunks[j], hex)
      ensures !HasRow(w.h.closed[f].chunks[k], hex)
    {
      assert WellSplit(w.h.closed[f]);
      WindowKeepsArrivals(ToArrivals(w.h.closed[f].items), hex);
      ChunksHoldWindow(w.h.closed[f].chunks, hex);
    }
  }

  /** Every chunk of a window that was swapped out either has its fate, or is still held by its flush: never both. */
  lemma ChunksAreInFlightOrSettled(cfg: Config, w: World, f: nat, k: nat)
    requires Reachable(cfg, w) && f < |w.h.closed| && k < |w.h.closed[f].chunks|
    ensures var c := w.h.closed[f];
      k >= |c.fates| <==> Flushing(w.d, f) && w.d.flushes[f].next <= k < |w.d.flushes[f].chunks|
                          && w.d.flushes[f].chunks[k] == c.chunks[k]
  {
    ReachableInv(cfg, w);
    assert WellSplit(w.h.closed[f]) && Tracks(w.d, f, w.h.closed[f]);
  }

  /**
   A chunk that has left the flush is in exactly the place its fate names: a published sighting, or
   the retry queue, which keeps it until some publish of it is acknowledged.
   */
  lemma ChunksReachTheirFate(cfg: Config, w: World, f: nat, k: nat)
    requires Reachable(cfg, w) && f < |w.h.closed| && k < |w.h.closed[f].fates|
    ensures var c := w.h.closed[f];
      && k < |c.chunks|
      && (match c.fates[k]
          case InSighting(ref) => Accepted(ref, c.chunks[k], c.items) in w.h.sightings
          case InQueue(id) =>
            || id in w.h.mail.acked
            || (id in w.d.queue.table.rows && w.d.queue.table.rows[id].record.Sighting?
                && w.d.queue.table.rows[id].record.sighting.telemetry == c.chunks[k])
          case Lost => true)
  {
    ReachableInv(cfg, w);
    assert WellSplit(w.h.closed[f]);
    assert FateHolds(w.h, w.h.closed[f], k);
  }

  /**
   Positions are discarded exactly when an upload fails, and then all that the flush still held, or when
   a window cannot be chunked, and then the whole window.  Nothing else is ever given up.
   */
  lemma DiscardedExactlyWhen(cfg: Config, w: World, e: Event, f: nat, k: nat)
    requires Reachable(cfg, w) && Possible(cfg, w, e.act)
    ensures var closed' := Step(cfg, w, e).h.closed;
      && (Discards(w.h.closed, closed', f, k) <==> LossCause(cfg, w.d, e.act, f, k))
      && (LossCause(cfg, w.d, e.act, f, k) ==>
            closed'[f].chunks == if e.act.FlushTick? then [w.d.window] else w.d.flushes[f].chunks)
  {
    ReachableInv(cfg, w);
    StepCloses(cfg, w, e);
    if IsAttempt(e.act) {
      AttemptDiscards(cfg, w, e.act, f, k);
      AttemptKeepsChunks(cfg, w, e.act, f);
    }
  }

  /**
   Each attempt of a flush settles its next chunk and no other: published, the chunk and the positions of
   its window are a sighting under the new ref; refused, its record is in the books of the retry queue
   under a new id.
   */
  lemma EachAttemptSettlesOneChunk(cfg: Config, w: World, e: Event)
    requires Reachable(cfg, w) && Possible(cfg, w, e.act) && (e.act.SightingPublished? || e.act.SightingRefused?)
    ensures var f, h, h' := AttemptOf(e.act), w.h, Step(cfg, w, e).h;
      && f < |h.closed| && |h.closed[f].fates| < |h.closed[f].chunks|
      && var c, id := h.closed[f], w.d.queue.table.nextId;
         if e.act.SightingPublished? then
           && h'.closed == h.closed[f := c.(fates := c.fates + [InSighting(e.act.ref)])]
           && h'.sightings == h.sightings + [Accepted(e.act.ref, c.chunks[|c.fates|], c.items)]
         else
           && h'.closed == h.closed[f := c.(fates := c.fates + [InQueue(id)])]
           && id in h'.mail.put && h'.mail.put[id].Sighting?
           && h'.mail.put[id].sighting.telemetry == c.chunks[|c.fates|]
           && id in h'.refused && h'.refused[id] == c.items
  {
    ReachableInv(cfg, w);
    StepCloses(cfg, w, e);
    if e.act.SightingPublished? {
      PublishedSighting(cfg, w, e);
    } else {
      RefusedSighting(cfg, w, e);
      RefusedFate(cfg, w, e.act.refused);
    }
  }

  // ---- sessions ----

  /**
   In every run a session of an aircraft departs once at most, after its last position: its entry's track
   is the list of all its positions and `positionCount` their number, and another session of the
   aircraft that is live now began later.
   */
  lemma SessionsDepartOnce(cfg: Config, w: World, k: nat)
    requires Reachable(cfg, w) && k < |w.h.takings|
    ensures var t := w.h.takings[k];
      && IsTrackOf(w.h.log, t.entry, t.session)
      && (HexOf(t) in w.d.tracker.entries ==> t.session < Begun(w.h.begun, HexOf(t)))
      && (forall j: nat :: TakenAt(w.h, j, HexOf(t), t.session) ==> j == k)
  {
    ReachableSessions(cfg, w);
    var t := w.h.takings[k];
    assert SessionInv(w, HexOf(t)) && DepartsOnce(w, HexOf(t), t.session) && TakenAt(w.h, k, HexOf(t), t.session);
  }

  /**
   The positions that the daemon emitted of a session that has departed are exactly the fixes among the
   observations of that session: one report for each, in order, with the coordinates, the time and the
   state that the observation gave.  Message n is the one at which the aircraft departs.
   */
  lemma PositionsAreTheFixes(cfg: Config, events: seq<Event>, k: nat) returns (n: nat)
    requires k < |Run(cfg, events).h.takings|
    ensures var h, messages := Run(cfg, events).h, Messages(events);
      var t := h.takings[k];
      && DepartsAt(messages, n, t.entry, cfg.range)
      && H.TellsFixes(SessionReports(h.log, HexOf(t), t.session), H.Fixes(H.Session(messages[..n], HexOf(t))))
  {
    var w, messages := Run(cfg, events), Messages(events);
    RunDeparts(cfg, events);
    assert HasDeparted(messages, w.h.takings[k].entry, cfg.range);
    n :| DepartsAt(messages, n, w.h.takings[k].entry, cfg.range);
    DepartedSumsUp(messages, n, w.h.takings[k].entry, cfg.range);
    RunIsReachable(cfg, events);
    SessionsDepartOnce(cfg, w, k);
  }

  /** And so are those of a session that is live. */
  lemma LivePositionsAreTheFixes(cfg: Config, events: seq<Event>, hex: Hex)
    requires hex in Run(cfg, events).d.tracker.entries
    ensures var h := Run(cfg, events).h;
      H.TellsFixes(SessionReports(h.log, hex, Begun(h.begun, hex)), H.Fixes(H.Session(Messages(events), hex)))
  {
    var w := Run(cfg, events);
    TrackerIsReplay(cfg, events);
    H.TrackerRefinesHistory(Messages(events), cfg.range, hex);
    RunSessions(cfg, events);
    assert SessionInv(w, hex);
  }

  /**
   In every run the entries that depart at a message are, in order, those its callback has reached followed by
   those that wait there; only when a frame cannot be signed are the waiting ones given up.
   */
  lemma DeparturesAreReachedInOrder(cfg: Config, events: seq<Event>, t: nat)
    ensures InTurn(cfg, events, t)
  {
    RunReaches(cfg, events);
  }

  // ---- sighting records ----

  /**
   In every run the record of a chunk that was not lost, published or queued, holds exactly that chunk,
   lists its aircraft once each and its sources in order, and names the window from the tick before
   to the tick that swapped it out.
   */
  lemma SightingRecordsTellTheirChunk(cfg: Config, events: seq<Event>, f: nat, k: nat)
    requires f < |Run(cfg, events).h.closed| && k < |Run(cfg, events).h.closed[f].fates|
    ensures RecordTells(Run(cfg, events).h, Windows(cfg, events), f, k)
  {
    RunTells(cfg, events);
  }

  // ---- what departures are handed ----

  /**
   The sightings that flushes published and that list an aircraft are, in order, those handed to its
   departures followed by those in the index.  What drains published is beside them: of everything accepted
   that lists the aircraft, only the former are ever handed out.
   */
  lemma EverySightingIsHandedOutOrHeld(cfg: Config, w: World, hex: Hex)
    requires Reachable(cfg, w)
    ensures Listed(w.h.sightings, hex) == Handed(w.h.takings, hex) + DaemonModel.Lookup(w.d.index, hex)
    ensures Listed(w.h.sightings + w.h.retried, hex)
         == Handed(w.h.takings, hex) + DaemonModel.Lookup(w.d.index, hex) + Listed(w.h.retried, hex)
  {
    ReachableTurns(cfg, w);
    assert OpenTurn(w.d, w.h, hex);
    var from := TurnStart(w.h.takings, hex);
    assert w.h.sightings[..from] + w.h.sightings[from..] == w.h.sightings;
    ListedConcat(w.h.sightings[..from], w.h.sightings[from..], hex);
    ListedConcat(w.h.sightings, w.h.retried, hex);
  }

  /**
   In every run a sighting that a flush published and that lists an aircraft is in the index for it or was
   handed to one of its departures, never both, and never to two of them; nor do two flight records of
   the aircraft cite it.  A sighting that a drain published is in no index and handed to nobody.
   */
  lemma SightingsAreHandedOutOnce(cfg: Config, w: World)
    requires Reachable(cfg, w)
    ensures forall s, hex :: s in w.h.sightings && HasRow(s.chunk, hex) ==>
              (s.ref in DaemonModel.Lookup(w.d.index, hex) <==> !WasHanded(w.h.takings, hex, s.ref))
    ensures forall s, hex :: s in w.h.retried ==>
              s.ref !in DaemonModel.Lookup(w.d.index, hex) && !WasHanded(w.h.takings, hex, s.ref)
    ensures forall j, k :: 0 <= j < k < |w.h.takings| && HexOf(w.h.takings[j]) == HexOf(w.h.takings[k]) ==>
              Apart(w.h.takings[j].refs, w.h.takings[k].refs)
    ensures forall i: nat, j: nat :: SameAircraft(w.h, i, j) ==>
              Apart(w.h.flights[i].record.batches, w.h.flights[j].record.batches)
  {
    ReachableProv(cfg, w);
    var h := w.h;
    forall s, hex | s in h.sightings && HasRow(s.chunk, hex)
      ensures s.ref in DaemonModel.Lookup(w.d.index, hex) <==> !WasHanded(h.takings, hex, s.ref)
    {
      EverySightingIsHandedOutOrHeld(cfg, w, hex);
      ListedMeaning(h.sightings, hex, s.ref);
      HandedMeaning(h.takings, hex, s.ref);
      if k :| 0 <= k < |h.takings| && HexOf(h.takings[k]) == hex && s.ref in h.takings[k].refs {
        assert Apart(h.takings[k].refs, DaemonModel.Lookup(w.d.index, hex));
      }
    }
    forall s, hex | s in h.retried
      ensures s.ref !in DaemonModel.Lookup(w.d.index, hex) && !WasHanded(h.takings, hex, s.ref)
    {
      RetriedIsNotCited(w, s, hex);
    }
    forall i: nat, j: nat | SameAircraft(h, i, j)
      ensures Apart(h.flights[i].record.batches, h.flights[j].record.batches)
    {
      assert FlightOk(h, h.flights[i]) && FlightOk(h, h.flights[j]);
      var a, b := h.flights[i].taking, h.flights[j].taking;
      assert a != b;
      if a < b {
        assert Apart(h.takings[a].refs, h.takings[b].refs);
      } else {
        assert Apart(h.takings[b].refs, h.takings[a].refs);
      }
    }
  }

  /** A departure takes exactly what flushes published for its aircraft since the departure before it. */
  lemma DeparturesTakeTheirTurn(cfg: Config, w: World, k: nat)
    requires Reachable(cfg, w) && k < |w.h.takings|
    ensures TookItsTurn(w.h, k)
  {
    ReachableTurns(cfg, w);
  }

  // ---- what departures cite ----

  /**
   In every run, with no assumption on timing or failures, a departure cites its session exactly if and only
   if every chunk that holds the session was published by its flush in the departure's turn, so that none
   of it is unflushed, in the retry queue or lost, and no other chunk of the aircraft was.
   */
  lemma TakingIsExactExactlyWhen(cfg: Config, w: World, k: nat)
    requires Reachable(cfg, w) && k < |w.h.takings|
    ensures TakingExact(w.h, w.h.takings[k]) <==> SessionInTurn(w.h, k)
  {
    ReachableInv(cfg, w);
    ReachableProv(cfg, w);
    ReachableTurns(cfg, w);
    ReachableSessions(cfg, w);
    if SessionInTurn(w.h, k) {
      InTurnIsExact(w, k);
    }
    if TakingExact(w.h, w.h.takings[k]) {
      ExactIsInTurn(w, k);
    }
  }

  /**
   Whether a departure cites its session exactly is decided by what the index and the flushes hold when it
   is reached, whatever came before and whatever comes after.
   */
  lemma DepartureIsExactExactlyWhen(cfg: Config, w: World, e: Event, more: seq<Event>)
    requires Reachable(cfg, w) && e.act.TakeRefs? && Possible(cfg, w, e.act)
    ensures var later := Thereafter(cfg, Step(cfg, w, e), more).h;
      var departing, session := w.d.departs[e.act.task].waiting[0], NumberAt(w.h, e.act.task, 0);
      var k := |w.h.takings|;
      && k < |later.takings| && later.takings[k].entry == departing && later.takings[k].session == session
      && (TakingExact(later, later.takings[k]) <==> Ready(w, departing.icaoHex, session))
  {
    var w', k := Step(cfg, w, e), |w.h.takings|;
    ReachableStep(cfg, w, e);
    TakingIsJust(cfg, w, e);
    InTurnForever(cfg, w', more, k);
    TakingIsExactExactlyWhen(cfg, Thereafter(cfg, w', more), k);
  }

  /**
   In every run that is timely for the aircraft, a departure of it cites exactly what the repository accepted
   of its session, in publication order and none twice, with every position of the session; no drain has
   published anything of the session; and what it cites holds no other session of the aircraft.
   */
  lemma ProvenanceIsExact(cfg: Config, events: seq<Event>, k: nat)
    requires k < |Run(cfg, events).h.takings|
    requires TimelyRun(cfg, events, HexOf(Run(cfg, events).h.takings[k]))
    ensures var h := Run(cfg, events).h;
      var t := h.takings[k];
      && TakingExact(h, t) && NoDup(t.refs) && NoRetryHolds(h, HexOf(t), t.session)
      && (forall s :: s in h.sightings && s.ref in t.refs ==> Pure(s.items, HexOf(t)))
  {
    var w := Run(cfg, events);
    var t := w.h.takings[k];
    RunExact(cfg, events, HexOf(t));
    RunIsReachable(cfg, events);
    ReachableKnown(cfg, w);
    TimelyInTurn(cfg, events, HexOf(t), k);
    TakingIsExactExactlyWhen(cfg, w, k);
    ChunksToRetries(w.h, k);
    assert Sound(w.h, t.refs, HexOf(t));
    forall s | s in w.h.sightings && s.ref in t.refs ensures Pure(s.items, HexOf(t)) {
      assert Traced(w.h, s);
      var f: nat, j: nat :| IsFateOf(w.h, f, j, s);
    }
  }

  // ---- flight records ----

  /**
   In every run a departure that was reached has a flight record, and one only, if and only if its session has
   positions, it took a ref to prove them, and its publication has ended with an identity.  The record
   says of the session what its entry does, cites exactly the refs taken, names the identity, and is
   queued exactly if the repository refused it.  Until then a departure with positions is in hand.
   */
  lemma FlightIsMadeExactlyWhen(cfg: Config, events: seq<Event>, k: nat)
    requires k < |Run(cfg, events).h.takings|
    ensures var h, o := Run(cfg, events).h, OutcomeOf(cfg, events, k);
      var t := h.takings[k];
      var hasPositions := SessionReports(h.log, HexOf(t), t.session) != [];
      && ((exists i: nat :: IsRecordOf(h, i, k))
            <==> hasPositions && t.refs != [] && o.Some? && !o.value.NoIdentity?)
      && (forall i: nat, j: nat :: IsRecordOf(h, i, k) && IsRecordOf(h, j, k) ==> i == j)
      && (forall i: nat :: IsRecordOf(h, i, k) ==> TellsDeparture(h, h.flights[i], t, o.value))
      && (o.None? ==> (InHand(h, k) <==> hasPositions))
  {
    var w := Run(cfg, events);
    RunIsReachable(cfg, events);
    RunStands(cfg, events);
    ReachableProv(cfg, w);
    SessionsDepartOnce(cfg, w, k);
    assert Stands(w.h, k, OutcomeOf(cfg, events, k));
  }

  /** From observations to the record: what it says of the aircraft sums up the session that departed at message n. */
  lemma FlightsTellTheirSession(cfg: Config, events: seq<Event>, i: nat) returns (n: nat)
    requires i < |Run(cfg, events).h.flights|
    ensures var h, messages := Run(cfg, events).h, Messages(events);
      var s := h.flights[i];
      && s.taking < |h.takings| && DepartsAt(messages, n, h.takings[s.taking].entry, cfg.range)
      && TellsSession(s.record, H.Session(messages[..n], HexOf(h.takings[s.taking])), cfg.range)
  {
    var w, messages := Run(cfg, events), Messages(events);
    var s := w.h.flights[i];
    RunIsReachable(cfg, events);
    ReachableProv(cfg, w);
    assert FlightOk(w.h, s);
    var e := w.h.takings[s.taking].entry;
    RunDeparts(cfg, events);
    assert HasDeparted(messages, e, cfg.range);
    n :| DepartsAt(messages, n, e, cfg.range);
    DepartedSumsUp(messages, n, e, cfg.range);
    BuildsExactlyWhen(e, s.record.aircraft, w.h.takings[s.taking].refs);
    EntryTellsSession(s.record, e, H.Session(messages[..n], e.icaoHex), cfg.range);
  }

  /**
   In every run, each flight record that was published or queued cites at least one batch, cites
   none twice, and every one of them is a published sighting whose manifest lists the record's
   aircraft; a queued one is in the retry queue until some publish of it is acknowledged.
   */
  lemma FlightsCiteTheirSightings(cfg: Config, w: World, i: nat)
    requires Reachable(cfg, w) && i < |w.h.flights|
    ensures var s := w.h.flights[i];
      && s.taking < |w.h.takings|
      && s.record.batches != [] && NoDup(s.record.batches)
      && (forall r :: r in s.record.batches ==> Cites(w.h, r, HexOf(w.h.takings[s.taking])))
      && (s.queued.Some? ==>
            || s.queued.value in w.h.mail.acked
            || (s.queued.value in w.d.queue.table.rows
                && w.d.queue.table.rows[s.queued.value].record == Flight(s.record)))
  {
    ReachableProv(cfg, w);
    ReachableInv(cfg, w);
    assert FlightOk(w.h, w.h.flights[i]);
    assert Sound(w.h, w.h.takings[w.h.flights[i].taking].refs, HexOf(w.h.takings[w.h.flights[i].taking]));
  }

  /**
   In every run a flight record, published or queued, is exact if and only if its session's chunks were
   published in turn; it counts the positions of the session in any case.
   */
  lemma FlightIsExactExactlyWhen(cfg: Config, w: World, i: nat)
    requires Reachable(cfg, w) && i < |w.h.flights|
    ensures w.h.flights[i].taking < |w.h.takings|
    ensures FlightExact(w.h, w.h.flights[i]) <==> SessionInTurn(w.h, w.h.flights[i].taking)
  {
    ReachableProv(cfg, w);
    var s := w.h.flights[i];
    assert FlightOk(w.h, s);
    TakingIsExactExactlyWhen(cfg, w, s.taking);
    SessionsDepartOnce(cfg, w, s.taking);
    var t := w.h.takings[s.taking];
    assert s.record.batches == t.refs && s.record.positionCount == t.entry.positionCount;
    assert forall it :: IsCited(w.h, t, it) <==>
      exists x :: x in w.h.sightings && x.ref in s.record.batches && HasRow(x.chunk, it.hex) && it in x.items;
  }

  /** In a run that is timely for its aircraft, a flight record is exact. */
  lemma FlightsAreExact(cfg: Config, events: seq<Event>, i: nat)
    requires i < |Run(cfg, events).h.flights|
    requires var h := Run(cfg, events).h;
      h.flights[i].taking < |h.takings| ==> TimelyRun(cfg, events, HexOf(h.takings[h.flights[i].taking]))
    ensures Run(cfg, events).h.flights[i].taking < |Run(cfg, events).h.takings|
    ensures FlightExact(Run(cfg, events).h, Run(cfg, events).h.flights[i])
  {
    var w := Run(cfg, events);
    RunIsReachable(cfg, events);
    FlightIsExactExactlyWhen(cfg, w, i);
    TimelyInTurn(cfg, events, HexOf(w.h.takings[w.h.flights[i].taking]), w.h.flights[i].taking);
  }

  // ---- the retry queue ----

  /**
   In every run the queue is that of the records that were refused, put when they were refused, and of the
   drains; so every row in it counts the failed publishes of its record and is due as the last one says.
   */
  lemma QueueRunsOnItsOwn(cfg: Config, events: seq<Event>)
    ensures Run(cfg, events).d.queue == Queue.Run(QueueSteps(cfg, events)).0
    ensures Queue.RowsTell(QueueSteps(cfg, events))
  {
    QueueRuns(cfg, events);
    Queue.RowsTellTheirFailures(QueueSteps(cfg, events));
  }

  // ---- raw captures ----

  /** In every run the captures that have a fate are those that the adapters reported, in order. */
  lemma EveryCaptureIsKept(cfg: Config, events: seq<Event>)
    ensures AllPaths(Run(cfg, events).h.captures) == ReportedPaths(events)
  {
    RunPaths(cfg, events);
  }

  /**
   In every run the captures on the list are, in order, what the daemon's list holds; those with a flush are
   what that flush holds in front of its first chunk, until its files are processed; and the blob a flush
   holds is made of exactly the captures in it.
   */
  lemma CapturesAreConserved(cfg: Config, w: World, f: nat)
    requires Reachable(cfg, w)
    ensures PathsOf(w.h.captures, OnList) == w.d.rawCapturePaths
    ensures f in w.d.flushes ==>
              var task := w.d.flushes[f];
              && task.rawCapture == BlobOf(w.h.captures, f)
              && PathsOf(w.h.captures, WithFlush(f))
                   == if task.next == 0 && task.rawCapture.None? then task.paths else []
    ensures f !in w.d.flushes ==> PathsOf(w.h.captures, WithFlush(f)) == []
  {
    ReachablePlaces(cfg, w);
    assert FlushHolds(w.d, w.h.captures, f) && NotHeld(w.d, w.h.captures, f);
  }

  /**
   In every run the record of a chunk, published or queued, carries the blob of exactly the captures in the
   blob of its flush if it is the first chunk, and none otherwise.
   */
  lemma RecordsCarryTheirCaptures(cfg: Config, w: World, f: nat, k: nat)
    requires Reachable(cfg, w) && f < |w.h.closed| && k < |w.h.closed[f].fates|
    ensures CarriesRight(w.h, f, k)
  {
    var events :| Run(cfg, events) == w;
    RunRecords(cfg, events);
  }

  /**
   A capture that is in the blob of its flush can be split out of a published or queued record of that
   flush if and only if the flush has attempted its first chunk and that chunk was not lost, as it is when
   its upload fails.
   */
  lemma CaptureIsRecordedExactlyWhen(cfg: Config, w: World, c: nat, f: nat, section: Bytes)
    requires cfg.codec.Inverts() && Reachable(cfg, w)
    requires c < |w.h.captures| && w.h.captures[c].fate == InBlob(f, section)
    ensures f < |w.h.closed|
    ensures IsRecorded(w.h, f, section) <==> w.h.closed[f].fates != [] && !w.h.closed[f].fates[0].Lost?
  {
    var events :| Run(cfg, events) == w;
    RunInv(cfg, events);
    RunPlaces(cfg, events);
    RunRecords(cfg, events);
    RunFramed(cfg, events);
    SectionsMeaning(w.h.captures, f, section);
    assert NotHeld(w.d, w.h.captures, f);
    if IsRecorded(w.h, f, section) {
      OnlyFirstCarries(w.h, f, section);
    }
    if w.h.closed[f].fates != [] && !w.h.closed[f].fates[0].Lost? {
      assert CarriesRight(w.h, f, 0);
      FirstCarries(w.h, f, section);
    }
  }

  /**
   Whatever the capture files held, the raw capture of every record that was published or queued splits, and
   every section parses and bears the station and the window of that very record.
   */
  lemma EveryRecordIsStamped(cfg: Config, w: World)
    requires cfg.codec.Inverts() && Reachable(cfg, w)
    ensures forall ref :: ref in w.h.repository ==> RecordStamped(cfg, w.h.repository[ref])
    ensures forall id :: id in w.h.mail.put && w.h.mail.put[id].Sighting? ==>
              RecordStamped(cfg, w.h.mail.put[id].sighting)
  {
    var events :| Run(cfg, events) == w;
    RunStamps(cfg, events);
  }

  /**
   A capture that is not yet in a blob is given up exactly when the tick that takes it finds an empty window,
   one that cannot be chunked, or captures switched off; when its own file fails while the others of its
   flush go on; or when its flush attempts its first chunk without a blob.
   */
  lemma DroppedExactlyWhen(cfg: Config, w: World, e: Event, c: nat)
    requires Reachable(cfg, w) && Possible(cfg, w, e.act)
    ensures Drops(w.h.captures, Step(cfg, w, e).h.captures, c) <==> c < |w.h.captures| && DropCause(cfg, w, e.act, c)
  {
    ReachablePlaces(cfg, w);
    CapturesStay(cfg, w, e);
    if c < |w.h.captures| {
      if e.act.RawUploaded? {
        UploadDrops(cfg, w, e, c);
      } else if IsAttempt(e.act) {
        AttemptDrops(cfg, w, e, c);
      } else if e.act.FlushTick? {
        TickSwaps(cfg, w, e);
      } else if e.act.RawCaptured? {
        CaughtCapture(cfg, w, e);
      } else {
        SameCaptureParts(cfg, w, e);
      }
    }
  }
}
