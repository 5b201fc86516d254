/**
 A daemon that keeps up with an aircraft cites it exactly.  If message timestamps do not go back, every
 position of the aircraft is in a published sighting within a minute of message time, nothing fails that
 concerns the aircraft, and its departures are reached before its next sighting and its next departure,
 then every departure of it, and every flight record made of one, cites exactly the sightings that hold its
 session.  What happens to other aircraft does not matter.
 */
module Exactness {
  import opened Tracker
  import opened Batch
  import opened Blobs
  import opened Records
  import opened DaemonModel
  import opened Conservation
  import opened Frames
  import opened Sessions
  import opened Provenance
  import opened Handover
  import opened Citation

  // ---- the daemon keeps up ----

  /** An item still in the window, or in a closed window whose chunk for that aircraft has no fate yet. */
  ghost predicate Pending(h: History, it: Item) {
    it in h.current || exists f: nat, k: nat :: PendingIn(h, it, f, k)
  }

  ghost predicate PendingIn(h: History, it: Item, f: nat, k: nat) {
    && f < |h.closed| && it in h.closed[f].items
    && |h.closed[f].fates| <= k < |h.closed[f].chunks| && HasRow(h.closed[f].chunks[k], it.hex)
  }

  /** Nothing fails that would lose a position or a departure of the aircraft. */
  ghost predicate NoFailure(cfg: Config, w: World, act: Action, hex: Hex) {
    && (act.UploadFailed? && Possible(cfg, w, act) ==>
          var task := w.d.flushes[act.upload];
          forall k :: task.next <= k < |task.chunks| ==> !HasRow(task.chunks[k], hex))
    && (act.SightingRefused? && Possible(cfg, w, act) ==>
          !HasRow(w.d.flushes[act.refused].chunks[w.d.flushes[act.refused].next], hex))
    && (act.DropDepartures? && Possible(cfg, w, act) ==> forall i: nat :: !WaitingAt(w.d, act.dropped, i, hex))
    && (act.FlushTick? && HasRow(w.d.window, hex) ==> ChunkTelemetry(w.d.window, cfg.size, LEXICON_LIMITS).Ok?)
  }

  /** Its departures are reached in time: before its next sighting, and before its next departure. */
  ghost predicate PromptDepartures(cfg: Config, w: World, act: Action, hex: Hex) {
    && (act.SightingPublished? && Possible(cfg, w, act) && IsWaiting(w.d, hex) ==>
          !HasRow(w.d.flushes[act.flush].chunks[w.d.flushes[act.flush].next], hex))
    && (act.Message? && IsWaiting(w.d, hex) ==>
          var departed := Update(w.d.tracker, act.aircraft, act.epoch, cfg.range).departed;
          forall i :: 0 <= i < |departed| ==> departed[i].icaoHex != hex)
  }

  /** Time is that of the messages: it does not go back, nor reach a minute past an unpublished position. */
  ghost predicate OnTime(w: World, act: Action, hex: Hex) {
    act.Message? ==>
      && w.h.clock <= DateMs(act.epoch)
      && forall it: Item :: it.hex == hex && Pending(w.h, it) ==> DateMs(act.epoch) < it.at + DEPARTURE_THRESHOLD_MS
  }

  ghost predicate Timely(cfg: Config, w: World, e: Event, hex: Hex) {
    OnTime(w, e.act, hex) && NoFailure(cfg, w, e.act, hex) && PromptDepartures(cfg, w, e.act, hex)
  }

  ghost predicate TimelyRun(cfg: Config, events: seq<Event>, hex: Hex) {
    forall k :: 0 <= k < |events| ==> Timely(cfg, Run(cfg, events[..k]), events[k], hex)
  }

  // ---- the invariant of one aircraft ----

  /** What has no fate yet belongs to the live session. */
  ghost predicate IsLive(w: World, it: Item) {
    && it.hex in w.d.tracker.entries && it.session == Begun(w.h.begun, it.hex)
    && it.at <= w.d.tracker.entries[it.hex].lastSeen
  }

  ghost predicate PendingLive(w: World, hex: Hex) {
    forall it: Item :: it.hex == hex && Pending(w.h, it) ==> IsLive(w, it)
  }

  /** Every chunk of the aircraft that has a fate was published by its flush. */
  ghost predicate NoLoss(h: History, hex: Hex) {
    forall f: nat, k: nat ::
      f < |h.closed| && k < |h.closed[f].fates| <= |h.closed[f].chunks| && HasRow(h.closed[f].chunks[k], hex) ==>
        h.closed[f].fates[k].InSighting?
  }

  /** A window holds positions of one session of the aircraft only. */
  ghost predicate Pure(items: seq<Item>, hex: Hex) {
    forall i, j :: 0 <= i < |items| && 0 <= j < |items| && items[i].hex == items[j].hex == hex ==>
      items[i].session == items[j].session
  }

  ghost predicate WindowsPure(h: History, hex: Hex) {
    forall f :: 0 <= f < |h.closed| ==> Pure(h.closed[f].items, hex)
  }

  /** The index holds exactly the published chunks of the session. */
  ghost predicate IndexHolds(w: World, hex: Hex, session: nat) {
    forall f: nat, k: nat :: ChunkIndexed(w, f, k, hex) <==> ByFlush(w.h, f, k) && ChunkHolds(w.h, f, k, hex, session)
  }

  ghost predicate NonePublished(h: History, hex: Hex, session: nat) {
    forall f: nat, k: nat :: ByFlush(h, f, k) ==> !ChunkHolds(h, f, k, hex, session)
  }

  ghost predicate NoneIndexed(w: World, hex: Hex) {
    forall f: nat, k: nat :: !ChunkIndexed(w, f, k, hex)
  }

  ghost predicate WaitsAlone(d: Core, hex: Hex) {
    forall t: nat, i: nat, u: nat, j: nat :: WaitingAt(d, t, i, hex) && WaitingAt(d, u, j, hex) ==> t == u && i == j
  }

  /** The index entry of the aircraft is that of its waiting departure, else that of its live session. */
  ghost predicate IndexAt(w: World, hex: Hex) {
    && (forall t: nat, i: nat :: WaitingAt(w.d, t, i, hex) ==> IndexHolds(w, hex, NumberAt(w.h, t, i)))
    && (hex in w.d.tracker.entries ==>
          if IsWaiting(w.d, hex) then NonePublished(w.h, hex, Begun(w.h.begun, hex))
          else IndexHolds(w, hex, Begun(w.h.begun, hex)))
    && (hex !in w.d.tracker.entries && !IsWaiting(w.d, hex) ==> NoneIndexed(w, hex))
    && WaitsAlone(w.d, hex)
  }

  ghost predicate ExactInv(w: World, hex: Hex) {
    && (hex in w.d.tracker.entries ==> w.d.tracker.entries[hex].lastSeen <= w.h.clock)
    && PendingLive(w, hex) && NoLoss(w.h, hex) && WindowsPure(w.h, hex) && IndexAt(w, hex)
  }

  /** What is known in every run. */
  ghost predicate Known(w: World) {
    Conservation.Inv(w) && ProvInv(w) && TurnsInv(w) && SessionsInv(w)
  }

  lemma ReachableKnown(cfg: Config, w: World)
    requires Reachable(cfg, w)
    ensures Known(w)
  {
    ReachableInv(cfg, w);
    ReachableProv(cfg, w);
    ReachableTurns(cfg, w);
    ReachableSessions(cfg, w);
  }

  // ---- a departure is ready ----

  lemma WaitingIsReady(w: World, hex: Hex, t: nat, i: nat)
    requires Known(w) && ExactInv(w, hex) && WaitingAt(w.d, t, i, hex)
    ensures Ready(w, hex, NumberAt(w.h, t, i))
  {
    var session := NumberAt(w.h, t, i);
    assert SessionInv(w, hex) && IsOver(w, w.d.departs[t].waiting[i], session);
    if Touches(w.h.current, hex, session) {
      var it := TouchIsItem(w.h.current, hex, session);
      assert Pending(w.h, it);
    }
    forall f: nat, k: nat | ChunkHolds(w.h, f, k, hex, session) ensures ChunkIndexed(w, f, k, hex) {
      OverIsPublished(w, hex, f, k, session);
      assert IndexHolds(w, hex, session);
    }
    forall f: nat, k: nat | ChunkIndexed(w, f, k, hex) ensures Touches(w.h.closed[f].items, hex, session) {
      assert IndexHolds(w, hex, session);
    }
  }

  lemma OverIsPublished(w: World, hex: Hex, f: nat, k: nat, session: nat)
    requires Conservation.Inv(w) && PendingLive(w, hex) && NoLoss(w.h, hex) && ChunkHolds(w.h, f, k, hex, session)
    requires hex in w.d.tracker.entries ==> session < Begun(w.h.begun, hex)
    ensures ByFlush(w.h, f, k)
  {
    WindowsBounded(w.d, w.h);
    var it := TouchIsItem(w.h.closed[f].items, hex, session);
    if k >= |w.h.closed[f].fates| {
      assert PendingIn(w.h, it, f, k);
    }
  }

  // ---- a message ----

  lemma MessagePending(w: World, w': World, items: seq<Item>, it: Item)
    requires w'.h.closed == w.h.closed && w'.h.current == w.h.current + items
    ensures Pending(w'.h, it) <==> Pending(w.h, it) || it in items
  {
    if f: nat, k: nat :| PendingIn(w.h, it, f, k) { assert PendingIn(w'.h, it, f, k); }
    if f: nat, k: nat :| PendingIn(w'.h, it, f, k) { assert PendingIn(w.h, it, f, k); }
  }

  lemma MessageKeepsLive(w: World, w': World, o: Outcome, items: seq<Item>, m: set<Hex>, hex: Hex)
    requires ExactInv(w, hex) && Messaged(w, w', o, items, m, hex) && w'.h.closed == w.h.closed
    requires w.h.clock <= w'.h.clock
    requires forall it: Item :: it.hex == hex && Pending(w.h, it) ==> w'.h.clock < it.at + DEPARTURE_THRESHOLD_MS
    ensures PendingLive(w', hex)
    ensures hex in w'.d.tracker.entries ==> w'.d.tracker.entries[hex].lastSeen <= w'.h.clock
  {
    forall it: Item | it.hex == hex && Pending(w'.h, it) ensures IsLive(w', it) {
      MessagePending(w, w', items, it);
      assert it !in items ==> IsLive(w, it);
    }
  }

  lemma SameChunks(w: World, w': World, hex: Hex)
    requires w'.h.closed == w.h.closed && w'.d.index == w.d.index
    ensures forall f: nat, k: nat :: ChunkIndexed(w', f, k, hex) <==> ChunkIndexed(w, f, k, hex)
    ensures forall f: nat, k: nat :: ByFlush(w'.h, f, k) <==> ByFlush(w.h, f, k)
    ensures forall f: nat, k: nat, session: nat ::
              ChunkHolds(w'.h, f, k, hex, session) <==> ChunkHolds(w.h, f, k, hex, session)
  {
  }

  lemma SameIndexHolds(w: World, w': World, hex: Hex, session: nat)
    requires w'.h.closed == w.h.closed && w'.d.index == w.d.index
    ensures IndexHolds(w', hex, session) <==> IndexHolds(w, hex, session)
    ensures NonePublished(w'.h, hex, session) <==> NonePublished(w.h, hex, session)
    ensures NoneIndexed(w', hex) <==> NoneIndexed(w, hex)
  {
    SameChunks(w, w', hex);
  }

  /** No chunk holds a session that is only now beginning. */
  lemma NewSessionUnpublished(w: World, hex: Hex, session: nat)
    requires Conservation.Inv(w) && SessionInv(w, hex) && session > Begun(w.h.begun, hex)
    ensures forall f: nat, k: nat :: !ChunkHolds(w.h, f, k, hex, session)
  {
    forall f: nat, k: nat ensures !ChunkHolds(w.h, f, k, hex, session) {
      if ChunkHolds(w.h, f, k, hex, session) {
        var it := TouchIsItem(w.h.closed[f].items, hex, session);
        ClosedItemsInLog(w.h.closed, f, it);
      }
    }
  }

  lemma MessageKeepsIndex(w: World, w': World, o: Outcome, items: seq<Item>, m: set<Hex>, hex: Hex)
    requires Known(w) && IndexAt(w, hex) && Messaged(w, w', o, items, m, hex)
    requires w'.h.closed == w.h.closed && w'.d.index == w.d.index
    requires IsWaiting(w.d, hex) ==> forall i :: 0 <= i < |o.departed| ==> o.departed[i].icaoHex != hex
    ensures IndexAt(w', hex)
  {
    var begun := Begun(w'.h.begun, hex);
    assert SessionInv(w, hex);
    SameIndexHolds(w, w', hex, begun);
    if k :| 0 <= k < |o.departed| && o.departed[k].icaoHex == hex {
      DepartingKeepsIndex(w, w', o, items, m, hex, k);
    } else {
      NoneDepartsWaiting(w, w', o, items, m, hex);
      forall t: nat, i: nat | WaitingAt(w'.d, t, i, hex) ensures IndexHolds(w', hex, NumberAt(w'.h, t, i)) {
        MessageLeaving(w, w', o, items, m, hex, t, i);
        SameIndexHolds(w, w', hex, NumberAt(w.h, t, i));
      }
      if hex in m && hex !in w.d.tracker.entries {
        NewSessionUnpublished(w, hex, begun);
      }
    }
  }

  /** It departs now: nothing of it was waiting, so its index entry is that of its live session. */
  lemma DepartingKeepsIndex(w: World, w': World, o: Outcome, items: seq<Item>, m: set<Hex>, hex: Hex, k: nat)
    requires LeavingInv(w) && IndexAt(w, hex) && Messaged(w, w', o, items, m, hex)
    requires w'.h.closed == w.h.closed && w'.d.index == w.d.index
    requires k < |o.departed| && o.departed[k].icaoHex == hex && !IsWaiting(w.d, hex)
    ensures IndexAt(w', hex)
  {
    var t0 := w.d.nextDepart;
    assert WaitingAt(w'.d, t0, k, hex);
    forall t: nat, i: nat | WaitingAt(w'.d, t, i, hex)
      ensures t == t0 && i == k && IndexHolds(w', hex, NumberAt(w'.h, t, i))
    {
      MessageLeaving(w, w', o, items, m, hex, t, i);
      SameIndexHolds(w, w', hex, NumberAt(w'.h, t, i));
    }
  }

  lemma NoneDepartsWaiting(w: World, w': World, o: Outcome, items: seq<Item>, m: set<Hex>, hex: Hex)
    requires Messaged(w, w', o, items, m, hex) && forall i :: 0 <= i < |o.departed| ==> o.departed[i].icaoHex != hex
    ensures forall t: nat, i: nat :: WaitingAt(w'.d, t, i, hex) <==> WaitingAt(w.d, t, i, hex)
    ensures IsWaiting(w'.d, hex) <==> IsWaiting(w.d, hex)
  {
    forall t: nat, i: nat ensures WaitingAt(w'.d, t, i, hex) <==> WaitingAt(w.d, t, i, hex) {
    }
    SameIsWaiting(w.d, w'.d, hex);
  }

  lemma SameIsWaiting(d: Core, d': Core, hex: Hex)
    requires forall t: nat, i: nat :: WaitingAt(d', t, i, hex) <==> WaitingAt(d, t, i, hex)
    ensures IsWaiting(d', hex) <==> IsWaiting(d, hex)
  {
    if t: nat, i: nat :| WaitingAt(d, t, i, hex) { assert WaitingAt(d', t, i, hex); }
    if t: nat, i: nat :| WaitingAt(d', t, i, hex) { assert WaitingAt(d, t, i, hex); }
  }

  lemma MessageKeepsExact(cfg: Config, w: World, e: Event, hex: Hex)
    requires Known(w) && ExactInv(w, hex) && Timely(cfg, w, e, hex) && e.act.Message?
    ensures ExactInv(Step(cfg, w, e), hex)
  {
    var w', o := Step(cfg, w, e), Update(w.d.tracker, e.act.aircraft, e.act.epoch, cfg.range);
    var items, m := ItemsAfter(cfg, w, e), Mentioned(e.act.aircraft);
    assert SessionInv(w, hex);
    MessageTouches(cfg, w, e);
    MessageResult(cfg, w, e);
    MessageIsMessaged(cfg, w, e, hex);
    MessageKeepsLive(w, w', o, items, m, hex);
    MessageKeepsIndex(w, w', o, items, m, hex);
  }

  // ---- steps that publish nothing of the aircraft ----

  ghost predicate SamePending(h: History, h': History, hex: Hex) {
    forall it: Item :: it.hex == hex && Pending(h', it) ==> Pending(h, it)
  }

  /** Nothing but closed windows changes that the invariant of the aircraft depends on. */
  ghost predicate Quiet(w: World, w': World, hex: Hex) {
    && SameTracking(w, w') && DaemonModel.Lookup(w'.d.index, hex) == DaemonModel.Lookup(w.d.index, hex)
    && (forall t: nat, i: nat :: WaitingAt(w'.d, t, i, hex) <==> WaitingAt(w.d, t, i, hex))
    && (forall t: nat, i: nat :: WaitingAt(w.d, t, i, hex) ==> NumberAt(w'.h, t, i) == NumberAt(w.h, t, i))
  }

  /** Published chunks are the same, and so is what they hold. */
  ghost predicate SamePublished(h: History, h': History) {
    forall f: nat, k: nat ::
      (ByFlush(h', f, k) <==> ByFlush(h, f, k)) && (ByFlush(h, f, k) && ByFlush(h', f, k) ==> SameChunk(h, h', f, k))
  }

  ghost predicate SameChunk(h: History, h': History, f: nat, k: nat)
    requires ByFlush(h, f, k) && ByFlush(h', f, k)
  {
    && h'.closed[f].chunks[k] == h.closed[f].chunks[k] && h'.closed[f].fates[k] == h.closed[f].fates[k]
    && h'.closed[f].items == h.closed[f].items
  }

  lemma QuietChunk(w: World, w': World, hex: Hex, f: nat, k: nat, session: nat)
    requires Quiet(w, w', hex) && SamePublished(w.h, w'.h)
    ensures ChunkIndexed(w', f, k, hex) <==> ChunkIndexed(w, f, k, hex)
    ensures ByFlush(w'.h, f, k) && ChunkHolds(w'.h, f, k, hex, session)
       <==> ByFlush(w.h, f, k) && ChunkHolds(w.h, f, k, hex, session)
  {
    assert ByFlush(w'.h, f, k) <==> ByFlush(w.h, f, k);
  }

  lemma QuietIndexHolds(w: World, w': World, hex: Hex, session: nat)
    requires Quiet(w, w', hex) && SamePublished(w.h, w'.h)
    ensures IndexHolds(w, hex, session) ==> IndexHolds(w', hex, session)
    ensures NonePublished(w.h, hex, session) ==> NonePublished(w'.h, hex, session)
    ensures NoneIndexed(w, hex) ==> NoneIndexed(w', hex)
  {
    forall f: nat, k: nat
      ensures ChunkIndexed(w', f, k, hex) <==> ChunkIndexed(w, f, k, hex)
      ensures ByFlush(w'.h, f, k) && ChunkHolds(w'.h, f, k, hex, session)
         <==> ByFlush(w.h, f, k) && ChunkHolds(w.h, f, k, hex, session)
    {
      QuietChunk(w, w', hex, f, k, session);
    }
  }

  lemma QuietKeepsIndex(w: World, w': World, hex: Hex)
    requires IndexAt(w, hex) && Quiet(w, w', hex) && SamePublished(w.h, w'.h)
    ensures IndexAt(w', hex)
  {
    SameIsWaiting(w.d, w'.d, hex);
    QuietIndexHolds(w, w', hex, Begun(w.h.begun, hex));
    forall t: nat, i: nat | WaitingAt(w'.d, t, i, hex) ensures IndexHolds(w', hex, NumberAt(w'.h, t, i)) {
      assert WaitingAt(w.d, t, i, hex);
      QuietIndexHolds(w, w', hex, NumberAt(w.h, t, i));
    }
  }

  lemma QuietStep(w: World, w': World, hex: Hex)
    requires ExactInv(w, hex) && Quiet(w, w', hex) && SamePublished(w.h, w'.h) && SamePending(w.h, w'.h, hex)
    requires NoLoss(w'.h, hex) && WindowsPure(w'.h, hex)
    ensures ExactInv(w', hex)
  {
    QuietKeepsIndex(w, w', hex);
    forall it: Item | it.hex == hex && Pending(w'.h, it) ensures IsLive(w', it) {
      assert IsLive(w, it);
    }
  }

  lemma SameWindowsKeep(h: History, h': History, hex: Hex)
    requires h'.closed == h.closed && h'.current == h.current
    ensures SamePublished(h, h') && SamePending(h, h', hex)
    ensures NoLoss(h, hex) ==> NoLoss(h', hex)
    ensures WindowsPure(h, hex) ==> WindowsPure(h', hex)
  {
    forall it: Item | it.hex == hex && Pending(h', it) ensures Pending(h, it) {
      if f: nat, k: nat :| PendingIn(h', it, f, k) { assert PendingIn(h, it, f, k); }
    }
  }

  lemma OtherIsQuiet(cfg: Config, w: World, e: Event, hex: Hex)
    requires e.act.RawCaptured? || e.act.RawUploaded? || IsDrain(e.act)
    ensures Quiet(w, Step(cfg, w, e), hex)
    ensures Step(cfg, w, e).h.closed == w.h.closed && Step(cfg, w, e).h.current == w.h.current
  {
    match e.act
    case RawCaptured(_) => CapturedTouches(cfg, w, e);
    case RawUploaded(_, _) => UploadTouches(cfg, w, e);
    case Drain(_) => DrainTouches(cfg, w, e);
    case Resent(_, _) => ResendTouches(cfg, w, e);
  }

  lemma DoneIsQuiet(cfg: Config, w: World, e: Event, hex: Hex)
    requires e.act.FlightDone? && Possible(cfg, w, e.act)
    ensures Quiet(w, Step(cfg, w, e), hex)
    ensures Step(cfg, w, e).h.closed == w.h.closed && Step(cfg, w, e).h.current == w.h.current
  {
    DoneTouches(cfg, w, e);
  }

  lemma DropIsQuiet(cfg: Config, w: World, e: Event, hex: Hex)
    requires e.act.DropDepartures? && Possible(cfg, w, e.act) && NoFailure(cfg, w, e.act, hex)
    ensures Quiet(w, Step(cfg, w, e), hex)
    ensures Step(cfg, w, e).h.closed == w.h.closed && Step(cfg, w, e).h.current == w.h.current
  {
    DropTouches(cfg, w, e);
  }

  lemma OtherKeepsExact(cfg: Config, w: World, e: Event, hex: Hex)
    requires ExactInv(w, hex) && Timely(cfg, w, e, hex) && Possible(cfg, w, e.act)
    requires e.act.FlightDone? || e.act.DropDepartures? || e.act.RawCaptured? || e.act.RawUploaded? || IsDrain(e.act)
    ensures ExactInv(Step(cfg, w, e), hex)
  {
    if e.act.FlightDone? {
      DoneIsQuiet(cfg, w, e, hex);
    } else if e.act.DropDepartures? {
      DropIsQuiet(cfg, w, e, hex);
    } else {
      OtherIsQuiet(cfg, w, e, hex);
    }
    SameWindowsKeep(w.h, Step(cfg, w, e).h, hex);
    QuietStep(w, Step(cfg, w, e), hex);
  }

  // ---- a flush begins ----

  lemma TickIsQuiet(cfg: Config, w: World, e: Event, hex: Hex)
    requires e.act.FlushTick?
    ensures Quiet(w, Step(cfg, w, e), hex)
  {
    TickTouches(cfg, w, e);
  }

  /** All chunks of the window are lost, and none lists the aircraft. */
  ghost predicate LostWithout(c: Closed, hex: Hex) {
    |c.fates| == |c.chunks| && forall k :: 0 <= k < |c.fates| ==> c.fates[k].Lost? && !HasRow(c.chunks[k], hex)
  }

  /** The window closed as c: its chunks have no fate yet, or it does not list the aircraft. */
  ghost predicate ClosesAs(h: History, h': History, c: Closed, hex: Hex) {
    && h'.current == [] && h'.closed == h.closed + [c] && c.items == h.current && WellSplit(c)
    && (c.fates == [] || LostWithout(c, hex))
  }

  lemma ClosingKeeps(h: History, h': History, c: Closed, hex: Hex)
    requires ClosesAs(h, h', c, hex) && NoLoss(h, hex) && WindowsPure(h, hex) && Pure(h.current, hex)
    ensures SamePublished(h, h') && SamePending(h, h', hex) && NoLoss(h', hex) && WindowsPure(h', hex)
  {
    forall it: Item | it.hex == hex && Pending(h', it) ensures Pending(h, it) {
      var f: nat, k: nat :| PendingIn(h', it, f, k);
      assert f < |h.closed| ==> PendingIn(h, it, f, k);
    }
  }

  lemma LivePure(w: World, hex: Hex)
    requires PendingLive(w, hex)
    ensures Pure(w.h.current, hex)
  {
    forall i | 0 <= i < |w.h.current| && w.h.current[i].hex == hex
      ensures w.h.current[i].session == Begun(w.h.begun, hex)
    {
      assert Pending(w.h, w.h.current[i]);
    }
  }

  lemma TickClosesAs(cfg: Config, w: World, e: Event, hex: Hex)
    requires WindowsInv(w.d, w.h) && Timely(cfg, w, e, hex) && e.act.FlushTick? && w.d.window != []
    ensures ClosesAs(w.h, Step(cfg, w, e).h, CloseWindow(cfg, w.d, w.h), hex)
  {
    TickResult(cfg, w, e);
    CloseWellSplit(cfg, w.d, w.h);
  }

  lemma TickKeepsExact(cfg: Config, w: World, e: Event, hex: Hex)
    requires Known(w) && ExactInv(w, hex) && Timely(cfg, w, e, hex) && e.act.FlushTick?
    ensures ExactInv(Step(cfg, w, e), hex)
  {
    TickIsQuiet(cfg, w, e, hex);
    if w.d.window == [] {
      TickResult(cfg, w, e);
      SameWindowsKeep(w.h, Step(cfg, w, e).h, hex);
    } else {
      LivePure(w, hex);
      TickClosesAs(cfg, w, e, hex);
      ClosingKeeps(w.h, Step(cfg, w, e).h, CloseWindow(cfg, w.d, w.h), hex);
    }
    QuietStep(w, Step(cfg, w, e), hex);
  }

  // ---- a flush moves on without publishing ----

  /** Window f gets fates for chunks that do not list the aircraft, and none of them is a publication. */
  ghost predicate Skips(h: History, h': History, f: nat, hex: Hex) {
    && h'.current == h.current && Extends(h.closed, h'.closed) && |h'.closed| == |h.closed|
    && Bounded(h.closed) && Bounded(h'.closed)
    && forall g: nat, k: nat :: NewFate(h.closed, h'.closed, g, k) ==>
         !h'.closed[g].fates[k].InSighting? && !HasRow(h.closed[g].chunks[k], hex)
  }

  lemma SkippingKeeps(h: History, h': History, f: nat, hex: Hex)
    requires Skips(h, h', f, hex) && NoLoss(h, hex) && WindowsPure(h, hex)
    ensures SamePublished(h, h') && SamePending(h, h', hex) && NoLoss(h', hex) && WindowsPure(h', hex)
  {
    forall g: nat, k: nat | ByFlush(h', g, k) ensures ByFlush(h, g, k) {
      assert !NewFate(h.closed, h'.closed, g, k);
    }
    forall g: nat, k: nat |
      g < |h'.closed| && k < |h'.closed[g].fates| <= |h'.closed[g].chunks| && HasRow(h'.closed[g].chunks[k], hex)
      ensures h'.closed[g].fates[k].InSighting?
    {
      assert !NewFate(h.closed, h'.closed, g, k);
      assert h'.closed[g].fates[k] == h.closed[g].fates[k];
    }
    forall it: Item | it.hex == hex && Pending(h', it) ensures Pending(h, it) {
      if g: nat, k: nat :| PendingIn(h', it, g, k) {
        assert PendingIn(h, it, g, k);
      }
    }
  }

  lemma FailureSkips(cfg: Config, w: World, e: Event, hex: Hex)
    requires Conservation.Inv(w) && Timely(cfg, w, e, hex) && e.act.UploadFailed? && Possible(cfg, w, e.act)
    ensures Skips(w.h, Step(cfg, w, e).h, e.act.upload, hex)
  {
    FailureTouches(cfg, w, e);
    StepCloses(cfg, w, e);
    RestSkips(w.d, w.h, Step(cfg, w, e).h, e.act.upload, hex);
  }

  lemma RestSkips(d: Core, h: History, h': History, f: nat, hex: Hex)
    requires FlushInv(d, h) && Flushing(d, f)
    requires forall k :: d.flushes[f].next <= k < |d.flushes[f].chunks| ==> !HasRow(d.flushes[f].chunks[k], hex)
    requires h'.closed == LoseRest(h.closed, f) && h'.current == h.current
    ensures Skips(h, h', f, hex)
  {
    assert Tracks(d, f, h.closed[f]);
    LostAreNew(d, h, f);
    FailureExtends(d, h, f);
    WindowsBounded(d, h);
  }

  lemma RefusalSkips(cfg: Config, w: World, e: Event, hex: Hex)
    requires Conservation.Inv(w) && Timely(cfg, w, e, hex) && e.act.SightingRefused? && Possible(cfg, w, e.act)
    ensures Skips(w.h, Step(cfg, w, e).h, e.act.refused, hex)
  {
    RefuseTouches(cfg, w, e);
    StepCloses(cfg, w, e);
    RefusedFate(cfg, w, e.act.refused);
    NextSkips(w.d, w.h, Step(cfg, w, e).h, e.act.refused, InQueue(w.d.queue.table.nextId), hex);
  }

  lemma NextSkips(d: Core, h: History, h': History, f: nat, fate: Fate, hex: Hex)
    requires FlushInv(d, h) && Flushing(d, f) && !fate.InSighting?
    requires !HasRow(d.flushes[f].chunks[d.flushes[f].next], hex)
    requires h'.closed == AddFate(h.closed, f, fate) && h'.current == h.current
    ensures Skips(h, h', f, hex)
  {
    assert Tracks(d, f, h.closed[f]);
    FateExtends(d, h, f, fate);
    WindowsBounded(d, h);
  }

  lemma LossKeepsExact(cfg: Config, w: World, e: Event, hex: Hex)
    requires Known(w) && ExactInv(w, hex) && Timely(cfg, w, e, hex) && Possible(cfg, w, e.act)
    requires e.act.UploadFailed? || e.act.SightingRefused?
    ensures ExactInv(Step(cfg, w, e), hex)
  {
    var f := if e.act.UploadFailed? then e.act.upload else e.act.refused;
    if e.act.UploadFailed? {
      FailureTouches(cfg, w, e);
      FailureSkips(cfg, w, e, hex);
    } else {
      RefuseTouches(cfg, w, e);
      RefusalSkips(cfg, w, e, hex);
    }
    LossIsQuiet(w, Step(cfg, w, e), hex);
    SkippingKeeps(w.h, Step(cfg, w, e).h, f, hex);
    QuietStep(w, Step(cfg, w, e), hex);
  }

  lemma LossIsQuiet(w: World, w': World, hex: Hex)
    requires SameTracking(w, w') && SameDepartures(w, w') && SameIndex(w, w')
    ensures Quiet(w, w', hex)
  {
  }

  // ---- a departure is reached ----

  lemma TakeKeepsIndex(w: World, w': World, t: nat, hex: Hex)
    requires Known(w) && IndexAt(w, hex) && JustTaken(w, w', t) && SameTracking(w, w')
    ensures IndexAt(w', hex)
  {
    if hex == w.d.departs[t].waiting[0].icaoHex {
      SelfTaken(w, w', t, hex);
    } else {
      OtherTaken(w, w', t, hex);
    }
  }

  lemma SelfTaken(w: World, w': World, t: nat, hex: Hex)
    requires LeavingInv(w) && IndexAt(w, hex) && JustTaken(w, w', t) && SameTracking(w, w')
    requires hex == w.d.departs[t].waiting[0].icaoHex
    ensures IndexAt(w', hex)
  {
    assert WaitingAt(w.d, t, 0, hex);
    forall u: nat, i: nat ensures !WaitingAt(w'.d, u, i, hex) {
      TookWaiting(w, w', t, hex, u, i);
      assert WaitingAt(w.d, u, if u == t then i + 1 else i, hex) ==> u == t && i + 1 == 0;
    }
    if hex in w.d.tracker.entries {
      NothingToHold(w, w', hex, Begun(w.h.begun, hex));
    }
  }

  lemma NothingToHold(w: World, w': World, hex: Hex, session: nat)
    requires NonePublished(w.h, hex, session) && w'.h.closed == w.h.closed && NoneIndexed(w', hex)
    ensures IndexHolds(w', hex, session)
  {
    assert forall f: nat, k: nat :: ByFlush(w'.h, f, k) <==> ByFlush(w.h, f, k);
    assert forall f: nat, k: nat :: ChunkHolds(w'.h, f, k, hex, session) <==> ChunkHolds(w.h, f, k, hex, session);
  }

  lemma OtherTaken(w: World, w': World, t: nat, hex: Hex)
    requires LeavingInv(w) && IndexAt(w, hex) && JustTaken(w, w', t) && SameTracking(w, w')
    requires hex != w.d.departs[t].waiting[0].icaoHex
    ensures IndexAt(w', hex)
  {
    OtherStillWaits(w, w', t, hex);
    SameLookupHolds(w, w', hex, Begun(w.h.begun, hex));
    forall u: nat, i: nat | WaitingAt(w'.d, u, i, hex) ensures IndexHolds(w', hex, NumberAt(w'.h, u, i)) {
      TookWaiting(w, w', t, hex, u, i);
      SameLookupHolds(w, w', hex, NumberAt(w'.h, u, i));
    }
    OtherAlone(w, w', t, hex);
  }

  lemma OtherAlone(w: World, w': World, t: nat, hex: Hex)
    requires LeavingInv(w) && WaitsAlone(w.d, hex) && TakesFirst(w, w', t)
    ensures WaitsAlone(w'.d, hex)
  {
    forall u: nat, i: nat, v: nat, j: nat | WaitingAt(w'.d, u, i, hex) && WaitingAt(w'.d, v, j, hex)
      ensures u == v && i == j
    {
      TookWaiting(w, w', t, hex, u, i);
      TookWaiting(w, w', t, hex, v, j);
    }
  }

  lemma OtherStillWaits(w: World, w': World, t: nat, hex: Hex)
    requires LeavingInv(w) && TakesFirst(w, w', t) && hex != w.d.departs[t].waiting[0].icaoHex
    ensures IsWaiting(w'.d, hex) <==> IsWaiting(w.d, hex)
  {
    if u: nat, i: nat :| WaitingAt(w.d, u, i, hex) {
      var j := if u == t then i - 1 else i;
      TookWaiting(w, w', t, hex, u, j);
    }
    if u: nat, i: nat :| WaitingAt(w'.d, u, i, hex) {
      TookWaiting(w, w', t, hex, u, i);
    }
  }

  lemma SameLookupHolds(w: World, w': World, hex: Hex, session: nat)
    requires w'.h.closed == w.h.closed && DaemonModel.Lookup(w'.d.index, hex) == DaemonModel.Lookup(w.d.index, hex)
    ensures IndexHolds(w', hex, session) <==> IndexHolds(w, hex, session)
    ensures NonePublished(w'.h, hex, session) <==> NonePublished(w.h, hex, session)
    ensures NoneIndexed(w', hex) <==> NoneIndexed(w, hex)
  {
    assert forall f: nat, k: nat :: ChunkIndexed(w', f, k, hex) <==> ChunkIndexed(w, f, k, hex);
    assert forall f: nat, k: nat :: ByFlush(w'.h, f, k) <==> ByFlush(w.h, f, k);
    assert forall f: nat, k: nat :: ChunkHolds(w'.h, f, k, hex, session) <==> ChunkHolds(w.h, f, k, hex, session);
  }

  lemma TakeKeepsExact(cfg: Config, w: World, e: Event, hex: Hex)
    requires Known(w) && ExactInv(w, hex) && e.act.TakeRefs? && Possible(cfg, w, e.act)
    ensures ExactInv(Step(cfg, w, e), hex)
  {
    var w' := Step(cfg, w, e);
    TakeTouches(cfg, w, e);
    TakeResult(cfg, w, e);
    TakeIsFirst(cfg, w, e);
    SameWindowsKeep(w.h, w'.h, hex);
    TakeKeepsIndex(w, w', e.act.task, hex);
    TakenKeepsLive(w, w', hex);
  }

  lemma TakenKeepsLive(w: World, w': World, hex: Hex)
    requires PendingLive(w, hex) && SameTracking(w, w') && SamePending(w.h, w'.h, hex)
    ensures PendingLive(w', hex)
  {
    forall it: Item | it.hex == hex && Pending(w'.h, it) ensures IsLive(w', it) {
      assert IsLive(w, it);
    }
  }

  // ---- a sighting is published ----

  /** The next chunk of window f is published under a ref of its own. */
  ghost predicate PublishesNext(w: World, w': World, f: nat, ref: StrongRef) {
    && f < |w.h.closed| && |w.h.closed[f].fates| < |w.h.closed[f].chunks|
    && w'.h.closed == AddFate(w.h.closed, f, InSighting(ref)) && w'.h.current == w.h.current
    && Publishes(w, w', w.h.closed[f].chunks[|w.h.closed[f].fates|], ref)
    && SameTracking(w, w') && SameDepartures(w, w') && Bounded(w.h.closed)
  }

  lemma PublicationIsNext(cfg: Config, w: World, e: Event)
    requires Known(w) && e.act.SightingPublished? && Possible(cfg, w, e.act)
    ensures PublishesNext(w, Step(cfg, w, e), e.act.flush, e.act.ref)
  {
    var f := e.act.flush;
    PublishTouches(cfg, w, e);
    PublishResult(cfg, w, e);
    StepCloses(cfg, w, e);
    WindowsBounded(w.d, w.h);
    assert Tracks(w.d, f, w.h.closed[f]);
  }

  lemma PublishedPending(w: World, w': World, f: nat, ref: StrongRef, hex: Hex)
    requires PublishesNext(w, w', f, ref)
    ensures SamePending(w.h, w'.h, hex)
  {
    forall it: Item | it.hex == hex && Pending(w'.h, it) ensures Pending(w.h, it) {
      if g: nat, k: nat :| PendingIn(w'.h, it, g, k) { assert PendingIn(w.h, it, g, k); }
    }
  }

  /** If the chunk lists the aircraft, it holds its live session. */
  lemma NextHoldsLive(w: World, w': World, f: nat, ref: StrongRef, hex: Hex)
    requires Conservation.Inv(w) && PendingLive(w, hex) && PublishesNext(w, w', f, ref)
    requires HasRow(w.h.closed[f].chunks[|w.h.closed[f].fates|], hex)
    ensures hex in w.d.tracker.entries
    ensures ChunkHolds(w.h, f, |w.h.closed[f].fates|, hex, Begun(w.h.begun, hex))
    ensures forall session: nat :: session != Begun(w.h.begun, hex) ==> !Touches(w.h.closed[f].items, hex, session)
  {
    var c, k := w.h.closed[f], |w.h.closed[f].fates|;
    assert WellSplit(c);
    WindowKeepsArrivals(ToArrivals(c.items), hex);
    ChunksHoldWindow(c.chunks, hex);
    var i := ArrivalIsItem(c.items, hex);
    forall j | 0 <= j < |c.items| && c.items[j].hex == hex ensures IsLive(w, c.items[j]) {
      assert PendingIn(w.h, c.items[j], f, k);
    }
    assert Touches(c.items, hex, Begun(w.h.begun, hex));
  }

  /** Chunks other than the new one are published and indexed as before; the new one is indexed if it is listed. */
  lemma PublishedChunk(w: World, w': World, f: nat, ref: StrongRef, hex: Hex, g: nat, k: nat)
    requires Conservation.Inv(w) && IndexInv(w.d, w.h) && PublishesNext(w, w', f, ref)
    ensures var isNew := g == f && k == |w.h.closed[f].fates|;
      && (ByFlush(w'.h, g, k) <==> ByFlush(w.h, g, k) || isNew)
      && (ChunkIndexed(w', g, k, hex) <==>
            if isNew then HasRow(w.h.closed[f].chunks[k], hex) else ChunkIndexed(w, g, k, hex))
  {
    var c := w.h.closed[f];
    if g == f && k == |c.fates| {
      FreshRef(w.h, DaemonModel.Lookup(w.d.index, hex), hex, ref);
    } else if ByFlush(w.h, g, k) {
      assert FateHolds(w.h, w.h.closed[g], k);
      assert w.h.closed[g].fates[k].ref != ref;
    }
  }

  lemma PublishedHolds(w: World, w': World, f: nat, ref: StrongRef, hex: Hex, session: nat)
    requires PublishesNext(w, w', f, ref)
    ensures forall g: nat, k: nat :: ChunkHolds(w'.h, g, k, hex, session) <==> ChunkHolds(w.h, g, k, hex, session)
  {
  }

  lemma PublishedIndexHolds(w: World, w': World, f: nat, ref: StrongRef, hex: Hex, session: nat)
    requires Conservation.Inv(w) && IndexInv(w.d, w.h) && PublishesNext(w, w', f, ref) && IndexHolds(w, hex, session)
    requires HasRow(w.h.closed[f].chunks[|w.h.closed[f].fates|], hex) ==> Touches(w.h.closed[f].items, hex, session)
    ensures IndexHolds(w', hex, session)
  {
    PublishedHolds(w, w', f, ref, hex, session);
    forall g: nat, k: nat
      ensures ChunkIndexed(w', g, k, hex) <==> ByFlush(w'.h, g, k) && ChunkHolds(w'.h, g, k, hex, session)
    {
      PublishedChunk(w, w', f, ref, hex, g, k);
    }
  }

  lemma PublishedNone(w: World, w': World, f: nat, ref: StrongRef, hex: Hex, session: nat)
    requires Conservation.Inv(w) && IndexInv(w.d, w.h) && PublishesNext(w, w', f, ref)
    requires !HasRow(w.h.closed[f].chunks[|w.h.closed[f].fates|], hex)
    ensures NonePublished(w.h, hex, session) ==> NonePublished(w'.h, hex, session)
    ensures NoneIndexed(w, hex) ==> NoneIndexed(w', hex)
  {
    PublishedHolds(w, w', f, ref, hex, session);
    forall g: nat, k: nat
      ensures ByFlush(w'.h, g, k) && ChunkHolds(w'.h, g, k, hex, session) ==> ByFlush(w.h, g, k)
      ensures ChunkIndexed(w', g, k, hex) ==> ChunkIndexed(w, g, k, hex)
    {
      PublishedChunk(w, w', f, ref, hex, g, k);
    }
  }

  lemma PublishKeepsIndex(w: World, w': World, f: nat, ref: StrongRef, hex: Hex)
    requires Known(w) && ExactInv(w, hex) && PublishesNext(w, w', f, ref)
    requires IsWaiting(w.d, hex) ==> !HasRow(w.h.closed[f].chunks[|w.h.closed[f].fates|], hex)
    ensures IndexAt(w', hex)
  {
    var begun := Begun(w.h.begun, hex);
    SameIsWaiting(w.d, w'.d, hex);
    if HasRow(w.h.closed[f].chunks[|w.h.closed[f].fates|], hex) {
      NextHoldsLive(w, w', f, ref, hex);
      PublishedIndexHolds(w, w', f, ref, hex, begun);
    } else {
      PublishedNone(w, w', f, ref, hex, begun);
      if IndexHolds(w, hex, begun) {
        PublishedIndexHolds(w, w', f, ref, hex, begun);
      }
      forall t: nat, i: nat | WaitingAt(w'.d, t, i, hex) ensures IndexHolds(w', hex, NumberAt(w'.h, t, i)) {
        assert WaitingAt(w.d, t, i, hex);
        PublishedIndexHolds(w, w', f, ref, hex, NumberAt(w.h, t, i));
      }
    }
  }

  lemma PublishKeepsExact(cfg: Config, w: World, e: Event, hex: Hex)
    requires Known(w) && ExactInv(w, hex) && Timely(cfg, w, e, hex)
    requires e.act.SightingPublished? && Possible(cfg, w, e.act)
    ensures ExactInv(Step(cfg, w, e), hex)
  {
    var w', f, ref := Step(cfg, w, e), e.act.flush, e.act.ref;
    PublicationIsNext(cfg, w, e);
    assert Tracks(w.d, f, w.h.closed[f]);
    PublishKeepsIndex(w, w', f, ref, hex);
    PublishedPending(w, w', f, ref, hex);
    TakenKeepsLive(w, w', hex);
    PublishedKeepsWindows(w, w', f, ref, hex);
  }

  lemma PublishedKeepsWindows(w: World, w': World, f: nat, ref: StrongRef, hex: Hex)
    requires NoLoss(w.h, hex) && WindowsPure(w.h, hex) && PublishesNext(w, w', f, ref)
    ensures NoLoss(w'.h, hex) && WindowsPure(w'.h, hex)
  {
  }

  // ---- every timely run ----

  lemma StepKeepsExact(cfg: Config, w: World, e: Event, hex: Hex)
    requires Known(w) && ExactInv(w, hex) && Timely(cfg, w, e, hex)
    ensures ExactInv(Step(cfg, w, e), hex)
  {
    if Possible(cfg, w, e.act) {
      match e.act
      case Message(_, _) => MessageKeepsExact(cfg, w, e, hex);
      case TakeRefs(_) => TakeKeepsExact(cfg, w, e, hex);
      case FlushTick => TickKeepsExact(cfg, w, e, hex);
      case SightingPublished(_, _) => PublishKeepsExact(cfg, w, e, hex);
      case UploadFailed(_) => LossKeepsExact(cfg, w, e, hex);
      case SightingRefused(_) => LossKeepsExact(cfg, w, e, hex);
      case _ => OtherKeepsExact(cfg, w, e, hex);
    }
  }

  lemma TimelyFront(cfg: Config, events: seq<Event>, hex: Hex)
    requires events != [] && TimelyRun(cfg, events, hex)
    ensures var n := |events| - 1;
      TimelyRun(cfg, events[..n], hex) && Timely(cfg, Run(cfg, events[..n]), events[n], hex)
  {
    var n := |events| - 1;
    forall k | 0 <= k < n ensures Timely(cfg, Run(cfg, events[..n][..k]), events[..n][k], hex) {
      assert events[..n][..k] == events[..k];
    }
  }

  lemma {:induction false} RunExact(cfg: Config, events: seq<Event>, hex: Hex)
    requires TimelyRun(cfg, events, hex)
    ensures ExactInv(Run(cfg, events), hex)
  {
    if events != [] {
      var n := |events| - 1;
      TimelyFront(cfg, events, hex);
      RunExact(cfg, events[..n], hex);
      ReachableKnown(cfg, Run(cfg, events[..n]));
      StepKeepsExact(cfg, Run(cfg, events[..n]), events[n], hex);
    }
  }

  /** In a timely run every departure of the aircraft was ready when it was reached. */
  lemma {:induction false} TimelyInTurn(cfg: Config, events: seq<Event>, hex: Hex, k: nat)
    requires TimelyRun(cfg, events, hex) && k < |Run(cfg, events).h.takings|
    requires HexOf(Run(cfg, events).h.takings[k]) == hex
    ensures SessionInTurn(Run(cfg, events).h, k)
  {
    if events != [] {
      var n := |events| - 1;
      var w, e := Run(cfg, events[..n]), events[n];
      TimelyFront(cfg, events, hex);
      if k < |w.h.takings| {
        InTurnStays(cfg, w, e, k);
        TimelyInTurn(cfg, events[..n], hex, k);
      } else {
        RunExact(cfg, events[..n], hex);
        NewTakingIsInTurn(cfg, w, e, hex, k);
      }
    }
  }

  lemma NewTakingIsInTurn(cfg: Config, w: World, e: Event, hex: Hex, k: nat)
    requires Reachable(cfg, w) && ExactInv(w, hex) && |w.h.takings| <= k < |Step(cfg, w, e).h.takings|
    requires HexOf(Step(cfg, w, e).h.takings[k]) == hex
    ensures SessionInTurn(Step(cfg, w, e).h, k)
  {
    ReachableKnown(cfg, w);
    OnlyTakingTakes(cfg, w, e);
    TakingIsJust(cfg, w, e);
    FirstIsReady(w, Step(cfg, w, e), e.act.task, hex, k);
  }

  lemma FirstIsReady(w: World, w': World, t: nat, hex: Hex, k: nat)
    requires Known(w) && ExactInv(w, hex) && JustTaken(w, w', t)
    requires |w.h.takings| <= k < |w'.h.takings| && HexOf(w'.h.takings[k]) == hex
    ensures k == |w.h.takings| && Ready(w, w.d.departs[t].waiting[0].icaoHex, NumberAt(w.h, t, 0))
  {
    WaitingIsReady(w, hex, t, 0);
  }

  lemma OnlyTakingTakes(cfg: Config, w: World, e: Event)
    requires Known(w) && |Step(cfg, w, e).h.takings| > |w.h.takings|
    ensures Possible(cfg, w, e.act) && e.act.TakeRefs?
  {
    if Possible(cfg, w, e.act) {
      if e.act.SightingPublished? {
        PublishTouches(cfg, w, e);
      } else if !e.act.TakeRefs? {
        IndexStays(cfg, w, e);
      }
    }
  }

  lemma RunIsReachable(cfg: Config, events: seq<Event>)
    ensures Reachable(cfg, Run(cfg, events))
  {
  }

  // ---- flight records ----

  /** The record cites exactly what the repository accepted of its session, and counts its positions. */
  ghost predicate FlightExact(h: History, s: Sent)
    requires s.taking < |h.takings|
  {
    var t := h.takings[s.taking];
    && s.record.batches == RefsFor(Everything(h), HexOf(t), t.session)
    && (forall it :: it in h.log && it.hex == HexOf(t) && it.session == t.session ==>
          exists x :: x in h.sightings && x.ref in s.record.batches && HasRow(x.chunk, it.hex) && it in x.items)
    && s.record.positionCount == |SessionReports(h.log, HexOf(t), t.session)|
  }
}
