/**
 When a departure cites its session exactly: its refs are those of everything the repository accepted that
 holds the session, whether a flush or a drain published it, and every position of the session is in one of
 them.  It does so if and only if, when it is reached, every chunk that holds the session has been published
 by its flush and is in the index, and nothing else is there; and what is decided then stays decided.
 */
module Citation {
  import opened Tracker
  import opened Batch
  import opened Records
  import opened DaemonModel
  import opened Conservation
  import opened Frames
  import opened Sessions
  import opened Provenance
  import opened Handover

  /** All sightings the repository accepted: those of flushes, then those of drains. */
  function Everything(h: History): seq<Accepted> {
    h.sightings + h.retried
  }

  /** The refs are those of everything accepted that holds the session, in the order flushes published it. */
  ghost predicate CitesSession(h: History, t: Taken) {
    t.refs == RefsFor(Everything(h), HexOf(t), t.session)
  }

  ghost predicate IsCited(h: History, t: Taken, it: Item) {
    exists s :: s in h.sightings && s.ref in t.refs && HasRow(s.chunk, it.hex) && it in s.items
  }

  /** Every position of the session is in a cited sighting. */
  ghost predicate CitesPositions(h: History, t: Taken) {
    forall it :: it in h.log && it.hex == HexOf(t) && it.session == t.session ==> IsCited(h, t, it)
  }

  ghost predicate TakingExact(h: History, t: Taken) {
    CitesSession(h, t) && CitesPositions(h, t)
  }

  // ---- the condition, by chunks ----

  /** Chunk k of window f holds positions of the session. */
  ghost predicate ChunkHolds(h: History, f: nat, k: nat, hex: Hex, session: nat) {
    && f < |h.closed| && k < |h.closed[f].chunks| && HasRow(h.closed[f].chunks[k], hex)
    && Touches(h.closed[f].items, hex, session)
  }

  ghost predicate RefBetween(h: History, ref: StrongRef, from: nat, to: nat) {
    exists i :: from <= i < to <= |h.sightings| && h.sightings[i].ref == ref
  }

  /** The chunk was published by its flush, as one of these sightings. */
  ghost predicate ChunkBetween(h: History, f: nat, k: nat, from: nat, to: nat) {
    && f < |h.closed| && k < |h.closed[f].fates| <= |h.closed[f].chunks| && h.closed[f].fates[k].InSighting?
    && RefBetween(h, h.closed[f].fates[k].ref, from, to)
  }

  function TurnFrom(h: History, k: nat): nat
    requires k < |h.takings|
  {
    TurnStart(h.takings[..k], HexOf(h.takings[k]))
  }

  /** Taking k came when each chunk of its session, and no other chunk of its aircraft, was published in its turn. */
  ghost predicate SessionInTurn(h: History, k: nat)
    requires k < |h.takings|
  {
    var t, from := h.takings[k], TurnFrom(h, k);
    && !Touches(h.current, HexOf(t), t.session)
    && (forall f: nat, j: nat :: ChunkHolds(h, f, j, HexOf(t), t.session) ==> ChunkBetween(h, f, j, from, t.published))
    && (forall f: nat, j: nat ::
          ChunkBetween(h, f, j, from, t.published) && HasRow(h.closed[f].chunks[j], HexOf(t)) ==>
            Touches(h.closed[f].items, HexOf(t), t.session))
  }

  // ---- chunks and sightings ----

  lemma SameRefSameSighting(h: History, i: nat, j: nat)
    requires DistinctRefs(h.sightings) && i < |h.sightings| && j < |h.sightings|
    requires h.sightings[i].ref == h.sightings[j].ref
    ensures i == j
  {
  }

  /** A published chunk is the sighting with its ref. */
  lemma ChunkIsSighting(h: History, f: nat, k: nat, i: nat)
    requires FatesInv(h) && DistinctRefs(h.sightings)
    requires f < |h.closed| && k < |h.closed[f].fates| <= |h.closed[f].chunks| && h.closed[f].fates[k].InSighting?
    requires i < |h.sightings| && h.sightings[i].ref == h.closed[f].fates[k].ref
    ensures h.sightings[i].chunk == h.closed[f].chunks[k] && h.sightings[i].items == h.closed[f].items
  {
    assert FateHolds(h, h.closed[f], k);
    var s := Accepted(h.closed[f].fates[k].ref, h.closed[f].chunks[k], h.closed[f].items);
    var j :| 0 <= j < |h.sightings| && h.sightings[j] == s;
    SameRefSameSighting(h, i, j);
  }

  lemma SightingIsChunk(h: History, i: nat) returns (f: nat, k: nat)
    requires FatesInv(h) && i < |h.sightings|
    ensures IsFateOf(h, f, k, h.sightings[i])
  {
    assert Traced(h, h.sightings[i]);
    f, k :| IsFateOf(h, f, k, h.sightings[i]);
  }

  /** The sighting lists the aircraft, and was published in the turn exactly if it holds the session. */
  ghost predicate SightingInTurn(h: History, k: nat, i: nat)
    requires k < |h.takings| && i < |h.sightings|
  {
    var t := h.takings[k];
    HasRow(h.sightings[i].chunk, HexOf(t)) ==>
      (Holds(h.sightings[i], HexOf(t), t.session) <==> TurnFrom(h, k) <= i < t.published)
  }

  ghost predicate SightingsInTurn(h: History, k: nat)
    requires k < |h.takings|
  {
    forall i :: 0 <= i < |h.sightings| ==> SightingInTurn(h, k, i)
  }

  lemma ChunksToSighting(h: History, k: nat, i: nat)
    requires FatesInv(h) && DistinctRefs(h.sightings) && k < |h.takings| && i < |h.sightings|
    requires SessionInTurn(h, k) && h.takings[k].published <= |h.sightings|
    ensures SightingInTurn(h, k, i)
  {
    var t, from := h.takings[k], TurnFrom(h, k);
    var hex := HexOf(t);
    if HasRow(h.sightings[i].chunk, hex) {
      var f, j := SightingIsChunk(h, i);
      if Holds(h.sightings[i], hex, t.session) {
        assert ChunkHolds(h, f, j, hex, t.session);
        var x :| from <= x < t.published <= |h.sightings| && h.sightings[x].ref == h.closed[f].fates[j].ref;
        SameRefSameSighting(h, i, x);
      }
      if from <= i < t.published {
        assert ChunkBetween(h, f, j, from, t.published);
      }
    }
  }

  /** No retried sighting holds the session. */
  ghost predicate NoRetryHolds(h: History, hex: Hex, session: nat) {
    forall r :: r in h.retried ==> !Holds(r, hex, session)
  }

  lemma ChunksToRetries(h: History, k: nat)
    requires RetriesInv(h) && k < |h.takings| && SessionInTurn(h, k)
    ensures NoRetryHolds(h, HexOf(h.takings[k]), h.takings[k].session)
  {
    var t := h.takings[k];
    forall r | r in h.retried ensures !Holds(r, HexOf(t), t.session) {
      var f: nat, j: nat, id: nat :| IsRetryOf(h, f, j, id, r);
      assert ChunkHolds(h, f, j, HexOf(t), t.session) ==> ChunkBetween(h, f, j, TurnFrom(h, k), t.published);
    }
  }

  // ---- refs, positions and sightings ----

  lemma NoneIn(sightings: seq<Accepted>, from: nat, to: nat, hex: Hex, session: nat)
    requires from <= to <= |sightings| && forall i :: from <= i < to ==> !Holds(sightings[i], hex, session)
    ensures RefsFor(sightings[from..to], hex, session) == []
  {
    var part := sightings[from..to];
    forall s | s in part ensures !Holds(s, hex, session) {
      var i :| 0 <= i < |part| && part[i] == s;
      assert sightings[from + i] == s;
    }
    NoSightings(part, hex, session);
  }

  lemma AllIn(sightings: seq<Accepted>, from: nat, to: nat, hex: Hex, session: nat)
    requires from <= to <= |sightings|
    requires forall i :: from <= i < to && HasRow(sightings[i].chunk, hex) ==> Holds(sightings[i], hex, session)
    ensures RefsFor(sightings[from..to], hex, session) == Listed(sightings[from..to], hex)
  {
    var part := sightings[from..to];
    forall s | s in part && HasRow(s.chunk, hex) ensures Holds(s, hex, session) {
      var i :| 0 <= i < |part| && part[i] == s;
      assert sightings[from + i] == s;
    }
    AllSightings(part, hex, session);
  }

  lemma InThreeParts(sightings: seq<Accepted>, from: nat, to: nat, hex: Hex, session: nat)
    requires from <= to <= |sightings|
    requires RefsFor(sightings[0..from], hex, session) == RefsFor(sightings[to..|sightings|], hex, session) == []
    ensures RefsFor(sightings, hex, session) == RefsFor(sightings[from..to], hex, session)
  {
    var a, b, c := sightings[0..from], sightings[from..to], sightings[to..|sightings|];
    assert sightings == a + b + c;
    RefsForConcat(a + b, c, hex, session);
    RefsForConcat(a, b, hex, session);
  }

  lemma InTurnTakesAll(h: History, k: nat)
    requires k < |h.takings| && TookItsTurn(h, k) && SightingsInTurn(h, k)
    ensures h.takings[k].refs == RefsFor(h.sightings, HexOf(h.takings[k]), h.takings[k].session)
  {
    var t := h.takings[k];
    var hex, session, from := HexOf(t), t.session, TurnFrom(h, k);
    forall i | 0 <= i < |h.sightings|
      ensures HasRow(h.sightings[i].chunk, hex) ==> (Holds(h.sightings[i], hex, session) <==> from <= i < t.published)
    {
      assert SightingInTurn(h, k, i);
    }
    NoneIn(h.sightings, 0, from, hex, session);
    NoneIn(h.sightings, t.published, |h.sightings|, hex, session);
    AllIn(h.sightings, from, t.published, hex, session);
    InThreeParts(h.sightings, from, t.published, hex, session);
  }

  lemma TakesAllInTurn(h: History, k: nat, i: nat)
    requires DistinctRefs(h.sightings) && k < |h.takings| && TookItsTurn(h, k) && i < |h.sightings|
    requires h.takings[k].refs == RefsFor(h.sightings, HexOf(h.takings[k]), h.takings[k].session)
    ensures SightingInTurn(h, k, i)
  {
    var t := h.takings[k];
    var hex, from, s := HexOf(t), TurnFrom(h, k), h.sightings[i];
    if HasRow(s.chunk, hex) {
      RefsForMeaning(h.sightings, hex, t.session, s.ref);
      ListedAt(h, hex, from, t.published, i);
      if s.ref in t.refs {
        var p :| p in h.sightings && p.ref == s.ref && Holds(p, hex, t.session);
        var x :| 0 <= x < |h.sightings| && h.sightings[x] == p;
        SameRefSameSighting(h, i, x);
      }
    }
  }

  /** A sighting that lists the aircraft is listed in a stretch exactly if it is in it. */
  lemma ListedAt(h: History, hex: Hex, from: nat, to: nat, i: nat)
    requires DistinctRefs(h.sightings) && from <= to <= |h.sightings| && i < |h.sightings|
    requires HasRow(h.sightings[i].chunk, hex)
    ensures h.sightings[i].ref in Listed(h.sightings[from..to], hex) <==> from <= i < to
  {
    var part := h.sightings[from..to];
    ListedMeaning(part, hex, h.sightings[i].ref);
    if from <= i < to {
      assert part[i - from] == h.sightings[i];
    }
    if s :| s in part && s.ref == h.sightings[i].ref && HasRow(s.chunk, hex) {
      var x :| 0 <= x < |part| && part[x] == s;
      SameRefSameSighting(h, i, from + x);
    }
  }

  /** The refs of a taking are those of flushes; a retried sighting that held the session would not be cited. */
  lemma CitesByFlushes(h: History, k: nat)
    requires RefsInv(h) && k < |h.takings| && TookItsTurn(h, k)
    ensures var t := h.takings[k];
      CitesSession(h, t) <==>
        t.refs == RefsFor(h.sightings, HexOf(t), t.session) && NoRetryHolds(h, HexOf(t), t.session)
  {
    var t := h.takings[k];
    var hex, session := HexOf(t), t.session;
    var retried := RefsFor(h.retried, hex, session);
    RefsForConcat(h.sightings, h.retried, hex, session);
    if NoRetryHolds(h, hex, session) {
      NoSightings(h.retried, hex, session);
    }
    if CitesSession(h, t) {
      if r :| r in h.retried && Holds(r, hex, session) {
        RefsForMeaning(h.retried, hex, session, r.ref);
        assert r.ref in t.refs;
        TakenIsPublished(h, k, r.ref);
      }
      NoSightings(h.retried, hex, session);
    }
  }

  lemma TakenIsPublished(h: History, k: nat, ref: StrongRef)
    requires k < |h.takings| && TookItsTurn(h, k) && ref in h.takings[k].refs
    ensures exists s :: s in h.sightings && s.ref == ref
  {
    var t := h.takings[k];
    var part := h.sightings[TurnFrom(h, k)..t.published];
    ListedMeaning(part, HexOf(t), ref);
    var s :| s in part && s.ref == ref && HasRow(s.chunk, HexOf(t));
    var x :| 0 <= x < |part| && part[x] == s;
    assert h.sightings[TurnFrom(h, k) + x] == s;
  }

  // ---- from the condition to exactness ----

  lemma {:induction false} ItemInClosed(closed: seq<Closed>, it: Item) returns (f: nat)
    requires it in ClosedItems(closed)
    ensures f < |closed| && it in closed[f].items
  {
    var n := |closed| - 1;
    if it in closed[n].items {
      f := n;
    } else {
      f := ItemInClosed(closed[..n], it);
    }
  }

  lemma InTurnCitesPosition(w: World, k: nat, it: Item)
    requires Conservation.Inv(w) && RefsInv(w.h) && k < |w.h.takings| && TookItsTurn(w.h, k) && SessionInTurn(w.h, k)
    requires it in w.h.log && it.hex == HexOf(w.h.takings[k]) && it.session == w.h.takings[k].session
    ensures IsCited(w.h, w.h.takings[k], it)
  {
    var h, t := w.h, w.h.takings[k];
    var from := TurnFrom(h, k);
    assert it !in h.current;
    var f := ItemInClosed(h.closed, it);
    assert WellSplit(h.closed[f]);
    var j := ItemHasChunk(h.closed[f], it);
    TouchedBy(h.closed[f].items, it);
    assert ChunkHolds(h, f, j, it.hex, it.session);
    var x :| from <= x < t.published <= |h.sightings| && h.sightings[x].ref == h.closed[f].fates[j].ref;
    ChunkIsSighting(h, f, j, x);
    ListedAt(h, it.hex, from, t.published, x);
    assert h.sightings[x] in h.sightings;
  }

  lemma TouchedBy(items: seq<Item>, it: Item)
    requires it in items
    ensures Touches(items, it.hex, it.session)
  {
    var i :| 0 <= i < |items| && items[i] == it;
  }

  lemma InTurnIsExact(w: World, k: nat)
    requires Conservation.Inv(w) && RefsInv(w.h) && k < |w.h.takings| && TookItsTurn(w.h, k) && SessionInTurn(w.h, k)
    ensures TakingExact(w.h, w.h.takings[k])
  {
    forall i | 0 <= i < |w.h.sightings| ensures SightingInTurn(w.h, k, i) {
      ChunksToSighting(w.h, k, i);
    }
    InTurnTakesAll(w.h, k);
    ChunksToRetries(w.h, k);
    CitesByFlushes(w.h, k);
    var t := w.h.takings[k];
    forall it | it in w.h.log && it.hex == HexOf(t) && it.session == t.session ensures IsCited(w.h, t, it) {
      InTurnCitesPosition(w, k, it);
    }
  }

  // ---- and back ----

  lemma DistinctNumbers(h: History)
    requires NumbersInv(h) && h.log == ClosedItems(h.closed) + h.current
    ensures forall i, j :: 0 <= i < j < |ClosedItems(h.closed)| ==>
              ClosedItems(h.closed)[i].no != ClosedItems(h.closed)[j].no
    ensures forall it :: it in h.current ==> it !in ClosedItems(h.closed)
  {
    var items := ClosedItems(h.closed);
    assert forall i :: 0 <= i < |items| ==> h.log[i] == items[i];
    forall it | it in h.current ensures it !in items {
      var j :| 0 <= j < |h.current| && h.current[j] == it;
      assert h.log[|items| + j] == it;
    }
  }

  /** A position is in a cited sighting only if that sighting is the chunk of its window. */
  lemma CitedChunk(w: World, it: Item, f: nat, k: nat, s: Accepted)
    requires Conservation.Inv(w) && NumbersInv(w.h)
    requires f < |w.h.closed| && k < |w.h.closed[f].chunks| && it in w.h.closed[f].items
    requires HasRow(w.h.closed[f].chunks[k], it.hex)
    requires s in w.h.sightings && HasRow(s.chunk, it.hex) && it in s.items
    ensures k < |w.h.closed[f].fates| && w.h.closed[f].fates[k] == InSighting(s.ref)
  {
    assert Traced(w.h, s);
    var g: nat, j: nat :| IsFateOf(w.h, g, j, s);
    DistinctNumbers(w.h);
    WindowsApart(w.h.closed, f, g, it);
    OneChunk(w.h.closed[f], k, j, it.hex);
  }

  lemma OneChunk(c: Closed, k: nat, j: nat, hex: Hex)
    requires WellSplit(c) && k < |c.chunks| && j < |c.chunks| && HasRow(c.chunks[k], hex) && HasRow(c.chunks[j], hex)
    ensures k == j
  {
    WindowKeepsArrivals(ToArrivals(c.items), hex);
    ChunksHoldWindow(c.chunks, hex);
  }

  lemma ExactCurrent(w: World, k: nat)
    requires Conservation.Inv(w) && NumbersInv(w.h) && k < |w.h.takings| && CitesPositions(w.h, w.h.takings[k])
    ensures !Touches(w.h.current, HexOf(w.h.takings[k]), w.h.takings[k].session)
  {
    var h, t := w.h, w.h.takings[k];
    if i :| 0 <= i < |h.current| && h.current[i].hex == HexOf(t) && h.current[i].session == t.session {
      var it := h.current[i];
      assert it in h.log;
      var s :| s in h.sightings && s.ref in t.refs && HasRow(s.chunk, it.hex) && it in s.items;
      assert Traced(h, s);
      var f: nat, j: nat :| IsFateOf(h, f, j, s);
      ClosedItemsInLog(h.closed, f, it);
      DistinctNumbers(h);
    }
  }

  lemma TouchIsItem(items: seq<Item>, hex: Hex, session: nat) returns (it: Item)
    requires Touches(items, hex, session)
    ensures it in items && it.hex == hex && it.session == session
  {
    var i :| 0 <= i < |items| && items[i].hex == hex && items[i].session == session;
    it := items[i];
  }

  lemma ExactChunk(w: World, k: nat, f: nat, j: nat)
    requires Conservation.Inv(w) && NumbersInv(w.h) && RefsInv(w.h) && k < |w.h.takings| && TookItsTurn(w.h, k)
    requires CitesPositions(w.h, w.h.takings[k])
    requires ChunkHolds(w.h, f, j, HexOf(w.h.takings[k]), w.h.takings[k].session)
    ensures ChunkBetween(w.h, f, j, TurnFrom(w.h, k), w.h.takings[k].published)
  {
    var h, t := w.h, w.h.takings[k];
    var it := TouchIsItem(h.closed[f].items, HexOf(t), t.session);
    ClosedItemsInLog(h.closed, f, it);
    assert IsCited(h, t, it);
    var s :| s in h.sightings && s.ref in t.refs && HasRow(s.chunk, it.hex) && it in s.items;
    CitedChunk(w, it, f, j, s);
    CitedIsBetween(h, k, s);
    WindowsBounded(w.d, h);
  }

  lemma CitedIsBetween(h: History, k: nat, s: Accepted)
    requires DistinctRefs(h.sightings) && k < |h.takings| && TookItsTurn(h, k)
    requires s in h.sightings && s.ref in h.takings[k].refs && HasRow(s.chunk, HexOf(h.takings[k]))
    ensures RefBetween(h, s.ref, TurnFrom(h, k), h.takings[k].published)
  {
    var x :| 0 <= x < |h.sightings| && h.sightings[x] == s;
    ListedAt(h, HexOf(h.takings[k]), TurnFrom(h, k), h.takings[k].published, x);
  }

  lemma ExactIsInTurn(w: World, k: nat)
    requires Conservation.Inv(w) && NumbersInv(w.h) && RefsInv(w.h) && k < |w.h.takings| && TookItsTurn(w.h, k)
    requires TakingExact(w.h, w.h.takings[k])
    ensures SessionInTurn(w.h, k)
  {
    var h, t, from := w.h, w.h.takings[k], TurnFrom(w.h, k);
    CitesByFlushes(h, k);
    ExactCurrent(w, k);
    forall f: nat, j: nat | ChunkHolds(h, f, j, HexOf(t), t.session) ensures ChunkBetween(h, f, j, from, t.published) {
      ExactChunk(w, k, f, j);
    }
    forall f: nat, j: nat | ChunkBetween(h, f, j, from, t.published) && HasRow(h.closed[f].chunks[j], HexOf(t))
      ensures Touches(h.closed[f].items, HexOf(t), t.session)
    {
      var x :| from <= x < t.published <= |h.sightings| && h.sightings[x].ref == h.closed[f].fates[j].ref;
      ChunkIsSighting(h, f, j, x);
      TakesAllInTurn(h, k, x);
    }
  }

  // ---- what is decided stays decided ----

  /** How a step goes on from h to h', as far as the session of taking k is concerned. */
  ghost predicate GoesOnFrom(h: History, h': History, k: nat) {
    && k < |h.takings| && h.takings[k].published <= |h.sightings|
    && h.takings <= h'.takings && h.sightings <= h'.sightings
    && Extends(h.closed, h'.closed) && Bounded(h.closed) && Bounded(h'.closed)
    && NewAreNot(h.closed, h'.closed, h.sightings)
    && SessionMovesOn(h, h', HexOf(h.takings[k]), h.takings[k].session)
  }

  /** A chunk that is published now is not one of the sightings there were. */
  ghost predicate NewAreNot(closed: seq<Closed>, closed': seq<Closed>, sightings: seq<Accepted>) {
    forall f: nat, j: nat :: NewFate(closed, closed', f, j) && closed'[f].fates[j].InSighting? ==>
      forall i :: 0 <= i < |sightings| ==> sightings[i].ref != closed'[f].fates[j].ref
  }

  ghost predicate HeldByNew(h: History, h': History, hex: Hex, session: nat) {
    exists f: nat, j: nat :: |h.closed| <= f && ChunkHolds(h', f, j, hex, session)
  }

  /** The positions of the session stay in the window, or go into the chunks of one that is now closed. */
  ghost predicate SessionMovesOn(h: History, h': History, hex: Hex, session: nat) {
    && (Touches(h'.current, hex, session) ==> Touches(h.current, hex, session))
    && (Touches(h.current, hex, session) ==>
          Touches(h'.current, hex, session) || HeldByNew(h, h', hex, session))
    && (forall f :: |h.closed| <= f < |h'.closed| && Touches(h'.closed[f].items, hex, session) ==>
          Touches(h.current, hex, session))
  }

  lemma BetweenStays(h: History, h': History, k: nat, f: nat, j: nat, from: nat)
    requires GoesOnFrom(h, h', k)
    ensures ChunkBetween(h', f, j, from, h.takings[k].published)
       <==> ChunkBetween(h, f, j, from, h.takings[k].published)
  {
    var to := h.takings[k].published;
    if ChunkBetween(h', f, j, from, to) {
      var x :| from <= x < to <= |h'.sightings| && h'.sightings[x].ref == h'.closed[f].fates[j].ref;
      assert h'.sightings[x] == h.sightings[x];
      assert !NewFate(h.closed, h'.closed, f, j);
      assert h'.closed[f].fates[j] == h.closed[f].fates[j];
    }
    if ChunkBetween(h, f, j, from, to) {
      var x :| from <= x < to <= |h.sightings| && h.sightings[x].ref == h.closed[f].fates[j].ref;
      assert h'.sightings[x] == h.sightings[x];
      assert h'.closed[f].fates[j] == h.closed[f].fates[j];
    }
  }

  lemma OldChunkHolds(h: History, h': History, f: nat, j: nat, hex: Hex, session: nat)
    requires Extends(h.closed, h'.closed) && f < |h.closed|
    ensures ChunkHolds(h', f, j, hex, session) <==> ChunkHolds(h, f, j, hex, session)
  {
  }

  lemma InTurnGoesOn(h: History, h': History, k: nat)
    requires GoesOnFrom(h, h', k) && SessionInTurn(h, k)
    ensures SessionInTurn(h', k)
  {
    var t, from := h.takings[k], TurnFrom(h, k);
    assert h'.takings[k] == t && h'.takings[..k] == h.takings[..k];
    forall f: nat, j: nat | ChunkHolds(h', f, j, HexOf(t), t.session)
      ensures ChunkBetween(h', f, j, from, t.published)
    {
      assert f < |h.closed|;
      OldChunkHolds(h, h', f, j, HexOf(t), t.session);
      BetweenStays(h, h', k, f, j, from);
    }
    forall f: nat, j: nat | ChunkBetween(h', f, j, from, t.published) && HasRow(h'.closed[f].chunks[j], HexOf(t))
      ensures Touches(h'.closed[f].items, HexOf(t), t.session)
    {
      BetweenStays(h, h', k, f, j, from);
    }
  }

  lemma InTurnCameFrom(h: History, h': History, k: nat)
    requires GoesOnFrom(h, h', k) && SessionInTurn(h', k)
    ensures SessionInTurn(h, k)
  {
    var t, from := h.takings[k], TurnFrom(h, k);
    assert h'.takings[k] == t && h'.takings[..k] == h.takings[..k];
    if Touches(h.current, HexOf(t), t.session) {
      var f: nat, j: nat :| |h.closed| <= f && ChunkHolds(h', f, j, HexOf(t), t.session);
      BetweenStays(h, h', k, f, j, from);
    }
    forall f: nat, j: nat | ChunkHolds(h, f, j, HexOf(t), t.session) ensures ChunkBetween(h, f, j, from, t.published) {
      OldChunkHolds(h, h', f, j, HexOf(t), t.session);
      BetweenStays(h, h', k, f, j, from);
    }
    forall f: nat, j: nat | ChunkBetween(h, f, j, from, t.published) && HasRow(h.closed[f].chunks[j], HexOf(t))
      ensures Touches(h.closed[f].items, HexOf(t), t.session)
    {
      BetweenStays(h, h', k, f, j, from);
    }
  }

  // ---- every step goes on ----

  lemma ListsGrow(cfg: Config, w: World, e: Event)
    requires FlushInv(w.d, w.h)
    ensures w.h.takings <= Step(cfg, w, e).h.takings && w.h.sightings <= Step(cfg, w, e).h.sightings
  {
    if Possible(cfg, w, e.act) {
      if e.act.TakeRefs? {
        TakeTouches(cfg, w, e);
        TakeResult(cfg, w, e);
      } else if e.act.SightingPublished? {
        PublishTouches(cfg, w, e);
        PublishedSighting(cfg, w, e);
      } else {
        IndexStays(cfg, w, e);
      }
    }
  }

  lemma StepFatesAreNew(cfg: Config, w: World, e: Event)
    requires Conservation.Inv(w)
    ensures NewAreNot(w.h.closed, Step(cfg, w, e).h.closed, w.h.sightings)
  {
    if Possible(cfg, w, e.act) {
      StepCloses(cfg, w, e);
      ClosedAreNew(cfg, w, e.act);
    }
  }

  lemma FailureIsNew(d: Core, h: History, f: nat)
    requires FlushInv(d, h) && Flushing(d, f)
    ensures NewAreNot(h.closed, LoseRest(h.closed, f), h.sightings)
  {
    assert Tracks(d, f, h.closed[f]);
    AllLostLength(|h.closed[f].chunks| - |h.closed[f].fates|);
  }

  lemma FateIsNew(d: Core, h: History, f: nat, fate: Fate)
    requires FlushInv(d, h) && Flushing(d, f) && (fate.InSighting? ==> IsFreshRef(h, fate.ref))
    ensures NewAreNot(h.closed, AddFate(h.closed, f, fate), h.sightings)
  {
    assert forall i :: 0 <= i < |h.sightings| ==> h.sightings[i] in h.sightings;
  }

  lemma ClosedAreNew(cfg: Config, w: World, act: Action)
    requires Conservation.Inv(w) && Possible(cfg, w, act)
    ensures NewAreNot(w.h.closed, ClosedAfter(cfg, w, act), w.h.sightings)
  {
    match act
    case UploadFailed(g) => FailureIsNew(w.d, w.h, g);
    case SightingRefused(g) =>
      RefusedFate(cfg, w, g);
      FateIsNew(w.d, w.h, g, InQueue(w.d.queue.table.nextId));
    case SightingPublished(g, ref) => FateIsNew(w.d, w.h, g, InSighting(ref));
    case FlushTick => TickIsNew(cfg, w);
    case _ =>
  }

  lemma TickIsNew(cfg: Config, w: World)
    ensures NewAreNot(w.h.closed, ClosedAfter(cfg, w, FlushTick), w.h.sightings)
  {
  }

  lemma TouchesConcat(a: seq<Item>, b: seq<Item>, hex: Hex, session: nat)
    ensures Touches(a + b, hex, session) <==> Touches(a, hex, session) || Touches(b, hex, session)
  {
    if i :| 0 <= i < |a| && a[i].hex == hex && a[i].session == session {
      assert (a + b)[i] == a[i];
    }
    if i :| 0 <= i < |b| && b[i].hex == hex && b[i].session == session {
      assert (a + b)[|a| + i] == b[i];
    }
    if i :| 0 <= i < |a + b| && (a + b)[i].hex == hex && (a + b)[i].session == session {
      assert i >= |a| ==> b[i - |a|] == (a + b)[i];
    }
  }

  /** A message adds no position to a session that is over. */
  lemma MessageMovesOn(cfg: Config, w: World, e: Event, k: nat)
    requires SessionsInv(w) && e.act.Message? && k < |w.h.takings|
    ensures SessionMovesOn(w.h, Step(cfg, w, e).h, HexOf(w.h.takings[k]), w.h.takings[k].session)
  {
    var t, w', items := w.h.takings[k], Step(cfg, w, e), ItemsAfter(cfg, w, e);
    var hex := HexOf(t);
    MessageTouches(cfg, w, e);
    MessageResult(cfg, w, e);
    assert SessionInv(w, hex) && IsOver(w, t.entry, t.session);
    MessageIsMessaged(cfg, w, e, hex);
    OverIsUntouched(w, w', Update(w.d.tracker, e.act.aircraft, e.act.epoch, cfg.range), items,
                    Mentioned(e.act.aircraft), t.entry, t.session);
    TouchesConcat(w.h.current, items, hex, t.session);
  }

  lemma OverIsUntouched(w: World, w': World, o: Outcome, items: seq<Item>, m: set<Hex>, e: Entry, session: nat)
    requires Messaged(w, w', o, items, m, e.icaoHex) && IsOver(w, e, session)
    ensures !Touches(items, e.icaoHex, session)
  {
    if Touches(items, e.icaoHex, session) {
      var it := TouchIsItem(items, e.icaoHex, session);
    }
  }

  lemma TickMovesOn(cfg: Config, w: World, e: Event, hex: Hex, session: nat)
    requires Conservation.Inv(w) && e.act.FlushTick?
    ensures SessionMovesOn(w.h, Step(cfg, w, e).h, hex, session)
  {
    var h, h' := w.h, Step(cfg, w, e).h;
    TickResult(cfg, w, e);
    if w.d.window != [] {
      var c := CloseWindow(cfg, w.d, h);
      CloseWellSplit(cfg, w.d, h);
      assert c.items == h.current;
      if Touches(h.current, hex, session) {
        var it := TouchIsItem(h.current, hex, session);
        var j := ItemHasChunk(c, it);
        assert ChunkHolds(h', |h.closed|, j, hex, session);
      }
    }
  }

  lemma OtherMovesOn(cfg: Config, w: World, e: Event, hex: Hex, session: nat)
    requires FlushInv(w.d, w.h) && !e.act.Message? && !e.act.FlushTick?
    ensures SessionMovesOn(w.h, Step(cfg, w, e).h, hex, session)
  {
    if Possible(cfg, w, e.act) {
      WindowStays(cfg, w, e);
    }
  }

  lemma WindowStays(cfg: Config, w: World, e: Event)
    requires FlushInv(w.d, w.h) && !e.act.Message? && !e.act.FlushTick?
    ensures Step(cfg, w, e).h.current == w.h.current && |Step(cfg, w, e).h.closed| == |w.h.closed|
  {
    if Possible(cfg, w, e.act) {
      StepCloses(cfg, w, e);
      match e.act
      case RawUploaded(_, _) => UploadTouches(cfg, w, e);
      case UploadFailed(_) => FailureTouches(cfg, w, e);
      case SightingPublished(_, _) => PublishTouches(cfg, w, e);
      case SightingRefused(_) => RefuseTouches(cfg, w, e);
      case _ => WindowsStay(cfg, w, e);
    }
  }

  lemma StepGoesOn(cfg: Config, w: World, e: Event, k: nat)
    requires Conservation.Inv(w) && SessionsInv(w) && k < |w.h.takings| && TookItsTurn(w.h, k)
    ensures GoesOnFrom(w.h, Step(cfg, w, e).h, k)
  {
    ListsGrow(cfg, w, e);
    StepExtends(cfg, w, e);
    WindowsBounded(w.d, w.h);
    StepFatesAreNew(cfg, w, e);
    if e.act.Message? {
      MessageMovesOn(cfg, w, e, k);
    } else if e.act.FlushTick? {
      TickMovesOn(cfg, w, e, HexOf(w.h.takings[k]), w.h.takings[k].session);
    } else {
      OtherMovesOn(cfg, w, e, HexOf(w.h.takings[k]), w.h.takings[k].session);
    }
  }

  lemma InTurnStays(cfg: Config, w: World, e: Event, k: nat)
    requires Reachable(cfg, w) && k < |w.h.takings|
    ensures var h' := Step(cfg, w, e).h;
      k < |h'.takings| && h'.takings[k] == w.h.takings[k] && (SessionInTurn(h', k) <==> SessionInTurn(w.h, k))
  {
    ReachableInv(cfg, w);
    ReachableSessions(cfg, w);
    ReachableTurns(cfg, w);
    var h' := Step(cfg, w, e).h;
    StepGoesOn(cfg, w, e, k);
    if SessionInTurn(w.h, k) {
      InTurnGoesOn(w.h, h', k);
    }
    if SessionInTurn(h', k) {
      InTurnCameFrom(w.h, h', k);
    }
  }

  lemma {:induction false} InTurnForever(cfg: Config, w: World, more: seq<Event>, k: nat)
    requires Reachable(cfg, w) && k < |w.h.takings|
    ensures var later := Thereafter(cfg, w, more);
      && Reachable(cfg, later) && k < |later.h.takings| && later.h.takings[k] == w.h.takings[k]
      && (SessionInTurn(later.h, k) <==> SessionInTurn(w.h, k))
    decreases |more|
  {
    if more != [] {
      InTurnStays(cfg, w, more[0], k);
      ReachableStep(cfg, w, more[0]);
      InTurnForever(cfg, Step(cfg, w, more[0]), more[1..], k);
    }
  }

  // ---- what can be known before the departure ----

  /** The chunk was published by its flush, and is in the index for the aircraft. */
  ghost predicate ChunkIndexed(w: World, f: nat, k: nat, hex: Hex) {
    && f < |w.h.closed| && k < |w.h.closed[f].fates| <= |w.h.closed[f].chunks| && w.h.closed[f].fates[k].InSighting?
    && w.h.closed[f].fates[k].ref in DaemonModel.Lookup(w.d.index, hex)
  }

  /** Every chunk that holds the session is in the index for its aircraft, and no other chunk is. */
  ghost predicate Ready(w: World, hex: Hex, session: nat) {
    && !Touches(w.h.current, hex, session)
    && (forall f: nat, k: nat :: ChunkHolds(w.h, f, k, hex, session) ==> ChunkIndexed(w, f, k, hex))
    && (forall f: nat, k: nat :: ChunkIndexed(w, f, k, hex) ==> Touches(w.h.closed[f].items, hex, session))
  }

  /** The chunk was published by its flush. */
  ghost predicate ByFlush(h: History, f: nat, k: nat) {
    f < |h.closed| && k < |h.closed[f].fates| <= |h.closed[f].chunks| && h.closed[f].fates[k].InSighting?
  }

  lemma ListedIsBetween(h: History, f: nat, k: nat, hex: Hex, from: nat)
    requires FatesInv(h) && DistinctRefs(h.sightings) && from <= |h.sightings| && ByFlush(h, f, k)
    requires h.closed[f].fates[k].ref in Listed(h.sightings[from..], hex)
    ensures RefBetween(h, h.closed[f].fates[k].ref, from, |h.sightings|) && HasRow(h.closed[f].chunks[k], hex)
  {
    var part, ref := h.sightings[from..], h.closed[f].fates[k].ref;
    ListedMeaning(part, hex, ref);
    var s :| s in part && s.ref == ref && HasRow(s.chunk, hex);
    var x :| 0 <= x < |part| && part[x] == s;
    assert h.sightings[from + x] == s;
    ChunkIsSighting(h, f, k, from + x);
  }

  lemma BetweenIsListed(h: History, f: nat, k: nat, hex: Hex, from: nat)
    requires FatesInv(h) && DistinctRefs(h.sightings) && from <= |h.sightings| && ByFlush(h, f, k)
    requires RefBetween(h, h.closed[f].fates[k].ref, from, |h.sightings|) && HasRow(h.closed[f].chunks[k], hex)
    ensures h.closed[f].fates[k].ref in Listed(h.sightings[from..], hex)
  {
    var x :| from <= x < |h.sightings| && h.sightings[x].ref == h.closed[f].fates[k].ref;
    ChunkIsSighting(h, f, k, x);
    ListedAt(h, hex, from, |h.sightings|, x);
    assert h.sightings[from..|h.sightings|] == h.sightings[from..];
  }

  lemma IndexedIsBetween(w: World, f: nat, k: nat, hex: Hex)
    requires FatesInv(w.h) && RefsInv(w.h) && OpenTurn(w.d, w.h, hex)
    ensures ChunkIndexed(w, f, k, hex) <==>
              ChunkBetween(w.h, f, k, TurnStart(w.h.takings, hex), |w.h.sightings|)
              && HasRow(w.h.closed[f].chunks[k], hex)
  {
    var h, from := w.h, TurnStart(w.h.takings, hex);
    if ChunkIndexed(w, f, k, hex) {
      ListedIsBetween(h, f, k, hex, from);
    }
    if ChunkBetween(h, f, k, from, |h.sightings|) && HasRow(h.closed[f].chunks[k], hex) {
      BetweenIsListed(h, f, k, hex, from);
    }
  }

  /** Taking the refs leaves chunks and sightings as they are. */
  ghost predicate JustTaken(w: World, w': World, t: nat) {
    && TakesFirst(w, w', t) && Takes(w, w', t) && SameWindows(w, w') && SameAccepted(w, w')
  }

  lemma ChunksStay(w: World, w': World, t: nat, f: nat, j: nat)
    requires JustTaken(w, w', t) && Conservation.Inv(w) && RefsInv(w.h)
    requires OpenTurn(w.d, w.h, w.d.departs[t].waiting[0].icaoHex)
    ensures var hex, session := w.d.departs[t].waiting[0].icaoHex, NumberAt(w.h, t, 0);
      && (ChunkHolds(w'.h, f, j, hex, session) <==> ChunkHolds(w.h, f, j, hex, session))
      && (ChunkIndexed(w, f, j, hex) <==>
            ChunkBetween(w'.h, f, j, TurnStart(w.h.takings, hex), |w.h.sightings|)
            && HasRow(w'.h.closed[f].chunks[j], hex))
  {
    IndexedIsBetween(w, f, j, w.d.departs[t].waiting[0].icaoHex);
  }

  lemma ReadyIsInTurn(w: World, w': World, t: nat)
    requires JustTaken(w, w', t) && Conservation.Inv(w) && RefsInv(w.h)
    requires OpenTurn(w.d, w.h, w.d.departs[t].waiting[0].icaoHex)
    ensures SessionInTurn(w'.h, |w.h.takings|) <==> Ready(w, w.d.departs[t].waiting[0].icaoHex, NumberAt(w.h, t, 0))
  {
    if Ready(w, w.d.departs[t].waiting[0].icaoHex, NumberAt(w.h, t, 0)) {
      ReadyThenInTurn(w, w', t);
    }
    if SessionInTurn(w'.h, |w.h.takings|) {
      InTurnThenReady(w, w', t);
    }
  }

  lemma ReadyThenInTurn(w: World, w': World, t: nat)
    requires JustTaken(w, w', t) && Conservation.Inv(w) && RefsInv(w.h)
    requires OpenTurn(w.d, w.h, w.d.departs[t].waiting[0].icaoHex)
    requires Ready(w, w.d.departs[t].waiting[0].icaoHex, NumberAt(w.h, t, 0))
    ensures SessionInTurn(w'.h, |w.h.takings|)
  {
    var k, hex, session := |w.h.takings|, w.d.departs[t].waiting[0].icaoHex, NumberAt(w.h, t, 0);
    var from, to := TurnStart(w.h.takings, hex), |w.h.sightings|;
    assert w'.h.takings[..k] == w.h.takings;
    forall f: nat, j: nat | ChunkHolds(w'.h, f, j, hex, session) ensures ChunkBetween(w'.h, f, j, from, to) {
      ChunksStay(w, w', t, f, j);
    }
    forall f: nat, j: nat | ChunkBetween(w'.h, f, j, from, to) && HasRow(w'.h.closed[f].chunks[j], hex)
      ensures Touches(w'.h.closed[f].items, hex, session)
    {
      ChunksStay(w, w', t, f, j);
    }
  }

  lemma InTurnThenReady(w: World, w': World, t: nat)
    requires JustTaken(w, w', t) && Conservation.Inv(w) && RefsInv(w.h)
    requires OpenTurn(w.d, w.h, w.d.departs[t].waiting[0].icaoHex)
    requires SessionInTurn(w'.h, |w.h.takings|)
    ensures Ready(w, w.d.departs[t].waiting[0].icaoHex, NumberAt(w.h, t, 0))
  {
    var k, hex, session := |w.h.takings|, w.d.departs[t].waiting[0].icaoHex, NumberAt(w.h, t, 0);
    assert w'.h.takings[..k] == w.h.takings;
    forall f: nat, j: nat | ChunkHolds(w.h, f, j, hex, session) ensures ChunkIndexed(w, f, j, hex) {
      ChunksStay(w, w', t, f, j);
      HeldIsPublished(w'.h, k, f, j);
    }
    forall f: nat, j: nat | ChunkIndexed(w, f, j, hex) ensures Touches(w.h.closed[f].items, hex, session) {
      ChunksStay(w, w', t, f, j);
    }
  }

  lemma HeldIsPublished(h: History, k: nat, f: nat, j: nat)
    requires k < |h.takings| && SessionInTurn(h, k)
    requires ChunkHolds(h, f, j, HexOf(h.takings[k]), h.takings[k].session)
    ensures ChunkBetween(h, f, j, TurnFrom(h, k), h.takings[k].published)
    ensures HasRow(h.closed[f].chunks[j], HexOf(h.takings[k]))
  {
  }

  lemma TakingIsJust(cfg: Config, w: World, e: Event)
    requires Reachable(cfg, w) && e.act.TakeRefs? && Possible(cfg, w, e.act)
    ensures JustTaken(w, Step(cfg, w, e), e.act.task)
    ensures SessionInTurn(Step(cfg, w, e).h, |w.h.takings|)
       <==> Ready(w, w.d.departs[e.act.task].waiting[0].icaoHex, NumberAt(w.h, e.act.task, 0))
  {
    ReachableInv(cfg, w);
    ReachableProv(cfg, w);
    ReachableTurns(cfg, w);
    TakeTouches(cfg, w, e);
    TakeResult(cfg, w, e);
    TakeIsFirst(cfg, w, e);
    assert OpenTurn(w.d, w.h, w.d.departs[e.act.task].waiting[0].icaoHex);
    ReadyIsInTurn(w, Step(cfg, w, e), e.act.task);
  }
}
