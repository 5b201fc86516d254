/**
 Provenance under every interleaving, with no assumption on timing: a flight record only cites
 published sightings that list its aircraft, and no sighting is ever handed out twice for one aircraft.
 */
module Provenance {
  import opened Wrappers
  import opened Tracker
  import opened Batch
  import opened Blobs
  import opened Records
  import opened DaemonModel
  import opened Conservation
  import opened Frames
  import opened Sessions

  ghost predicate NoDup(refs: seq<StrongRef>) {
    forall i, j :: 0 <= i < j < |refs| ==> refs[i] != refs[j]
  }

  ghost predicate Apart(a: seq<StrongRef>, b: seq<StrongRef>) {
    forall r :: r in a ==> r !in b
  }

  /** `ref` is a published sighting whose manifest lists `hex`. */
  ghost predicate Cites(h: History, ref: StrongRef, hex: Hex) {
    exists s :: s in h.sightings && s.ref == ref && HasRow(s.chunk, hex)
  }

  ghost predicate Sound(h: History, refs: seq<StrongRef>, hex: Hex) {
    NoDup(refs) && forall r :: r in refs ==> Cites(h, r, hex)
  }

  ghost predicate DistinctRefs(list: seq<Accepted>) {
    forall i, j :: 0 <= i < j < |list| ==> list[i].ref != list[j].ref
  }

  /** All refs of accepted sightings are different, those of flushes and those of drains. */
  ghost predicate RefsInv(h: History) {
    && DistinctRefs(h.sightings) && DistinctRefs(h.retried)
    && forall s, r :: s in h.sightings && r in h.retried ==> s.ref != r.ref
  }

  ghost predicate IndexInv(d: Core, h: History) {
    RefsInv(h) && forall hex :: Sound(h, Lookup(d.index, hex), hex)
  }

  ghost predicate TakingsInv(d: Core, h: History) {
    && (forall k :: 0 <= k < |h.takings| ==>
          && Sound(h, h.takings[k].refs, HexOf(h.takings[k]))
          && Apart(h.takings[k].refs, Lookup(d.index, HexOf(h.takings[k]))))
    && (forall j, k :: 0 <= j < k < |h.takings| && HexOf(h.takings[j]) == HexOf(h.takings[k]) ==>
          Apart(h.takings[j].refs, h.takings[k].refs))
  }

  /** What a callback holds is a taking of its own, and no flight record has used it yet. */
  ghost predicate HeldBy(d: Core, h: History, t: nat) {
    && t in h.inHand && t in d.departs && d.departs[t].hand.Some?
    && h.inHand[t] < |h.takings|
    && h.takings[h.inHand[t]].entry == d.departs[t].hand.value.entry
    && h.takings[h.inHand[t]].refs == d.departs[t].hand.value.refs
  }

  ghost predicate Unused(h: History, taking: nat) {
    forall i :: 0 <= i < |h.flights| ==> h.flights[i].taking != taking
  }

  ghost predicate HandsInv(d: Core, h: History) {
    && (forall t :: t in d.departs && d.departs[t].hand.Some? ==> t in h.inHand)
    && (forall t :: t in h.inHand ==> HeldBy(d, h, t) && Unused(h, h.inHand[t]))
    && (forall t, u :: t in h.inHand && u in h.inHand && t != u ==> h.inHand[t] != h.inHand[u])
    && (forall t :: t in d.departs ==> t < d.nextDepart)
  }

  ghost predicate FlightOk(h: History, s: Sent) {
    && s.taking < |h.takings|
    && BuildFlightRecord(h.takings[s.taking].entry, s.record.aircraft, h.takings[s.taking].refs) == Some(s.record)
    && (s.queued.Some? ==> s.queued.value in h.mail.put && h.mail.put[s.queued.value] == Flight(s.record))
  }

  ghost predicate FlightsInv(h: History) {
    && (forall i :: 0 <= i < |h.flights| ==> FlightOk(h, h.flights[i]))
    && (forall i, j :: 0 <= i < j < |h.flights| ==> h.flights[i].taking != h.flights[j].taking)
  }

  ghost predicate ProvInv(w: World) {
    && IndexInv(w.d, w.h) && TakingsInv(w.d, w.h) && HandsInv(w.d, w.h) && FlightsInv(w.h)
  }

  // ---- the index ----

  lemma {:induction false} IndexAllLookup(index: map<Hex, seq<StrongRef>>, hexes: seq<Hex>, ref: StrongRef, hex: Hex)
    requires AllDifferent(hexes)
    ensures Lookup(IndexAll(index, hexes, ref), hex) == Lookup(index, hex) + (if hex in hexes then [ref] else [])
  {
    if hexes != [] {
      FrontDiffers(hexes, hex);
      IndexAllLookup(index, hexes[..|hexes| - 1], ref, hex);
    }
  }

  lemma FrontDiffers(hexes: seq<Hex>, hex: Hex)
    requires hexes != [] && AllDifferent(hexes)
    ensures var n := |hexes| - 1;
      && AllDifferent(hexes[..n])
      && (hex in hexes <==> hex in hexes[..n] || hex == hexes[n])
      && !(hex in hexes[..n] && hex == hexes[n])
  {
    assert hexes == hexes[..|hexes| - 1] + [hexes[|hexes| - 1]];
  }

  lemma {:induction false} ChunkKeyOrdered(chunks: seq<Telemetry>, k: nat)
    requires KeyOrdered(Concat(chunks)) && k < |chunks|
    ensures KeyOrdered(chunks[k])
  {
    var n := |chunks| - 1;
    var front, last := Concat(chunks[..n]), chunks[n];
    if k < n {
      KeyOrderedPrefix(front, last);
      ChunkKeyOrdered(chunks[..n], k);
    } else {
      forall i, j | 0 <= i < j < |last| ensures last[i].hex != last[j].hex && !Precedes(last[j].hex, last[i].hex) {
        assert (front + last)[|front| + i] == last[i] && (front + last)[|front| + j] == last[j];
      }
    }
  }

  /** The index after a sighting is published: its ref at the end of the list of every aircraft in it. */
  lemma PublishedIndex(w: World, f: nat, ref: StrongRef, hex: Hex)
    requires Conservation.Inv(w) && Flushing(w.d, f)
    ensures var chunk := w.d.flushes[f].chunks[w.d.flushes[f].next];
      Lookup(OnSightingPublished(w.d, f, ref).index, hex)
        == Lookup(w.d.index, hex) + (if HasRow(chunk, hex) then [ref] else [])
  {
    var c := w.h.closed[f];
    assert WellSplit(c) && Tracks(w.d, f, c);
    var chunk := c.chunks[|c.fates|];
    WindowKeepsArrivals(ToArrivals(c.items), hex);
    ChunkKeyOrdered(c.chunks, |c.fates|);
    ManifestListsTheAircraft(chunk, hex);
    IndexAllLookup(w.d.index, Keys(chunk), ref, hex);
  }

  // ---- keeping what is known ----

  lemma SoundGrows(h: History, h': History, refs: seq<StrongRef>, hex: Hex)
    requires Sound(h, refs, hex) && h.sightings <= h'.sightings
    ensures Sound(h', refs, hex)
  {
    forall r | r in refs ensures Cites(h', r, hex) {
      var s :| s in h.sightings && s.ref == r && HasRow(s.chunk, hex);
      SightingsKept(h, h', s);
    }
  }

  /** Departures may be added with nothing in hand, or dropped with nothing in hand. */
  ghost predicate SameHands(w: World, w': World) {
    && w'.h.takings == w.h.takings && w'.h.inHand == w.h.inHand && w'.h.flights == w.h.flights
    && w.d.nextDepart <= w'.d.nextDepart
    && (forall t :: t in w.d.departs ==> t in w'.d.departs && w'.d.departs[t].hand == w.d.departs[t].hand)
    && (forall t :: t in w'.d.departs && t !in w.d.departs ==> t < w'.d.nextDepart && w'.d.departs[t].hand.None?)
  }

  /** A step that leaves index, takings, hands and flights alone keeps everything. */
  lemma ProvFrame(w: World, w': World)
    requires ProvInv(w) && SameIndex(w, w') && SameHands(w, w') && BooksGrow(w.h, w'.h)
    requires w'.h.sightings == w.h.sightings && RefsInv(w'.h)
    ensures ProvInv(w')
  {
    IndexFrame(w, w');
    TakingsFrame(w, w');
    FlightsFrame(w, w');
    HandsFrame(w, w');
  }

  lemma HandsFrame(w: World, w': World)
    requires HandsInv(w.d, w.h) && SameHands(w, w')
    ensures HandsInv(w'.d, w'.h)
  {
    forall t | t in w'.h.inHand ensures HeldBy(w'.d, w'.h, t) && Unused(w'.h, w'.h.inHand[t]) {
      assert HeldBy(w.d, w.h, t) && Unused(w.h, w.h.inHand[t]);
    }
  }

  lemma IndexFrame(w: World, w': World)
    requires IndexInv(w.d, w.h) && w'.d.index == w.d.index && w'.h.sightings == w.h.sightings && RefsInv(w'.h)
    ensures IndexInv(w'.d, w'.h)
  {
    forall hex ensures Sound(w'.h, Lookup(w'.d.index, hex), hex) {
      SoundGrows(w.h, w'.h, Lookup(w.d.index, hex), hex);
    }
  }

  lemma TakingsFrame(w: World, w': World)
    requires TakingsInv(w.d, w.h) && w'.d.index == w.d.index && w'.h.takings == w.h.takings
    requires w.h.sightings == w'.h.sightings
    ensures TakingsInv(w'.d, w'.h)
  {
    forall k | 0 <= k < |w'.h.takings| ensures Sound(w'.h, w'.h.takings[k].refs, HexOf(w'.h.takings[k])) {
      SoundGrows(w.h, w'.h, w.h.takings[k].refs, HexOf(w.h.takings[k]));
    }
  }

  lemma FlightsFrame(w: World, w': World)
    requires FlightsInv(w.h) && w'.h.flights == w.h.flights && w.h.takings <= w'.h.takings
    requires BooksGrow(w.h, w'.h)
    ensures FlightsInv(w'.h)
  {
    forall i | 0 <= i < |w'.h.flights| ensures FlightOk(w'.h, w'.h.flights[i]) {
      assert FlightOk(w.h, w.h.flights[i]);
    }
  }

  // ---- taking refs ----

  lemma TakeKeepsProv(cfg: Config, w: World, e: Event)
    requires ProvInv(w) && e.act.TakeRefs? && Possible(cfg, w, e.act)
    ensures ProvInv(Step(cfg, w, e))
  {
    var w' := Step(cfg, w, e);
    TakeTouches(cfg, w, e);
    TakeResult(cfg, w, e);
    TakenKeepsProv(w, w', e.act.task);
  }

  /** What taking the refs of the first waiting departure of task t does. */
  ghost predicate Takes(w: World, w': World, t: nat) {
    && t in w.d.departs && w.d.departs[t].waiting != [] && w.d.departs[t].hand.None?
    && var e := w.d.departs[t].waiting[0];
       && w'.d.index == w.d.index - {e.icaoHex}
       && |w'.h.takings| == |w.h.takings| + 1 && w.h.takings <= w'.h.takings
       && w'.h.takings[|w.h.takings|].entry == e
       && w'.h.takings[|w.h.takings|].refs == Lookup(w.d.index, e.icaoHex)
       && w'.h.takings[|w.h.takings|].published == |w.h.sightings|
       && w'.h.flights == w.h.flights && w'.d.nextDepart == w.d.nextDepart
       && w'.d.departs == w.d.departs[t := DepartTask(
            w.d.departs[t].waiting[1..],
            if e.positionCount == 0 then None else Some(Hand(e, Lookup(w.d.index, e.icaoHex))))]
       && w'.h.inHand == if e.positionCount == 0 then w.h.inHand else w.h.inHand[t := |w.h.takings|]
  }

  lemma TakeResult(cfg: Config, w: World, e: Event)
    requires e.act.TakeRefs? && Possible(cfg, w, e.act)
    ensures Takes(w, Step(cfg, w, e), e.act.task)
  {
  }

  lemma TakenKeepsProv(w: World, w': World, t: nat)
    requires ProvInv(w) && Takes(w, w', t) && SameAccepted(w, w') && SameMail(w, w')
    ensures ProvInv(w')
  {
    var entry := w.d.departs[t].waiting[0];
    TakeKeepsIndex(w, w', entry);
    TakeKeepsTakings(w, w', t);
    FlightsFrame(w, w');
    TakeKeepsHands(w, w', t);
  }

  lemma TakeKeepsIndex(w: World, w': World, entry: Entry)
    requires IndexInv(w.d, w.h) && SameAccepted(w, w') && w'.d.index == w.d.index - {entry.icaoHex}
    ensures IndexInv(w'.d, w'.h)
  {
    forall hex ensures Sound(w'.h, Lookup(w'.d.index, hex), hex) {
      SoundGrows(w.h, w'.h, Lookup(w.d.index, hex), hex);
    }
  }

  lemma TakeKeepsTakings(w: World, w': World, t: nat)
    requires IndexInv(w.d, w.h) && TakingsInv(w.d, w.h) && SameAccepted(w, w') && Takes(w, w', t)
    ensures TakingsInv(w'.d, w'.h)
  {
    forall k | 0 <= k < |w'.h.takings|
      ensures Sound(w'.h, w'.h.takings[k].refs, HexOf(w'.h.takings[k]))
      ensures Apart(w'.h.takings[k].refs, Lookup(w'.d.index, HexOf(w'.h.takings[k])))
    {
      var refs, hex := w'.h.takings[k].refs, HexOf(w'.h.takings[k]);
      assert k < |w.h.takings| ==> w'.h.takings[k] == w.h.takings[k];
      assert Sound(w.h, refs, hex);
      SoundGrows(w.h, w'.h, refs, hex);
    }
    forall j, k | 0 <= j < k < |w'.h.takings| && HexOf(w'.h.takings[j]) == HexOf(w'.h.takings[k])
      ensures Apart(w'.h.takings[j].refs, w'.h.takings[k].refs)
    {
      assert w'.h.takings[j] == w.h.takings[j];
      assert k < |w.h.takings| ==> w'.h.takings[k] == w.h.takings[k];
      assert Apart(w.h.takings[j].refs, Lookup(w.d.index, HexOf(w.h.takings[j])));
    }
  }

  lemma TakeKeepsHands(w: World, w': World, t: nat)
    requires HandsInv(w.d, w.h) && FlightsInv(w.h) && Takes(w, w', t)
    ensures HandsInv(w'.d, w'.h)
  {
    assert t !in w.h.inHand by {
      assert t in w.h.inHand ==> HeldBy(w.d, w.h, t);
    }
    forall u | u in w'.h.inHand ensures HeldBy(w'.d, w'.h, u) && Unused(w'.h, w'.h.inHand[u]) {
      if u in w.h.inHand {
        assert HeldBy(w.d, w.h, u) && Unused(w.h, w.h.inHand[u]);
      } else {
        assert forall i :: 0 <= i < |w.h.flights| ==> FlightOk(w.h, w.h.flights[i]);
      }
    }
    forall u, v | u in w'.h.inHand && v in w'.h.inHand && u != v ensures w'.h.inHand[u] != w'.h.inHand[v] {
      assert u in w.h.inHand ==> HeldBy(w.d, w.h, u);
      assert v in w.h.inHand ==> HeldBy(w.d, w.h, v);
    }
  }

  // ---- sending a flight record ----

  lemma DoneKeepsProv(cfg: Config, w: World, e: Event)
    requires Conservation.Inv(w) && ProvInv(w) && e.act.FlightDone? && Possible(cfg, w, e.act)
    ensures ProvInv(Step(cfg, w, e))
  {
    var w' := Step(cfg, w, e);
    DoneTouches(cfg, w, e);
    DoneTouchesOnly(cfg, w, e);
    IndexFrame(w, w');
    TakingsFrame(w, w');
    DoneKeepsFlights(cfg, w, e);
    DoneKeepsHands(w, w', e.act.done);
  }

  /** Sending changes nothing but the departure in hand, the flights sent and the queue. */
  lemma DoneTouchesOnly(cfg: Config, w: World, e: Event)
    requires HandsInv(w.d, w.h) && e.act.FlightDone? && Possible(cfg, w, e.act)
    ensures var w' := Step(cfg, w, e);
      var t := e.act.done;
      && w'.d.index == w.d.index && w'.h.sightings == w.h.sightings && w'.h.takings == w.h.takings
      && t in w.h.inHand && w'.h.inHand == w.h.inHand - {t}
      && t in w'.d.departs && w'.d.departs[t].hand.None? && w'.d.nextDepart == w.d.nextDepart
      && w'.d.departs == w.d.departs[t := w'.d.departs[t]]
      && (w'.h.flights == w.h.flights
          || (|w'.h.flights| == |w.h.flights| + 1 && w.h.flights <= w'.h.flights
              && w'.h.flights[|w.h.flights|].taking == w.h.inHand[t]))
  {
    assert HeldBy(w.d, w.h, e.act.done);
  }

  lemma DoneKeepsFlights(cfg: Config, w: World, e: Event)
    requires Conservation.Inv(w) && ProvInv(w) && e.act.FlightDone? && Possible(cfg, w, e.act)
    ensures FlightsInv(Step(cfg, w, e).h)
  {
    var w' := Step(cfg, w, e);
    DoneTouches(cfg, w, e);
    StepKeepsBooks(cfg, w, e);
    assert HeldBy(w.d, w.h, e.act.done) && Unused(w.h, w.h.inHand[e.act.done]);
    if w'.h.flights == w.h.flights {
      FlightsFrame(w, w');
    } else {
      var s := SentRecord(cfg, w, e);
      SentKeepsFlights(w, w', s);
    }
  }

  /** The record that was sent is that of the departure in hand. */
  lemma SentRecord(cfg: Config, w: World, e: Event) returns (s: Sent)
    requires HandsInv(w.d, w.h) && e.act.FlightDone? && Possible(cfg, w, e.act)
    requires Step(cfg, w, e).h.flights != w.h.flights && Step(cfg, w, e).h.takings == w.h.takings
    ensures Step(cfg, w, e).h.flights == w.h.flights + [s]
    ensures e.act.done in w.h.inHand && s.taking == w.h.inHand[e.act.done] && FlightOk(Step(cfg, w, e).h, s)
  {
    var h', t := Step(cfg, w, e).h, e.act.done;
    var hand := w.d.departs[t].hand.value;
    FlightMail(cfg, w, e);
    assert HeldBy(w.d, w.h, t);
    s := h'.flights[|w.h.flights|];
    assert BuildFlightRecord(hand.entry, s.record.aircraft, hand.refs) == Some(s.record);
  }

  lemma SentKeepsFlights(w: World, w': World, s: Sent)
    requires FlightsInv(w.h) && w'.h.flights == w.h.flights + [s] && w'.h.takings == w.h.takings
    requires BooksGrow(w.h, w'.h)
    requires FlightOk(w'.h, s) && Unused(w.h, s.taking)
    ensures FlightsInv(w'.h)
  {
    forall i | 0 <= i < |w'.h.flights| ensures FlightOk(w'.h, w'.h.flights[i]) {
      if i < |w.h.flights| { assert FlightOk(w.h, w.h.flights[i]); }
    }
  }

  lemma DoneKeepsHands(w: World, w': World, t: nat)
    requires HandsInv(w.d, w.h) && t in w.h.inHand && t in w'.d.departs && w'.d.departs[t].hand.None?
    requires w'.d.departs == w.d.departs[t := w'.d.departs[t]] && w'.d.nextDepart == w.d.nextDepart
    requires w'.h.takings == w.h.takings && w'.h.inHand == w.h.inHand - {t}
    requires || w'.h.flights == w.h.flights
             || (|w'.h.flights| == |w.h.flights| + 1 && w.h.flights <= w'.h.flights
                 && w'.h.flights[|w.h.flights|].taking == w.h.inHand[t])
    ensures HandsInv(w'.d, w'.h)
  {
    assert HeldBy(w.d, w.h, t);
    forall u | u in w'.h.inHand ensures HeldBy(w'.d, w'.h, u) && Unused(w'.h, w'.h.inHand[u]) {
      assert HeldBy(w.d, w.h, u) && Unused(w.h, w.h.inHand[u]);
    }
  }

  /** A refused record is entered under its id. */
  lemma FlightMail(cfg: Config, w: World, e: Event)
    requires e.act.FlightDone? && Possible(cfg, w, e.act)
    ensures var h' := Step(cfg, w, e).h;
      || h'.flights == w.h.flights
      || (&& |h'.flights| == |w.h.flights| + 1
          && (var s := h'.flights[|w.h.flights|];
              s.queued.Some? ==> s.queued.value in h'.mail.put && h'.mail.put[s.queued.value] == Flight(s.record)))
  {
  }

  // ---- publishing a sighting ----

  lemma PublishKeepsProv(cfg: Config, w: World, e: Event)
    requires Conservation.Inv(w) && ProvInv(w) && e.act.SightingPublished? && Possible(cfg, w, e.act)
    ensures ProvInv(Step(cfg, w, e))
  {
    PublishTouches(cfg, w, e);
    PublishResult(cfg, w, e);
    PublishedKeepsProv(w, Step(cfg, w, e), w.d.flushes[e.act.flush].chunks[w.d.flushes[e.act.flush].next], e.act.ref);
  }

  lemma PublishResult(cfg: Config, w: World, e: Event)
    requires Conservation.Inv(w) && e.act.SightingPublished? && Possible(cfg, w, e.act)
    ensures var task := w.d.flushes[e.act.flush];
      Publishes(w, Step(cfg, w, e), task.chunks[task.next], e.act.ref)
  {
    var task, w' := w.d.flushes[e.act.flush], Step(cfg, w, e);
    PublishedSighting(cfg, w, e);
    assert Tracks(w.d, e.act.flush, w.h.closed[e.act.flush]);
    forall hex
      ensures Lookup(w'.d.index, hex)
           == Lookup(w.d.index, hex) + (if HasRow(task.chunks[task.next], hex) then [e.act.ref] else [])
    {
      PublishedIndex(w, e.act.flush, e.act.ref, hex);
    }
  }

  lemma PublishedKeepsProv(w: World, w': World, chunk: Telemetry, ref: StrongRef)
    requires ProvInv(w) && Publishes(w, w', chunk, ref) && SameDepartures(w, w') && SameMail(w, w')
    requires w'.h.refused == w.h.refused && w'.h.retried == w.h.retried
    ensures ProvInv(w')
  {
    PublishKeepsIndex(w, w', chunk, ref);
    PublishKeepsTakings(w, w', chunk, ref);
    FlightsFrame(w, w');
    HandsFrame(w, w');
  }

  lemma FreshRef(h: History, refs: seq<StrongRef>, hex: Hex, ref: StrongRef)
    requires Sound(h, refs, hex) && IsFreshRef(h, ref)
    ensures ref !in refs
  {
  }

  ghost predicate Publishes(w: World, w': World, chunk: Telemetry, ref: StrongRef) {
    && IsFreshRef(w.h, ref)
    && |w'.h.sightings| == |w.h.sightings| + 1 && w.h.sightings <= w'.h.sightings
    && w'.h.sightings[|w.h.sightings|].ref == ref && w'.h.sightings[|w.h.sightings|].chunk == chunk
    && (forall hex :: Lookup(w'.d.index, hex) == Lookup(w.d.index, hex) + (if HasRow(chunk, hex) then [ref] else []))
  }

  lemma PublishKeepsIndex(w: World, w': World, chunk: Telemetry, ref: StrongRef)
    requires IndexInv(w.d, w.h) && Publishes(w, w', chunk, ref) && w'.h.retried == w.h.retried
    ensures IndexInv(w'.d, w'.h)
  {
    var s := w'.h.sightings[|w.h.sightings|];
    forall hex ensures Sound(w'.h, Lookup(w'.d.index, hex), hex) {
      var refs := Lookup(w.d.index, hex);
      SoundGrows(w.h, w'.h, refs, hex);
      FreshRef(w.h, refs, hex, ref);
      if HasRow(chunk, hex) {
        assert s in w'.h.sightings && Cites(w'.h, ref, hex);
      }
    }
    forall i | 0 <= i < |w.h.sightings| ensures w'.h.sightings[i].ref != ref {
      assert w.h.sightings[i] in w.h.sightings;
    }
    forall x, r | x in w'.h.sightings && r in w'.h.retried ensures x.ref != r.ref {
      assert w'.h.sightings == w.h.sightings + [s];
    }
  }

  lemma PublishKeepsTakings(w: World, w': World, chunk: Telemetry, ref: StrongRef)
    requires TakingsInv(w.d, w.h) && Publishes(w, w', chunk, ref) && w'.h.takings == w.h.takings
    ensures TakingsInv(w'.d, w'.h)
  {
    forall k | 0 <= k < |w'.h.takings|
      ensures Sound(w'.h, w'.h.takings[k].refs, HexOf(w'.h.takings[k]))
      ensures Apart(w'.h.takings[k].refs, Lookup(w'.d.index, HexOf(w'.h.takings[k])))
    {
      SoundGrows(w.h, w'.h, w.h.takings[k].refs, HexOf(w.h.takings[k]));
      FreshRef(w.h, w.h.takings[k].refs, HexOf(w.h.takings[k]), ref);
    }
  }

  // ---- every run ----

  lemma StepKeepsProv(cfg: Config, w: World, e: Event)
    requires Conservation.Inv(w) && ProvInv(w)
    ensures ProvInv(Step(cfg, w, e))
  {
    if Possible(cfg, w, e.act) {
      match e.act
      case TakeRefs(_) => TakeKeepsProv(cfg, w, e);
      case FlightDone(_, _) => DoneKeepsProv(cfg, w, e);
      case SightingPublished(_, _) => PublishKeepsProv(cfg, w, e);
      case Resent(_, _) => ResendKeepsProv(cfg, w, e);
      case _ => OtherKeepsProv(cfg, w, e);
    }
  }

  lemma OtherKeepsProv(cfg: Config, w: World, e: Event)
    requires Conservation.Inv(w) && ProvInv(w) && Possible(cfg, w, e.act)
    requires !e.act.TakeRefs? && !e.act.FlightDone? && !e.act.SightingPublished? && !e.act.Resent?
    ensures ProvInv(Step(cfg, w, e))
  {
    StepKeepsBooks(cfg, w, e);
    OtherTouchesNone(cfg, w, e);
    ProvFrame(w, Step(cfg, w, e));
  }

  /** These steps change nothing that provenance depends on. */
  lemma OtherTouchesNone(cfg: Config, w: World, e: Event)
    requires HandsInv(w.d, w.h)
    requires !e.act.TakeRefs? && !e.act.FlightDone? && !e.act.SightingPublished? && !e.act.Resent?
    ensures var w' := Step(cfg, w, e);
      && SameIndex(w, w') && SameHands(w, w')
      && w'.h.sightings == w.h.sightings && w'.h.retried == w.h.retried
  {
    match e.act
    case Message(_, _) => MessageHands(cfg, w, e);
    case DropDepartures(_) => DropHands(cfg, w, e);
    case RawCaptured(_) => CapturedTouches(cfg, w, e);
    case FlushTick => TickTouches(cfg, w, e);
    case RawUploaded(_, _) => UploadTouches(cfg, w, e);
    case UploadFailed(_) => FailureTouches(cfg, w, e);
    case SightingRefused(_) => RefuseTouches(cfg, w, e);
    case Drain(_) => DrainTouches(cfg, w, e);
  }

  lemma MessageHands(cfg: Config, w: World, e: Event)
    requires HandsInv(w.d, w.h) && e.act.Message?
    ensures var w' := Step(cfg, w, e);
      SameIndex(w, w') && SameHands(w, w') && SameAccepted(w, w')
  {
    MessageTouches(cfg, w, e);
  }

  lemma DropHands(cfg: Config, w: World, e: Event)
    requires e.act.DropDepartures?
    ensures var w' := Step(cfg, w, e);
      SameIndex(w, w') && SameHands(w, w') && SameAccepted(w, w')
  {
    DropTouches(cfg, w, e);
  }

  lemma ResendKeepsProv(cfg: Config, w: World, e: Event)
    requires Conservation.Inv(w) && ProvInv(w) && e.act.Resent? && Possible(cfg, w, e.act)
    ensures ProvInv(Step(cfg, w, e))
  {
    StepKeepsBooks(cfg, w, e);
    ResendTouches(cfg, w, e);
    ResentSighting(cfg, w, e);
    FreshKeepsRefs(w.h, Step(cfg, w, e).h, e.act.resentRef);
    ProvFrame(w, Step(cfg, w, e));
  }

  lemma FreshKeepsRefs(h: History, h': History, ref: StrongRef)
    requires RefsInv(h) && IsFreshRef(h, ref) && h'.sightings == h.sightings
    requires h'.retried == h.retried
             || (|h'.retried| == |h.retried| + 1 && h.retried <= h'.retried && h'.retried[|h.retried|].ref == ref)
    ensures RefsInv(h')
  {
    forall i | 0 <= i < |h.retried| ensures h.retried[i] in h.retried && h'.retried[i] == h.retried[i] {
    }
    forall s, r | s in h'.sightings && r in h'.retried ensures s.ref != r.ref {
      var i :| 0 <= i < |h'.retried| && h'.retried[i] == r;
    }
  }

  lemma {:induction false} RunProv(cfg: Config, events: seq<Event>)
    ensures ProvInv(Run(cfg, events))
  {
    if events == [] {
      assert forall hex :: Lookup(INITIAL.index, hex) == [];
    } else {
      var n := |events| - 1;
      RunProv(cfg, events[..n]);
      RunInv(cfg, events[..n]);
      StepKeepsProv(cfg, Run(cfg, events[..n]), events[n]);
    }
  }

  lemma ReachableProv(cfg: Config, w: World)
    requires Reachable(cfg, w)
    ensures ProvInv(w)
  {
    var events :| Run(cfg, events) == w;
    RunProv(cfg, events);
  }
}
