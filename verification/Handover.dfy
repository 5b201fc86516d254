/**
 Who gets which sighting, in every run and with no assumption on timing: a departure takes exactly
 the sightings that flushes published and that listed its aircraft since that aircraft's previous
 departure was reached.  Hence each of them is handed out once or still in the index; a sighting that
 only a drain of the retry queue could publish is never handed out.
 */
module Handover {
  import opened Tracker
  import opened Batch
  import opened Records
  import opened DaemonModel
  import opened Conservation
  import opened Frames
  import opened Sessions
  import opened Provenance

  // ---- the sightings of an aircraft, and of one session of it ----

  /** The refs of the sightings that list the aircraft, in the order they were published. */
  ghost function Listed(sightings: seq<Accepted>, hex: Hex): seq<StrongRef> {
    if sightings == [] then []
    else
      var last := sightings[|sightings| - 1];
      Listed(sightings[..|sightings| - 1], hex) + (if HasRow(last.chunk, hex) then [last.ref] else [])
  }

  /** Some of these items belong to the session of `hex` that started at `session`. */
  ghost predicate Touches(items: seq<Item>, hex: Hex, session: nat) {
    exists i :: 0 <= i < |items| && items[i].hex == hex && items[i].session == session
  }

  ghost predicate Holds(s: Accepted, hex: Hex, session: nat) {
    HasRow(s.chunk, hex) && Touches(s.items, hex, session)
  }

  /** The refs of the sightings that hold positions of the session, in the order they were published. */
  ghost function RefsFor(sightings: seq<Accepted>, hex: Hex, session: nat): seq<StrongRef> {
    if sightings == [] then []
    else
      var last := sightings[|sightings| - 1];
      RefsFor(sightings[..|sightings| - 1], hex, session) + (if Holds(last, hex, session) then [last.ref] else [])
  }

  lemma ListedSnoc(sightings: seq<Accepted>, s: Accepted, hex: Hex)
    ensures Listed(sightings + [s], hex) == Listed(sightings, hex) + (if HasRow(s.chunk, hex) then [s.ref] else [])
  {
    assert (sightings + [s])[..|sightings|] == sightings;
  }

  lemma {:induction false} ListedConcat(a: seq<Accepted>, b: seq<Accepted>, hex: Hex)
    ensures Listed(a + b, hex) == Listed(a, hex) + Listed(b, hex)
  {
    if b == [] {
      assert a + b == a;
    } else {
      assert (a + b)[..|a + b| - 1] == a + b[..|b| - 1];
      ListedConcat(a, b[..|b| - 1], hex);
    }
  }

  lemma {:induction false} ListedMeaning(sightings: seq<Accepted>, hex: Hex, ref: StrongRef)
    ensures ref in Listed(sightings, hex) <==> exists s :: s in sightings && s.ref == ref && HasRow(s.chunk, hex)
  {
    if sightings != [] {
      var n := |sightings| - 1;
      ListedMeaning(sightings[..n], hex, ref);
      assert sightings == sightings[..n] + [sightings[n]];
    }
  }

  lemma {:induction false} RefsForConcat(a: seq<Accepted>, b: seq<Accepted>, hex: Hex, session: nat)
    ensures RefsFor(a + b, hex, session) == RefsFor(a, hex, session) + RefsFor(b, hex, session)
  {
    if b == [] {
      assert a + b == a;
    } else {
      assert (a + b)[..|a + b| - 1] == a + b[..|b| - 1];
      RefsForConcat(a, b[..|b| - 1], hex, session);
    }
  }

  lemma {:induction false} RefsForMeaning(sightings: seq<Accepted>, hex: Hex, session: nat, ref: StrongRef)
    ensures ref in RefsFor(sightings, hex, session)
       <==> exists s :: s in sightings && s.ref == ref && Holds(s, hex, session)
  {
    if sightings != [] {
      var n := |sightings| - 1;
      RefsForMeaning(sightings[..n], hex, session, ref);
      assert sightings == sightings[..n] + [sightings[n]];
    }
  }

  lemma {:induction false} NoSightings(sightings: seq<Accepted>, hex: Hex, session: nat)
    requires forall s :: s in sightings ==> !Holds(s, hex, session)
    ensures RefsFor(sightings, hex, session) == []
  {
    if sightings != [] {
      NoSightings(sightings[..|sightings| - 1], hex, session);
      assert sightings[|sightings| - 1] in sightings;
    }
  }

  lemma {:induction false} AllSightings(sightings: seq<Accepted>, hex: Hex, session: nat)
    requires forall s :: s in sightings && HasRow(s.chunk, hex) ==> Holds(s, hex, session)
    ensures RefsFor(sightings, hex, session) == Listed(sightings, hex)
  {
    if sightings != [] {
      AllSightings(sightings[..|sightings| - 1], hex, session);
      assert sightings[|sightings| - 1] in sightings;
    }
  }

  // ---- turns ----

  /** How many sightings had been published when the aircraft last had its refs taken. */
  function TurnStart(takings: seq<Taken>, hex: Hex): nat {
    if takings == [] then 0
    else
      var last := takings[|takings| - 1];
      if HexOf(last) == hex then last.published else TurnStart(takings[..|takings| - 1], hex)
  }

  /** All refs handed to departures of the aircraft, in order. */
  function Handed(takings: seq<Taken>, hex: Hex): seq<StrongRef> {
    if takings == [] then []
    else
      var last := takings[|takings| - 1];
      Handed(takings[..|takings| - 1], hex) + (if HexOf(last) == hex then last.refs else [])
  }

  /** Taking k got what was published for its aircraft since the aircraft's taking before it. */
  ghost predicate TookItsTurn(h: History, k: nat)
    requires k < |h.takings|
  {
    var t := h.takings[k];
    var from := TurnStart(h.takings[..k], HexOf(t));
    from <= t.published <= |h.sightings| && t.refs == Listed(h.sightings[from..t.published], HexOf(t))
  }

  /** What the index holds for the aircraft is what was published in the turn that is still open. */
  ghost predicate OpenTurn(d: Core, h: History, hex: Hex) {
    var from := TurnStart(h.takings, hex);
    && from <= |h.sightings|
    && Lookup(d.index, hex) == Listed(h.sightings[from..], hex)
    && Handed(h.takings, hex) == Listed(h.sightings[..from], hex)
  }

  ghost predicate TurnsInv(w: World) {
    && (forall hex :: OpenTurn(w.d, w.h, hex))
    && (forall k :: 0 <= k < |w.h.takings| ==> TookItsTurn(w.h, k))
  }

  lemma OpenTurnGrows(d: Core, h: History, d': Core, h': History, s: Accepted, hex: Hex)
    requires OpenTurn(d, h, hex) && h'.takings == h.takings && h'.sightings == h.sightings + [s]
    requires Lookup(d'.index, hex) == Lookup(d.index, hex) + (if HasRow(s.chunk, hex) then [s.ref] else [])
    ensures OpenTurn(d', h', hex)
  {
    var from := TurnStart(h.takings, hex);
    assert h'.sightings[from..] == h.sightings[from..] + [s] && h'.sightings[..from] == h.sightings[..from];
    ListedSnoc(h.sightings[from..], s, hex);
  }

  lemma TurnKept(h: History, h': History, k: nat)
    requires k < |h.takings| && TookItsTurn(h, k)
    requires h.takings <= h'.takings && h.sightings <= h'.sightings
    ensures TookItsTurn(h', k)
  {
    var t := h.takings[k];
    var from := TurnStart(h.takings[..k], HexOf(t));
    assert h'.takings[..k] == h.takings[..k] && h'.takings[k] == t;
    assert h'.sightings[from..t.published] == h.sightings[from..t.published];
  }

  lemma PublishKeepsTurns(cfg: Config, w: World, e: Event)
    requires Conservation.Inv(w) && TurnsInv(w) && e.act.SightingPublished? && Possible(cfg, w, e.act)
    ensures TurnsInv(Step(cfg, w, e))
  {
    PublishTouches(cfg, w, e);
    PublishResult(cfg, w, e);
    var task := w.d.flushes[e.act.flush];
    PublicationKeepsTurns(w, Step(cfg, w, e), task.chunks[task.next], e.act.ref);
  }

  lemma PublicationKeepsTurns(w: World, w': World, chunk: Telemetry, ref: StrongRef)
    requires TurnsInv(w) && Publishes(w, w', chunk, ref) && w'.h.takings == w.h.takings
    ensures TurnsInv(w')
  {
    forall hex ensures OpenTurn(w'.d, w'.h, hex) {
      OpenTurnGrows(w.d, w.h, w'.d, w'.h, w'.h.sightings[|w.h.sightings|], hex);
    }
    forall k | 0 <= k < |w'.h.takings| ensures TookItsTurn(w'.h, k) {
      TurnKept(w.h, w'.h, k);
    }
  }

  lemma TakingClosesTurn(d: Core, h: History, d': Core, h': History, t: Taken, hex: Hex)
    requires OpenTurn(d, h, hex) && h'.sightings == h.sightings && h'.takings == h.takings + [t]
    requires t.published == |h.sightings| && t.refs == Lookup(d.index, HexOf(t))
    requires Lookup(d'.index, hex) == if hex == HexOf(t) then [] else Lookup(d.index, hex)
    ensures OpenTurn(d', h', hex)
  {
    TakingsSnoc(h.takings, t, hex);
    if hex == HexOf(t) {
      SplitListed(h.sightings, TurnStart(h.takings, hex), hex);
    }
  }

  lemma TakingsSnoc(takings: seq<Taken>, t: Taken, hex: Hex)
    ensures TurnStart(takings + [t], hex) == if hex == HexOf(t) then t.published else TurnStart(takings, hex)
    ensures Handed(takings + [t], hex)
         == if hex == HexOf(t) then Handed(takings, hex) + t.refs else Handed(takings, hex)
  {
    assert (takings + [t])[..|takings|] == takings;
  }

  lemma SplitListed(sightings: seq<Accepted>, from: nat, hex: Hex)
    requires from <= |sightings|
    ensures Listed(sightings[..from], hex) + Listed(sightings[from..], hex) == Listed(sightings[..|sightings|], hex)
    ensures Listed(sightings[|sightings|..], hex) == []
  {
    ListedConcat(sightings[..from], sightings[from..], hex);
    assert sightings[..from] + sightings[from..] == sightings == sightings[..|sightings|];
  }

  lemma TakeKeepsTurns(cfg: Config, w: World, e: Event)
    requires TurnsInv(w) && e.act.TakeRefs? && Possible(cfg, w, e.act)
    ensures TurnsInv(Step(cfg, w, e))
  {
    TakeTouches(cfg, w, e);
    TakeResult(cfg, w, e);
    TakingKeepsTurns(w, Step(cfg, w, e), e.act.task);
  }

  lemma TakingKeepsTurns(w: World, w': World, task: nat)
    requires TurnsInv(w) && Takes(w, w', task) && w'.h.sightings == w.h.sightings
    ensures TurnsInv(w')
  {
    var t := w'.h.takings[|w.h.takings|];
    assert w'.h.takings == w.h.takings + [t];
    forall hex ensures OpenTurn(w'.d, w'.h, hex) {
      TakingClosesTurn(w.d, w.h, w'.d, w'.h, t, hex);
    }
    forall k | 0 <= k < |w'.h.takings| ensures TookItsTurn(w'.h, k) {
      if k < |w.h.takings| {
        TurnKept(w.h, w'.h, k);
      } else {
        assert w'.h.takings[..k] == w.h.takings && OpenTurn(w.d, w.h, HexOf(t));
        assert w.h.sightings[TurnStart(w.h.takings, HexOf(t))..|w.h.sightings|]
            == w.h.sightings[TurnStart(w.h.takings, HexOf(t))..];
      }
    }
  }

  /** No other step touches the index, what flushes published or what was taken. */
  lemma OtherKeepsTurns(cfg: Config, w: World, e: Event)
    requires TurnsInv(w) && !e.act.TakeRefs? && !e.act.SightingPublished?
    ensures TurnsInv(Step(cfg, w, e))
  {
    IndexStays(cfg, w, e);
    SameTurns(w, Step(cfg, w, e));
  }

  lemma SameTurns(w: World, w': World)
    requires TurnsInv(w)
    requires w'.d.index == w.d.index && w'.h.sightings == w.h.sightings && w'.h.takings == w.h.takings
    ensures TurnsInv(w')
  {
    forall hex ensures OpenTurn(w'.d, w'.h, hex) {
      assert OpenTurn(w.d, w.h, hex);
    }
    forall k | 0 <= k < |w'.h.takings| ensures TookItsTurn(w'.h, k) {
      TurnKept(w.h, w'.h, k);
    }
  }

  lemma IndexStays(cfg: Config, w: World, e: Event)
    requires !e.act.TakeRefs? && !e.act.SightingPublished?
    ensures var w' := Step(cfg, w, e);
      w'.d.index == w.d.index && w'.h.sightings == w.h.sightings && w'.h.takings == w.h.takings
  {
    match e.act
    case Message(_, _) => MessageTouches(cfg, w, e);
    case DropDepartures(_) => DropTakes(cfg, w, e);
    case FlightDone(_, _) => DoneTouches(cfg, w, e);
    case RawCaptured(_) => CapturedTouches(cfg, w, e);
    case FlushTick => TickTouches(cfg, w, e);
    case RawUploaded(_, _) => UploadTouches(cfg, w, e);
    case UploadFailed(_) => FailureTouches(cfg, w, e);
    case SightingRefused(_) => RefuseTouches(cfg, w, e);
    case Drain(_) => DrainTouches(cfg, w, e);
    case Resent(_, _) => ResendTouches(cfg, w, e);
  }

  lemma DropTakes(cfg: Config, w: World, e: Event)
    requires e.act.DropDepartures?
    ensures SameIndex(w, Step(cfg, w, e)) && SameAccepted(w, Step(cfg, w, e))
    ensures Step(cfg, w, e).h.takings == w.h.takings
  {
    DropTouches(cfg, w, e);
  }

  lemma {:induction false} RunTurns(cfg: Config, events: seq<Event>)
    ensures TurnsInv(Run(cfg, events))
  {
    if events != [] {
      var n := |events| - 1;
      var w, e := Run(cfg, events[..n]), events[n];
      RunTurns(cfg, events[..n]);
      RunInv(cfg, events[..n]);
      if !Possible(cfg, w, e.act) {
        assert Step(cfg, w, e) == w;
      } else {
        match e.act
        case TakeRefs(_) => TakeKeepsTurns(cfg, w, e);
        case SightingPublished(_, _) => PublishKeepsTurns(cfg, w, e);
        case _ => OtherKeepsTurns(cfg, w, e);
      }
    }
  }

  lemma ReachableTurns(cfg: Config, w: World)
    requires Reachable(cfg, w)
    ensures TurnsInv(w)
  {
    var events :| Run(cfg, events) == w;
    RunTurns(cfg, events);
  }

  // ---- being handed out ----

  /** Some departure of the aircraft was handed the sighting. */
  ghost predicate WasHanded(takings: seq<Taken>, hex: Hex, ref: StrongRef) {
    exists k :: 0 <= k < |takings| && HexOf(takings[k]) == hex && ref in takings[k].refs
  }

  lemma WasHandedSnoc(front: seq<Taken>, last: Taken, hex: Hex, ref: StrongRef)
    ensures WasHanded(front + [last], hex, ref)
       <==> WasHanded(front, hex, ref) || (HexOf(last) == hex && ref in last.refs)
  {
    var takings := front + [last];
    assert forall k :: 0 <= k < |front| ==> takings[k] == front[k];
    assert takings[|front|] == last;
    if k :| 0 <= k < |front| && HexOf(front[k]) == hex && ref in front[k].refs {
      assert HexOf(takings[k]) == hex;
    }
  }

  lemma {:induction false} HandedMeaning(takings: seq<Taken>, hex: Hex, ref: StrongRef)
    ensures ref in Handed(takings, hex) <==> WasHanded(takings, hex, ref)
  {
    if takings != [] {
      var front, last := takings[..|takings| - 1], takings[|takings| - 1];
      HandedMeaning(front, hex, ref);
      WasHandedSnoc(front, last, hex, ref);
      assert takings == front + [last];
    }
  }

  lemma RetriedIsNotCited(w: World, s: Accepted, hex: Hex)
    requires ProvInv(w) && s in w.h.retried
    ensures s.ref !in DaemonModel.Lookup(w.d.index, hex) && !WasHanded(w.h.takings, hex, s.ref)
  {
    assert Sound(w.h, DaemonModel.Lookup(w.d.index, hex), hex);
    forall k | 0 <= k < |w.h.takings| ensures s.ref !in w.h.takings[k].refs {
      assert Sound(w.h, w.h.takings[k].refs, HexOf(w.h.takings[k]));
    }
  }

  /** Two different flight records of one aircraft. */
  ghost predicate SameAircraft(h: History, i: nat, j: nat) {
    && i < |h.flights| && j < |h.flights| && i != j
    && h.flights[i].taking < |h.takings| && h.flights[j].taking < |h.takings|
    && HexOf(h.takings[h.flights[i].taking]) == HexOf(h.takings[h.flights[j].taking])
  }
}
