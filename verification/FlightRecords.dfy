/**
 When a flight record is made, and what it says.  Of every departure that was reached exactly one record is
 made, or none; which of the two is told from the session, its refs and how the identity ended, and
 what the record says is told from the session's entry.
 */
module FlightRecords {
  import opened Wrappers
  import opened Records
  import opened DaemonModel
  import opened Conservation
  import opened Frames
  import opened Provenance

  // ---- how a departure ends ----

  /** The step ends the publication of the record of taking k. */
  ghost predicate Ends(cfg: Config, w: World, e: Event, k: nat) {
    Possible(cfg, w, e.act) && e.act.FlightDone? && e.act.done in w.h.inHand && w.h.inHand[e.act.done] == k
  }

  /** How the publication of the record of taking k ended, if it has. */
  ghost function OutcomeOf(cfg: Config, events: seq<Event>, k: nat): Option<FlightOutcome> {
    if events == [] then None
    else
      var front, last := events[..|events| - 1], events[|events| - 1];
      if Ends(cfg, Run(cfg, front), last, k) then Some(last.act.outcome) else OutcomeOf(cfg, front, k)
  }

  function RefOf(outcome: FlightOutcome): StrongRef
    requires !outcome.NoIdentity?
  {
    if outcome.Published? then outcome.aircraftRef else outcome.refusedRef
  }

  ghost predicate IsRecordOf(h: History, i: nat, k: nat) {
    i < |h.flights| && h.flights[i].taking == k
  }

  ghost predicate InHand(h: History, k: nat) {
    exists t :: t in h.inHand && h.inHand[t] == k
  }

  /** The record tells its departure, names the identity that was found, and is queued exactly if it was refused. */
  ghost predicate TellsDeparture(h: History, s: Sent, t: Taken, outcome: FlightOutcome) {
    && !outcome.NoIdentity?
    && TellsEntry(s.record, t.entry) && s.record.aircraft == RefOf(outcome) && s.record.batches == t.refs
    && (s.queued.Some? <==> outcome.Refused?)
    && (s.queued.Some? ==> s.queued.value in h.mail.put && h.mail.put[s.queued.value] == Flight(s.record))
  }

  /** Where taking k stands: in hand, or done with, and then there is a record exactly when there should be one. */
  ghost predicate Stands(h: History, k: nat, outcome: Option<FlightOutcome>)
    requires k < |h.takings|
  {
    var t := h.takings[k];
    match outcome
    case None => (InHand(h, k) <==> t.entry.positionCount > 0) && forall i: nat :: !IsRecordOf(h, i, k)
    case Some(o) =>
      && !InHand(h, k) && t.entry.positionCount > 0
      && ((exists i: nat :: IsRecordOf(h, i, k)) <==> IsProvable(t.entry, t.refs) && !o.NoIdentity?)
      && (forall i: nat :: IsRecordOf(h, i, k) ==> TellsDeparture(h, h.flights[i], t, o))
  }

  ghost predicate AllStand(cfg: Config, events: seq<Event>) {
    var h := Run(cfg, events).h;
    && (forall k :: 0 <= k < |h.takings| ==> Stands(h, k, OutcomeOf(cfg, events, k)))
    && (forall k: nat :: k >= |h.takings| ==> OutcomeOf(cfg, events, k) == None)
  }

  // ---- each step ----

  lemma OneMoreEvent(cfg: Config, front: seq<Event>, e: Event, k: nat)
    ensures Run(cfg, front + [e]) == Step(cfg, Run(cfg, front), e)
    ensures OutcomeOf(cfg, front + [e], k)
         == if Ends(cfg, Run(cfg, front), e, k) then Some(e.act.outcome) else OutcomeOf(cfg, front, k)
  {
    assert (front + [e])[..|front|] == front;
  }

  /** The books of takings and flights are as they were, but for what the queue has learnt. */
  ghost predicate SameFlights(h: History, h': History) {
    && h'.takings == h.takings && h'.inHand == h.inHand && h'.flights == h.flights
    && forall id :: id in h.mail.put ==> id in h'.mail.put && h'.mail.put[id] == h.mail.put[id]
  }

  lemma OtherKeepsFlights(cfg: Config, w: World, e: Event)
    requires Conservation.Inv(w) && HandsInv(w.d, w.h) && !e.act.TakeRefs? && !e.act.FlightDone?
    ensures SameFlights(w.h, Step(cfg, w, e).h)
  {
    StepKeepsBooks(cfg, w, e);
    match e.act
    case Message(_, _) => MessageTouches(cfg, w, e);
    case DropDepartures(_) =>
    case RawCaptured(_) => CapturedTouches(cfg, w, e);
    case FlushTick => TickTouches(cfg, w, e);
    case RawUploaded(_, _) => UploadTouches(cfg, w, e);
    case UploadFailed(_) => FailureTouches(cfg, w, e);
    case SightingPublished(_, _) => PublishTouches(cfg, w, e);
    case SightingRefused(_) => RefuseTouches(cfg, w, e);
    case Drain(_) => DrainTouches(cfg, w, e);
    case Resent(_, _) => ResendTouches(cfg, w, e);
  }

  lemma SameStand(h: History, h': History, k: nat, outcome: Option<FlightOutcome>)
    requires SameFlights(h, h') && k < |h.takings| && Stands(h, k, outcome)
    ensures Stands(h', k, outcome)
  {
    assert InHand(h', k) <==> InHand(h, k);
    assert forall i: nat :: IsRecordOf(h', i, k) <==> IsRecordOf(h, i, k);
  }

  lemma TakingStands(w: World, w': World, t: nat, k: nat, outcome: Option<FlightOutcome>)
    requires ProvInv(w) && Takes(w, w', t) && w'.h.mail == w.h.mail && k < |w'.h.takings|
    requires if k < |w.h.takings| then Stands(w.h, k, outcome) else outcome == None
    ensures Stands(w'.h, k, outcome)
  {
    assert t !in w.h.inHand by {
      assert t in w.h.inHand ==> HeldBy(w.d, w.h, t);
    }
    assert forall i: nat :: IsRecordOf(w'.h, i, k) <==> IsRecordOf(w.h, i, k);
    forall u | u in w.h.inHand ensures u in w'.h.inHand && w'.h.inHand[u] == w.h.inHand[u] < |w.h.takings| {
      assert HeldBy(w.d, w.h, u);
    }
    if k < |w.h.takings| {
      assert w'.h.takings[k] == w.h.takings[k];
      assert InHand(w'.h, k) <==> InHand(w.h, k);
    } else {
      assert w'.d.departs[t].hand.Some? ==> w'.h.inHand[t] == k;
      assert forall i :: 0 <= i < |w.h.flights| ==> FlightOk(w.h, w.h.flights[i]);
    }
  }

  /** From h to h' the departure that callback t held is done with, and a record of it is added or not. */
  ghost predicate DoneWith(h: History, h': History, t: nat) {
    && t in h.inHand && h.inHand[t] < |h.takings|
    && h'.takings == h.takings && h'.inHand == h.inHand - {t} && h.flights <= h'.flights
    && (forall i :: |h.flights| <= i < |h'.flights| ==> h'.flights[i].taking == h.inHand[t])
  }

  /** The record of the departure in hand has been added, if one is to be made of it. */
  ghost predicate MakesRecord(h: History, h': History, k: nat, o: FlightOutcome)
    requires k < |h.takings|
  {
    var taken := h.takings[k];
    if IsProvable(taken.entry, taken.refs) && !o.NoIdentity? then
      && |h'.flights| == |h.flights| + 1 && TellsDeparture(h', h'.flights[|h.flights|], taken, o)
    else h'.flights == h.flights
  }

  lemma DoneMakes(cfg: Config, w: World, e: Event)
    requires HandsInv(w.d, w.h) && e.act.FlightDone? && Possible(cfg, w, e.act)
    ensures DoneWith(w.h, Step(cfg, w, e).h, e.act.done)
    ensures MakesRecord(w.h, Step(cfg, w, e).h, w.h.inHand[e.act.done], e.act.outcome)
    ensures w.h.takings[w.h.inHand[e.act.done]].entry == w.d.departs[e.act.done].hand.value.entry
  {
    var t := e.act.done;
    DoneTouchesOnly(cfg, w, e);
    assert HeldBy(w.d, w.h, t);
    var hand := w.d.departs[t].hand.value;
    if !e.act.outcome.NoIdentity? {
      BuildsExactlyWhen(hand.entry, RefOf(e.act.outcome), hand.refs);
    }
    FlightMail(cfg, w, e);
  }

  /** No departure is in two hands, and the books of the queue have not lost anything. */
  ghost predicate KeptApart(h: History, h': History) {
    && (forall u, v :: u in h.inHand && v in h.inHand && u != v ==> h.inHand[u] != h.inHand[v])
    && BooksGrow(h, h')
  }

  lemma DoneStands(h: History, h': History, t: nat, k: nat, outcome: Option<FlightOutcome>, o: FlightOutcome)
    requires DoneWith(h, h', t) && MakesRecord(h, h', h.inHand[t], o) && KeptApart(h, h')
    requires k < |h.takings| && Stands(h, k, outcome)
    ensures Stands(h', k, if h.inHand[t] == k then Some(o) else outcome)
  {
    if h.inHand[t] == k {
      OwnDoneStands(h, h', t, k, outcome, o);
    } else {
      OtherDoneStands(h, h', t, k, outcome);
    }
  }

  lemma OtherDoneStands(h: History, h': History, t: nat, k: nat, outcome: Option<FlightOutcome>)
    requires DoneWith(h, h', t) && KeptApart(h, h') && h.inHand[t] != k && k < |h.takings| && Stands(h, k, outcome)
    ensures Stands(h', k, outcome)
  {
    forall i: nat ensures IsRecordOf(h', i, k) <==> IsRecordOf(h, i, k) {
      assert i < |h.flights| ==> h'.flights[i] == h.flights[i];
    }
    if u :| u in h.inHand && h.inHand[u] == k {
      assert u in h'.inHand && h'.inHand[u] == k;
    }
    assert InHand(h', k) <==> InHand(h, k);
    forall i: nat | IsRecordOf(h', i, k) && outcome.Some?
      ensures TellsDeparture(h', h'.flights[i], h.takings[k], outcome.value)
    {
      assert IsRecordOf(h, i, k) && h'.flights[i] == h.flights[i];
    }
  }

  lemma OwnDoneStands(
    h: History, h': History, t: nat, k: nat, outcome: Option<FlightOutcome>, o: FlightOutcome)
    requires DoneWith(h, h', t) && KeptApart(h, h') && h.inHand[t] == k && k < |h.takings| && Stands(h, k, outcome)
    requires MakesRecord(h, h', k, o)
    ensures Stands(h', k, Some(o))
  {
    assert InHand(h, k) && outcome == None;
    assert forall i: nat :: !IsRecordOf(h, i, k);
    forall i: nat | i < |h.flights| ensures !IsRecordOf(h', i, k) {
      assert h'.flights[i] == h.flights[i] && !IsRecordOf(h, i, k);
    }
    if |h'.flights| > |h.flights| {
      assert IsRecordOf(h', |h.flights|, k);
    }
  }

  lemma EventKeepsStanding(cfg: Config, front: seq<Event>, e: Event)
    requires AllStand(cfg, front)
    ensures AllStand(cfg, front + [e])
  {
    var w, events := Run(cfg, front), front + [e];
    var w' := Step(cfg, w, e);
    assert Reachable(cfg, w);
    ReachableInv(cfg, w);
    ReachableProv(cfg, w);
    forall k | 0 <= k < |w'.h.takings| ensures Run(cfg, events) == w' && Stands(w'.h, k, OutcomeOf(cfg, events, k)) {
      OneMoreEvent(cfg, front, e, k);
      StandsAfter(cfg, w, e, k, OutcomeOf(cfg, front, k));
    }
    forall k: nat ensures Run(cfg, events) == w' && (k >= |w'.h.takings| ==> OutcomeOf(cfg, events, k) == None) {
      OneMoreEvent(cfg, front, e, k);
      TakingsGrow(cfg, w, e);
      if Ends(cfg, w, e, k) {
        assert HeldBy(w.d, w.h, e.act.done);
      }
    }
  }

  lemma TakingsGrow(cfg: Config, w: World, e: Event)
    requires Conservation.Inv(w) && ProvInv(w)
    ensures w.h.takings <= Step(cfg, w, e).h.takings
  {
    if Possible(cfg, w, e.act) {
      if e.act.TakeRefs? {
        TakeResult(cfg, w, e);
      } else if e.act.FlightDone? {
        DoneMakes(cfg, w, e);
      } else {
        OtherKeepsFlights(cfg, w, e);
      }
    }
  }

  lemma StandsAfter(cfg: Config, w: World, e: Event, k: nat, outcome: Option<FlightOutcome>)
    requires Conservation.Inv(w) && ProvInv(w) && k < |Step(cfg, w, e).h.takings|
    requires if k < |w.h.takings| then Stands(w.h, k, outcome) else outcome == None
    ensures Stands(Step(cfg, w, e).h, k, if Ends(cfg, w, e, k) then Some(e.act.outcome) else outcome)
  {
    if Possible(cfg, w, e.act) {
      if e.act.TakeRefs? {
        TakeTouches(cfg, w, e);
        TakeResult(cfg, w, e);
        TakingStands(w, Step(cfg, w, e), e.act.task, k, outcome);
      } else if e.act.FlightDone? {
        DoneMakes(cfg, w, e);
        StepKeepsBooks(cfg, w, e);
        DoneStands(w.h, Step(cfg, w, e).h, e.act.done, k, outcome, e.act.outcome);
      } else {
        OtherKeepsFlights(cfg, w, e);
        SameStand(w.h, Step(cfg, w, e).h, k, outcome);
      }
    }
  }

  lemma {:induction false} RunStands(cfg: Config, events: seq<Event>)
    ensures AllStand(cfg, events)
  {
    if events != [] {
      var n := |events| - 1;
      RunStands(cfg, events[..n]);
      EventKeepsStanding(cfg, events[..n], events[n]);
      assert events == events[..n] + [events[n]];
    }
  }
}
