/**
 The daemon together with its statistics: which statistics actions its callbacks perform, and when.  A departure
 is counted when its flight record has been dealt with, so the positions in the statistics records are
 those of the sessions whose departure the daemon has reached and identified, each counted once.
 */
module Reporting {
  import opened Wrappers
  import opened Tracker
  import opened DaemonModel
  import opened Sessions
  import opened Provenance
  import opened Frames
  import opened DaemonTheorems
  import Stats

  /** What happens: a step of the daemon, the end of a message's callback, a report of an adapter, the timer. */
  datatype Act =
    | Daemon(e: Event)
    | CallbackEnds(task: nat, liveMax: real)
    | AdapterReports(m: Stats.StatsMessage)
    | StatsTick(published: bool)

  /** What has become of a taking, as far as statistics go. */
  datatype Status = Empty | InHand | Counted | Unidentified

  /**
   The daemon, the statistics actions so far, the aircraft named by each message whose callback has not
   ended, and the status of every taking.
   */
  datatype Joint = Joint(w: World, actions: seq<Stats.Action>, callbacks: map<nat, set<Hex>>, status: seq<Status>)

  const START := Joint(BEGINNING, [], map[], [])

  /** The departures of the message have all been dealt with, so its callback runs to its end. */
  ghost predicate CanEnd(j: Joint, t: nat, liveMax: real) {
    && t in j.callbacks && t in j.w.d.departs && j.w.d.departs[t] == DepartTask([], None)
    && IsMaxRange(j.w.d.tracker, liveMax)
  }

  ghost function DaemonActs(cfg: Config, j: Joint, e: Event): Joint
    requires Possible(cfg, j.w, e.act)
  {
    var j' := j.(w := Step(cfg, j.w, e));
    match e.act
    case Message(aircraft, _) => j'.(callbacks := j.callbacks[j.w.d.nextDepart := Mentioned(aircraft)])
    case DropDepartures(t) => j'.(callbacks := j.callbacks - {t})
    case TakeRefs(t) =>
      var ac := j.w.d.departs[t].waiting[0];
      j'.(actions := j.actions + [Stats.Saw({ac.icaoHex})],
          status := j.status + [if ac.positionCount == 0 then Empty else InHand])
    case FlightDone(t, outcome) =>
      var ac, k := j.w.d.departs[t].hand.value.entry, if t in j.w.h.inHand then j.w.h.inHand[t] else 0;
      if outcome.NoIdentity? then j'.(status := SetStatus(j.status, k, Unidentified))
      else j'.(actions := j.actions + [Stats.Departure(ac.positionCount, ac.maxRangeNm)],
               status := SetStatus(j.status, k, Counted))
    case _ => j'
  }

  function SetStatus(status: seq<Status>, k: nat, s: Status): seq<Status> {
    if k < |status| then status[k := s] else status
  }

  ghost function Acts(cfg: Config, j: Joint, a: Act): Joint {
    match a
    case Daemon(e) => if Possible(cfg, j.w, e.act) then DaemonActs(cfg, j, e) else j
    case CallbackEnds(t, liveMax) =>
      if !CanEnd(j, t, liveMax) then j
      else j.(actions := j.actions + [Stats.Saw(j.callbacks[t])] + [Stats.LiveRange(liveMax)],
              callbacks := j.callbacks - {t})
    case AdapterReports(m) => j.(actions := j.actions + [Stats.Arrive(m)])
    case StatsTick(ok) => j.(actions := j.actions + [Stats.Tick(ok)])
  }

  ghost function JointRun(cfg: Config, acts: seq<Act>): Joint {
    if acts == [] then START else Acts(cfg, JointRun(cfg, acts[..|acts| - 1]), acts[|acts| - 1])
  }

  // ---- what is counted ----

  /** The positions of the sessions whose takings have this status. */
  function PositionsWith(takings: seq<Taken>, log: seq<Item>, status: seq<Status>, s: Status): nat
    requires |status| == |takings|
  {
    if takings == [] then 0
    else
      var n := |takings| - 1;
      PositionsWith(takings[..n], log, status[..n], s)
        + (if status[n] == s then |SessionReports(log, HexOf(takings[n]), takings[n].session)| else 0)
  }

  /** The same, by the counts that the entries carry. */
  function CountsWith(takings: seq<Taken>, status: seq<Status>, s: Status): nat
    requires |status| == |takings|
  {
    if takings == [] then 0
    else
      var n := |takings| - 1;
      CountsWith(takings[..n], status[..n], s) + (if status[n] == s then takings[n].entry.positionCount else 0)
  }

  lemma {:induction false} CountsArePositions(takings: seq<Taken>, log: seq<Item>, status: seq<Status>, s: Status)
    requires |status| == |takings|
    requires forall k :: 0 <= k < |takings| ==> IsTrackOf(log, takings[k].entry, takings[k].session)
    ensures PositionsWith(takings, log, status, s) == CountsWith(takings, status, s)
  {
    if takings != [] {
      var n := |takings| - 1;
      CountsArePositions(takings[..n], log, status[..n], s);
      assert IsTrackOf(log, takings[n].entry, takings[n].session);
    }
  }

  lemma CountsSnoc(takings: seq<Taken>, status: seq<Status>, t: Taken, fresh': Status, s: Status)
    requires |status| == |takings|
    ensures CountsWith(takings + [t], status + [fresh'], s)
         == CountsWith(takings, status, s) + (if fresh' == s then t.entry.positionCount else 0)
  {
    assert (takings + [t])[..|takings|] == takings && (status + [fresh'])[..|status|] == status;
  }

  lemma {:induction false} CountsSet(takings: seq<Taken>, status: seq<Status>, k: nat, fresh': Status, s: Status)
    requires |status| == |takings| && k < |status| && status[k] == InHand && fresh' != InHand && s != InHand
    ensures CountsWith(takings, status[k := fresh'], s)
         == CountsWith(takings, status, s) + (if fresh' == s then takings[k].entry.positionCount else 0)
  {
    var n := |takings| - 1;
    if k < n {
      CountsSet(takings[..n], status[..n], k, fresh', s);
      assert status[k := fresh'][..n] == status[..n][k := fresh'];
    } else {
      assert status[k := fresh'][..n] == status[..n];
    }
  }

  // ---- the invariant ----

  /** What is in hand has that status, and what is empty has no positions. */
  ghost predicate StatusInv(j: Joint) {
    && |j.status| == |j.w.h.takings|
    && (forall t :: t in j.w.h.inHand ==> j.w.h.inHand[t] < |j.status| && j.status[j.w.h.inHand[t]] == InHand)
    && (forall k :: 0 <= k < |j.status| && j.status[k] == InHand ==>
          exists t :: t in j.w.h.inHand && j.w.h.inHand[t] == k)
    && (forall k :: 0 <= k < |j.status| && j.status[k] == Empty ==> j.w.h.takings[k].entry.positionCount == 0)
  }

  ghost predicate CountsInv(j: Joint) {
    StatusInv(j) && Stats.PositionsDeparted(j.actions) == CountsWith(j.w.h.takings, j.status, Counted)
  }

  lemma DepartedSnoc(actions: seq<Stats.Action>, a: Stats.Action)
    ensures Stats.PositionsDeparted(actions + [a])
         == Stats.PositionsDeparted(actions) + (if a.Departure? then a.positions else 0)
  {
    assert (actions + [a])[..|actions|] == actions;
  }

  lemma TakeKeepsCounts(cfg: Config, j: Joint, e: Event)
    requires CountsInv(j) && e.act.TakeRefs? && Possible(cfg, j.w, e.act) && HandsInv(j.w.d, j.w.h)
    ensures CountsInv(DaemonActs(cfg, j, e))
  {
    TakeResult(cfg, j.w, e);
    TakenKeepsCounts(j, DaemonActs(cfg, j, e), e.act.task);
  }

  /** A departure has been reached: it is in hand, or empty. */
  ghost predicate Reaches(j: Joint, j': Joint, t: nat) {
    && Takes(j.w, j'.w, t)
    && var ac := j.w.d.departs[t].waiting[0];
       && j'.actions == j.actions + [Stats.Saw({ac.icaoHex})]
       && j'.status == j.status + [if ac.positionCount == 0 then Empty else InHand]
  }

  lemma TakenKeepsCounts(j: Joint, j': Joint, t: nat)
    requires CountsInv(j) && Reaches(j, j', t) && HandsInv(j.w.d, j.w.h)
    ensures CountsInv(j')
  {
    var ac, taken := j.w.d.departs[t].waiting[0], j'.w.h.takings[|j.w.h.takings|];
    assert j'.w.h.takings == j.w.h.takings + [taken];
    TakenKeepsStatus(j, j', t);
    DepartedSnoc(j.actions, Stats.Saw({ac.icaoHex}));
    CountsSnoc(j.w.h.takings, j.status, taken, if ac.positionCount == 0 then Empty else InHand, Counted);
  }

  lemma TakenKeepsStatus(j: Joint, j': Joint, t: nat)
    requires StatusInv(j) && Reaches(j, j', t) && HandsInv(j.w.d, j.w.h)
    ensures StatusInv(j')
  {
    assert t !in j.w.h.inHand by {
      assert t in j.w.h.inHand ==> HeldBy(j.w.d, j.w.h, t);
    }
    TakenInHand(j, j', t);
    forall i | 0 <= i < |j'.status| && j'.status[i] == Empty ensures j'.w.h.takings[i].entry.positionCount == 0 {
      assert i < |j.status| ==> j'.w.h.takings[i] == j.w.h.takings[i];
    }
  }

  /** What is in hand afterwards has its holder. */
  lemma TakenInHand(j: Joint, j': Joint, t: nat)
    requires StatusInv(j) && Reaches(j, j', t) && t !in j.w.h.inHand
    ensures forall i :: 0 <= i < |j'.status| && j'.status[i] == InHand ==>
              exists u :: u in j'.w.h.inHand && j'.w.h.inHand[u] == i
  {
    forall i | 0 <= i < |j'.status| && j'.status[i] == InHand
      ensures exists u :: u in j'.w.h.inHand && j'.w.h.inHand[u] == i
    {
      if i < |j.status| {
        assert j.status[i] == InHand;
        var u :| u in j.w.h.inHand && j.w.h.inHand[u] == i;
        assert u in j'.w.h.inHand && j'.w.h.inHand[u] == i;
      } else {
        assert j'.w.h.inHand[t] == i;
      }
    }
  }

  /** The record of a departure in hand has been dealt with. */
  ghost predicate Finishes(j: Joint, j': Joint, t: nat, s: Status) {
    && t in j.w.h.inHand && j.w.h.inHand[t] < |j.status| && j'.w.h.takings == j.w.h.takings
    && j'.w.h.inHand == j.w.h.inHand - {t} && j'.status == j.status[j.w.h.inHand[t] := s]
  }

  lemma FinishKeepsStatus(j: Joint, j': Joint, t: nat, s: Status)
    requires StatusInv(j) && HandsInv(j.w.d, j.w.h) && Finishes(j, j', t, s) && (s.Counted? || s.Unidentified?)
    ensures StatusInv(j')
  {
    forall k | 0 <= k < |j'.status| && j'.status[k] == InHand
      ensures exists u :: u in j'.w.h.inHand && j'.w.h.inHand[u] == k
    {
      assert j.status[k] == InHand;
      var u :| u in j.w.h.inHand && j.w.h.inHand[u] == k;
      assert u in j'.w.h.inHand && j'.w.h.inHand[u] == k;
    }
  }

  lemma DoneFinishes(cfg: Config, j: Joint, e: Event)
    requires StatusInv(j) && HandsInv(j.w.d, j.w.h) && e.act.FlightDone? && Possible(cfg, j.w, e.act)
    ensures Finishes(j, DaemonActs(cfg, j, e), e.act.done, if e.act.outcome.NoIdentity? then Unidentified else Counted)
    ensures j.w.h.takings[j.w.h.inHand[e.act.done]].entry == j.w.d.departs[e.act.done].hand.value.entry
  {
    DoneTouchesOnly(cfg, j.w, e);
    assert HeldBy(j.w.d, j.w.h, e.act.done);
  }

  lemma DoneKeepsCounts(cfg: Config, j: Joint, e: Event)
    requires CountsInv(j) && HandsInv(j.w.d, j.w.h) && e.act.FlightDone? && Possible(cfg, j.w, e.act)
    ensures CountsInv(DaemonActs(cfg, j, e))
  {
    var ac := j.w.d.departs[e.act.done].hand.value.entry;
    DoneFinishes(cfg, j, e);
    if e.act.outcome.NoIdentity? {
      UnidentifiedKeepsCounts(j, DaemonActs(cfg, j, e), e.act.done);
    } else {
      CountedKeepsCounts(j, DaemonActs(cfg, j, e), e.act.done, Stats.Departure(ac.positionCount, ac.maxRangeNm));
    }
  }

  lemma UnidentifiedKeepsCounts(j: Joint, j': Joint, t: nat)
    requires CountsInv(j) && HandsInv(j.w.d, j.w.h) && Finishes(j, j', t, Unidentified) && j'.actions == j.actions
    ensures CountsInv(j')
  {
    FinishKeepsStatus(j, j', t, Unidentified);
    CountsSet(j.w.h.takings, j.status, j.w.h.inHand[t], Unidentified, Counted);
  }

  lemma CountedKeepsCounts(j: Joint, j': Joint, t: nat, a: Stats.Action)
    requires CountsInv(j) && HandsInv(j.w.d, j.w.h) && Finishes(j, j', t, Counted) && j'.actions == j.actions + [a]
    requires a.Departure? && a.positions == j.w.h.takings[j.w.h.inHand[t]].entry.positionCount
    ensures CountsInv(j')
  {
    FinishKeepsStatus(j, j', t, Counted);
    CountsSet(j.w.h.takings, j.status, j.w.h.inHand[t], Counted, Counted);
    DepartedSnoc(j.actions, a);
  }

  lemma OtherKeepsCounts(cfg: Config, j: Joint, e: Event)
    requires CountsInv(j) && HandsInv(j.w.d, j.w.h) && Possible(cfg, j.w, e.act)
    requires !e.act.TakeRefs? && !e.act.FlightDone?
    ensures CountsInv(DaemonActs(cfg, j, e))
  {
    SameTakings(cfg, j.w, e);
  }

  lemma SameTakings(cfg: Config, w: World, e: Event)
    requires HandsInv(w.d, w.h) && !e.act.TakeRefs? && !e.act.FlightDone?
    ensures Step(cfg, w, e).h.takings == w.h.takings && Step(cfg, w, e).h.inHand == w.h.inHand
  {
    if e.act.SightingPublished? {
      PublishTouches(cfg, w, e);
    } else if e.act.Resent? {
      ResendTouches(cfg, w, e);
    } else {
      OtherTouchesNone(cfg, w, e);
    }
  }

  lemma ActsKeepCounts(cfg: Config, j: Joint, a: Act)
    requires CountsInv(j) && HandsInv(j.w.d, j.w.h)
    ensures CountsInv(Acts(cfg, j, a))
  {
    match a
    case Daemon(e) =>
      if Possible(cfg, j.w, e.act) {
        DaemonKeepsCounts(cfg, j, e);
      }
    case CallbackEnds(t, liveMax) =>
      if CanEnd(j, t, liveMax) {
        DepartedSnoc(j.actions, Stats.Saw(j.callbacks[t]));
        DepartedSnoc(j.actions + [Stats.Saw(j.callbacks[t])], Stats.LiveRange(liveMax));
      }
    case AdapterReports(m) => DepartedSnoc(j.actions, Stats.Arrive(m));
    case StatsTick(ok) => DepartedSnoc(j.actions, Stats.Tick(ok));
  }

  lemma DaemonKeepsCounts(cfg: Config, j: Joint, e: Event)
    requires CountsInv(j) && HandsInv(j.w.d, j.w.h) && Possible(cfg, j.w, e.act)
    ensures CountsInv(DaemonActs(cfg, j, e))
  {
    if e.act.TakeRefs? {
      TakeKeepsCounts(cfg, j, e);
    } else if e.act.FlightDone? {
      DoneKeepsCounts(cfg, j, e);
    } else {
      OtherKeepsCounts(cfg, j, e);
    }
  }

  lemma ActsReach(cfg: Config, j: Joint, a: Act)
    requires Reachable(cfg, j.w)
    ensures Reachable(cfg, Acts(cfg, j, a).w)
  {
    if a.Daemon? && Possible(cfg, j.w, a.e.act) {
      ReachableStep(cfg, j.w, a.e);
    }
  }

  lemma {:induction false} RunCounts(cfg: Config, acts: seq<Act>)
    ensures CountsInv(JointRun(cfg, acts)) && Reachable(cfg, JointRun(cfg, acts).w)
  {
    if acts == [] {
      assert Run(cfg, []) == BEGINNING;
    } else {
      var j := JointRun(cfg, acts[..|acts| - 1]);
      RunCounts(cfg, acts[..|acts| - 1]);
      ReachableProv(cfg, j.w);
      ActsKeepCounts(cfg, j, acts[|acts| - 1]);
      ActsReach(cfg, j, acts[|acts| - 1]);
    }
  }

  /**
   In every run of the daemon with its statistics, the positions in all statistics records, published or
   queued, and in the running period are those of the sessions that the daemon has taken, identified and
   dealt with.  A session that has positions is exactly one of: counted, given up for want of an
   identity, or still in hand.
   */
  lemma ReportedPositionsAreReached(cfg: Config, acts: seq<Act>)
    ensures var j := JointRun(cfg, acts);
      var b := Stats.Run(j.actions);
      && |j.status| == |j.w.h.takings|
      && Stats.PositionsIn(b.published) + Stats.PositionsIn(b.queued) + b.period.positionsReported
           == PositionsWith(j.w.h.takings, j.w.h.log, j.status, Counted)
      && (forall k :: 0 <= k < |j.status| ==>
            && (j.status[k] == InHand <==> exists t :: t in j.w.h.inHand && j.w.h.inHand[t] == k)
            && (j.status[k] == Empty ==>
                  SessionReports(j.w.h.log, HexOf(j.w.h.takings[k]), j.w.h.takings[k].session) == []))
  {
    var j := JointRun(cfg, acts);
    RunCounts(cfg, acts);
    Stats.PositionsReportedAreConserved(j.actions);
    forall k | 0 <= k < |j.w.h.takings| ensures IsTrackOf(j.w.h.log, j.w.h.takings[k].entry, j.w.h.takings[k].session) {
      SessionsDepartOnce(cfg, j.w, k);
    }
    CountsArePositions(j.w.h.takings, j.w.h.log, j.status, Counted);
  }
}
