/**
 Sessions over whole runs, with no assumption on timing.  The sessions of an aircraft are counted as they
 begin, so two of them are never confused even if they begin at the same time: every position belongs to
 the session that was live when it was emitted, the track of an entry is the list of the positions of its
 session, and a session departs once at most.
 */
module Sessions {
  import opened Wrappers
  import opened Tracker
  import opened Batch
  import opened DaemonModel
  import opened Conservation
  import opened Frames
  import opened TrackerHistory

  /** The reports of one session, in the order they were emitted. */
  function SessionReports(log: seq<Item>, hex: Hex, session: nat): seq<PositionReport> {
    if log == [] then []
    else
      var n := |log| - 1;
      SessionReports(log[..n], hex, session)
        + (if log[n].hex == hex && log[n].session == session then [log[n].report] else [])
  }

  function HexOf(t: Taken): Hex { t.entry.icaoHex }

  ghost predicate WaitingAt(d: Core, t: nat, i: nat, hex: Hex) {
    t in d.departs && i < |d.departs[t].waiting| && d.departs[t].waiting[i].icaoHex == hex
  }

  ghost predicate IsWaiting(d: Core, hex: Hex) {
    exists t: nat, i: nat :: WaitingAt(d, t, i, hex)
  }

  /** The session of the i-th departure that waits in task t. */
  function NumberAt(h: History, t: nat, i: nat): nat {
    if i < |Leaving(h, t)| then Leaving(h, t)[i] else 0
  }

  // ---- the invariant ----

  ghost predicate NumbersInv(h: History) {
    forall i :: 0 <= i < |h.log| ==> h.log[i].no == i
  }

  /** Every departure that waits has its session beside it, under a number that was given out. */
  ghost predicate LeavingInv(w: World) {
    forall t :: t in w.d.departs ==> |Leaving(w.h, t)| == |w.d.departs[t].waiting| && t < w.d.nextDepart
  }

  ghost predicate IsTrackOf(log: seq<Item>, e: Entry, session: nat) {
    e.track == SessionReports(log, e.icaoHex, session) && e.positionCount == |e.track|
  }

  /** The live entry is that of the session begun last. */
  ghost predicate LiveRight(w: World, hex: Hex) {
    hex in w.d.tracker.entries ==>
      && w.d.tracker.entries[hex].icaoHex == hex && 1 <= Begun(w.h.begun, hex)
      && IsTrackOf(w.h.log, w.d.tracker.entries[hex], Begun(w.h.begun, hex))
  }

  /** The entry is that of a session that is over. */
  ghost predicate IsOver(w: World, e: Entry, session: nat) {
    && 1 <= session <= Begun(w.h.begun, e.icaoHex)
    && (e.icaoHex in w.d.tracker.entries ==> session < Begun(w.h.begun, e.icaoHex))
    && IsTrackOf(w.h.log, e, session)
  }

  ghost predicate WaitingOver(w: World, hex: Hex) {
    forall t: nat, i: nat :: WaitingAt(w.d, t, i, hex) ==> IsOver(w, w.d.departs[t].waiting[i], NumberAt(w.h, t, i))
  }

  ghost predicate TakenOver(w: World, hex: Hex) {
    forall k :: 0 <= k < |w.h.takings| && HexOf(w.h.takings[k]) == hex ==>
      IsOver(w, w.h.takings[k].entry, w.h.takings[k].session)
  }

  ghost predicate ItemsBegun(w: World, hex: Hex) {
    forall it :: it in w.h.log && it.hex == hex ==> 1 <= it.session <= Begun(w.h.begun, hex)
  }

  /** Departure i of task t is that of the session. */
  ghost predicate LeavesAt(w: World, t: nat, i: nat, hex: Hex, session: nat) {
    WaitingAt(w.d, t, i, hex) && NumberAt(w.h, t, i) == session
  }

  ghost predicate TakenAt(h: History, k: nat, hex: Hex, session: nat) {
    k < |h.takings| && HexOf(h.takings[k]) == hex && h.takings[k].session == session
  }

  /** The session waits to depart in one place at most, or has been taken once. */
  ghost predicate DepartsOnce(w: World, hex: Hex, session: nat) {
    && (forall t: nat, i: nat, u: nat, j: nat ::
          LeavesAt(w, t, i, hex, session) && LeavesAt(w, u, j, hex, session) ==> t == u && i == j)
    && (forall j: nat, k: nat :: TakenAt(w.h, j, hex, session) && TakenAt(w.h, k, hex, session) ==> j == k)
    && (forall t: nat, i: nat, k: nat :: LeavesAt(w, t, i, hex, session) ==> !TakenAt(w.h, k, hex, session))
  }

  ghost predicate SessionInv(w: World, hex: Hex) {
    && LiveRight(w, hex) && WaitingOver(w, hex) && TakenOver(w, hex) && ItemsBegun(w, hex)
    && forall session: nat :: DepartsOnce(w, hex, session)
  }

  ghost predicate SessionsInv(w: World) {
    w.d.tracker.Wf() && NumbersInv(w.h) && LeavingInv(w) && forall hex :: SessionInv(w, hex)
  }

  // ---- small facts ----

  lemma {:induction false} SessionReportsConcat(a: seq<Item>, b: seq<Item>, hex: Hex, session: nat)
    ensures SessionReports(a + b, hex, session) == SessionReports(a, hex, session) + SessionReports(b, hex, session)
  {
    if b == [] {
      assert a + b == a;
    } else {
      var n := |b| - 1;
      SessionReportsConcat(a, b[..n], hex, session);
      assert (a + b)[..|a + b| - 1] == a + b[..n];
    }
  }

  lemma SessionReportsSnoc(log: seq<Item>, it: Item, hex: Hex, session: nat)
    ensures SessionReports(log + [it], hex, session)
         == SessionReports(log, hex, session) + (if it.hex == hex && it.session == session then [it.report] else [])
  {
    assert (log + [it])[..|log|] == log;
  }

  lemma {:induction false} NoReports(log: seq<Item>, hex: Hex, session: nat)
    requires forall it :: it in log && it.hex == hex ==> it.session != session
    ensures SessionReports(log, hex, session) == []
  {
    if log != [] {
      NoReports(log[..|log| - 1], hex, session);
      assert log[|log| - 1] in log;
    }
  }

  /** The items of one message: all in the session their aircraft has after it. */
  lemma {:induction false} ItemsSession(
    begun: map<Hex, nat>, at: int, first: nat, arrivals: seq<Arrival>, hex: Hex, session: nat)
    ensures SessionReports(ItemsOf(begun, at, first, arrivals), hex, session)
         == if session == Begun(begun, hex) then ReportsOf(arrivals, hex) else []
  {
    if arrivals != [] {
      var n := |arrivals| - 1;
      var front, last := ItemsOf(begun, at, first, arrivals[..n]), ItemOf(begun, at, first + n, arrivals[n]);
      ItemsSession(begun, at, first, arrivals[..n], hex, session);
      assert ItemsOf(begun, at, first, arrivals) == front + [last];
      SessionReportsSnoc(front, last, hex, session);
    }
  }

  lemma {:induction false} ArrivalHasReport(arrivals: seq<Arrival>, i: nat)
    requires i < |arrivals|
    ensures ReportsOf(arrivals, arrivals[i].hex) != []
  {
    var n := |arrivals| - 1;
    if i < n {
      ArrivalHasReport(arrivals[..n], i);
    }
  }

  /** What has been emitted has one place: an item is in one closed window at most. */
  lemma {:induction false} WindowsApart(closed: seq<Closed>, f: nat, g: nat, it: Item)
    requires forall i, j :: 0 <= i < j < |ClosedItems(closed)| ==>
               ClosedItems(closed)[i].no != ClosedItems(closed)[j].no
    requires f < |closed| && g < |closed| && it in closed[f].items && it in closed[g].items
    ensures f == g
  {
    var n := |closed| - 1;
    var front, last := ClosedItems(closed[..n]), closed[n].items;
    assert ClosedItems(closed) == front + last;
    if f < n && g < n {
      forall i, j | 0 <= i < j < |front| ensures front[i].no != front[j].no {
        assert (front + last)[i] == front[i] && (front + last)[j] == front[j];
      }
      WindowsApart(closed[..n], f, g, it);
    } else if f != g {
      InFrontOrLast(closed, if f < n then f else g, it);
    }
  }

  lemma {:induction false} ClosedItemsInLog(closed: seq<Closed>, f: nat, it: Item)
    requires f < |closed| && it in closed[f].items
    ensures it in ClosedItems(closed)
  {
    var n := |closed| - 1;
    if f < n {
      assert closed[..n][f] == closed[f];
      ClosedItemsInLog(closed[..n], f, it);
    }
  }

  lemma InFrontOrLast(closed: seq<Closed>, f: nat, it: Item)
    requires f < |closed| - 1 && it in closed[f].items && it in closed[|closed| - 1].items
    ensures exists i, j :: 0 <= i < j < |ClosedItems(closed)| && ClosedItems(closed)[i] == ClosedItems(closed)[j] == it
  {
    var n := |closed| - 1;
    var front, last := ClosedItems(closed[..n]), closed[n].items;
    assert ClosedItems(closed) == front + last;
    assert closed[..n][f] == closed[f];
    ClosedItemsInLog(closed[..n], f, it);
    var i :| 0 <= i < |front| && front[i] == it;
    var j :| 0 <= j < |last| && last[j] == it;
    assert (front + last)[i] == (front + last)[|front| + j] == it;
  }

  // ---- a message ----

  /** What one aircraft message does, as far as one aircraft is concerned. */
  ghost predicate Messaged(w: World, w': World, o: Outcome, items: seq<Item>, m: set<Hex>, hex: Hex) {
    && w'.d.tracker == o.state && w'.h.takings == w.h.takings
    && w'.h.log == w.h.log + items && w'.h.current == w.h.current + items
    && w.d.nextDepart !in w.d.departs && w'.d.nextDepart == w.d.nextDepart + 1
    && w'.d.departs == w.d.departs[w.d.nextDepart := DepartTask(o.departed, None)]
    && w'.h.leaving == w.h.leaving[w.d.nextDepart := SessionsOf(w'.h.begun, o.departed)]
    && Begun(w'.h.begun, hex) ==
         Begun(w.h.begun, hex) + (if hex in m && hex !in w.d.tracker.entries then 1 else 0)
    && (if hex in m then LiveAfter(w, w', o, hex) else QuietAfter(w, w', hex))
    && DepartedRight(w, w', o, m, hex)
    && (forall it :: it in items && it.hex == hex ==>
          hex in m && it.session == Begun(w'.h.begun, hex) && it.at == w'.h.clock)
    && (forall session: nat :: SessionReports(items, hex, session) ==
          if hex in m && session == Begun(w'.h.begun, hex) then Get(o.positions, hex) else [])
  }

  ghost predicate LiveAfter(w: World, w': World, o: Outcome, h: Hex) {
    && h in w'.d.tracker.entries
    && w'.d.tracker.entries[h].icaoHex == h
    && w'.d.tracker.entries[h].lastSeen == w'.h.clock
    && w'.d.tracker.entries[h].track ==
         (if h in w.d.tracker.entries then w.d.tracker.entries[h].track else []) + Get(o.positions, h)
    && w'.d.tracker.entries[h].positionCount == |w'.d.tracker.entries[h].track|
  }

  ghost predicate QuietAfter(w: World, w': World, h: Hex) {
    && (h in w'.d.tracker.entries <==> h in w.d.tracker.entries && !IsOverdue(w.d.tracker.entries[h], w'.h.clock))
    && (h in w'.d.tracker.entries ==> w'.d.tracker.entries[h] == w.d.tracker.entries[h])
  }

  ghost predicate DepartedRight(w: World, w': World, o: Outcome, m: set<Hex>, hex: Hex) {
    && (forall i :: 0 <= i < |o.departed| && o.departed[i].icaoHex == hex ==>
          && hex in w.d.tracker.entries && o.departed[i] == w.d.tracker.entries[hex]
          && hex !in m && IsOverdue(o.departed[i], w'.h.clock))
    && (forall i, j :: 0 <= i < j < |o.departed| ==> o.departed[i].icaoHex != o.departed[j].icaoHex)
    && (hex in w.d.tracker.entries && hex !in w'.d.tracker.entries ==>
          exists i :: 0 <= i < |o.departed| && o.departed[i].icaoHex == hex)
  }

  function ItemsAfter(cfg: Config, w: World, e: Event): seq<Item>
    requires e.act.Message?
  {
    var o := Update(w.d.tracker, e.act.aircraft, e.act.epoch, cfg.range);
    ItemsOf(BegunAfter(w, e), DateMs(e.act.epoch), |w.h.log|, Arrivals(o.positions))
  }

  lemma MessageItems(
    st: Tracker.State, aircraft: seq<Observation>, epoch: real, range: Range, begun: map<Hex, nat>, first: nat, h: Hex,
    session: nat)
    ensures var o := Update(st, aircraft, epoch, range);
      SessionReports(ItemsOf(begun, DateMs(epoch), first, Arrivals(o.positions)), h, session) ==
        if h in Mentioned(aircraft) && session == Begun(begun, h) then Get(o.positions, h) else []
  {
    var o := Update(st, aircraft, epoch, range);
    CyclePositionsMentioned(st, aircraft, epoch, range, h);
    ItemsSession(begun, DateMs(epoch), first, Arrivals(o.positions), h, session);
    ReportsOfArrivals(o.positions, h);
  }

  lemma ItemAt(begun: map<Hex, nat>, at: int, first: nat, arrivals: seq<Arrival>, it: Item) returns (i: nat)
    requires it in ItemsOf(begun, at, first, arrivals)
    ensures i < |arrivals| && it == ItemOf(begun, at, first + i, arrivals[i])
  {
    var items := ItemsOf(begun, at, first, arrivals);
    i :| 0 <= i < |items| && items[i] == it;
  }

  lemma MessageItem(
    st: Tracker.State, aircraft: seq<Observation>, epoch: real, range: Range, begun: map<Hex, nat>, first: nat,
    it: Item)
    requires it in ItemsOf(begun, DateMs(epoch), first, Arrivals(Update(st, aircraft, epoch, range).positions))
    ensures it.hex in Mentioned(aircraft) && it.at == DateMs(epoch) && it.session == Begun(begun, it.hex)
  {
    var positions := Update(st, aircraft, epoch, range).positions;
    var i := ItemAt(begun, DateMs(epoch), first, Arrivals(positions), it);
    CyclePositionsMentioned(st, aircraft, epoch, range, it.hex);
    ReportsOfArrivals(positions, it.hex);
    ArrivalHasReport(Arrivals(positions), i);
  }

  /** The parts of a message step that are read off. */
  lemma MessageResult(cfg: Config, w: World, e: Event)
    requires e.act.Message?
    ensures var w' := Step(cfg, w, e);
      var o := Update(w.d.tracker, e.act.aircraft, e.act.epoch, cfg.range);
      && w'.d.tracker == o.state && w'.h.takings == w.h.takings && w'.h.clock == DateMs(e.act.epoch)
      && w'.h.log == w.h.log + ItemsAfter(cfg, w, e) && w'.h.current == w.h.current + ItemsAfter(cfg, w, e)
      && w'.h.begun == BegunAfter(w, e) && w'.d.nextDepart == w.d.nextDepart + 1
      && w'.d.departs == w.d.departs[w.d.nextDepart := DepartTask(o.departed, None)]
      && w'.h.leaving == w.h.leaving[w.d.nextDepart := SessionsOf(w'.h.begun, o.departed)]
  {
  }

  lemma TrackerAfter(cfg: Config, w: World, e: Event, hex: Hex)
    requires w.d.tracker.Wf() && LiveRight(w, hex) && e.act.Message?
    ensures var w' := Step(cfg, w, e);
      var o := Update(w.d.tracker, e.act.aircraft, e.act.epoch, cfg.range);
      && (if hex in Mentioned(e.act.aircraft) then LiveAfter(w, w', o, hex) else QuietAfter(w, w', hex))
      && DepartedRight(w, w', o, Mentioned(e.act.aircraft), hex) && w'.d.tracker.Wf()
  {
    var aircraft, epoch := e.act.aircraft, e.act.epoch;
    MessageResult(cfg, w, e);
    UpdateWf(w.d.tracker, aircraft, epoch, cfg.range);
    UpdateDeparted(w.d.tracker, aircraft, epoch, cfg.range);
    UpdateCounts(w.d.tracker, aircraft, epoch, cfg.range, hex);
    if hex in Mentioned(aircraft) {
      UpdateMentioned(w.d.tracker, aircraft, epoch, cfg.range, hex);
    } else {
      UpdateUnmentioned(w.d.tracker, aircraft, epoch, cfg.range, hex);
    }
  }

  lemma MessageIsMessaged(cfg: Config, w: World, e: Event, hex: Hex)
    requires w.d.tracker.Wf() && LeavingInv(w) && LiveRight(w, hex) && e.act.Message?
    ensures Messaged(w, Step(cfg, w, e), Update(w.d.tracker, e.act.aircraft, e.act.epoch, cfg.range),
                     ItemsAfter(cfg, w, e), Mentioned(e.act.aircraft), hex)
  {
    var aircraft, epoch, begun := e.act.aircraft, e.act.epoch, BegunAfter(w, e);
    MessageResult(cfg, w, e);
    TrackerAfter(cfg, w, e, hex);
    forall session: nat
      ensures SessionReports(ItemsAfter(cfg, w, e), hex, session) ==
        if hex in Mentioned(aircraft) && session == Begun(begun, hex)
        then Get(Update(w.d.tracker, aircraft, epoch, cfg.range).positions, hex) else []
    {
      MessageItems(w.d.tracker, aircraft, epoch, cfg.range, begun, |w.h.log|, hex, session);
    }
    forall it | it in ItemsAfter(cfg, w, e) && it.hex == hex
      ensures hex in Mentioned(aircraft) && it.session == Begun(begun, hex) && it.at == DateMs(epoch)
    {
      MessageItem(w.d.tracker, aircraft, epoch, cfg.range, begun, |w.h.log|, it);
    }
  }

  /** A session that is over stays over, even if the message begins another one of the same aircraft. */
  lemma OverStays(w: World, w': World, o: Outcome, items: seq<Item>, m: set<Hex>, e: Entry, session: nat)
    requires Messaged(w, w', o, items, m, e.icaoHex) && IsOver(w, e, session)
    ensures IsOver(w', e, session)
  {
    SessionReportsConcat(w.h.log, items, e.icaoHex, session);
  }

  lemma DepartedIsOver(w: World, w': World, o: Outcome, items: seq<Item>, m: set<Hex>, hex: Hex, i: nat)
    requires LiveRight(w, hex) && Messaged(w, w', o, items, m, hex)
    requires i < |o.departed| && o.departed[i].icaoHex == hex
    ensures IsOver(w', o.departed[i], Begun(w.h.begun, hex)) && Begun(w'.h.begun, hex) == Begun(w.h.begun, hex)
  {
    SessionReportsConcat(w.h.log, items, hex, Begun(w.h.begun, hex));
  }

  lemma MessageLeaving(w: World, w': World, o: Outcome, items: seq<Item>, m: set<Hex>, hex: Hex, t: nat, i: nat)
    requires Messaged(w, w', o, items, m, hex) && WaitingAt(w'.d, t, i, hex)
    ensures t != w.d.nextDepart ==>
              WaitingAt(w.d, t, i, hex) && NumberAt(w'.h, t, i) == NumberAt(w.h, t, i)
              && w'.d.departs[t].waiting[i] == w.d.departs[t].waiting[i]
    ensures t == w.d.nextDepart ==>
              i < |o.departed| && w'.d.departs[t].waiting[i] == o.departed[i]
              && NumberAt(w'.h, t, i) == Begun(w.h.begun, hex) && hex in w.d.tracker.entries
  {
  }

  lemma MessageKeepsOver(w: World, w': World, o: Outcome, items: seq<Item>, m: set<Hex>, hex: Hex)
    requires SessionInv(w, hex) && Messaged(w, w', o, items, m, hex)
    ensures WaitingOver(w', hex) && TakenOver(w', hex)
  {
    forall t: nat, i: nat | WaitingAt(w'.d, t, i, hex)
      ensures IsOver(w', w'.d.departs[t].waiting[i], NumberAt(w'.h, t, i))
    {
      MessageLeaving(w, w', o, items, m, hex, t, i);
      if t == w.d.nextDepart {
        DepartedIsOver(w, w', o, items, m, hex, i);
      } else {
        OverStays(w, w', o, items, m, w.d.departs[t].waiting[i], NumberAt(w.h, t, i));
      }
    }
    forall k | 0 <= k < |w'.h.takings| && HexOf(w'.h.takings[k]) == hex
      ensures IsOver(w', w'.h.takings[k].entry, w'.h.takings[k].session)
    {
      OverStays(w, w', o, items, m, w.h.takings[k].entry, w.h.takings[k].session);
    }
  }

  lemma MessageKeepsLive(w: World, w': World, o: Outcome, items: seq<Item>, m: set<Hex>, hex: Hex)
    requires SessionInv(w, hex) && Messaged(w, w', o, items, m, hex)
    ensures LiveRight(w', hex) && ItemsBegun(w', hex)
  {
    var session := Begun(w'.h.begun, hex);
    SessionReportsConcat(w.h.log, items, hex, session);
    if hex in m && hex !in w.d.tracker.entries {
      NoReports(w.h.log, hex, session);
    }
  }

  lemma MessageKeepsOnce(w: World, w': World, o: Outcome, items: seq<Item>, m: set<Hex>, hex: Hex, session: nat)
    requires SessionInv(w, hex) && Messaged(w, w', o, items, m, hex)
    ensures DepartsOnce(w', hex, session)
  {
    assert DepartsOnce(w, hex, session);
    forall t: nat, i: nat, u: nat, j: nat | LeavesAt(w', t, i, hex, session) && LeavesAt(w', u, j, hex, session)
      ensures t == u && i == j
    {
      MessageLeaves(w, w', o, items, m, hex, session, t, i);
      MessageLeaves(w, w', o, items, m, hex, session, u, j);
    }
    forall t: nat, i: nat, k: nat | LeavesAt(w', t, i, hex, session) ensures !TakenAt(w'.h, k, hex, session) {
      MessageLeaves(w, w', o, items, m, hex, session, t, i);
      assert TakenAt(w.h, k, hex, session) ==> IsOver(w, w.h.takings[k].entry, session);
    }
    assert forall k: nat :: TakenAt(w'.h, k, hex, session) <==> TakenAt(w.h, k, hex, session);
  }

  /** It left before the message, or leaves with it as the live one; it cannot do both. */
  lemma MessageLeaves(
    w: World, w': World, o: Outcome, items: seq<Item>, m: set<Hex>, hex: Hex, session: nat, t: nat, i: nat)
    requires SessionInv(w, hex) && Messaged(w, w', o, items, m, hex) && LeavesAt(w', t, i, hex, session)
    ensures t != w.d.nextDepart ==> LeavesAt(w, t, i, hex, session)
    ensures hex in w.d.tracker.entries ==> (t == w.d.nextDepart <==> session == Begun(w.h.begun, hex))
    ensures t == w.d.nextDepart ==> hex in w.d.tracker.entries && i < |o.departed| && o.departed[i].icaoHex == hex
  {
    MessageLeaving(w, w', o, items, m, hex, t, i);
    if t != w.d.nextDepart {
      assert IsOver(w, w.d.departs[t].waiting[i], session);
    }
  }

  lemma MessageKeepsSessions(cfg: Config, w: World, e: Event)
    requires SessionsInv(w) && e.act.Message?
    ensures SessionsInv(Step(cfg, w, e))
  {
    var w' := Step(cfg, w, e);
    var o := Update(w.d.tracker, e.act.aircraft, e.act.epoch, cfg.range);
    var items, m := ItemsAfter(cfg, w, e), Mentioned(e.act.aircraft);
    MessageResult(cfg, w, e);
    UpdateWf(w.d.tracker, e.act.aircraft, e.act.epoch, cfg.range);
    forall hex ensures SessionInv(w', hex) {
      assert SessionInv(w, hex);
      MessageIsMessaged(cfg, w, e, hex);
      MessageKeepsSession(w, w', o, items, m, hex);
    }
  }

  lemma MessageKeepsSession(w: World, w': World, o: Outcome, items: seq<Item>, m: set<Hex>, hex: Hex)
    requires SessionInv(w, hex) && Messaged(w, w', o, items, m, hex)
    ensures SessionInv(w', hex)
  {
    MessageKeepsOver(w, w', o, items, m, hex);
    MessageKeepsLive(w, w', o, items, m, hex);
    forall session: nat ensures DepartsOnce(w', hex, session) {
      MessageKeepsOnce(w, w', o, items, m, hex, session);
    }
  }

  // ---- a departure is reached ----

  /** The first departure of task t goes from waiting to taken, with its session. */
  ghost predicate TakesFirst(w: World, w': World, t: nat) {
    && t in w.d.departs && w.d.departs[t].waiting != []
    && w'.d.departs.Keys == w.d.departs.Keys && w'.d.nextDepart == w.d.nextDepart
    && (forall u :: u in w.d.departs ==>
          w'.d.departs[u].waiting == if u == t then w.d.departs[u].waiting[1..] else w.d.departs[u].waiting)
    && |w'.h.takings| == |w.h.takings| + 1 && w.h.takings <= w'.h.takings
    && w'.h.takings[|w.h.takings|].entry == w.d.departs[t].waiting[0]
    && w'.h.takings[|w.h.takings|].session == NumberAt(w.h, t, 0)
    && (forall u :: u in w.d.departs ==>
          Leaving(w'.h, u) == if u == t && Leaving(w.h, u) != [] then Leaving(w.h, u)[1..] else Leaving(w.h, u))
  }

  lemma TakeIsFirst(cfg: Config, w: World, e: Event)
    requires e.act.TakeRefs? && Possible(cfg, w, e.act)
    ensures TakesFirst(w, Step(cfg, w, e), e.act.task)
  {
  }

  /** Where what still waits was before. */
  lemma TookWaiting(w: World, w': World, t: nat, hex: Hex, u: nat, i: nat)
    requires TakesFirst(w, w', t) && LeavingInv(w)
    ensures var j := if u == t then i + 1 else i;
      && (WaitingAt(w'.d, u, i, hex) <==> WaitingAt(w.d, u, j, hex))
      && (WaitingAt(w'.d, u, i, hex) ==>
            w'.d.departs[u].waiting[i] == w.d.departs[u].waiting[j] && NumberAt(w'.h, u, i) == NumberAt(w.h, u, j))
  {
  }

  lemma TakeKeepsOver(w: World, w': World, t: nat, hex: Hex)
    requires SessionInv(w, hex) && LeavingInv(w) && TakesFirst(w, w', t) && SameTracking(w, w') && w'.h.log == w.h.log
    ensures WaitingOver(w', hex) && TakenOver(w', hex)
  {
    forall u: nat, i: nat | WaitingAt(w'.d, u, i, hex)
      ensures IsOver(w', w'.d.departs[u].waiting[i], NumberAt(w'.h, u, i))
    {
      TookWaiting(w, w', t, hex, u, i);
    }
    forall k | 0 <= k < |w'.h.takings| && HexOf(w'.h.takings[k]) == hex
      ensures IsOver(w', w'.h.takings[k].entry, w'.h.takings[k].session)
    {
      if k < |w.h.takings| {
        assert w'.h.takings[k] == w.h.takings[k] && IsOver(w, w.h.takings[k].entry, w.h.takings[k].session);
      } else {
        assert WaitingAt(w.d, t, 0, hex);
      }
    }
  }

  lemma TakeKeepsOnce(w: World, w': World, t: nat, hex: Hex, session: nat)
    requires DepartsOnce(w, hex, session) && LeavingInv(w) && TakesFirst(w, w', t)
    ensures DepartsOnce(w', hex, session)
  {
    forall u: nat, i: nat, v: nat, j: nat | LeavesAt(w', u, i, hex, session) && LeavesAt(w', v, j, hex, session)
      ensures u == v && i == j
    {
      TookWaiting(w, w', t, hex, u, i);
      TookWaiting(w, w', t, hex, v, j);
      assert LeavesAt(w, u, if u == t then i + 1 else i, hex, session);
      assert LeavesAt(w, v, if v == t then j + 1 else j, hex, session);
    }
    forall j: nat, k: nat | TakenAt(w'.h, j, hex, session) && TakenAt(w'.h, k, hex, session) ensures j == k {
      TookTaken(w, w', t, hex, session, j);
      TookTaken(w, w', t, hex, session, k);
    }
    forall u: nat, i: nat, k: nat | LeavesAt(w', u, i, hex, session) ensures !TakenAt(w'.h, k, hex, session) {
      TookWaiting(w, w', t, hex, u, i);
      assert LeavesAt(w, u, if u == t then i + 1 else i, hex, session);
      if TakenAt(w'.h, k, hex, session) {
        TookTaken(w, w', t, hex, session, k);
      }
    }
  }

  lemma TookTaken(w: World, w': World, t: nat, hex: Hex, session: nat, k: nat)
    requires TakesFirst(w, w', t) && TakenAt(w'.h, k, hex, session)
    ensures if k < |w.h.takings| then TakenAt(w.h, k, hex, session)
            else k == |w.h.takings| && LeavesAt(w, t, 0, hex, session)
  {
    assert k < |w.h.takings| ==> w'.h.takings[k] == w.h.takings[k];
  }

  lemma TakeKeepsSessions(cfg: Config, w: World, e: Event)
    requires SessionsInv(w) && e.act.TakeRefs? && Possible(cfg, w, e.act)
    ensures SessionsInv(Step(cfg, w, e))
  {
    TakeTouches(cfg, w, e);
    TakeIsFirst(cfg, w, e);
    FirstKeepsSessions(w, Step(cfg, w, e), e.act.task);
  }

  lemma FirstKeepsSessions(w: World, w': World, t: nat)
    requires SessionsInv(w) && TakesFirst(w, w', t) && SameTracking(w, w') && w'.h.log == w.h.log
    ensures SessionsInv(w')
  {
    forall hex ensures SessionInv(w', hex) {
      assert SessionInv(w, hex);
      TakeKeepsOver(w, w', t, hex);
      forall session: nat ensures DepartsOnce(w', hex, session) {
        assert DepartsOnce(w, hex, session);
        TakeKeepsOnce(w, w', t, hex, session);
      }
    }
  }

  // ---- other steps ----

  /** Some departures that wait may be dropped; all else stays. */
  ghost predicate FewerWait(w: World, w': World) {
    && SameTracking(w, w') && w'.h.log == w.h.log && w'.h.takings == w.h.takings
    && w'.d.nextDepart == w.d.nextDepart && w'.d.departs.Keys == w.d.departs.Keys
    && forall t :: t in w.d.departs ==>
         || (w'.d.departs[t].waiting == [] && Leaving(w'.h, t) == [])
         || (w'.d.departs[t].waiting == w.d.departs[t].waiting && Leaving(w'.h, t) == Leaving(w.h, t))
  }

  lemma FewerKeepSessions(w: World, w': World)
    requires SessionsInv(w) && FewerWait(w, w')
    ensures SessionsInv(w')
  {
    forall hex ensures SessionInv(w', hex) {
      assert SessionInv(w, hex);
      FewerKeepSession(w, w', hex);
    }
  }

  lemma FewerKeepSession(w: World, w': World, hex: Hex)
    requires SessionInv(w, hex) && FewerWait(w, w')
    ensures SessionInv(w', hex)
  {
    forall t: nat, i: nat | WaitingAt(w'.d, t, i, hex)
      ensures IsOver(w', w'.d.departs[t].waiting[i], NumberAt(w'.h, t, i))
    {
      assert WaitingAt(w.d, t, i, hex);
    }
    forall k | 0 <= k < |w'.h.takings| && HexOf(w'.h.takings[k]) == hex
      ensures IsOver(w', w'.h.takings[k].entry, w'.h.takings[k].session)
    {
      assert IsOver(w, w.h.takings[k].entry, w.h.takings[k].session);
    }
    forall session: nat ensures DepartsOnce(w', hex, session) {
      assert DepartsOnce(w, hex, session);
      assert forall t: nat, i: nat :: LeavesAt(w', t, i, hex, session) ==> LeavesAt(w, t, i, hex, session);
      assert forall k: nat :: TakenAt(w'.h, k, hex, session) ==> TakenAt(w.h, k, hex, session);
    }
  }

  lemma DoneWaits(cfg: Config, w: World, e: Event)
    requires e.act.FlightDone? && Possible(cfg, w, e.act)
    ensures FewerWait(w, Step(cfg, w, e))
  {
    DoneTouches(cfg, w, e);
  }

  lemma DropWaits(cfg: Config, w: World, e: Event)
    requires e.act.DropDepartures? && Possible(cfg, w, e.act)
    ensures FewerWait(w, Step(cfg, w, e))
  {
    DropTouches(cfg, w, e);
  }

  lemma OtherWaits(cfg: Config, w: World, e: Event)
    requires !e.act.Message? && !IsDeparture(e.act)
    ensures FewerWait(w, Step(cfg, w, e))
  {
    match e.act
    case RawCaptured(_) => CapturedTouches(cfg, w, e);
    case FlushTick => TickTouches(cfg, w, e);
    case RawUploaded(_, _) => UploadTouches(cfg, w, e);
    case UploadFailed(_) => FailureTouches(cfg, w, e);
    case SightingPublished(_, _) => PublishTouches(cfg, w, e);
    case SightingRefused(_) => RefuseTouches(cfg, w, e);
    case Drain(_) => DrainTouches(cfg, w, e);
    case Resent(_, _) => ResendTouches(cfg, w, e);
  }

  lemma StepKeepsSessions(cfg: Config, w: World, e: Event)
    requires SessionsInv(w)
    ensures SessionsInv(Step(cfg, w, e))
  {
    if Possible(cfg, w, e.act) {
      match e.act
      case Message(_, _) => MessageKeepsSessions(cfg, w, e);
      case TakeRefs(_) => TakeKeepsSessions(cfg, w, e);
      case _ => OtherKeepsSessions(cfg, w, e);
    }
  }

  lemma OtherKeepsSessions(cfg: Config, w: World, e: Event)
    requires SessionsInv(w) && Possible(cfg, w, e.act) && !e.act.Message? && !e.act.TakeRefs?
    ensures SessionsInv(Step(cfg, w, e))
  {
    if e.act.FlightDone? {
      DoneWaits(cfg, w, e);
    } else if e.act.DropDepartures? {
      DropWaits(cfg, w, e);
    } else {
      OtherWaits(cfg, w, e);
    }
    FewerKeepSessions(w, Step(cfg, w, e));
  }

  // ---- every run ----

  lemma {:induction false} RunSessions(cfg: Config, events: seq<Event>)
    ensures SessionsInv(Run(cfg, events))
  {
    if events != [] {
      RunSessions(cfg, events[..|events| - 1]);
      StepKeepsSessions(cfg, Run(cfg, events[..|events| - 1]), events[|events| - 1]);
    }
  }

  lemma ReachableSessions(cfg: Config, w: World)
    requires Reachable(cfg, w)
    ensures SessionsInv(w)
  {
    var events :| Run(cfg, events) == w;
    RunSessions(cfg, events);
  }
}
