/** The tracker as the daemon runs it: mutable entries, updated in place, observation by observation. */
module TrackerClass {
  import opened Wrappers
  import opened Tracker

  class TrackedAircraft {
    const icaoHex: Hex
    var callsign: Option<string>
    var category: Option<string>
    var squawk: Option<string>
    var qnhHpa: Option<real>
    const firstSeen: int
    var lastSeen: int
    var positionCount: nat
    var lastSeenPos: Option<real>
    const initialMessages: real
    var currentMessages: real
    var maxRangeNm: Option<real>
    var initial: Snapshot
    var final: Snapshot
    var track: seq<PositionReport>

    function View(): Entry
      reads this
    {
      Entry(icaoHex, callsign, category, squawk, qnhHpa, firstSeen, lastSeen, positionCount, lastSeenPos,
            initialMessages, currentMessages, maxRangeNm, initial, final, track)
    }

    constructor (ac: Observation, nowEpoch: real, range: Range)
      ensures View() == Open(ac, nowEpoch, range)
    {
      icaoHex, firstSeen, lastSeen := ac.icaoHex, DateMs(nowEpoch), DateMs(nowEpoch);
      positionCount, lastSeenPos, track := 0, None, [];
      initialMessages, currentMessages := ac.messages, ac.messages;
      maxRangeNm := None;
      initial, final := BuildSnapshot(ac), BuildSnapshot(ac);
      callsign := Callsign(ac);
      category, squawk, qnhHpa := NonEmpty(ac.category), NonEmpty(ac.squawk), ac.navQnh;
      if ac.lat.Some? && ac.lon.Some? {
        if ac.seenPos.Some? {
          positionCount := 1;
          lastSeenPos := ac.seenPos;
          track := [BuildReport(ac, nowEpoch)];
        }
        maxRangeNm := Some(range(ac.lat.value, ac.lon.value));
      }
    }

    /** Takes in one more observation; the report is the position it added, if it was a new fix. */
    method Observe(ac: Observation, nowEpoch: real, range: Range) returns (report: Option<PositionReport>)
      modifies this
      ensures View() == Absorb(old(View()), ac, nowEpoch, range)
      ensures report == if IsNewFix(old(lastSeenPos), ac) then Some(BuildReport(ac, nowEpoch)) else None
      ensures report.Some? ==> Describes(report.value, ac, nowEpoch)
    {
      ghost var e := View();
      if Positioned(ac) {
        ReportDescribes(ac, nowEpoch);
      }
      lastSeen := DateMs(nowEpoch);
      NoteIdentity(ac);
      currentMessages := ac.messages;
      assert View() == e.(lastSeen := DateMs(nowEpoch), currentMessages := ac.messages,
                          callsign := Latest(Callsign(ac), e.callsign),
                          category := Latest(NonEmpty(ac.category), e.category),
                          squawk := Latest(NonEmpty(ac.squawk), e.squawk), qnhHpa := Latest(ac.navQnh, e.qnhHpa));
      NoteSnapshot(ac);
      report := NoteFix(ac, nowEpoch);
      NoteRange(ac, range);
    }

    method NoteIdentity(ac: Observation)
      modifies this`callsign, this`category, this`squawk, this`qnhHpa
      ensures callsign == Latest(Callsign(ac), old(callsign))
      ensures category == Latest(NonEmpty(ac.category), old(category))
      ensures squawk == Latest(NonEmpty(ac.squawk), old(squawk))
      ensures qnhHpa == Latest(ac.navQnh, old(qnhHpa))
    {
      if ac.flight.Some? && Trim(ac.flight.value) != "" { callsign := Some(Trim(ac.flight.value)); }
      if ac.category.Some? && ac.category.value != "" { category := ac.category; }
      if ac.squawk.Some? && ac.squawk.value != "" { squawk := ac.squawk; }
      if ac.navQnh.Some? { qnhHpa := ac.navQnh; }
    }

    method NoteSnapshot(ac: Observation)
      modifies this`initial, this`final
      ensures var snap := BuildSnapshot(ac);
        && initial == (if snap.HasData() && !old(initial).HasData() then snap else old(initial))
        && final == (if snap.HasData() then snap else old(final))
    {
      var snap := BuildSnapshot(ac);
      if snap.HasData() {
        if !initial.HasData() { initial := snap; }
        final := snap;
      }
    }

    method NoteFix(ac: Observation, nowEpoch: real) returns (report: Option<PositionReport>)
      modifies this`positionCount, this`lastSeenPos, this`track
      ensures var fix := IsNewFix(old(lastSeenPos), ac);
        && report == (if fix then Some(BuildReport(ac, nowEpoch)) else None)
        && positionCount == (if fix then old(positionCount) + 1 else old(positionCount))
        && lastSeenPos == (if fix then ac.seenPos else old(lastSeenPos))
        && track == (if fix then old(track) + [BuildReport(ac, nowEpoch)] else old(track))
    {
      report := None;
      if ac.lat.Some? && ac.lon.Some? && ac.seenPos.Some? {
        if lastSeenPos.None? || ac.seenPos.value < lastSeenPos.value {
          positionCount := positionCount + 1;
          lastSeenPos := ac.seenPos;
          report := Some(BuildReport(ac, nowEpoch));
          track := track + [report.value];
        }
      }
    }

    method NoteRange(ac: Observation, range: Range)
      modifies this`maxRangeNm
      ensures maxRangeNm == WiderRange(old(maxRangeNm), ac, range)
    {
      if ac.lat.Some? && ac.lon.Some? {
        var r := range(ac.lat.value, ac.lon.value);
        if maxRangeNm.None? || r > maxRangeNm.value { maxRangeNm := Some(r); }
      }
    }
  }

  class AircraftTracker {
    const range: Range
    // A Map: its keys in insertion order, and the entry under each.
    var order: seq<Hex>
    var tracked: map<Hex, TrackedAircraft>

    // The value of every entry: what the tracker knows, apart from where it is stored.
    ghost var entries: map<Hex, Entry>

    ghost predicate Valid()
      reads this, tracked.Values
    {
      View().Wf() && Linked()
    }

    /** Every key has its own entry object, and that object holds the entry's value. */
    ghost predicate Linked()
      reads this, tracked.Values
    {
      && tracked.Keys == entries.Keys
      && (forall h :: h in tracked ==> tracked[h].View() == entries[h])
      && (forall h, k :: h in tracked && k in tracked && h != k ==> tracked[h] != tracked[k])
    }

    ghost function View(): State
      reads this
    {
      State(order, entries)
    }

    constructor (range: Range)
      ensures Valid() && View() == EMPTY && this.range == range && tracked == map[]
    {
      this.range := range;
      order, tracked, entries := [], map[], map[];
    }

    method Update(aircraft: seq<Observation>, nowEpoch: real)
      returns (departed: seq<Entry>, positions: seq<Row>)
      requires Valid()
      modifies this, tracked.Values
      ensures Valid() && fresh(tracked.Values - old(tracked.Values))
      ensures var o := Tracker.Update(old(View()), aircraft, nowEpoch, range);
        View() == o.state && departed == o.departed && positions == o.positions
    {
      ghost var start := View();
      var currentHexes := CurrentHexes(aircraft);
      positions := AbsorbEach(aircraft, nowEpoch);
      departed := RemoveDeparted(currentHexes, DateMs(nowEpoch));
      UpdateWf(start, aircraft, nowEpoch, range);
    }

    method CurrentHexes(aircraft: seq<Observation>) returns (hexes: set<Hex>)
      ensures hexes == Mentioned(aircraft)
    {
      hexes := {};
      for i := 0 to |aircraft|
        invariant hexes == Mentioned(aircraft[..i])
      {
        assert aircraft[..i + 1] == aircraft[..i] + [aircraft[i]];
        hexes := hexes + {aircraft[i].icaoHex};
      }
      assert aircraft[..|aircraft|] == aircraft;
    }

    method AbsorbEach(aircraft: seq<Observation>, nowEpoch: real) returns (positions: seq<Row>)
      requires Valid()
      modifies this, tracked.Values
      ensures Valid() && fresh(tracked.Values - old(tracked.Values))
      ensures Cycle(View(), positions) == AbsorbAll(old(View()), aircraft, nowEpoch, range)
    {
      ghost var start := View();
      positions := [];
      for i := 0 to |aircraft|
        invariant Valid() && fresh(tracked.Values - old(tracked.Values))
        invariant Cycle(View(), positions) == AbsorbAll(start, aircraft[..i], nowEpoch, range)
      {
        positions := Absorb(aircraft[i], nowEpoch, positions);
        assert aircraft[..i + 1][..i] == aircraft[..i];
      }
      assert aircraft[..|aircraft|] == aircraft;
    }

    /** Deletes the overdue absent entries and reports them. */
    method RemoveDeparted(currentHexes: set<Hex>, now: int) returns (departed: seq<Entry>)
      requires Valid()
      modifies this
      ensures View() == Remove(old(View()), currentHexes, now)
      ensures departed == Departing(old(View()), old(order), currentHexes, now)
      ensures Valid() && tracked.Values <= old(tracked.Values)
    {
      ghost var after := Remove(View(), currentHexes, now);
      RemoveWf(View(), currentHexes, now);
      StayingKeys(View(), order, currentHexes, now);
      var keep;
      departed, keep := ListDeparted(currentHexes, now);
      KeepOnly(keep, after);
    }

    method KeepOnly(keep: seq<Hex>, ghost after: State)
      requires Linked() && after.order == keep
      requires forall h :: h in after.entries <==> h in entries && h in keep
      requires forall h :: h in after.entries ==> after.entries[h] == entries[h]
      modifies this
      ensures View() == after && Linked() && tracked.Values <= old(tracked.Values)
    {
      order := keep;
      tracked := map h | h in tracked && h in keep :: tracked[h];
      entries := after.entries;
    }

    /** The departure loop: which entries leave, and which keys stay. */
    method ListDeparted(currentHexes: set<Hex>, now: int) returns (departed: seq<Entry>, keep: seq<Hex>)
      requires Valid()
      ensures departed == Departing(View(), order, currentHexes, now)
      ensures keep == Staying(View(), order, currentHexes, now)
    {
      departed, keep := [], [];
      for i := 0 to |order|
        invariant departed == Departing(View(), order[..i], currentHexes, now)
        invariant keep == Staying(View(), order[..i], currentHexes, now)
      {
        var hex := order[i];
        assert order[..i + 1][..i] == order[..i];
        assert hex in View().entries;
        if hex !in currentHexes && now - tracked[hex].lastSeen >= DEPARTURE_THRESHOLD_MS {
          departed := departed + [tracked[hex].View()];
        } else {
          keep := keep + [hex];
        }
      }
      assert order[..|order|] == order;
    }

    /** One iteration of the update loop: an aircraft already tracked, or a new one. */
    method Absorb(ac: Observation, nowEpoch: real, positions: seq<Row>) returns (positions': seq<Row>)
      requires Valid()
      modifies this, tracked.Values
      ensures Cycle(View(), positions') == AbsorbOne(Cycle(old(View()), positions), ac, nowEpoch, range)
      ensures Valid() && fresh(tracked.Values - old(tracked.Values))
    {
      AbsorbOneWf(Cycle(View(), positions), ac, nowEpoch, range);
      positions' := positions;
      if ac.icaoHex in tracked {
        var report := ObserveKnown(ac, nowEpoch);
        if report.Some? {
          positions' := Push(positions, ac.icaoHex, report.value);
        }
      } else {
        OpenNew(ac, nowEpoch);
        if Positioned(ac) {
          positions' := Push(positions, ac.icaoHex, BuildReport(ac, nowEpoch));
        }
      }
    }

    method ObserveKnown(ac: Observation, nowEpoch: real) returns (report: Option<PositionReport>)
      requires Valid() && ac.icaoHex in tracked
      requires AbsorbOne(Cycle(View(), []), ac, nowEpoch, range).state.Wf()
      modifies tracked[ac.icaoHex], this`entries
      ensures entries == old(entries)[ac.icaoHex := Tracker.Absorb(old(entries[ac.icaoHex]), ac, nowEpoch, range)]
      ensures report ==
                if IsNewFix(old(entries[ac.icaoHex]).lastSeenPos, ac) then Some(BuildReport(ac, nowEpoch)) else None
      ensures Valid()
    {
      report := tracked[ac.icaoHex].Observe(ac, nowEpoch, range);
      entries := entries[ac.icaoHex := Tracker.Absorb(entries[ac.icaoHex], ac, nowEpoch, range)];
      assert View() == AbsorbOne(Cycle(old(View()), []), ac, nowEpoch, range).state;
    }

    method OpenNew(ac: Observation, nowEpoch: real)
      requires Valid() && ac.icaoHex !in tracked
      requires AbsorbOne(Cycle(View(), []), ac, nowEpoch, range).state.Wf()
      modifies this
      ensures View() == AbsorbOne(Cycle(old(View()), []), ac, nowEpoch, range).state
      ensures Valid() && fresh(tracked.Values - old(tracked.Values))
    {
      var entry := new TrackedAircraft(ac, nowEpoch, range);
      order, tracked := order + [ac.icaoHex], tracked[ac.icaoHex := entry];
      entries := entries[ac.icaoHex := Open(ac, nowEpoch, range)];
    }

    method GetCurrentMaxRange() returns (max: real)
      requires Valid()
      ensures IsMaxRange(View(), max)
    {
      max := 0.0;
      for i := 0 to |order|
        invariant max >= 0.0
        invariant forall j :: 0 <= j < i && View().entries[order[j]].maxRangeNm.Some? ==>
                    View().entries[order[j]].maxRangeNm.value <= max
        invariant max == 0.0 || exists h :: h in View().entries && View().entries[h].maxRangeNm == Some(max)
      {
        assert order[i] in View().entries;
        var entry := tracked[order[i]];
        if entry.maxRangeNm.Some? && entry.maxRangeNm.value > max {
          max := entry.maxRangeNm.value;
          assert View().entries[order[i]].maxRangeNm == Some(max);
        }
      }
    }
  }
}
