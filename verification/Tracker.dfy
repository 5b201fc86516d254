/**
 The aircraft tracker as a function of its state: one update cycle absorbs every
 observation of a message in order, then removes the aircraft that have been absent
 for a minute.  `AircraftTracker` (TrackerClass.dfy) computes this in place.
 */
module Tracker {
  import opened Wrappers

  type Hex = string

  datatype Altitude = Feet(ft: real) | Ground

  datatype Observation = Observation(
    icaoHex: Hex, source: string, messages: real,
    lat: Option<real>, lon: Option<real>, seenPos: Option<real>,
    altBaro: Option<Altitude>, gs: Option<real>, track: Option<real>, baroRate: Option<real>,
    flight: Option<string>, squawk: Option<string>, category: Option<string>, navQnh: Option<real>)

  datatype PositionReport = PositionReport(
    latitude: real, longitude: real, timestamp: int, source: string,
    altitudeFt: Option<real>, groundSpeedKts: Option<real>, trackDeg: Option<real>, verticalRateFpm: Option<real>)

  datatype Snapshot = Snapshot(
    altitudeFt: Option<real>, headingDeg: Option<real>, groundSpeedKts: Option<real>, verticalRateFpm: Option<real>)
  {
    predicate HasData() {
      altitudeFt.Some? || headingDeg.Some? || groundSpeedKts.Some? || verticalRateFpm.Some?
    }
  }

  datatype Entry = Entry(
    icaoHex: Hex,
    callsign: Option<string>, category: Option<string>, squawk: Option<string>, qnhHpa: Option<real>,
    firstSeen: int, lastSeen: int,
    positionCount: nat, lastSeenPos: Option<real>,
    initialMessages: real, currentMessages: real,
    maxRangeNm: Option<real>,
    initial: Snapshot, final: Snapshot,
    track: seq<PositionReport>)

  /** Reports of one aircraft, as held under one key of a map or telemetry object. */
  datatype Row = Row(hex: Hex, reports: seq<PositionReport>)

  /** Distance from the receiver; the trigonometry itself is not interpreted. */
  type Range = (real, real) -> real

  const DEPARTURE_THRESHOLD_MS: int := 60_000

  /** Milliseconds of a Date built from an epoch in seconds: fractions are cut toward zero. */
  function DateMs(epoch: real): int {
    var ms := epoch * 1000.0;
    if ms >= 0.0 then ms.Floor else -((-ms).Floor)
  }

  lemma DateMsMonotone(a: real, b: real)
    requires a <= b
    ensures DateMs(a) <= DateMs(b)
  {
    var x, y := a * 1000.0, b * 1000.0;
    assert x <= y;
    if x >= 0.0 {
      assert x.Floor as real <= y;
    } else if y < 0.0 {
      assert (-y).Floor as real <= -x;
    }
  }

  /** The milliseconds of an instant given in seconds, with any fraction cut off. */
  predicate IsMillis(ms: int, epoch: real) {
    var exact := epoch * 1000.0;
    if exact >= 0.0 then ms as real <= exact < ms as real + 1.0
    else ms as real - 1.0 < exact <= ms as real
  }

  lemma DateIsCut(ms: int, epoch: real)
    ensures ms == DateMs(epoch) <==> IsMillis(ms, epoch)
  {
    var exact := epoch * 1000.0;
    if exact < 0.0 {
      assert -exact == (-exact).Floor as real || (-exact).Floor as real < -exact < (-exact).Floor as real + 1.0;
    }
  }

  // ---- one observation ----

  predicate Located(ac: Observation) { ac.lat.Some? && ac.lon.Some? }

  predicate Positioned(ac: Observation) { Located(ac) && ac.seenPos.Some? }

  function AltitudeFt(ac: Observation): Option<real> {
    match ac.altBaro
    case Some(Feet(ft)) => Some(ft)
    case _ => None
  }

  function BuildSnapshot(ac: Observation): Snapshot {
    Snapshot(AltitudeFt(ac), ac.track, ac.gs, ac.baroRate)
  }

  function BuildReport(ac: Observation, epoch: real): PositionReport
    requires Positioned(ac)
  {
    PositionReport(ac.lat.value, ac.lon.value, DateMs(epoch - ac.seenPos.value), ac.source,
                   AltitudeFt(ac), ac.gs, ac.track, ac.baroRate)
  }

  /** A string field overwrites only when it is present and not empty. */
  function NonEmpty(s: Option<string>): Option<string> {
    if s.Some? && s.value != "" then s else None
  }

  function Callsign(ac: Observation): Option<string> {
    match ac.flight
    case Some(f) => NonEmpty(Some(Trim(f)))
    case None => None
  }

  function Latest<T>(newer: Option<T>, older: Option<T>): Option<T> {
    if newer.Some? then newer else older
  }

  predicate IsNewFix(lastSeenPos: Option<real>, ac: Observation) {
    Positioned(ac) && (lastSeenPos.None? || ac.seenPos.value < lastSeenPos.value)
  }

  function WiderRange(maxRangeNm: Option<real>, ac: Observation, range: Range): Option<real> {
    if !Located(ac) then maxRangeNm
    else
      var r := range(ac.lat.value, ac.lon.value);
      if maxRangeNm.None? || r > maxRangeNm.value then Some(r) else maxRangeNm
  }

  function Open(ac: Observation, epoch: real, range: Range): Entry {
    Entry(ac.icaoHex, Callsign(ac), NonEmpty(ac.category), NonEmpty(ac.squawk), ac.navQnh,
          DateMs(epoch), DateMs(epoch),
          if Positioned(ac) then 1 else 0,
          if Positioned(ac) then ac.seenPos else None,
          ac.messages, ac.messages,
          if Located(ac) then Some(range(ac.lat.value, ac.lon.value)) else None,
          BuildSnapshot(ac), BuildSnapshot(ac),
          if Positioned(ac) then [BuildReport(ac, epoch)] else [])
  }

  function Absorb(e: Entry, ac: Observation, epoch: real, range: Range): Entry {
    var snap := BuildSnapshot(ac);
    var fix := IsNewFix(e.lastSeenPos, ac);
    e.(lastSeen := DateMs(epoch),
       callsign := Latest(Callsign(ac), e.callsign),
       currentMessages := ac.messages,
       category := Latest(NonEmpty(ac.category), e.category),
       squawk := Latest(NonEmpty(ac.squawk), e.squawk),
       qnhHpa := Latest(ac.navQnh, e.qnhHpa),
       initial := if snap.HasData() && !e.initial.HasData() then snap else e.initial,
       final := if snap.HasData() then snap else e.final,
       positionCount := if fix then e.positionCount + 1 else e.positionCount,
       lastSeenPos := if fix then ac.seenPos else e.lastSeenPos,
       track := if fix then e.track + [BuildReport(ac, epoch)] else e.track,
       maxRangeNm := WiderRange(e.maxRangeNm, ac, range))
  }

  // ---- what a report, a snapshot and a callsign say of the observation ----

  /** An altitude is given exactly when the observation has a numeric one. */
  predicate IsAltitude(altitudeFt: Option<real>, ac: Observation) {
    if ac.altBaro.Some? && ac.altBaro.value.Feet? then altitudeFt == Some(ac.altBaro.value.ft) else altitudeFt == None
  }

  /** The report is the position of the observation, at the time of its fix. */
  predicate Describes(r: PositionReport, ac: Observation, epoch: real) {
    && ac.lat == Some(r.latitude) && ac.lon == Some(r.longitude)
    && ac.seenPos.Some? && IsMillis(r.timestamp, epoch - ac.seenPos.value)
    && r.source == ac.source && IsAltitude(r.altitudeFt, ac)
    && r.groundSpeedKts == ac.gs && r.trackDeg == ac.track && r.verticalRateFpm == ac.baroRate
  }

  lemma ReportDescribes(ac: Observation, epoch: real)
    requires Positioned(ac)
    ensures Describes(BuildReport(ac, epoch), ac, epoch)
  {
    DateIsCut(DateMs(epoch - ac.seenPos.value), epoch - ac.seenPos.value);
  }

  predicate AllSpace(s: string) {
    forall i :: 0 <= i < |s| ==> IsSpace(s[i])
  }

  /** v is s without the white space around it. */
  ghost predicate IsTrimOf(v: string, s: string) {
    && (v != "" ==> !IsSpace(v[0]) && !IsSpace(v[|v| - 1]))
    && exists lead, tail :: s == lead + v + tail && AllSpace(lead) && AllSpace(tail)
  }

  lemma {:induction false} TrimStartSplits(s: string) returns (lead: string)
    ensures s == lead + TrimStart(s) && AllSpace(lead)
    ensures TrimStart(s) != "" ==> !IsSpace(TrimStart(s)[0])
  {
    lead := "";
    if s != "" && IsSpace(s[0]) {
      lead := TrimStartSplits(s[1..]);
      lead := [s[0]] + lead;
    }
  }

  lemma OneMoreSpace(s: string, front: string, spaces: string)
    requires s != "" && s[..|s| - 1] == front + spaces && AllSpace(spaces) && IsSpace(s[|s| - 1])
    ensures s == front + (spaces + [s[|s| - 1]]) && AllSpace(spaces + [s[|s| - 1]])
  {
    assert s == s[..|s| - 1] + [s[|s| - 1]];
  }

  lemma {:induction false} TrimEndSplits(s: string) returns (tail: string)
    ensures s == TrimEnd(s) + tail && AllSpace(tail)
    ensures TrimEnd(s) != "" ==> !IsSpace(TrimEnd(s)[|TrimEnd(s)| - 1]) && TrimEnd(s)[0] == s[0]
  {
    tail := "";
    if s != "" && IsSpace(s[|s| - 1]) {
      var before := TrimEndSplits(s[..|s| - 1]);
      OneMoreSpace(s, TrimEnd(s), before);
      tail := before + [s[|s| - 1]];
    }
  }

  lemma TrimIsTrim(s: string)
    ensures IsTrimOf(Trim(s), s)
  {
    var lead := TrimStartSplits(s);
    var tail := TrimEndSplits(TrimStart(s));
    assert s == lead + Trim(s) + tail;
  }

  /** The callsign of an observation is its flight without the white space around it, unless nothing is left. */
  lemma CallsignIsTrimmed(ac: Observation)
    ensures Callsign(ac).Some? ==>
              ac.flight.Some? && Callsign(ac).value != "" && IsTrimOf(Callsign(ac).value, ac.flight.value)
    ensures Callsign(ac).None? ==> ac.flight.None? || AllSpace(ac.flight.value)
  {
    if ac.flight.Some? {
      TrimIsTrim(ac.flight.value);
    }
  }

  // ---- rows of reports keyed by aircraft ----

  predicate HasRow(rows: seq<Row>, hex: Hex) {
    exists i :: 0 <= i < |rows| && rows[i].hex == hex
  }

  function Get(rows: seq<Row>, hex: Hex): seq<PositionReport> {
    if rows == [] then [] else if rows[0].hex == hex then rows[0].reports else Get(rows[1..], hex)
  }

  /** Appends a report to the row of `hex`, which a Map creates at the end. */
  function Push(rows: seq<Row>, hex: Hex, r: PositionReport): seq<Row> {
    if rows == [] then [Row(hex, [r])]
    else if rows[0].hex == hex then [rows[0].(reports := rows[0].reports + [r])] + rows[1..]
    else [rows[0]] + Push(rows[1..], hex, r)
  }

  // ---- one update cycle ----

  /** A JavaScript Map: keys in insertion order, and the value under each key. */
  datatype State = State(order: seq<Hex>, entries: map<Hex, Entry>) {
    ghost predicate Wf() {
      && (forall i, j :: 0 <= i < j < |order| ==> order[i] != order[j])
      && (forall h :: h in order <==> h in entries)
      && (forall h :: h in entries ==> entries[h].icaoHex == h)
    }
  }

  const EMPTY := State([], map[])

  datatype Cycle = Cycle(state: State, positions: seq<Row>)

  function AbsorbOne(c: Cycle, ac: Observation, epoch: real, range: Range): Cycle {
    var hex := ac.icaoHex;
    if hex in c.state.entries then
      var e := c.state.entries[hex];
      Cycle(c.state.(entries := c.state.entries[hex := Absorb(e, ac, epoch, range)]),
            if IsNewFix(e.lastSeenPos, ac) then Push(c.positions, hex, BuildReport(ac, epoch)) else c.positions)
    else
      Cycle(State(c.state.order + [hex], c.state.entries[hex := Open(ac, epoch, range)]),
            if Positioned(ac) then Push(c.positions, hex, BuildReport(ac, epoch)) else c.positions)
  }

  function AbsorbAll(s: State, aircraft: seq<Observation>, epoch: real, range: Range): Cycle {
    if aircraft == [] then Cycle(s, [])
    else AbsorbOne(AbsorbAll(s, aircraft[..|aircraft| - 1], epoch, range), aircraft[|aircraft| - 1], epoch, range)
  }

  function Mentioned(aircraft: seq<Observation>): set<Hex> {
    set ac | ac in aircraft :: ac.icaoHex
  }

  predicate IsOverdue(e: Entry, now: int) {
    now - e.lastSeen >= DEPARTURE_THRESHOLD_MS
  }

  predicate Departs(s: State, mentioned: set<Hex>, now: int, hex: Hex) {
    hex in s.entries && hex !in mentioned && IsOverdue(s.entries[hex], now)
  }

  function Departing(s: State, order: seq<Hex>, mentioned: set<Hex>, now: int): seq<Entry> {
    if order == [] then []
    else
      var rest := Departing(s, order[..|order| - 1], mentioned, now);
      var hex := order[|order| - 1];
      if Departs(s, mentioned, now, hex) then rest + [s.entries[hex]] else rest
  }

  function Staying(s: State, order: seq<Hex>, mentioned: set<Hex>, now: int): seq<Hex> {
    if order == [] then []
    else
      var rest := Staying(s, order[..|order| - 1], mentioned, now);
      var hex := order[|order| - 1];
      if Departs(s, mentioned, now, hex) then rest else rest + [hex]
  }

  datatype Outcome = Outcome(state: State, departed: seq<Entry>, positions: seq<Row>)

  function Remove(s: State, mentioned: set<Hex>, now: int): State {
    State(Staying(s, s.order, mentioned, now),
          map h | h in s.entries && !Departs(s, mentioned, now, h) :: s.entries[h])
  }

  function Update(s: State, aircraft: seq<Observation>, epoch: real, range: Range): Outcome {
    var c := AbsorbAll(s, aircraft, epoch, range);
    var m := Mentioned(aircraft);
    var now := DateMs(epoch);
    Outcome(Remove(c.state, m, now), Departing(c.state, c.state.order, m, now), c.positions)
  }

  /** The widest range among tracked aircraft, or zero. */
  ghost predicate IsMaxRange(s: State, r: real) {
    && r >= 0.0
    && (forall hex :: hex in s.entries && s.entries[hex].maxRangeNm.Some? ==> s.entries[hex].maxRangeNm.value <= r)
    && (r == 0.0 || exists hex :: hex in s.entries && s.entries[hex].maxRangeNm == Some(r))
  }

  // ---- facts about rows ----

  predicate DistinctRows(rows: seq<Row>) {
    forall i, j :: 0 <= i < j < |rows| ==> rows[i].hex != rows[j].hex
  }

  lemma {:induction false} GetAbsent(rows: seq<Row>, hex: Hex)
    ensures !HasRow(rows, hex) ==> Get(rows, hex) == []
    ensures Get(rows, hex) != [] ==> HasRow(rows, hex)
  {
    if rows != [] && rows[0].hex != hex {
      GetAbsent(rows[1..], hex);
      if HasRow(rows[1..], hex) {
        var i :| 0 <= i < |rows[1..]| && rows[1..][i].hex == hex;
        assert rows[i + 1].hex == hex;
      }
    }
  }

  lemma {:induction false} PushGet(rows: seq<Row>, hex: Hex, r: PositionReport, h: Hex)
    ensures Get(Push(rows, hex, r), h) == Get(rows, h) + (if h == hex then [r] else [])
  {
    if rows != [] && rows[0].hex != hex {
      PushGet(rows[1..], hex, r, h);
      assert Push(rows, hex, r)[1..] == Push(rows[1..], hex, r);
    } else if rows != [] {
      assert Push(rows, hex, r)[1..] == rows[1..];
    } else if h != hex {
      assert Push(rows, hex, r)[1..] == [];
    }
  }

  lemma {:induction false} PushKeys(rows: seq<Row>, hex: Hex, r: PositionReport)
    ensures |rows| <= |Push(rows, hex, r)| <= |rows| + 1
    ensures forall i :: 0 <= i < |rows| ==> Push(rows, hex, r)[i].hex == rows[i].hex
    ensures |Push(rows, hex, r)| == |rows| + 1 <==> !HasRow(rows, hex)
    ensures |Push(rows, hex, r)| == |rows| + 1 ==> Push(rows, hex, r)[|rows|].hex == hex
  {
    if rows != [] && rows[0].hex != hex {
      PushKeys(rows[1..], hex, r);
      assert HasRow(rows, hex) <==> HasRow(rows[1..], hex) by {
        if HasRow(rows, hex) {
          var i :| 0 <= i < |rows| && rows[i].hex == hex;
          assert rows[1..][i - 1].hex == hex;
        }
        if HasRow(rows[1..], hex) {
          var i :| 0 <= i < |rows[1..]| && rows[1..][i].hex == hex;
          assert rows[i + 1].hex == hex;
        }
      }
    } else if rows != [] {
      assert rows[0].hex == hex;
    }
  }

  lemma PushDistinct(rows: seq<Row>, hex: Hex, r: PositionReport)
    requires DistinctRows(rows)
    ensures DistinctRows(Push(rows, hex, r))
  {
    PushKeys(rows, hex, r);
    var u := Push(rows, hex, r);
    forall i, j | 0 <= i < j < |u| ensures u[i].hex != u[j].hex {
      assert u[i].hex == rows[i].hex;
      if j == |rows| { assert rows[i].hex != hex; }
    }
  }

  // ---- facts about one cycle ----

  lemma AbsorbOneWf(c: Cycle, ac: Observation, epoch: real, range: Range)
    requires c.state.Wf()
    ensures AbsorbOne(c, ac, epoch, range).state.Wf()
  {
    var s := c.state;
    var s' := AbsorbOne(c, ac, epoch, range).state;
    forall h ensures h in s'.order <==> h in s'.entries {
      assert h in s.order <==> h in s.entries;
    }
  }

  lemma {:induction false} AbsorbAllWf(s: State, aircraft: seq<Observation>, epoch: real, range: Range)
    requires s.Wf()
    ensures AbsorbAll(s, aircraft, epoch, range).state.Wf()
  {
    if aircraft != [] {
      AbsorbAllWf(s, aircraft[..|aircraft| - 1], epoch, range);
      AbsorbOneWf(AbsorbAll(s, aircraft[..|aircraft| - 1], epoch, range), aircraft[|aircraft| - 1], epoch, range);
    }
  }

  lemma {:induction false} StayingKeys(s: State, order: seq<Hex>, m: set<Hex>, now: int)
    requires forall i, j :: 0 <= i < j < |order| ==> order[i] != order[j]
    ensures var r := Staying(s, order, m, now);
      && (forall h :: h in r <==> h in order && !Departs(s, m, now, h))
      && (forall i, j :: 0 <= i < j < |r| ==> r[i] != r[j])
  {
    if order != [] {
      var n := |order| - 1;
      StayingKeys(s, order[..n], m, now);
      forall h ensures h in Staying(s, order, m, now) <==> h in order && !Departs(s, m, now, h) {
        assert order == order[..n] + [order[n]];
      }
    }
  }

  lemma RemoveWf(s: State, m: set<Hex>, now: int)
    requires s.Wf()
    ensures Remove(s, m, now).Wf()
  {
    StayingKeys(s, s.order, m, now);
  }

  lemma UpdateWf(s: State, aircraft: seq<Observation>, epoch: real, range: Range)
    requires s.Wf()
    ensures Update(s, aircraft, epoch, range).state.Wf()
  {
    AbsorbAllWf(s, aircraft, epoch, range);
    RemoveWf(AbsorbAll(s, aircraft, epoch, range).state, Mentioned(aircraft), DateMs(epoch));
  }

  /** The departed list: exactly the overdue absent aircraft, each once. */
  ghost predicate IsDepartedList(s: State, order: seq<Hex>, m: set<Hex>, now: int, d: seq<Entry>) {
    && (forall i :: 0 <= i < |d| ==>
          && d[i].icaoHex in order
          && Departs(s, m, now, d[i].icaoHex)
          && d[i] == s.entries[d[i].icaoHex])
    && (forall h :: h in order && Departs(s, m, now, h) ==> exists i :: 0 <= i < |d| && d[i].icaoHex == h)
    && (forall i, j :: 0 <= i < j < |d| ==> d[i].icaoHex != d[j].icaoHex)
  }

  lemma {:induction false} DepartingEntries(s: State, order: seq<Hex>, m: set<Hex>, now: int)
    requires forall i, j :: 0 <= i < j < |order| ==> order[i] != order[j]
    requires forall h :: h in s.entries ==> s.entries[h].icaoHex == h
    ensures IsDepartedList(s, order, m, now, Departing(s, order, m, now))
  {
    if order != [] {
      var n := |order| - 1;
      var hex := order[n];
      DepartingEntries(s, order[..n], m, now);
      var d, d0 := Departing(s, order, m, now), Departing(s, order[..n], m, now);
      assert hex !in order[..n];
      forall i | 0 <= i < |d0|
        ensures d[i] == d0[i] && d[i].icaoHex in order && d[i].icaoHex != hex
      {
        assert d0[i].icaoHex in order[..n];
      }
      forall h | h in order && Departs(s, m, now, h) ensures exists i :: 0 <= i < |d| && d[i].icaoHex == h {
        if h == hex {
          assert d[|d| - 1].icaoHex == h;
        } else {
          assert h in order[..n];
          var i :| 0 <= i < |d0| && d0[i].icaoHex == h;
          assert d[i].icaoHex == h;
        }
      }
    }
  }
}
