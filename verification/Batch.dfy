/**
 Batch windows: the telemetry object that collects the positions of one window, the
 sighting record built from it, and the split of an oversized window into chunks.
 */
module Batch {
  import opened Wrappers
  import opened Tracker
  import Beast

  /** A JavaScript object keyed by aircraft: its rows in the order Object.keys lists them. */
  type Telemetry = seq<Row>

  // ---- the order of property keys ----

  predicate IsDigits(s: string) {
    forall i :: 0 <= i < |s| ==> '0' <= s[i] <= '9'
  }

  function DecimalValue(s: string): nat
    requires IsDigits(s)
  {
    if s == "" then 0 else 10 * DecimalValue(s[..|s| - 1]) + (s[|s| - 1] - '0') as nat
  }

  /** Keys that are canonical array indices come first, in numeric order; a hex code of plain digits is one. */
  predicate IsArrayIndex(s: string) {
    s != "" && IsDigits(s) && (s[0] != '0' || |s| == 1) && DecimalValue(s) < 0xFFFF_FFFF
  }

  predicate Precedes(a: Hex, b: Hex) {
    IsArrayIndex(a) && (!IsArrayIndex(b) || DecimalValue(a) < DecimalValue(b))
  }

  ghost predicate KeyOrdered(t: Telemetry) {
    forall i, j :: 0 <= i < j < |t| ==> t[i].hex != t[j].hex && !Precedes(t[j].hex, t[i].hex)
  }

  /** Where a new key lands. */
  function Slot(t: Telemetry, hex: Hex): (k: nat)
    ensures k <= |t|
    ensures forall i :: 0 <= i < k ==> !Precedes(hex, t[i].hex)
    ensures k < |t| ==> Precedes(hex, t[k].hex)
  {
    if t == [] || Precedes(hex, t[0].hex) then 0 else 1 + Slot(t[1..], hex)
  }

  function InsertRow(t: Telemetry, row: Row): Telemetry {
    var k := Slot(t, row.hex);
    t[..k] + [row] + t[k..]
  }

  function AddPosition(t: Telemetry, hex: Hex, r: PositionReport): Telemetry {
    if HasRow(t, hex) then Push(t, hex, r) else InsertRow(t, Row(hex, [r]))
  }

  lemma InsertKeepsOrder(t: Telemetry, row: Row)
    requires KeyOrdered(t) && !HasRow(t, row.hex)
    ensures KeyOrdered(InsertRow(t, row))
  {
    var k := Slot(t, row.hex);
    var u := InsertRow(t, row);
    forall j | k <= j < |t| ensures !Precedes(t[j].hex, row.hex) {
      assert j > k ==> !Precedes(t[j].hex, t[k].hex);
    }
    forall i, j | 0 <= i < j < |u| ensures u[i].hex != u[j].hex && !Precedes(u[j].hex, u[i].hex) {
      var i', j' := if i < k then i else i - 1, if j < k then j else j - 1;
      if i != k && j != k {
        assert u[i] == t[i'] && u[j] == t[j'];
      }
    }
  }

  lemma AddKeepsOrder(t: Telemetry, hex: Hex, r: PositionReport)
    requires KeyOrdered(t)
    ensures KeyOrdered(AddPosition(t, hex, r))
  {
    if HasRow(t, hex) {
      PushKeys(t, hex, r);
    } else {
      InsertKeepsOrder(t, Row(hex, [r]));
    }
  }

  lemma {:induction false} GetConcat(a: seq<Row>, b: seq<Row>, hex: Hex)
    ensures Get(a + b, hex) == if HasRow(a, hex) then Get(a, hex) else Get(b, hex)
    ensures HasRow(a + b, hex) <==> HasRow(a, hex) || HasRow(b, hex)
  {
    assert HasRow(a + b, hex) <==> HasRow(a, hex) || HasRow(b, hex) by {
      if i :| 0 <= i < |a + b| && (a + b)[i].hex == hex {
        assert i < |a| ==> a[i].hex == hex;
        assert i >= |a| ==> b[i - |a|].hex == hex;
      }
      if i :| 0 <= i < |a| && a[i].hex == hex {
        assert (a + b)[i].hex == hex;
      }
      if i :| 0 <= i < |b| && b[i].hex == hex {
        assert (a + b)[|a| + i].hex == hex;
      }
    }
    if a == [] {
      assert a + b == b;
    } else {
      assert (a + b)[1..] == a[1..] + b;
      if a[0].hex != hex {
        GetConcat(a[1..], b, hex);
        if i :| 0 <= i < |a| && a[i].hex == hex {
          assert a[1..][i - 1].hex == hex;
        }
        if i :| 0 <= i < |a[1..]| && a[1..][i].hex == hex {
          assert a[i + 1].hex == hex;
        }
      }
    }
  }

  /** Adding a report extends its own aircraft's list and leaves every other one alone. */
  lemma AddGet(t: Telemetry, hex: Hex, r: PositionReport, h: Hex)
    ensures Get(AddPosition(t, hex, r), h) == Get(t, h) + (if h == hex then [r] else [])
    ensures HasRow(AddPosition(t, hex, r), h) <==> HasRow(t, h) || h == hex
  {
    if HasRow(t, hex) {
      PushGet(t, hex, r, h);
      PushKeys(t, hex, r);
      var u := Push(t, hex, r);
      assert |u| == |t|;
      assert forall i :: 0 <= i < |t| ==> u[i].hex == t[i].hex;
      if i :| 0 <= i < |t| && t[i].hex == h { assert u[i].hex == h; }
      if i :| 0 <= i < |u| && u[i].hex == h { assert t[i].hex == h; }
    } else {
      var k := Slot(t, hex);
      var row := Row(hex, [r]);
      GetAbsent(t, hex);
      assert t == t[..k] + t[k..];
      GetConcat(t[..k], t[k..], h);
      GetConcat(t[..k] + [row], t[k..], h);
      GetConcat(t[..k], [row], h);
      assert [row][0].hex == hex && [row][1..] == [];
    }
  }

  // ---- the window ----

  /** One position as it reaches the batch window. */
  datatype Arrival = Arrival(hex: Hex, report: PositionReport)

  /** What a window holds after these arrivals. */
  function Accumulate(arrivals: seq<Arrival>): Telemetry {
    if arrivals == [] then []
    else
      var n := |arrivals| - 1;
      AddPosition(Accumulate(arrivals[..n]), arrivals[n].hex, arrivals[n].report)
  }

  function ReportsOf(arrivals: seq<Arrival>, hex: Hex): seq<PositionReport> {
    if arrivals == [] then []
    else
      var n := |arrivals| - 1;
      ReportsOf(arrivals[..n], hex) + (if arrivals[n].hex == hex then [arrivals[n].report] else [])
  }

  /** A window keeps every arrival, in arrival order under its aircraft. */
  lemma {:induction false} WindowKeepsArrivals(arrivals: seq<Arrival>, hex: Hex)
    ensures KeyOrdered(Accumulate(arrivals))
    ensures Get(Accumulate(arrivals), hex) == ReportsOf(arrivals, hex)
    ensures HasRow(Accumulate(arrivals), hex) <==> ReportsOf(arrivals, hex) != []
  {
    if arrivals != [] {
      var n := |arrivals| - 1;
      WindowKeepsArrivals(arrivals[..n], hex);
      AddKeepsOrder(Accumulate(arrivals[..n]), arrivals[n].hex, arrivals[n].report);
      AddGet(Accumulate(arrivals[..n]), arrivals[n].hex, arrivals[n].report, hex);
    }
  }

  function Arrivals(rows: seq<Row>): seq<Arrival> {
    if rows == [] then []
    else Arrivals(rows[..|rows| - 1]) + RowArrivals(rows[|rows| - 1])
  }

  function RowArrivals(row: Row): seq<Arrival> {
    seq(|row.reports|, i requires 0 <= i < |row.reports| => Arrival(row.hex, row.reports[i]))
  }

  lemma {:induction false} ReportsOfConcat(a: seq<Arrival>, b: seq<Arrival>, hex: Hex)
    ensures ReportsOf(a + b, hex) == ReportsOf(a, hex) + ReportsOf(b, hex)
  {
    if b == [] {
      assert a + b == a;
    } else {
      var n := |b| - 1;
      ReportsOfConcat(a, b[..n], hex);
      assert (a + b)[..|a + b| - 1] == a + b[..n];
    }
  }

  lemma {:induction false} ReportsOfRow(row: Row, k: nat, hex: Hex)
    requires k <= |row.reports|
    ensures ReportsOf(RowArrivals(row)[..k], hex) == if row.hex == hex then row.reports[..k] else []
  {
    if k > 0 {
      ReportsOfRow(row, k - 1, hex);
      assert RowArrivals(row)[..k][..k - 1] == RowArrivals(row)[..k - 1];
      assert row.reports[..k] == row.reports[..k - 1] + [row.reports[k - 1]];
    }
  }

  lemma LastRowGet(rows: seq<Row>, row: Row, hex: Hex)
    requires !HasRow(rows, row.hex)
    ensures Get(rows + [row], hex) == Get(rows, hex) + (if row.hex == hex then row.reports else [])
  {
    GetConcat(rows, [row], hex);
    GetAbsent(rows, hex);
    assert [row][0] == row && [row][1..] == [];
  }

  lemma LastRowReports(rows: seq<Row>, row: Row, hex: Hex)
    ensures ReportsOf(Arrivals(rows + [row]), hex)
         == ReportsOf(Arrivals(rows), hex) + (if row.hex == hex then row.reports else [])
  {
    assert (rows + [row])[..|rows|] == rows;
    ReportsOfConcat(Arrivals(rows), RowArrivals(row), hex);
    ReportsOfRow(row, |row.reports|, hex);
    assert RowArrivals(row)[..|row.reports|] == RowArrivals(row) && row.reports[..|row.reports|] == row.reports;
  }

  lemma {:induction false} ReportsOfArrivals(rows: seq<Row>, hex: Hex)
    requires DistinctRows(rows)
    ensures ReportsOf(Arrivals(rows), hex) == Get(rows, hex)
  {
    if rows != [] {
      var front, last := rows[..|rows| - 1], rows[|rows| - 1];
      ReportsOfArrivals(front, hex);
      LastRowReports(front, last, hex);
      LastRowGet(front, last, hex);
      assert rows == front + [last];
    }
  }

  // ---- the manifest ----

  function Keys(t: Telemetry): seq<Hex> {
    seq(|t|, i requires 0 <= i < |t| => t[i].hex)
  }

  ghost predicate AllDifferent(hexes: seq<Hex>) {
    forall i, j :: 0 <= i < j < |hexes| ==> hexes[i] != hexes[j]
  }

  /** The manifest names every aircraft of the window once, and no other. */
  lemma ManifestListsTheAircraft(t: Telemetry, hex: Hex)
    requires KeyOrdered(t)
    ensures AllDifferent(Keys(t)) && (hex in Keys(t) <==> HasRow(t, hex))
  {
    if i :| 0 <= i < |t| && t[i].hex == hex {
      assert Keys(t)[i] == hex;
    }
  }

  // ---- its sources ----

  /** The UTF-16 code units of a character: one, or a surrogate pair, the first unit of which no other has. */
  function Lead(c: char): nat {
    var n := c as nat;
    if n < 0x1_0000 then n else 0xD800 + (n - 0x1_0000) / 0x400
  }

  function Trail(c: char): nat {
    var n := c as nat;
    if n < 0x1_0000 then 0 else 0xDC00 + (n - 0x1_0000) % 0x400
  }

  function Units(s: string): seq<nat> {
    if s == "" then []
    else (if s[0] as nat < 0x1_0000 then [Lead(s[0])] else [Lead(s[0]), Trail(s[0])]) + Units(s[1..])
  }

  /** Lists of code units as JavaScript orders them: by the first that differs, and a prefix comes first. */
  predicate UnitsBefore(a: seq<nat>, b: seq<nat>) {
    b != [] && (a == [] || a[0] < b[0] || (a[0] == b[0] && UnitsBefore(a[1..], b[1..])))
  }

  predicate CharBefore(a: char, b: char) {
    Lead(a) < Lead(b) || (Lead(a) == Lead(b) && Trail(a) < Trail(b))
  }

  /** The order in which JavaScript sorts strings. */
  predicate Before(a: string, b: string) {
    b != "" && (a == "" || CharBefore(a[0], b[0]) || (a[0] == b[0] && Before(a[1..], b[1..])))
  }

  lemma CharsDiffer(a: char, b: char)
    ensures a == b <==> Lead(a) == Lead(b) && Trail(a) == Trail(b)
    ensures Lead(a) == Lead(b) ==> (a as nat < 0x1_0000 <==> b as nat < 0x1_0000)
  {
  }

  /** Comparing characters is comparing code units, also above the basic plane. */
  lemma {:induction false} BeforeIsByCodeUnit(a: string, b: string)
    ensures Before(a, b) <==> UnitsBefore(Units(a), Units(b))
  {
    if a != "" && b != "" {
      CharsDiffer(a[0], b[0]);
      BeforeIsByCodeUnit(a[1..], b[1..]);
      UnitsAhead(a);
      UnitsAhead(b);
    }
  }

  lemma UnitsAhead(s: string)
    requires s != ""
    ensures Units(s)[0] == Lead(s[0])
    ensures s[0] as nat < 0x1_0000 ==> Units(s)[1..] == Units(s[1..])
    ensures s[0] as nat >= 0x1_0000 ==>
              |Units(s)| > 1 && Units(s)[1] == Trail(s[0]) && Units(s)[1..][1..] == Units(s[1..])
  {
  }

  lemma {:induction false} BeforeIsTotal(a: string, b: string)
    ensures a != b ==> Before(a, b) || Before(b, a)
    ensures !(Before(a, b) && Before(b, a)) && (a == b ==> !Before(a, b))
  {
    if a != "" && b != "" {
      CharsDiffer(a[0], b[0]);
      BeforeIsTotal(a[1..], b[1..]);
      assert a == [a[0]] + a[1..] && b == [b[0]] + b[1..];
    }
  }

  lemma {:induction false} BeforeIsTransitive(a: string, b: string, c: string)
    requires Before(a, b) && Before(b, c)
    ensures Before(a, c)
  {
    if a != "" && a[0] == b[0] == c[0] {
      BeforeIsTransitive(a[1..], b[1..], c[1..]);
    }
  }

  ghost predicate Ascending(list: seq<string>) {
    forall i, j :: 0 <= i < j < |list| ==> Before(list[i], list[j])
  }

  function InsertSource(list: seq<string>, s: string): seq<string> {
    if list == [] then [s]
    else if s == list[0] then list
    else if Before(s, list[0]) then [s] + list
    else [list[0]] + InsertSource(list[1..], s)
  }

  lemma {:induction false} InsertSourceSorts(list: seq<string>, s: string)
    requires Ascending(list)
    ensures Ascending(InsertSource(list, s))
    ensures forall x :: x in InsertSource(list, s) <==> x in list || x == s
  {
    if list != [] && s != list[0] {
      BeforeIsTotal(s, list[0]);
      assert list == [list[0]] + list[1..];
      if Before(s, list[0]) {
        forall j | 0 <= j < |list| ensures Before(s, list[j]) {
          if j > 0 { BeforeIsTransitive(s, list[0], list[j]); }
        }
      } else {
        var rest := InsertSource(list[1..], s);
        InsertSourceSorts(list[1..], s);
        forall j | 0 <= j < |rest| ensures Before(list[0], rest[j]) {
          assert rest[j] in rest;
        }
      }
    }
  }

  function AddSources(list: seq<string>, reports: seq<PositionReport>): seq<string> {
    if reports == [] then list
    else InsertSource(AddSources(list, reports[..|reports| - 1]), reports[|reports| - 1].source)
  }

  /** The sources of a window in ascending order, each once. */
  function SourceList(t: Telemetry): seq<string> {
    if t == [] then [] else AddSources(SourceList(t[..|t| - 1]), t[|t| - 1].reports)
  }

  function Sources(t: Telemetry): set<string> {
    set row, r | row in t && r in row.reports :: r.source
  }

  lemma {:induction false} AddSourcesSorts(list: seq<string>, reports: seq<PositionReport>)
    requires Ascending(list)
    ensures Ascending(AddSources(list, reports))
    ensures forall x :: x in AddSources(list, reports) <==> x in list || x in (set r | r in reports :: r.source)
  {
    if reports != [] {
      var front, last := reports[..|reports| - 1], reports[|reports| - 1];
      AddSourcesSorts(list, front);
      InsertSourceSorts(AddSources(list, front), last.source);
      assert reports == front + [last];
    }
  }

  lemma {:induction false} SourceListSorts(t: Telemetry)
    ensures Ascending(SourceList(t)) && forall x :: x in SourceList(t) <==> x in Sources(t)
  {
    if t != [] {
      var front, last := t[..|t| - 1], t[|t| - 1];
      SourceListSorts(front);
      AddSourcesSorts(SourceList(front), last.reports);
      assert t == front + [last];
    }
  }

  /** A set of strings has one ascending list only. */
  lemma {:induction false} AscendingIsUnique(a: seq<string>, b: seq<string>)
    requires Ascending(a) && Ascending(b) && forall x :: x in a <==> x in b
    ensures a == b
  {
    if a == [] {
      FirstIsIn(b);
    } else {
      SameHead(a, b);
      NotInTail(a);
      NotInTail(b);
      forall x ensures x in a[1..] <==> x in b[1..] {
        assert x in a[1..] <==> x in [a[0]] + a[1..] && x != a[0];
        assert x in b[1..] <==> x in [b[0]] + b[1..] && x != b[0];
        assert a == [a[0]] + a[1..] && b == [b[0]] + b[1..];
      }
      AscendingIsUnique(a[1..], b[1..]);
      assert a == [a[0]] + a[1..] && b == [b[0]] + b[1..];
    }
  }

  lemma FirstIsIn(b: seq<string>)
    ensures b != [] ==> b[0] in b
  {
  }

  lemma NotInTail(a: seq<string>)
    requires a != [] && Ascending(a)
    ensures a[0] !in a[1..]
  {
    BeforeIsTotal(a[0], a[0]);
  }

  lemma SameHead(a: seq<string>, b: seq<string>)
    requires a != [] && Ascending(a) && Ascending(b) && forall x :: x in a <==> x in b
    ensures b != [] && a[0] == b[0]
  {
    assert a[0] in b && b[0] in a;
    BeforeIsTotal(a[0], b[0]);
  }

  /** The set the loops fill, spread into a list and sorted. */
  method CollectSources(t: Telemetry) returns (sources: seq<string>)
    ensures Ascending(sources)
    ensures forall x :: x in sources <==> exists row, r :: row in t && r in row.reports && r.source == x
    ensures sources == SourceList(t)
  {
    var sourceSet: set<string> := {};
    for i := 0 to |t|
      invariant sourceSet == Sources(t[..i])
    {
      var reports := t[i].reports;
      for j := 0 to |reports|
        invariant sourceSet == Sources(t[..i]) + set r | r in reports[..j] :: r.source
      {
        assert reports[..j + 1] == reports[..j] + [reports[j]];
        sourceSet := sourceSet + {reports[j].source};
      }
      assert reports[..|reports|] == reports && t[..i + 1] == t[..i] + [t[i]];
    }
    assert t[..|t|] == t;
    sources := Sort(sourceSet);
    SourceListSorts(t);
    AscendingIsUnique(sources, SourceList(t));
  }

  method Sort(sourceSet: set<string>) returns (list: seq<string>)
    ensures Ascending(list) && forall x :: x in list <==> x in sourceSet
  {
    list := [];
    var rest := sourceSet;
    while rest != {}
      invariant Ascending(list) && rest <= sourceSet
      invariant forall x :: x in list <==> x in sourceSet - rest
      decreases |rest|
    {
      var s :| s in rest;
      InsertSourceSorts(list, s);
      list, rest := InsertSource(list, s), rest - {s};
    }
  }

  // ---- the sighting record ----

  datatype SightingRecord = SightingRecord(
    windowStart: int, windowEnd: int, manifest: seq<Hex>, telemetry: Telemetry, sources: seq<string>,
    rawCapture: Option<Beast.Bytes>)

  /** None stands for null: a window without aircraft has no record. */
  function BuildBatchRecord(
    windowStart: int, windowEnd: int, t: Telemetry, sources: seq<string>, rawCapture: Option<Beast.Bytes>)
    : Option<SightingRecord>
  {
    if t == [] then None else Some(SightingRecord(windowStart, windowEnd, Keys(t), t, sources, rawCapture))
  }
}
