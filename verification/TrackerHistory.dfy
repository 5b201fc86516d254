/**
 What the tracker's incremental state means.  A session of an aircraft is the list of
 its observations since it was last absent for a minute; every live entry is a summary
 of its session, stated here without any running state.
 */
module TrackerHistory {
  import opened Wrappers
  import opened Tracker

  datatype Message = Message(aircraft: seq<Observation>, epoch: real)

  datatype Seen = Seen(ac: Observation, epoch: real)

  function Replay(hist: seq<Message>, range: Range): State {
    if hist == [] then EMPTY
    else
      var m := hist[|hist| - 1];
      Update(Replay(hist[..|hist| - 1], range), m.aircraft, m.epoch, range).state
  }

  /** The observations of `hex` inside one message, in order and with repetitions. */
  function Mentions(aircraft: seq<Observation>, epoch: real, hex: Hex): seq<Seen> {
    if aircraft == [] then []
    else
      var rest := Mentions(aircraft[..|aircraft| - 1], epoch, hex);
      var ac := aircraft[|aircraft| - 1];
      if ac.icaoHex == hex then rest + [Seen(ac, epoch)] else rest
  }

  function Session(hist: seq<Message>, hex: Hex): seq<Seen> {
    if hist == [] then []
    else
      var before := Session(hist[..|hist| - 1], hex);
      var m := hist[|hist| - 1];
      if hex in Mentioned(m.aircraft) then before + Mentions(m.aircraft, m.epoch, hex)
      else if before != [] && DateMs(m.epoch) - DateMs(before[|before| - 1].epoch) >= DEPARTURE_THRESHOLD_MS then []
      else before
  }

  // ---- the meaning of each field ----

  ghost predicate LastGiven<T(!new)>(s: seq<Seen>, f: Seen -> Option<T>, v: Option<T>) {
    match v
    case None => forall i :: 0 <= i < |s| ==> f(s[i]).None?
    case Some(_) => exists i :: 0 <= i < |s| && f(s[i]) == v && forall j :: i < j < |s| ==> f(s[j]).None?
  }

  ghost predicate FirstGiven<T(!new)>(s: seq<Seen>, f: Seen -> Option<T>, v: Option<T>) {
    match v
    case None => forall i :: 0 <= i < |s| ==> f(s[i]).None?
    case Some(_) => exists i :: 0 <= i < |s| && f(s[i]) == v && forall j :: 0 <= j < i ==> f(s[j]).None?
  }

  function CallsignGiven(x: Seen): Option<string> { Callsign(x.ac) }

  function CategoryGiven(x: Seen): Option<string> { if x.ac.category == Some("") then None else x.ac.category }

  function SquawkGiven(x: Seen): Option<string> { if x.ac.squawk == Some("") then None else x.ac.squawk }

  function QnhGiven(x: Seen): Option<real> { x.ac.navQnh }

  /** The state an observation gives, if it gives any: a numeric altitude, a track, a speed or a vertical rate. */
  function SnapshotGiven(x: Seen): Option<Snapshot> {
    var numeric := x.ac.altBaro.Some? && x.ac.altBaro.value.Feet?;
    if !numeric && x.ac.track.None? && x.ac.gs.None? && x.ac.baroRate.None? then None
    else Some(Snapshot(altitudeFt := if numeric then Some(x.ac.altBaro.value.ft) else None,
                       headingDeg := x.ac.track, groundSpeedKts := x.ac.gs, verticalRateFpm := x.ac.baroRate))
  }

  function DataOf(s: Snapshot): Option<Snapshot> {
    if s.HasData() then Some(s) else None
  }

  /** Observation i is a fix: positioned, and fresher than every earlier positioned one. */
  predicate IsFix(s: seq<Seen>, i: nat)
    requires i < |s|
  {
    && Positioned(s[i].ac)
    && forall j :: 0 <= j < i && Positioned(s[j].ac) ==> s[i].ac.seenPos.value < s[j].ac.seenPos.value
  }

  /** All fixes, in order. */
  function Fixes(s: seq<Seen>): seq<Seen> {
    if s == [] then []
    else
      var n := |s| - 1;
      Fixes(s[..n]) + (if IsFix(s, n) then [s[n]] else [])
  }

  /** The k-th report of the track describes the k-th fix, and there are no others. */
  ghost predicate TellsFixes(track: seq<PositionReport>, fixes: seq<Seen>) {
    && |track| == |fixes|
    && forall k :: 0 <= k < |fixes| ==> Describes(track[k], fixes[k].ac, fixes[k].epoch)
  }

  ghost predicate IsFreshest(s: seq<Seen>, v: Option<real>) {
    match v
    case None => forall i :: 0 <= i < |s| ==> !Positioned(s[i].ac)
    case Some(x) =>
      && (exists i :: 0 <= i < |s| && Positioned(s[i].ac) && s[i].ac.seenPos.value == x)
      && (forall i :: 0 <= i < |s| && Positioned(s[i].ac) ==> x <= s[i].ac.seenPos.value)
  }

  ghost predicate IsWidest(s: seq<Seen>, range: Range, v: Option<real>) {
    match v
    case None => forall i :: 0 <= i < |s| ==> !Located(s[i].ac)
    case Some(x) =>
      && (exists i :: 0 <= i < |s| && Located(s[i].ac) && range(s[i].ac.lat.value, s[i].ac.lon.value) == x)
      && (forall i :: 0 <= i < |s| && Located(s[i].ac) ==> range(s[i].ac.lat.value, s[i].ac.lon.value) <= x)
  }

  ghost predicate Summarises(e: Entry, hex: Hex, s: seq<Seen>, range: Range) {
    && s != []
    && e.icaoHex == hex
    && e.firstSeen == DateMs(s[0].epoch)
    && e.lastSeen == DateMs(s[|s| - 1].epoch)
    && e.initialMessages == s[0].ac.messages
    && e.currentMessages == s[|s| - 1].ac.messages
    && GivenFields(e, s)
    && IsFreshest(s, e.lastSeenPos)
    && IsWidest(s, range, e.maxRangeNm)
    && TellsFixes(e.track, Fixes(s))
    && e.positionCount == |e.track|
  }

  /** The latest callsign, category, squawk and pressure setting; the first and the latest snapshot with data. */
  ghost predicate GivenFields(e: Entry, s: seq<Seen>) {
    && LastGiven(s, CallsignGiven, e.callsign)
    && LastGiven(s, CategoryGiven, e.category)
    && LastGiven(s, SquawkGiven, e.squawk)
    && LastGiven(s, QnhGiven, e.qnhHpa)
    && FirstGiven(s, SnapshotGiven, DataOf(e.initial))
    && LastGiven(s, SnapshotGiven, DataOf(e.final))
  }

  // ---- one observation more ----

  lemma LastGivenSnoc<T(!new)>(s: seq<Seen>, f: Seen -> Option<T>, v: Option<T>, x: Seen)
    requires LastGiven(s, f, v)
    ensures LastGiven(s + [x], f, Latest(f(x), v))
  {
    var t := s + [x];
    if f(x).Some? {
      assert t[|s|] == x;
    } else if v.Some? {
      var i :| 0 <= i < |s| && f(s[i]) == v && forall j :: i < j < |s| ==> f(s[j]).None?;
      assert t[i] == s[i] && forall j :: i < j < |t| ==> f(t[j]).None?;
    }
  }

  lemma FirstGivenSnoc<T(!new)>(s: seq<Seen>, f: Seen -> Option<T>, v: Option<T>, x: Seen)
    requires FirstGiven(s, f, v)
    ensures FirstGiven(s + [x], f, Latest(v, f(x)))
  {
    var t := s + [x];
    if v.Some? {
      var i :| 0 <= i < |s| && f(s[i]) == v && forall j :: 0 <= j < i ==> f(s[j]).None?;
      assert t[i] == s[i] && forall j :: 0 <= j < i ==> f(t[j]).None?;
    } else if f(x).Some? {
      assert t[|s|] == x && forall j :: 0 <= j < |s| ==> f(t[j]).None?;
    }
  }

  lemma FreshestSnoc(s: seq<Seen>, v: Option<real>, x: Seen)
    requires IsFreshest(s, v)
    ensures IsFix(s + [x], |s|) <==> IsNewFix(v, x.ac)
    ensures IsFreshest(s + [x], if IsNewFix(v, x.ac) then x.ac.seenPos else v)
  {
    var t := s + [x];
    assert forall i :: 0 <= i < |s| ==> t[i] == s[i];
    assert t[|s|] == x;
    if v.Some? {
      var i :| 0 <= i < |s| && Positioned(s[i].ac) && s[i].ac.seenPos.value == v.value;
      assert t[i] == s[i];
    }
  }

  lemma WidestSnoc(s: seq<Seen>, range: Range, v: Option<real>, x: Seen)
    requires IsWidest(s, range, v)
    ensures IsWidest(s + [x], range, WiderRange(v, x.ac, range))
  {
    var t := s + [x];
    assert forall i :: 0 <= i < |s| ==> t[i] == s[i];
    assert t[|s|] == x;
    if v.Some? {
      var i :| 0 <= i < |s| && Located(s[i].ac) && range(s[i].ac.lat.value, s[i].ac.lon.value) == v.value;
      assert t[i] == s[i];
    }
  }

  lemma GivenOnce<T(!new)>(f: Seen -> Option<T>, x: Seen)
    ensures LastGiven([x], f, f(x)) && FirstGiven([x], f, f(x))
  {
    assert [x][0] == x;
  }

  lemma OpenGiven(ac: Observation, epoch: real, range: Range)
    ensures GivenFields(Open(ac, epoch, range), [Seen(ac, epoch)])
  {
    var x := Seen(ac, epoch);
    GivenOnce(CallsignGiven, x);
    GivenOnce(CategoryGiven, x);
    GivenOnce(SquawkGiven, x);
    GivenOnce(QnhGiven, x);
    GivenOnce(SnapshotGiven, x);
  }

  lemma FixesSnoc(s: seq<Seen>, x: Seen)
    ensures Fixes(s + [x]) == if IsFix(s + [x], |s|) then Fixes(s) + [x] else Fixes(s)
  {
    assert (s + [x])[..|s|] == s;
  }

  /** The track of a session with one observation more. */
  lemma TellsOneMore(track: seq<PositionReport>, s: seq<Seen>, x: Seen)
    requires TellsFixes(track, Fixes(s))
    ensures TellsFixes(if IsFix(s + [x], |s|) then track + [BuildReport(x.ac, x.epoch)] else track, Fixes(s + [x]))
  {
    FixesSnoc(s, x);
    if IsFix(s + [x], |s|) {
      ReportDescribes(x.ac, x.epoch);
    }
  }

  lemma OpenSummarises(ac: Observation, epoch: real, range: Range)
    ensures Summarises(Open(ac, epoch, range), ac.icaoHex, [Seen(ac, epoch)], range)
  {
    var x := Seen(ac, epoch);
    OpenGiven(ac, epoch, range);
    assert [x][0] == x && [] + [x] == [x];
    FreshestSnoc([], None, x);
    WidestSnoc([], range, None, x);
    TellsOneMore([], [], x);
  }

  lemma AbsorbGiven(e: Entry, s: seq<Seen>, ac: Observation, epoch: real, range: Range)
    requires GivenFields(e, s)
    ensures GivenFields(Absorb(e, ac, epoch, range), s + [Seen(ac, epoch)])
  {
    var x := Seen(ac, epoch);
    LastGivenSnoc(s, CallsignGiven, e.callsign, x);
    LastGivenSnoc(s, CategoryGiven, e.category, x);
    LastGivenSnoc(s, SquawkGiven, e.squawk, x);
    LastGivenSnoc(s, QnhGiven, e.qnhHpa, x);
    LastGivenSnoc(s, SnapshotGiven, DataOf(e.final), x);
    FirstGivenSnoc(s, SnapshotGiven, DataOf(e.initial), x);
  }

  lemma AbsorbSummarises(e: Entry, s: seq<Seen>, ac: Observation, epoch: real, range: Range)
    requires Summarises(e, ac.icaoHex, s, range)
    ensures Summarises(Absorb(e, ac, epoch, range), ac.icaoHex, s + [Seen(ac, epoch)], range)
  {
    var x := Seen(ac, epoch);
    AbsorbGiven(e, s, ac, epoch, range);
    FreshestSnoc(s, e.lastSeenPos, x);
    WidestSnoc(s, range, e.maxRangeNm, x);
    TellsOneMore(e.track, s, x);
  }

  // ---- whole runs ----

  /** `hex` is tracked exactly when its session is not empty, and its entry sums that session up. */
  ghost predicate Refines(st: State, hex: Hex, session: seq<Seen>, range: Range) {
    && (hex in st.entries <==> session != [])
    && (hex in st.entries ==> Summarises(st.entries[hex], hex, session, range))
  }

  lemma {:induction false} MentionsNonEmpty(aircraft: seq<Observation>, epoch: real, hex: Hex)
    ensures Mentions(aircraft, epoch, hex) != [] <==> hex in Mentioned(aircraft)
    ensures forall i :: 0 <= i < |Mentions(aircraft, epoch, hex)| ==> Mentions(aircraft, epoch, hex)[i].epoch == epoch
  {
    if aircraft != [] {
      var n := |aircraft| - 1;
      MentionsNonEmpty(aircraft[..n], epoch, hex);
      assert aircraft == aircraft[..n] + [aircraft[n]];
      assert hex in Mentioned(aircraft) <==> hex in Mentioned(aircraft[..n]) || aircraft[n].icaoHex == hex;
    }
  }

  lemma AbsorbOneRefines(c: Cycle, hex: Hex, s: seq<Seen>, ac: Observation, epoch: real, range: Range)
    requires Refines(c.state, hex, s, range)
    ensures Refines(AbsorbOne(c, ac, epoch, range).state, hex,
                    if ac.icaoHex == hex then s + [Seen(ac, epoch)] else s, range)
  {
    if ac.icaoHex == hex {
      if hex in c.state.entries {
        AbsorbSummarises(c.state.entries[hex], s, ac, epoch, range);
      } else {
        OpenSummarises(ac, epoch, range);
        assert s + [Seen(ac, epoch)] == [Seen(ac, epoch)];
      }
    }
  }

  lemma {:induction false} CycleRefines(st: State, hex: Hex, s: seq<Seen>,
                                        aircraft: seq<Observation>, epoch: real, range: Range)
    requires Refines(st, hex, s, range)
    ensures Refines(AbsorbAll(st, aircraft, epoch, range).state, hex, s + Mentions(aircraft, epoch, hex), range)
  {
    if aircraft == [] {
      assert s + [] == s;
    } else {
      var n := |aircraft| - 1;
      CycleRefines(st, hex, s, aircraft[..n], epoch, range);
      AbsorbOneRefines(AbsorbAll(st, aircraft[..n], epoch, range), hex,
                       s + Mentions(aircraft[..n], epoch, hex), aircraft[n], epoch, range);
      if aircraft[n].icaoHex == hex {
        assert s + Mentions(aircraft, epoch, hex)
            == s + Mentions(aircraft[..n], epoch, hex) + [Seen(aircraft[n], epoch)];
      }
    }
  }

  lemma {:induction false} ReplayWf(hist: seq<Message>, range: Range)
    ensures Replay(hist, range).Wf()
  {
    if hist != [] {
      var n := |hist| - 1;
      ReplayWf(hist[..n], range);
      UpdateWf(Replay(hist[..n], range), hist[n].aircraft, hist[n].epoch, range);
    }
  }

  lemma {:induction false} TrackerRefinesHistory(hist: seq<Message>, range: Range, hex: Hex)
    ensures Refines(Replay(hist, range), hex, Session(hist, hex), range)
  {
    if hist != [] {
      var n := |hist| - 1;
      var m := hist[n];
      TrackerRefinesHistory(hist[..n], range, hex);
      CycleRefines(Replay(hist[..n], range), hex, Session(hist[..n], hex), m.aircraft, m.epoch, range);
      MentionsNonEmpty(m.aircraft, m.epoch, hex);
      if hex !in Mentioned(m.aircraft) {
        assert Session(hist[..n], hex) + Mentions(m.aircraft, m.epoch, hex) == Session(hist[..n], hex);
      }
    }
  }

  /** Each update reports exactly the new fixes: old track, then this cycle's positions. */
  function TrackOf(s: State, hex: Hex): seq<PositionReport> {
    if hex in s.entries then s.entries[hex].track else []
  }

  /** What a cycle adds to the positions under an aircraft it adds to that aircraft's track. */
  lemma {:induction false} CyclePositions(st: State, aircraft: seq<Observation>, epoch: real, range: Range, h: Hex)
    ensures var c := AbsorbAll(st, aircraft, epoch, range);
      && (h in st.entries ==> h in c.state.entries)
      && TrackOf(c.state, h) == TrackOf(st, h) + Get(c.positions, h)
  {
    if aircraft == [] {
      assert TrackOf(st, h) + [] == TrackOf(st, h);
    } else {
      var n := |aircraft| - 1;
      CyclePositions(st, aircraft[..n], epoch, range, h);
      var c := AbsorbAll(st, aircraft[..n], epoch, range);
      var added := AbsorbOnePositions(c, aircraft[n], epoch, range, h);
      Associates(TrackOf(st, h), Get(c.positions, h), added);
    }
  }

  lemma Associates<T>(a: seq<T>, b: seq<T>, c: seq<T>)
    ensures a + (b + c) == (a + b) + c
  {
  }

  lemma AbsorbOnePositions(c: Cycle, ac: Observation, epoch: real, range: Range, h: Hex)
    returns (added: seq<PositionReport>)
    ensures var c' := AbsorbOne(c, ac, epoch, range);
      && (h in c.state.entries ==> h in c'.state.entries)
      && Get(c'.positions, h) == Get(c.positions, h) + added
      && TrackOf(c'.state, h) == TrackOf(c.state, h) + added
  {
    var c' := AbsorbOne(c, ac, epoch, range);
    var isFix := if ac.icaoHex in c.state.entries then IsNewFix(c.state.entries[ac.icaoHex].lastSeenPos, ac)
                 else Positioned(ac);
    added := if isFix && h == ac.icaoHex then [BuildReport(ac, epoch)] else [];
    if isFix {
      PushGet(c.positions, ac.icaoHex, BuildReport(ac, epoch), h);
    }
    assert Get(c'.positions, h) == Get(c.positions, h) + added;
  }

  // ---- departures ----

  ghost predicate NonDecreasing(hist: seq<Message>) {
    forall i, j :: 0 <= i <= j < |hist| ==> hist[i].epoch <= hist[j].epoch
  }

  ghost predicate IsLastMention(hist: seq<Message>, hex: Hex, t: int) {
    && (exists k :: 0 <= k < |hist| && hex in Mentioned(hist[k].aircraft) && DateMs(hist[k].epoch) == t)
    && (forall k :: 0 <= k < |hist| && hex in Mentioned(hist[k].aircraft) ==> DateMs(hist[k].epoch) <= t)
  }

  lemma {:induction false} SessionEndsAtLastMention(hist: seq<Message>, hex: Hex)
    requires NonDecreasing(hist) && Session(hist, hex) != []
    ensures IsLastMention(hist, hex, DateMs(Session(hist, hex)[|Session(hist, hex)| - 1].epoch))
  {
    var n := |hist| - 1;
    var m := hist[n];
    MentionsNonEmpty(m.aircraft, m.epoch, hex);
    if hex in Mentioned(m.aircraft) {
      forall k | 0 <= k < |hist| ensures DateMs(hist[k].epoch) <= DateMs(m.epoch) {
        DateMsMonotone(hist[k].epoch, m.epoch);
      }
    } else {
      SessionEndsAtLastMention(hist[..n], hex);
      LastMentionStays(hist, hex, DateMs(Session(hist, hex)[|Session(hist, hex)| - 1].epoch));
    }
  }

  lemma LastMentionStays(hist: seq<Message>, hex: Hex, t: int)
    requires hist != [] && hex !in Mentioned(hist[|hist| - 1].aircraft)
    requires IsLastMention(hist[..|hist| - 1], hex, t)
    ensures IsLastMention(hist, hex, t)
  {
    var front := hist[..|hist| - 1];
    var k :| 0 <= k < |front| && hex in Mentioned(front[k].aircraft) && DateMs(front[k].epoch) == t;
    assert hist[k] == front[k];
    forall k | 0 <= k < |hist| && hex in Mentioned(hist[k].aircraft) ensures DateMs(hist[k].epoch) <= t {
      assert front[k] == hist[k];
    }
  }

  lemma {:induction false} CycleKeepsUnmentioned(
    st: State, aircraft: seq<Observation>, epoch: real, range: Range, hex: Hex)
    requires hex !in Mentioned(aircraft)
    ensures var c := AbsorbAll(st, aircraft, epoch, range).state;
      (hex in c.entries <==> hex in st.entries) && (hex in st.entries ==> c.entries[hex] == st.entries[hex])
  {
    if aircraft != [] {
      var n := |aircraft| - 1;
      assert aircraft == aircraft[..n] + [aircraft[n]];
      CycleKeepsUnmentioned(st, aircraft[..n], epoch, range, hex);
    }
  }

  /** How often `hex` occurs in a departed list. */
  function Occurrences(departed: seq<Entry>, hex: Hex): nat {
    if departed == [] then 0
    else Occurrences(departed[1..], hex) + (if departed[0].icaoHex == hex then 1 else 0)
  }

  lemma {:induction false} OccursOnce(d: seq<Entry>, hex: Hex)
    requires forall i, j :: 0 <= i < j < |d| ==> d[i].icaoHex != d[j].icaoHex
    ensures Occurrences(d, hex) == (if exists i :: 0 <= i < |d| && d[i].icaoHex == hex then 1 else 0)
  {
    if d != [] {
      OccursOnce(d[1..], hex);
      if i :| 0 <= i < |d| && d[i].icaoHex == hex && i > 0 {
        assert d[1..][i - 1].icaoHex == hex;
      }
      if i :| 0 <= i < |d[1..]| && d[1..][i].icaoHex == hex {
        assert d[i + 1].icaoHex == hex;
      }
      assert d[0].icaoHex == hex ==> exists i :: 0 <= i < |d| && d[i].icaoHex == hex;
    }
  }

  /** An update removes and reports the overdue absent aircraft, each once, as it was left. */
  lemma UpdateDeparts(st: State, aircraft: seq<Observation>, epoch: real, range: Range, hex: Hex)
    requires st.Wf()
    ensures var o := Update(st, aircraft, epoch, range);
      && Occurrences(o.departed, hex) == (if Departs(st, Mentioned(aircraft), DateMs(epoch), hex) then 1 else 0)
      && (hex in o.state.entries <==>
            (hex in st.entries && !Departs(st, Mentioned(aircraft), DateMs(epoch), hex)) || hex in Mentioned(aircraft))
      && (forall i :: 0 <= i < |o.departed| ==>
            o.departed[i].icaoHex in st.entries && o.departed[i] == st.entries[o.departed[i].icaoHex])
  {
    var c := AbsorbAll(st, aircraft, epoch, range).state;
    var m, now := Mentioned(aircraft), DateMs(epoch);
    AbsorbAllWf(st, aircraft, epoch, range);
    DepartingEntries(c, c.order, m, now);
    var d := Departing(c, c.order, m, now);
    OccursOnce(d, hex);
    forall h | h !in m
      ensures (h in c.entries <==> h in st.entries) && (h in st.entries ==> c.entries[h] == st.entries[h])
    {
      CycleKeepsUnmentioned(st, aircraft, epoch, range, h);
    }
    if hex in m {
      CycleHasMentioned(st, aircraft, epoch, range, hex);
    }
  }

  lemma {:induction false} CycleHasMentioned(st: State, aircraft: seq<Observation>, epoch: real, range: Range, hex: Hex)
    requires hex in Mentioned(aircraft)
    ensures hex in AbsorbAll(st, aircraft, epoch, range).state.entries
  {
    var n := |aircraft| - 1;
    assert aircraft == aircraft[..n] + [aircraft[n]];
    if aircraft[n].icaoHex != hex {
      assert hex in Mentioned(aircraft[..n]);
      CycleHasMentioned(st, aircraft[..n], epoch, range, hex);
    }
  }

  /**
   With timestamps that never go back, an aircraft departs at a message exactly when it is
   tracked and every message that mentioned it, this one included, is a minute old; and the
   reported entry is the summary of its whole session.
   */
  lemma DepartureIsExact(hist: seq<Message>, m: Message, range: Range, hex: Hex)
    requires NonDecreasing(hist + [m])
    ensures var st := Replay(hist, range);
      var o := Update(st, m.aircraft, m.epoch, range);
      && Occurrences(o.departed, hex) <= 1
      && (Occurrences(o.departed, hex) == 1 <==>
            Session(hist, hex) != [] && MentionsAged(hist + [m], hex, DateMs(m.epoch)))
      && (forall i :: 0 <= i < |o.departed| && o.departed[i].icaoHex == hex ==>
            Summarises(o.departed[i], hex, Session(hist, hex), range))
  {
    var st := Replay(hist, range);
    ReplayWf(hist, range);
    UpdateDeparts(st, m.aircraft, m.epoch, range, hex);
    TrackerRefinesHistory(hist, range, hex);
    forall i, j | 0 <= i <= j < |hist| ensures hist[i].epoch <= hist[j].epoch {
      assert (hist + [m])[i] == hist[i] && (hist + [m])[j] == hist[j];
    }
    if Session(hist, hex) != [] {
      SessionEndsAtLastMention(hist, hex);
      LastMentionDecides(hist, m, hex, st.entries[hex].lastSeen);
    }
  }

  /** Every message that mentioned the aircraft is a minute old. */
  ghost predicate MentionsAged(hist: seq<Message>, hex: Hex, now: int) {
    forall k :: 0 <= k < |hist| && hex in Mentioned(hist[k].aircraft) ==>
      now - DateMs(hist[k].epoch) >= DEPARTURE_THRESHOLD_MS
  }

  lemma LastMentionDecides(hist: seq<Message>, m: Message, hex: Hex, t: int)
    requires IsLastMention(hist, hex, t)
    ensures MentionsAged(hist + [m], hex, DateMs(m.epoch)) <==>
              hex !in Mentioned(m.aircraft) && DateMs(m.epoch) - t >= DEPARTURE_THRESHOLD_MS
  {
    var all := hist + [m];
    assert all[|hist|] == m;
    var k :| 0 <= k < |hist| && hex in Mentioned(hist[k].aircraft) && DateMs(hist[k].epoch) == t;
    assert all[k] == hist[k];
  }

  /** After a message, every live aircraft it does not mention was seen less than a minute ago. */
  lemma NoStaleEntry(st: State, m: Message, range: Range, hex: Hex)
    requires hex in Update(st, m.aircraft, m.epoch, range).state.entries && hex !in Mentioned(m.aircraft)
    ensures DateMs(m.epoch) - Update(st, m.aircraft, m.epoch, range).state.entries[hex].lastSeen
              < DEPARTURE_THRESHOLD_MS
  {
  }

  /** Messages that open a session of `hex`: it had none and is mentioned. */
  function Opened(hist: seq<Message>, hex: Hex): nat {
    if hist == [] then 0
    else
      var n := |hist| - 1;
      Opened(hist[..n], hex) + (if Session(hist[..n], hex) == [] && hex in Mentioned(hist[n].aircraft) then 1 else 0)
  }

  function Departed(hist: seq<Message>, range: Range, hex: Hex): nat {
    if hist == [] then 0
    else
      var n := |hist| - 1;
      var o := Update(Replay(hist[..n], range), hist[n].aircraft, hist[n].epoch, range);
      Departed(hist[..n], range, hex) + Occurrences(o.departed, hex)
  }

  lemma {:induction false} SessionsAreConserved(hist: seq<Message>, range: Range, hex: Hex)
    ensures Opened(hist, hex)
         == Departed(hist, range, hex) + (if hex in Replay(hist, range).entries then 1 else 0)
  {
    if hist != [] {
      var n := |hist| - 1;
      SessionsAreConserved(hist[..n], range, hex);
      ReplayWf(hist[..n], range);
      TrackerRefinesHistory(hist[..n], range, hex);
      UpdateDeparts(Replay(hist[..n], range), hist[n].aircraft, hist[n].epoch, range, hex);
    }
  }

  // ---- the effect of one update on one aircraft ----

  lemma {:induction false} CycleEffect(st: State, aircraft: seq<Observation>, epoch: real, range: Range, hex: Hex)
    requires hex in Mentioned(aircraft)
    ensures var c := AbsorbAll(st, aircraft, epoch, range).state;
      && hex in c.entries
      && c.entries[hex].lastSeen == DateMs(epoch)
      && c.entries[hex].firstSeen == (if hex in st.entries then st.entries[hex].firstSeen else DateMs(epoch))
  {
    var n := |aircraft| - 1;
    assert aircraft == aircraft[..n] + [aircraft[n]];
    if hex in Mentioned(aircraft[..n]) {
      CycleEffect(st, aircraft[..n], epoch, range, hex);
    } else {
      CycleKeepsUnmentioned(st, aircraft[..n], epoch, range, hex);
    }
  }

  lemma {:induction false} CyclePositionsMentioned(
    st: State, aircraft: seq<Observation>, epoch: real, range: Range, hex: Hex)
    ensures DistinctRows(AbsorbAll(st, aircraft, epoch, range).positions)
    ensures Get(AbsorbAll(st, aircraft, epoch, range).positions, hex) != [] ==> hex in Mentioned(aircraft)
  {
    if aircraft != [] {
      var n := |aircraft| - 1;
      var ac := aircraft[n];
      assert aircraft == aircraft[..n] + [ac];
      CyclePositionsMentioned(st, aircraft[..n], epoch, range, hex);
      var rows := AbsorbAll(st, aircraft[..n], epoch, range).positions;
      if Positioned(ac) {
        PushDistinct(rows, ac.icaoHex, BuildReport(ac, epoch));
        PushGet(rows, ac.icaoHex, BuildReport(ac, epoch), hex);
      }
    }
  }

  /** An aircraft the message mentions is live afterwards, in its old session or in one opened now. */
  lemma UpdateMentioned(st: State, aircraft: seq<Observation>, epoch: real, range: Range, hex: Hex)
    requires hex in Mentioned(aircraft)
    ensures var o := Update(st, aircraft, epoch, range);
      && hex in o.state.entries
      && o.state.entries[hex].lastSeen == DateMs(epoch)
      && o.state.entries[hex].firstSeen == (if hex in st.entries then st.entries[hex].firstSeen else DateMs(epoch))
      && o.state.entries[hex].track == (if hex in st.entries then st.entries[hex].track else []) + Get(o.positions, hex)
  {
    CycleEffect(st, aircraft, epoch, range, hex);
    CyclePositions(st, aircraft, epoch, range, hex);
  }

  /** The count of positions is the length of the track. */
  ghost predicate Counted(st: State, hex: Hex) {
    hex in st.entries ==> st.entries[hex].positionCount == |st.entries[hex].track|
  }

  lemma {:induction false} CycleCounts(st: State, aircraft: seq<Observation>, epoch: real, range: Range, hex: Hex)
    requires Counted(st, hex)
    ensures Counted(AbsorbAll(st, aircraft, epoch, range).state, hex)
  {
    if aircraft != [] {
      CycleCounts(st, aircraft[..|aircraft| - 1], epoch, range, hex);
    }
  }

  lemma UpdateCounts(st: State, aircraft: seq<Observation>, epoch: real, range: Range, hex: Hex)
    requires Counted(st, hex)
    ensures Counted(Update(st, aircraft, epoch, range).state, hex)
  {
    CycleCounts(st, aircraft, epoch, range, hex);
  }

  /** An aircraft the message does not mention adds no position and stays as it was unless it departs. */
  lemma UpdateUnmentioned(st: State, aircraft: seq<Observation>, epoch: real, range: Range, hex: Hex)
    requires hex !in Mentioned(aircraft)
    ensures var o := Update(st, aircraft, epoch, range);
      && Get(o.positions, hex) == []
      && (hex in o.state.entries <==> hex in st.entries && !IsOverdue(st.entries[hex], DateMs(epoch)))
      && (hex in o.state.entries ==> o.state.entries[hex] == st.entries[hex])
  {
    CycleKeepsUnmentioned(st, aircraft, epoch, range, hex);
    CyclePositionsMentioned(st, aircraft, epoch, range, hex);
  }

  /** The departed list, seen from the state before the message. */
  lemma UpdateDeparted(st: State, aircraft: seq<Observation>, epoch: real, range: Range)
    requires st.Wf()
    ensures var d := Update(st, aircraft, epoch, range).departed;
      && (forall i :: 0 <= i < |d| ==>
            && d[i].icaoHex in st.entries && d[i] == st.entries[d[i].icaoHex]
            && d[i].icaoHex !in Mentioned(aircraft) && IsOverdue(d[i], DateMs(epoch)))
      && (forall i, j :: 0 <= i < j < |d| ==> d[i].icaoHex != d[j].icaoHex)
      && (forall h :: h in st.entries && h !in Mentioned(aircraft) && IsOverdue(st.entries[h], DateMs(epoch)) ==>
            exists i :: 0 <= i < |d| && d[i].icaoHex == h)
  {
    var c := AbsorbAll(st, aircraft, epoch, range).state;
    var m, now := Mentioned(aircraft), DateMs(epoch);
    AbsorbAllWf(st, aircraft, epoch, range);
    DepartingEntries(c, c.order, m, now);
    forall h | h !in m
      ensures (h in c.entries <==> h in st.entries) && (h in st.entries ==> c.entries[h] == st.entries[h])
    {
      CycleKeepsUnmentioned(st, aircraft, epoch, range, h);
    }
  }
}
