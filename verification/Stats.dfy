/**
 Receiver statistics: the adapter reports each window of its decoder once, the daemon sums the
 reports per protocol, and every period turns the sums into one record and starts over.
 */
module Stats {
  import opened Wrappers
  import opened Records

  // ---- the adapter ----

  /** One poll of the decoder's rolling last-minute block. */
  datatype Poll = Poll(start: int, messagesValid: real, positionCount: real, local: Signal)

  datatype StatsMessage = StatsMessage(
    protocol: string, messagesReceived: real, positionsDecoded: real, signal: Option<Signal>)

  function BuildStatsMessage(poll: Poll, lastSentWindowStart: Option<int>): Option<StatsMessage> {
    if lastSentWindowStart == Some(poll.start) then None
    else Some(StatsMessage("adsb", poll.messagesValid, poll.positionCount, Some(poll.local)))
  }

  /** What a run of polls has sent, and the window start remembered from the last message sent. */
  datatype Reported = Reported(sent: seq<Poll>, last: Option<int>)

  function Report(polls: seq<Poll>): Reported {
    if polls == [] then Reported([], None)
    else
      var r := Report(polls[..|polls| - 1]);
      var poll := polls[|polls| - 1];
      if BuildStatsMessage(poll, r.last).Some? then Reported(r.sent + [poll], Some(poll.start)) else r
  }

  class StatsPoller {
    var lastStatsWindowStart: Option<int>
    ghost var polls: seq<Poll>

    ghost predicate Valid()
      reads this
    {
      lastStatsWindowStart == Report(polls).last
    }

    constructor ()
      ensures Valid() && polls == []
    {
      lastStatsWindowStart, polls := None, [];
    }

    /** The statistics part of one poll. */
    method OnStats(poll: Poll) returns (message: Option<StatsMessage>)
      requires Valid()
      modifies this
      ensures Valid() && polls == old(polls) + [poll]
      ensures message.Some? <==> Report(polls).sent == Report(old(polls)).sent + [poll]
      ensures message.None? ==> Report(polls).sent == Report(old(polls)).sent
      ensures message.Some? ==>
                message.value == StatsMessage("adsb", poll.messagesValid, poll.positionCount, Some(poll.local))
    {
      assert (polls + [poll])[..|polls|] == polls;
      message := BuildStatsMessage(poll, lastStatsWindowStart);
      if message.Some? {
        lastStatsWindowStart := Some(poll.start);
      }
      polls := polls + [poll];
    }
  }

  ghost predicate EachWindowOnce(sent: seq<Poll>) {
    forall i, j :: 0 <= i < j < |sent| ==> sent[i].start != sent[j].start
  }

  /** A window, once left, does not come back. */
  ghost predicate NoReturn(polls: seq<Poll>) {
    forall i, j, k :: 0 <= i < k < j < |polls| && polls[i].start == polls[j].start ==> polls[k].start == polls[i].start
  }

  lemma {:induction false} ReportFacts(polls: seq<Poll>)
    ensures var r := Report(polls);
      && r.last == (if polls == [] then None else Some(polls[|polls| - 1].start))
      && (forall p :: p in r.sent ==> p in polls)
      && (forall i :: 0 <= i < |polls| ==> exists j :: 0 <= j < |r.sent| && r.sent[j].start == polls[i].start)
  {
    if polls != [] {
      var n := |polls| - 1;
      ReportFacts(polls[..n]);
      var r, r' := Report(polls[..n]), Report(polls);
      forall i | 0 <= i < |polls| ensures exists j :: 0 <= j < |r'.sent| && r'.sent[j].start == polls[i].start {
        var k := if i < n then i else if |r'.sent| > |r.sent| then -1 else n - 1;
        if k == -1 {
          assert r'.sent[|r.sent|].start == polls[i].start;
        } else {
          assert polls[..n][k].start == polls[i].start;
          var j :| 0 <= j < |r.sent| && r.sent[j].start == polls[k].start;
          assert r'.sent[j] == r.sent[j];
        }
      }
    }
  }

  /** A poll that repeats the previous window changes neither side. */
  lemma RepeatedPoll(front: seq<Poll>, poll: Poll)
    requires front != [] && front[|front| - 1].start == poll.start
    ensures NoReturn(front + [poll]) <==> NoReturn(front)
  {
    var polls, n := front + [poll], |front|;
    assert forall i :: 0 <= i < n ==> polls[i] == front[i];
    if NoReturn(front) {
      forall i, j, k | 0 <= i < k < j < |polls| && polls[i].start == polls[j].start
        ensures polls[k].start == polls[i].start
      {
        if j == n && k < n - 1 {
          assert front[i].start == front[n - 1].start;
        }
      }
    }
    if NoReturn(polls) {
      forall i, j, k | 0 <= i < k < j < n && front[i].start == front[j].start ensures front[k].start == front[i].start {
        assert polls[k].start == polls[i].start;
      }
    }
  }

  /** A poll of another window than the previous one keeps both sides exactly when its window is new. */
  lemma ChangedPoll(front: seq<Poll>, poll: Poll)
    requires front != [] ==> front[|front| - 1].start != poll.start
    ensures NoReturn(front + [poll])
       <==> NoReturn(front) && forall i :: 0 <= i < |front| ==> front[i].start != poll.start
  {
    var polls, n := front + [poll], |front|;
    assert forall i :: 0 <= i < n ==> polls[i] == front[i];
    if NoReturn(polls) {
      forall i, j, k | 0 <= i < k < j < n && front[i].start == front[j].start ensures front[k].start == front[i].start {
        assert polls[k].start == polls[i].start;
      }
      forall i | 0 <= i < n ensures front[i].start != poll.start {
        if i < n - 1 { assert polls[n - 1].start == polls[i].start || polls[i].start != polls[n].start; }
      }
    }
  }

  lemma NewlySent(sent: seq<Poll>, poll: Poll)
    ensures EachWindowOnce(sent + [poll]) <==>
              EachWindowOnce(sent) && forall i :: 0 <= i < |sent| ==> sent[i].start != poll.start
  {
    var all := sent + [poll];
    assert forall i :: 0 <= i < |sent| ==> all[i] == sent[i];
    assert all[|sent|] == poll;
    if EachWindowOnce(all) {
      forall i, j | 0 <= i < j < |sent| ensures sent[i].start != sent[j].start {
        assert all[i].start != all[j].start;
      }
      forall i | 0 <= i < |sent| ensures sent[i].start != poll.start {
        assert all[i].start != all[|sent|].start;
      }
    }
  }

  ghost predicate OnceUnlessReturning(polls: seq<Poll>) {
    EachWindowOnce(Report(polls).sent) <==> NoReturn(polls)
  }

  /** Each window is reported at most once exactly when no window comes back after another one. */
  lemma WindowsReportedOnce(polls: seq<Poll>)
    ensures EachWindowOnce(Report(polls).sent) <==> NoReturn(polls)
  {
    PollByPoll(polls);
  }

  lemma {:induction false} PollByPoll(polls: seq<Poll>)
    ensures OnceUnlessReturning(polls)
  {
    if polls != [] {
      var front, poll := polls[..|polls| - 1], polls[|polls| - 1];
      PollByPoll(front);
      OnePollMore(front, poll);
      assert polls == front + [poll];
    }
  }

  lemma OnePollMore(front: seq<Poll>, poll: Poll)
    requires OnceUnlessReturning(front)
    ensures OnceUnlessReturning(front + [poll])
  {
    assert (front + [poll])[..|front|] == front;
    ReportFacts(front);
    if Report(front).last == Some(poll.start) {
      RepeatedPoll(front, poll);
    } else {
      ChangedPoll(front, poll);
      NewlySent(Report(front).sent, poll);
      SentStarts(front, poll.start);
    }
  }

  lemma SentStarts(polls: seq<Poll>, start: int)
    ensures (exists i :: 0 <= i < |polls| && polls[i].start == start)
       <==> (exists j :: 0 <= j < |Report(polls).sent| && Report(polls).sent[j].start == start)
  {
    ReportFacts(polls);
    var sent := Report(polls).sent;
    if j :| 0 <= j < |sent| && sent[j].start == start {
      assert sent[j] in polls;
      var i :| 0 <= i < |polls| && polls[i] == sent[j];
    }
  }

  /** With window starts that never go back, every window polled is reported exactly once. */
  lemma NonDecreasingStartsReportedOnce(polls: seq<Poll>)
    requires forall i, j :: 0 <= i <= j < |polls| ==> polls[i].start <= polls[j].start
    ensures EachWindowOnce(Report(polls).sent)
    ensures forall i :: 0 <= i < |polls| ==>
              exists j :: 0 <= j < |Report(polls).sent| && Report(polls).sent[j].start == polls[i].start
  {
    WindowsReportedOnce(polls);
    ReportFacts(polls);
  }

  // ---- the daemon ----

  /** The per-protocol accumulator: a Map in insertion order. */
  type Accumulator = seq<BreakdownEntry>

  function NewEntry(m: StatsMessage): BreakdownEntry {
    BreakdownEntry(m.protocol, m.messagesReceived, m.positionsDecoded, m.signal)
  }

  /** The numbers add up; a signal replaces the one before it. */
  function AddTo(e: BreakdownEntry, m: StatsMessage): BreakdownEntry {
    e.(messagesReceived := e.messagesReceived + m.messagesReceived,
       positionsDecoded := e.positionsDecoded + m.positionsDecoded,
       signal := if m.signal.Some? then m.signal else e.signal)
  }

  function Add(acc: Accumulator, m: StatsMessage): Accumulator {
    if acc == [] then [NewEntry(m)]
    else if acc[0].protocol == m.protocol then [AddTo(acc[0], m)] + acc[1..]
    else [acc[0]] + Add(acc[1..], m)
  }

  /** Adding at the first entry of the protocol, or at the end. */
  lemma {:induction false} AddAt(acc: Accumulator, m: StatsMessage, i: nat)
    requires i <= |acc| && (forall j :: 0 <= j < i ==> acc[j].protocol != m.protocol)
    requires i < |acc| ==> acc[i].protocol == m.protocol
    ensures Add(acc, m) == if i == |acc| then acc + [NewEntry(m)] else acc[i := AddTo(acc[i], m)]
  {
    if i > 0 {
      AddAt(acc[1..], m, i - 1);
      assert acc == [acc[0]] + acc[1..];
    }
  }

  function SumMessages(breakdown: seq<BreakdownEntry>): real {
    if breakdown == [] then 0.0
    else SumMessages(breakdown[..|breakdown| - 1]) + breakdown[|breakdown| - 1].messagesReceived
  }

  /** What the daemon accumulates between two ticks. */
  datatype Period = Period(acc: Accumulator, aircraftSeen: set<string>, positionsReported: nat, maxRangeNm: real)

  const FRESH := Period([], {}, 0, 0.0)

  function RecordOf(p: Period): StatsRecord {
    StatsRecord(|p.aircraftSeen|, SumMessages(p.acc),
                if p.positionsReported > 0 then Some(p.positionsReported) else None,
                if p.maxRangeNm > 0.0 then Some(p.maxRangeNm) else None, p.acc)
  }

  /** The total of a period is the sum of its breakdown, which the reduce loop computes. */
  method BuildStatsRecord(p: Period) returns (record: StatsRecord)
    ensures record == RecordOf(p)
  {
    var messagesReceived := 0.0;
    for i := 0 to |p.acc|
      invariant messagesReceived == SumMessages(p.acc[..i])
    {
      assert p.acc[..i + 1][..i] == p.acc[..i];
      messagesReceived := messagesReceived + p.acc[i].messagesReceived;
    }
    assert p.acc[..|p.acc|] == p.acc;
    record := StatsRecord(|p.aircraftSeen|, messagesReceived, None, None, p.acc);
    if p.positionsReported > 0 {
      record := record.(positionsReported := Some(p.positionsReported));
    }
    if p.maxRangeNm > 0.0 {
      record := record.(maxRangeNm := Some(p.maxRangeNm));
    }
  }

  /** The two numbers that are summed. */
  datatype Field = MessagesReceived | PositionsDecoded

  function Value(e: BreakdownEntry, field: Field): real {
    if field.MessagesReceived? then e.messagesReceived else e.positionsDecoded
  }

  function Gain(m: StatsMessage, protocol: string, field: Field): real {
    if m.protocol != protocol then 0.0 else if field.MessagesReceived? then m.messagesReceived else m.positionsDecoded
  }

  /** What a breakdown holds for one protocol. */
  function Of(breakdown: seq<BreakdownEntry>, protocol: string, field: Field): real {
    if breakdown == [] then 0.0
    else if breakdown[0].protocol == protocol then Value(breakdown[0], field)
    else Of(breakdown[1..], protocol, field)
  }

  datatype Action =
    | Arrive(m: StatsMessage)
    | Saw(hexes: set<string>)                               // aircraft of a message, or a departed one
    | Departure(positions: nat, farthest: Option<real>)     // a departure whose flight record was dealt with
    | LiveRange(liveMax: real)                              // the widest range among tracked aircraft
    | Tick(published: bool)

  /** The running period, and every record built so far: the published ones and the queued ones. */
  datatype Books = Books(period: Period, published: seq<StatsRecord>, queued: seq<StatsRecord>)

  function Widen(p: Period, range: real): Period {
    if range > p.maxRangeNm then p.(maxRangeNm := range) else p
  }

  function Apply(b: Books, a: Action): Books {
    match a
    case Arrive(m) => b.(period := b.period.(acc := Add(b.period.acc, m)))
    case Saw(hexes) => b.(period := b.period.(aircraftSeen := b.period.aircraftSeen + hexes))
    case Departure(n, farthest) =>
      var p := b.period.(positionsReported := b.period.positionsReported + n);
      b.(period := if farthest.Some? then Widen(p, farthest.value) else p)
    case LiveRange(liveMax) => b.(period := Widen(b.period, liveMax))
    case Tick(ok) =>
      if ok then Books(FRESH, b.published + [RecordOf(b.period)], b.queued)
      else Books(FRESH, b.published, b.queued + [RecordOf(b.period)])
  }

  function Run(actions: seq<Action>): Books {
    if actions == [] then Books(FRESH, [], []) else Apply(Run(actions[..|actions| - 1]), actions[|actions| - 1])
  }

  function Received(actions: seq<Action>, protocol: string, field: Field): real {
    if actions == [] then 0.0
    else
      var a := actions[|actions| - 1];
      Received(actions[..|actions| - 1], protocol, field) + (if a.Arrive? then Gain(a.m, protocol, field) else 0.0)
  }

  function InRecords(records: seq<StatsRecord>, protocol: string, field: Field): real {
    if records == [] then 0.0
    else InRecords(records[..|records| - 1], protocol, field) + Of(records[|records| - 1].breakdown, protocol, field)
  }

  function SumRecords(records: seq<StatsRecord>): real {
    if records == [] then 0.0 else SumRecords(records[..|records| - 1]) + records[|records| - 1].messagesReceived
  }

  function SumReceived(actions: seq<Action>): real {
    if actions == [] then 0.0
    else
      var a := actions[|actions| - 1];
      SumReceived(actions[..|actions| - 1]) + (if a.Arrive? then a.m.messagesReceived else 0.0)
  }

  lemma {:induction false} AddOf(acc: Accumulator, m: StatsMessage, protocol: string, field: Field)
    ensures Of(Add(acc, m), protocol, field) == Of(acc, protocol, field) + Gain(m, protocol, field)
  {
    if acc == [] {
      assert Add(acc, m)[1..] == [];
    } else if acc[0].protocol != m.protocol {
      AddOf(acc[1..], m, protocol, field);
      assert Add(acc, m)[1..] == Add(acc[1..], m);
    } else {
      assert Add(acc, m)[1..] == acc[1..];
    }
  }

  lemma {:induction false} SumFront(e: BreakdownEntry, rest: seq<BreakdownEntry>)
    ensures SumMessages([e] + rest) == e.messagesReceived + SumMessages(rest)
  {
    if rest == [] {
      assert [e] + rest == [e] && [e][..0] == [];
    } else {
      SumFront(e, rest[..|rest| - 1]);
      assert ([e] + rest)[..|rest|] == [e] + rest[..|rest| - 1];
    }
  }

  lemma {:induction false} AddSum(acc: Accumulator, m: StatsMessage)
    ensures SumMessages(Add(acc, m)) == SumMessages(acc) + m.messagesReceived
  {
    var added := Add(acc, m);
    assert added == [added[0]] + added[1..];
    SumFront(added[0], added[1..]);
    if acc == [] {
      assert added[1..] == [];
    } else {
      assert acc == [acc[0]] + acc[1..];
      SumFront(acc[0], acc[1..]);
      if acc[0].protocol != m.protocol {
        AddSum(acc[1..], m);
        assert added[1..] == Add(acc[1..], m);
      } else {
        assert added[1..] == acc[1..];
      }
    }
  }

  /**
   Across any interleaving of reports and periods, published or not: per protocol, the records built
   plus the live accumulator add up to what was received (and so do the records' own totals, below).
   */
  lemma {:induction false} StatsAreConserved(actions: seq<Action>, protocol: string, field: Field)
    ensures var b := Run(actions);
      InRecords(b.published, protocol, field) + InRecords(b.queued, protocol, field) + Of(b.period.acc, protocol, field)
        == Received(actions, protocol, field)
  {
    if actions != [] {
      var n := |actions| - 1;
      var b := Run(actions[..n]);
      StatsAreConserved(actions[..n], protocol, field);
      match actions[n]
      case Arrive(m) => AddOf(b.period.acc, m, protocol, field);
      case Tick(ok) => InRecordsSnoc(b, ok, protocol, field);
      case _ =>
    }
  }

  lemma InRecordsSnoc(b: Books, ok: bool, protocol: string, field: Field)
    ensures var b' := Apply(b, Tick(ok));
      InRecords(b'.published, protocol, field) + InRecords(b'.queued, protocol, field)
        == InRecords(b.published, protocol, field) + InRecords(b.queued, protocol, field)
           + Of(b.period.acc, protocol, field)
  {
    var record := RecordOf(b.period);
    assert (b.published + [record])[..|b.published|] == b.published;
    assert (b.queued + [record])[..|b.queued|] == b.queued;
  }

  lemma {:induction false} TotalsAreConserved(actions: seq<Action>)
    ensures var b := Run(actions);
      SumRecords(b.published) + SumRecords(b.queued) + SumMessages(b.period.acc) == SumReceived(actions)
  {
    if actions != [] {
      var n := |actions| - 1;
      var b := Run(actions[..n]);
      TotalsAreConserved(actions[..n]);
      match actions[n]
      case Arrive(m) => AddSum(b.period.acc, m);
      case Tick(ok) =>
        var record := RecordOf(b.period);
        assert (b.published + [record])[..|b.published|] == b.published;
        assert (b.queued + [record])[..|b.queued|] == b.queued;
      case _ =>
    }
  }

  // ---- positions, range, aircraft and signal ----

  function PositionsIn(records: seq<StatsRecord>): nat {
    if records == [] then 0
    else PositionsIn(records[..|records| - 1]) + records[|records| - 1].positionsReported.GetOr(0)
  }

  function PositionsDeparted(actions: seq<Action>): nat {
    if actions == [] then 0
    else
      var a := actions[|actions| - 1];
      PositionsDeparted(actions[..|actions| - 1]) + (if a.Departure? then a.positions else 0)
  }

  /** The positions of departed aircraft are all in the records, or in the running period. */
  lemma {:induction false} PositionsReportedAreConserved(actions: seq<Action>)
    ensures var b := Run(actions);
      PositionsIn(b.published) + PositionsIn(b.queued) + b.period.positionsReported == PositionsDeparted(actions)
  {
    if actions != [] {
      var n := |actions| - 1;
      PositionsReportedAreConserved(actions[..n]);
      if actions[n].Tick? {
        TickKeepsPositions(Run(actions[..n]), actions[n].published);
      }
    }
  }

  lemma PositionsSnoc(records: seq<StatsRecord>, p: Period)
    ensures PositionsIn(records + [RecordOf(p)]) == PositionsIn(records) + p.positionsReported
  {
    assert (records + [RecordOf(p)])[..|records|] == records;
  }

  lemma TickKeepsPositions(b: Books, ok: bool)
    ensures var b' := Apply(b, Tick(ok));
      PositionsIn(b'.published) + PositionsIn(b'.queued)
        == PositionsIn(b.published) + PositionsIn(b.queued) + b.period.positionsReported
  {
    PositionsSnoc(b.published, b.period);
    PositionsSnoc(b.queued, b.period);
  }

  /** What has happened in the running period. */
  function SinceTick(actions: seq<Action>): seq<Action> {
    if actions == [] then []
    else
      var a := actions[|actions| - 1];
      if a.Tick? then [] else SinceTick(actions[..|actions| - 1]) + [a]
  }

  function RangeIn(a: Action): Option<real> {
    match a
    case Departure(_, farthest) => farthest
    case LiveRange(liveMax) => Some(liveMax)
    case _ => None
  }

  ghost predicate IsWidest(actions: seq<Action>, m: real) {
    && m >= 0.0
    && (forall a :: a in actions && RangeIn(a).Some? ==> RangeIn(a).value <= m)
    && (m == 0.0 || exists a :: a in actions && RangeIn(a) == Some(m))
  }

  ghost predicate AreSeen(actions: seq<Action>, seen: set<string>) {
    forall hex :: hex in seen <==> exists a :: a in actions && a.Saw? && hex in a.hexes
  }

  /** The range of a period is the widest of it, or zero, and its aircraft are those seen in it. */
  lemma {:induction false} PeriodSumsUp(actions: seq<Action>)
    ensures var p := Run(actions).period;
      IsWidest(SinceTick(actions), p.maxRangeNm) && AreSeen(SinceTick(actions), p.aircraftSeen)
  {
    if actions != [] && !actions[|actions| - 1].Tick? {
      var front, a := actions[..|actions| - 1], actions[|actions| - 1];
      PeriodSumsUp(front);
      WidestSnoc(SinceTick(front), Run(front).period.maxRangeNm, a);
      SeenSnoc(SinceTick(front), Run(front).period.aircraftSeen, a);
    }
  }

  lemma WidestSnoc(actions: seq<Action>, m: real, a: Action)
    requires IsWidest(actions, m)
    ensures IsWidest(actions + [a], if RangeIn(a).Some? && RangeIn(a).value > m then RangeIn(a).value else m)
  {
    assert a in actions + [a];
    if m != 0.0 {
      var x :| x in actions && RangeIn(x) == Some(m);
      assert x in actions + [a];
    }
  }

  lemma SeenSnoc(actions: seq<Action>, seen: set<string>, a: Action)
    requires AreSeen(actions, seen)
    ensures AreSeen(actions + [a], if a.Saw? then seen + a.hexes else seen)
  {
    assert a in actions + [a];
    forall x | x in actions ensures x in actions + [a] {
    }
  }

  function SignalOf(acc: Accumulator, protocol: string): Option<Signal> {
    if acc == [] then None
    else if acc[0].protocol == protocol then acc[0].signal
    else SignalOf(acc[1..], protocol)
  }

  /** The last signal that a message of the protocol brought. */
  function LastSignal(actions: seq<Action>, protocol: string): Option<Signal> {
    if actions == [] then None
    else
      var a := actions[|actions| - 1];
      if a.Arrive? && a.m.protocol == protocol && a.m.signal.Some? then a.m.signal
      else LastSignal(actions[..|actions| - 1], protocol)
  }

  lemma {:induction false} AddSignal(acc: Accumulator, m: StatsMessage, protocol: string)
    ensures SignalOf(Add(acc, m), protocol)
         == if m.protocol == protocol && m.signal.Some? then m.signal else SignalOf(acc, protocol)
  {
    if acc == [] {
      assert Add(acc, m)[1..] == [];
    } else if acc[0].protocol != m.protocol {
      AddSignal(acc[1..], m, protocol);
      assert Add(acc, m)[1..] == Add(acc[1..], m);
    } else {
      assert Add(acc, m)[1..] == acc[1..];
    }
  }

  /** The signal figures of a protocol are the latest of the running period. */
  lemma {:induction false} SignalIsLatest(actions: seq<Action>, protocol: string)
    ensures SignalOf(Run(actions).period.acc, protocol) == LastSignal(SinceTick(actions), protocol)
  {
    if actions != [] && !actions[|actions| - 1].Tick? {
      var front, a := actions[..|actions| - 1], actions[|actions| - 1];
      SignalIsLatest(front, protocol);
      assert SinceTick(actions)[..|SinceTick(front)|] == SinceTick(front);
      if a.Arrive? {
        AddSignal(Run(front).period.acc, a.m, protocol);
      }
    }
  }

  // ---- what a record reports ----

  /** The aircraft seen in these actions. */
  function SeenIn(actions: seq<Action>): set<string> {
    if actions == [] then {}
    else
      var a := actions[|actions| - 1];
      SeenIn(actions[..|actions| - 1]) + (if a.Saw? then a.hexes else {})
  }

  ghost predicate EachProtocolOnce(breakdown: seq<BreakdownEntry>) {
    forall i, j :: 0 <= i < j < |breakdown| ==> breakdown[i].protocol != breakdown[j].protocol
  }

  predicate HasProtocol(breakdown: seq<BreakdownEntry>, protocol: string) {
    exists i :: 0 <= i < |breakdown| && breakdown[i].protocol == protocol
  }

  predicate Heard(actions: seq<Action>, protocol: string) {
    exists i :: 0 <= i < |actions| && actions[i].Arrive? && actions[i].m.protocol == protocol
  }

  /** The breakdown of these actions: one entry for each protocol heard, with its sums and its latest signal. */
  ghost predicate BreaksDown(breakdown: seq<BreakdownEntry>, since: seq<Action>) {
    EachProtocolOnce(breakdown) && forall protocol :: SumsUp(breakdown, since, protocol)
  }

  predicate SumsUp(breakdown: seq<BreakdownEntry>, since: seq<Action>, protocol: string) {
    && (HasProtocol(breakdown, protocol) <==> Heard(since, protocol))
    && Of(breakdown, protocol, MessagesReceived) == Received(since, protocol, MessagesReceived)
    && Of(breakdown, protocol, PositionsDecoded) == Received(since, protocol, PositionsDecoded)
    && SignalOf(breakdown, protocol) == LastSignal(since, protocol)
  }

  ghost predicate Tells(p: Period, since: seq<Action>) {
    && p.aircraftSeen == SeenIn(since) && IsWidest(since, p.maxRangeNm)
    && p.positionsReported == PositionsDeparted(since)
    && SumMessages(p.acc) == SumReceived(since) && BreaksDown(p.acc, since)
  }

  /** The record of a period in which this happened. */
  ghost predicate Reports(r: StatsRecord, since: seq<Action>) {
    && r.aircraftSeen == |SeenIn(since)|
    && r.messagesReceived == SumReceived(since)
    && r.positionsReported == (if PositionsDeparted(since) > 0 then Some(PositionsDeparted(since)) else None)
    && IsWidest(since, r.maxRangeNm.GetOr(0.0)) && r.maxRangeNm != Some(0.0)
    && BreaksDown(r.breakdown, since)
  }

  lemma {:induction false} AddKeepsProtocols(acc: Accumulator, m: StatsMessage, protocol: string)
    ensures HasProtocol(Add(acc, m), protocol) <==> HasProtocol(acc, protocol) || protocol == m.protocol
  {
    if acc == [] {
      assert Add(acc, m)[0].protocol == m.protocol;
    } else {
      var added := Add(acc, m);
      HasProtocolFront(acc, protocol);
      HasProtocolFront(added, protocol);
      if acc[0].protocol != m.protocol {
        AddKeepsProtocols(acc[1..], m, protocol);
        assert added[1..] == Add(acc[1..], m);
      } else {
        assert added[1..] == acc[1..];
      }
    }
  }

  lemma HasProtocolFront(acc: Accumulator, protocol: string)
    requires acc != []
    ensures HasProtocol(acc, protocol) <==> acc[0].protocol == protocol || HasProtocol(acc[1..], protocol)
  {
    if i :| 0 <= i < |acc| && acc[i].protocol == protocol && i > 0 {
      assert acc[1..][i - 1].protocol == protocol;
    }
    if i :| 0 <= i < |acc[1..]| && acc[1..][i].protocol == protocol {
      assert acc[i + 1].protocol == protocol;
    }
  }

  lemma {:induction false} AddKeepsOnce(acc: Accumulator, m: StatsMessage)
    requires EachProtocolOnce(acc)
    ensures EachProtocolOnce(Add(acc, m))
  {
    if acc != [] && acc[0].protocol != m.protocol {
      AddKeepsOnce(acc[1..], m);
      AddKeepsProtocols(acc[1..], m, acc[0].protocol);
      var rest := Add(acc[1..], m);
      assert Add(acc, m) == [acc[0]] + rest;
      assert forall i :: 0 <= i < |acc[1..]| ==> acc[1..][i] == acc[i + 1];
      assert !HasProtocol(rest, acc[0].protocol);
    }
  }

  lemma HeardSnoc(since: seq<Action>, a: Action, protocol: string)
    ensures Heard(since + [a], protocol) <==> Heard(since, protocol) || (a.Arrive? && a.m.protocol == protocol)
  {
    assert (since + [a])[|since|] == a && forall i :: 0 <= i < |since| ==> (since + [a])[i] == since[i];
  }

  lemma SumsSnoc(since: seq<Action>, a: Action)
    ensures SeenIn(since + [a]) == (if a.Saw? then SeenIn(since) + a.hexes else SeenIn(since))
    ensures PositionsDeparted(since + [a]) == PositionsDeparted(since) + (if a.Departure? then a.positions else 0)
    ensures SumReceived(since + [a]) == SumReceived(since) + (if a.Arrive? then a.m.messagesReceived else 0.0)
  {
    assert (since + [a])[..|since|] == since;
  }

  lemma ProtocolSnoc(since: seq<Action>, a: Action, protocol: string, field: Field)
    ensures Received(since + [a], protocol, field)
         == Received(since, protocol, field) + (if a.Arrive? then Gain(a.m, protocol, field) else 0.0)
    ensures LastSignal(since + [a], protocol)
         == if a.Arrive? && a.m.protocol == protocol && a.m.signal.Some? then a.m.signal
            else LastSignal(since, protocol)
  {
    assert (since + [a])[..|since|] == since;
  }

  lemma ActionSumsUp(acc: Accumulator, since: seq<Action>, a: Action, protocol: string)
    requires SumsUp(acc, since, protocol)
    ensures SumsUp(if a.Arrive? then Add(acc, a.m) else acc, since + [a], protocol)
  {
    HeardSnoc(since, a, protocol);
    ProtocolSnoc(since, a, protocol, MessagesReceived);
    ProtocolSnoc(since, a, protocol, PositionsDecoded);
    if a.Arrive? {
      AddKeepsProtocols(acc, a.m, protocol);
      AddOf(acc, a.m, protocol, MessagesReceived);
      AddOf(acc, a.m, protocol, PositionsDecoded);
      AddSignal(acc, a.m, protocol);
    }
  }

  lemma ActionBreaksDown(acc: Accumulator, since: seq<Action>, a: Action)
    requires BreaksDown(acc, since)
    ensures BreaksDown(if a.Arrive? then Add(acc, a.m) else acc, since + [a])
  {
    if a.Arrive? {
      AddKeepsOnce(acc, a.m);
    }
    var acc', more := if a.Arrive? then Add(acc, a.m) else acc, since + [a];
    forall protocol ensures SumsUp(acc', more, protocol) {
      assert SumsUp(acc, since, protocol);
      ActionSumsUp(acc, since, a, protocol);
    }
  }

  lemma ActionKeepsTelling(b: Books, since: seq<Action>, a: Action)
    requires Tells(b.period, since) && !a.Tick?
    ensures Tells(Apply(b, a).period, since + [a])
  {
    SumsSnoc(since, a);
    WidestSnoc(since, b.period.maxRangeNm, a);
    ActionBreaksDown(b.period.acc, since, a);
    if a.Arrive? {
      AddSum(b.period.acc, a.m);
    }
  }

  lemma {:induction false} PeriodTells(actions: seq<Action>)
    ensures Tells(Run(actions).period, SinceTick(actions))
  {
    if actions != [] && !actions[|actions| - 1].Tick? {
      var front, a := actions[..|actions| - 1], actions[|actions| - 1];
      PeriodTells(front);
      ActionKeepsTelling(Run(front), SinceTick(front), a);
    }
  }

  /**
   In every run the record that a tick builds, published or queued, reports what has happened since the
   tick before it: how many different aircraft were seen, the widest range when there was one, the
   positions of the departures, the total, and for each protocol that was heard its sums and its
   latest signal.
   */
  lemma TickReportsItsPeriod(actions: seq<Action>, ok: bool) returns (r: StatsRecord)
    ensures Reports(r, SinceTick(actions))
    ensures var b, b' := Run(actions), Run(actions + [Tick(ok)]);
      && b'.published == (if ok then b.published + [r] else b.published)
      && b'.queued == (if ok then b.queued else b.queued + [r])
  {
    assert (actions + [Tick(ok)])[..|actions|] == actions;
    PeriodTells(actions);
    r := RecordOf(Run(actions).period);
  }

  /** The statistics state of the daemon, updated in place by its callbacks and the stats timer. */
  class StatsState {
    var protocolStats: Accumulator
    var aircraftSeen: set<string>
    var positionsReported: nat
    var maxRangeNm: real

    function View(): Period
      reads this
    {
      Period(protocolStats, aircraftSeen, positionsReported, maxRangeNm)
    }

    constructor ()
      ensures View() == FRESH
    {
      protocolStats, aircraftSeen, positionsReported, maxRangeNm := [], {}, 0, 0.0;
    }

    method OnStats(m: StatsMessage)
      modifies this`protocolStats
      ensures View() == Apply(Books(old(View()), [], []), Arrive(m)).period
    {
      var i := 0;
      while i < |protocolStats| && protocolStats[i].protocol != m.protocol
        invariant 0 <= i <= |protocolStats|
        invariant forall j :: 0 <= j < i ==> protocolStats[j].protocol != m.protocol
      {
        i := i + 1;
      }
      AddAt(protocolStats, m, i);
      if i < |protocolStats| {
        var existing := protocolStats[i];
        existing := existing.(messagesReceived := existing.messagesReceived + m.messagesReceived,
                              positionsDecoded := existing.positionsDecoded + m.positionsDecoded);
        if m.signal.Some? {
          existing := existing.(signal := m.signal);
        }
        protocolStats := protocolStats[i := existing];
      } else {
        protocolStats := protocolStats + [BreakdownEntry(m.protocol, m.messagesReceived, m.positionsDecoded, m.signal)];
      }
    }

    method OnSeen(hexes: set<string>)
      modifies this`aircraftSeen
      ensures View() == Apply(Books(old(View()), [], []), Saw(hexes)).period
    {
      aircraftSeen := aircraftSeen + hexes;
    }

    method OnDeparture(positions: nat, farthest: Option<real>)
      modifies this`positionsReported, this`maxRangeNm
      ensures View() == Apply(Books(old(View()), [], []), Departure(positions, farthest)).period
    {
      positionsReported := positionsReported + positions;
      if farthest.Some? && farthest.value > maxRangeNm {
        maxRangeNm := farthest.value;
      }
    }

    method OnLiveRange(liveMax: real)
      modifies this`maxRangeNm
      ensures View() == Apply(Books(old(View()), [], []), LiveRange(liveMax)).period
    {
      if liveMax > maxRangeNm {
        maxRangeNm := liveMax;
      }
    }

    /** The period's record, and a fresh start before anything else can run. */
    method OnTick() returns (record: StatsRecord)
      modifies this
      ensures record == RecordOf(old(View())) && View() == FRESH
    {
      record := BuildStatsRecord(View());
      protocolStats, aircraftSeen, positionsReported, maxRangeNm := [], {}, 0, 0.0;
    }
  }
}
