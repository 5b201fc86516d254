/**
 The retry queue: a persistent table with automatic ids, drained by timer callbacks that may
 overlap each other.  Every step below runs without an await.
 */
module Queue {
  import opened Wrappers
  import opened Records
  import opened Backoff

  const BASE_DELAY_MS: nat := 5000
  const MAX_DELAY_MS: nat := 300000

  datatype QueueRow = QueueRow(record: Record, createdAt: int, nextRetryAt: int, attempts: nat, lastError: string)

  /** AUTOINCREMENT never hands out an id twice, not even after its row is gone. */
  datatype Table = Table(rows: map<nat, QueueRow>, nextId: nat)

  datatype QueueEntry = QueueEntry(id: nat, record: Record, attempts: nat)

  function RetryDelay(attempts: nat): nat {
    Min(BASE_DELAY_MS * Pow2(attempts + 1), MAX_DELAY_MS)
  }

  function Enqueue(t: Table, record: Record, now: int): Table {
    Table(t.rows[t.nextId := QueueRow(record, now, now + BASE_DELAY_MS, 0, "")], t.nextId + 1)
  }

  function MarkDone(t: Table, id: nat): Table {
    t.(rows := t.rows - {id})
  }

  function MarkFailed(t: Table, id: nat, error: string, retryAfterMs: Option<nat>, now: int): Table {
    if id !in t.rows then t
    else
      var row := t.rows[id];
      var delay := retryAfterMs.GetOr(RetryDelay(row.attempts));
      t.(rows := t.rows[id := row.(attempts := row.attempts + 1, nextRetryAt := now + delay, lastError := error)])
  }

  predicate IsReady(t: Table, id: nat, now: int) {
    id in t.rows && t.rows[id].nextRetryAt <= now
  }

  /** The due rows, each once, oldest first. */
  ghost predicate IsReadyList(t: Table, now: int, list: seq<QueueEntry>) {
    && (forall i :: 0 <= i < |list| ==>
          && IsReady(t, list[i].id, now)
          && list[i].record == t.rows[list[i].id].record
          && list[i].attempts == t.rows[list[i].id].attempts)
    && (forall id :: IsReady(t, id, now) ==> exists i :: 0 <= i < |list| && list[i].id == id)
    && (forall i, j :: 0 <= i < j < |list| ==>
          list[i].id != list[j].id && t.rows[list[i].id].createdAt <= t.rows[list[j].id].createdAt)
  }

  /**
   The delay after a failures is a+1 capped doublings of the base delay, it never falls as the
   failures mount, and it never exceeds five minutes.
   */
  lemma RetryDelayIsCappedDoubling(a: nat, b: nat)
    requires a <= b
    ensures RetryDelay(a) == Iterated(a + 1, BASE_DELAY_MS, MAX_DELAY_MS)
    ensures 2 * BASE_DELAY_MS <= RetryDelay(a) <= RetryDelay(b) <= MAX_DELAY_MS
  {
    IteratedClosedForm(a + 1, BASE_DELAY_MS, MAX_DELAY_MS);
    IteratedClosedForm(b + 1, BASE_DELAY_MS, MAX_DELAY_MS);
    IteratedMonotone(a + 1, b + 1, BASE_DELAY_MS, MAX_DELAY_MS);
    IteratedMonotone(1, a + 1, BASE_DELAY_MS, MAX_DELAY_MS);
    IteratedClosedForm(1, BASE_DELAY_MS, MAX_DELAY_MS);
    assert Pow2(1) == 2 * Pow2(0);
  }

  // ---- overlapping drains ----

  /** A drain holds the entries it read and has not yet tried. */
  datatype State = State(table: Table, drains: map<nat, seq<QueueEntry>>, nextDrain: nat)

  /** How a failed attempt asks to be retried; an unusable header makes the drain give up. */
  datatype RetryAfter = Absent | Seconds(s: nat) | Unusable

  datatype Step =
    | Put(record: Record, putAt: int)
    | Begin(list: seq<QueueEntry>, beginAt: int)
    | Acked(d: nat)
    | Rejected(rd: nat, error: string, retryAfter: RetryAfter, failedAt: int)

  /** What has happened so far: every record ever put, by id, and the ids with an acknowledged publish. */
  datatype History = History(put: map<nat, Record>, acked: set<nat>)

  const START := State(Table(map[], 1), map[], 0)
  const NOTHING := History(map[], {})

  ghost predicate Enabled(s: State, step: Step) {
    match step
    case Put(_, _) => true
    case Begin(list, now) => IsReadyList(s.table, now, list)
    case Acked(d) => d in s.drains && s.drains[d] != []
    case Rejected(d, _, _, _) => d in s.drains && s.drains[d] != []
  }

  function RetryMs(r: RetryAfter): Option<nat> {
    match r
    case Seconds(s) => Some(s * 1000)
    case _ => None
  }

  ghost function Next(s: State, step: Step): State {
    if !Enabled(s, step) then s
    else
      match step
      case Put(record, now) => s.(table := Enqueue(s.table, record, now))
      case Begin(list, _) => s.(drains := s.drains[s.nextDrain := list], nextDrain := s.nextDrain + 1)
      case Acked(d) => State(MarkDone(s.table, s.drains[d][0].id), s.drains[d := s.drains[d][1..]], s.nextDrain)
      case Rejected(d, error, retryAfter, now) =>
        if retryAfter.Unusable? then s.(drains := s.drains[d := []])
        else State(MarkFailed(s.table, s.drains[d][0].id, error, RetryMs(retryAfter), now),
                   s.drains[d := s.drains[d][1..]], s.nextDrain)
  }

  ghost function Record'(s: State, h: History, step: Step): History {
    if !Enabled(s, step) then h
    else
      match step
      case Put(record, _) => h.(put := h.put[s.table.nextId := record])
      case Acked(d) => h.(acked := h.acked + {s.drains[d][0].id})
      case _ => h
  }

  /** Every record ever put is in the table under its id until some publish of it was acknowledged. */
  ghost predicate AtLeastOnce(s: State, h: History) {
    && (forall id :: id in h.put ==>
          id in h.acked || (id in s.table.rows && s.table.rows[id].record == h.put[id]))
    && (forall id :: id in s.table.rows ==> id in h.put && s.table.rows[id].record == h.put[id])
    && h.acked <= h.put.Keys
    && (forall id :: id in h.put ==> id < s.table.nextId)
  }

  /** A drain only ever publishes what was put under the id it will settle. */
  ghost predicate DrainsFaithful(s: State, h: History) {
    forall d, i :: d in s.drains && 0 <= i < |s.drains[d]| ==>
      s.drains[d][i].id in h.put && s.drains[d][i].record == h.put[s.drains[d][i].id]
  }

  ghost predicate Inv(s: State, h: History) {
    AtLeastOnce(s, h) && DrainsFaithful(s, h)
  }

  lemma NextKeepsInv(s: State, h: History, step: Step)
    requires Inv(s, h)
    ensures Inv(Next(s, step), Record'(s, h, step))
    ensures forall id :: id in h.put ==> id in Record'(s, h, step).put && Record'(s, h, step).put[id] == h.put[id]
    ensures h.acked <= Record'(s, h, step).acked
  {
    if Enabled(s, step) {
      match step
      case Put(record, now) =>
      case Begin(list, now) =>
        var s' := Next(s, step);
        forall d, i | d in s'.drains && 0 <= i < |s'.drains[d]|
          ensures s'.drains[d][i].id in h.put && s'.drains[d][i].record == h.put[s'.drains[d][i].id]
        {
          if d == s.nextDrain {
            assert IsReady(s.table, list[i].id, now);
          }
        }
      case Acked(d) =>
        assert s.drains[d][0].id in h.put;
      case Rejected(d, error, retryAfter, now) =>
        assert s.drains[d][0].id in h.put;
    }
  }

  ghost function Run(steps: seq<Step>): (State, History) {
    if steps == [] then (START, NOTHING)
    else
      var (s, h) := Run(steps[..|steps| - 1]);
      var step := steps[|steps| - 1];
      (Next(s, step), Record'(s, h, step))
  }

  lemma {:induction false} NothingIsLost(steps: seq<Step>)
    ensures Inv(Run(steps).0, Run(steps).1)
  {
    if steps != [] {
      NothingIsLost(steps[..|steps| - 1]);
      var (s, h) := Run(steps[..|steps| - 1]);
      NextKeepsInv(s, h, steps[|steps| - 1]);
    }
  }

  // ---- what a row says of its failures ----

  /** The puts of a run, in order: the n-th of them is given the id n. */
  function Puts(steps: seq<Step>): seq<Step> {
    if steps == [] then []
    else
      var last := steps[|steps| - 1];
      Puts(steps[..|steps| - 1]) + (if last.Put? then [last] else [])
  }

  /** The step is a failed publish of the record under the id, with a retry time that can be used. */
  ghost predicate Fails(s: State, step: Step, id: nat) {
    step.Rejected? && !step.retryAfter.Unusable? && Enabled(s, step) && s.drains[step.rd][0].id == id
  }

  /** Some publish of the record under the id has been acknowledged. */
  ghost predicate Acknowledged(steps: seq<Step>, id: nat) {
    steps != [] &&
      var front, last := steps[..|steps| - 1], steps[|steps| - 1];
      Acknowledged(front, id) || Acknowledges(Run(front).0, last, id)
  }

  ghost predicate Acknowledges(s: State, step: Step, id: nat) {
    step.Acked? && Enabled(s, step) && s.drains[step.d][0].id == id
  }

  /** How many publishes of the record under the id have failed. */
  ghost function Failures(steps: seq<Step>, id: nat): nat {
    if steps == [] then 0
    else
      var front := steps[..|steps| - 1];
      Failures(front, id) + (if Fails(Run(front).0, steps[|steps| - 1], id) then 1 else 0)
  }

  ghost function LastFailure(steps: seq<Step>, id: nat): Option<Step> {
    if steps == [] then None
    else
      var front, last := steps[..|steps| - 1], steps[|steps| - 1];
      if Fails(Run(front).0, last, id) then Some(last) else LastFailure(front, id)
  }

  /** The wait after the n-th failure: what the answer asks for, else n capped doublings of the base delay. */
  function Wait(retryAfter: RetryAfter, n: nat): nat {
    match retryAfter
    case Seconds(s) => 1000 * s
    case _ => Iterated(n, BASE_DELAY_MS, MAX_DELAY_MS)
  }

  ghost predicate TellsItsFailures(steps: seq<Step>, id: nat, row: QueueRow) {
    && 1 <= id <= |Puts(steps)|
    && Puts(steps)[id - 1] == Put(row.record, row.createdAt)
    && IsRescheduled(row, Failures(steps, id), LastFailure(steps, id))
  }

  /** The row has failed so often, and is due as its last failure says. */
  predicate IsRescheduled(row: QueueRow, failures: nat, last: Option<Step>) {
    && row.attempts == failures
    && match last
       case None => failures == 0 && row.nextRetryAt == row.createdAt + BASE_DELAY_MS && row.lastError == ""
       case Some(f) =>
         f.Rejected? && row.lastError == f.error && row.nextRetryAt == f.failedAt + Wait(f.retryAfter, failures)
  }

  ghost predicate RowsTell(steps: seq<Step>) {
    var t := Run(steps).0.table;
    && t.nextId == |Puts(steps)| + 1
    && (forall id: nat :: id in t.rows <==> 1 <= id <= |Puts(steps)| && !Acknowledged(steps, id))
    && (forall id :: id in t.rows ==> TellsItsFailures(steps, id, t.rows[id]))
    && (forall id: nat :: id >= t.nextId ==>
          Failures(steps, id) == 0 && LastFailure(steps, id) == None && !Acknowledged(steps, id))
  }

  lemma WaitIsCapped(row: QueueRow, retryAfter: RetryAfter)
    requires !retryAfter.Unusable?
    ensures RetryMs(retryAfter).GetOr(RetryDelay(row.attempts)) == Wait(retryAfter, row.attempts + 1)
  {
    RetryDelayIsCappedDoubling(row.attempts, row.attempts);
  }

  lemma SettledWasPut(s: State, h: History, d: nat)
    requires Inv(s, h) && d in s.drains && s.drains[d] != []
    ensures s.drains[d][0].id < s.table.nextId
  {
    assert s.drains[d][0].id in h.put;
  }

  lemma PutsSnoc(front: seq<Step>, step: Step)
    ensures Puts(front + [step]) == if step.Put? then Puts(front) + [step] else Puts(front)
    ensures Run(front + [step]).0 == Next(Run(front).0, step)
  {
    assert (front + [step])[..|front|] == front;
  }

  lemma FailuresSnoc(front: seq<Step>, step: Step, id: nat)
    ensures Failures(front + [step], id) == Failures(front, id) + (if Fails(Run(front).0, step, id) then 1 else 0)
    ensures Acknowledged(front + [step], id) <==> Acknowledged(front, id) || Acknowledges(Run(front).0, step, id)
    ensures LastFailure(front + [step], id)
         == if Fails(Run(front).0, step, id) then Some(step) else LastFailure(front, id)
  {
    assert (front + [step])[..|front|] == front;
  }

  /** What a step does to a row that is there before and after it. */
  lemma RowAfter(s: State, step: Step, id: nat)
    requires id in s.table.rows && id < s.table.nextId && id in Next(s, step).table.rows
    ensures var row, row' := s.table.rows[id], Next(s, step).table.rows[id];
      && row'.record == row.record && row'.createdAt == row.createdAt
      && (if Fails(s, step, id) then IsRescheduled(row', row.attempts + 1, Some(step)) else row' == row)
  {
    if Fails(s, step, id) {
      WaitIsCapped(s.table.rows[id], step.retryAfter);
    }
  }

  /** One step more, as a row sees it. */
  lemma RowTellsOn(front: seq<Step>, step: Step, id: nat)
    requires RowsTell(front) && Inv(Run(front).0, Run(front).1)
    requires id in Run(front + [step]).0.table.rows
    ensures TellsItsFailures(front + [step], id, Run(front + [step]).0.table.rows[id])
  {
    var s := Run(front).0;
    PutsSnoc(front, step);
    FailuresSnoc(front, step, id);
    if id in s.table.rows {
      assert TellsItsFailures(front, id, s.table.rows[id]);
      RowAfter(s, step, id);
    } else {
      NewRowTells(front, step, id);
    }
  }

  lemma NewRowTells(front: seq<Step>, step: Step, id: nat)
    requires RowsTell(front) && id !in Run(front).0.table.rows && id in Next(Run(front).0, step).table.rows
    ensures step.Put? && id == |Puts(front)| + 1
    ensures var row := Next(Run(front).0, step).table.rows[id];
      Put(row.record, row.createdAt) == step && IsRescheduled(row, 0, None)
    ensures Failures(front, id) == 0 && LastFailure(front, id) == None
  {
  }

  lemma NewIdIsFresh(front: seq<Step>, step: Step, id: nat)
    requires RowsTell(front) && Inv(Run(front).0, Run(front).1) && id >= Run(front).0.table.nextId
    ensures Failures(front + [step], id) == 0 && LastFailure(front + [step], id) == None
    ensures !Acknowledged(front + [step], id)
  {
    var s, h := Run(front).0, Run(front).1;
    FailuresSnoc(front, step, id);
    if Fails(s, step, id) {
      SettledWasPut(s, h, step.rd);
    }
    if Acknowledges(s, step, id) {
      SettledWasPut(s, h, step.d);
    }
  }

  /** A row is there until it is acknowledged. */
  lemma RowStays(front: seq<Step>, step: Step, id: nat)
    requires RowsTell(front) && Inv(Run(front).0, Run(front).1)
    ensures id in Run(front + [step]).0.table.rows
       <==> 1 <= id <= |Puts(front + [step])| && !Acknowledged(front + [step], id)
  {
    PutsSnoc(front, step);
    FailuresSnoc(front, step, id);
    assert step.Put? && id == Run(front).0.table.nextId ==> !Acknowledged(front, id);
  }

  lemma StepKeepsRowsTell(front: seq<Step>, step: Step)
    requires RowsTell(front) && Inv(Run(front).0, Run(front).1)
    ensures RowsTell(front + [step])
  {
    PutsSnoc(front, step);
    var steps, t := front + [step], Run(front + [step]).0.table;
    forall id | id in t.rows ensures TellsItsFailures(steps, id, t.rows[id]) {
      RowTellsOn(front, step, id);
    }
    forall id: nat ensures id in t.rows <==> 1 <= id <= |Puts(steps)| && !Acknowledged(steps, id) {
      RowStays(front, step, id);
    }
    forall id: nat | id >= t.nextId
      ensures Failures(steps, id) == 0 && LastFailure(steps, id) == None && !Acknowledged(steps, id)
    {
      NewIdIsFresh(front, step, id);
    }
  }

  /**
   Under any overlap of drains, a row is in the table exactly from its put until a publish of it is
   acknowledged.  It holds the record and the time of its put, its attempts are the publishes of it that
   have failed, and it is due when its last failure asked for, or after as many capped doublings of the
   base delay as there were failures.
   */
  lemma {:induction false} RowsTellTheirFailures(steps: seq<Step>)
    ensures RowsTell(steps)
  {
    if steps != [] {
      var front := steps[..|steps| - 1];
      RowsTellTheirFailures(front);
      NothingIsLost(front);
      StepKeepsRowsTell(front, steps[|steps| - 1]);
      assert steps == front + [steps[|steps| - 1]];
    }
  }

  // ---- how a drain goes on ----

  /** The lists that the drains of a run have read, in order: the n-th drain has the number n, from zero. */
  ghost function Lists(steps: seq<Step>): seq<seq<QueueEntry>> {
    if steps == [] then []
    else
      var front, last := steps[..|steps| - 1], steps[|steps| - 1];
      Lists(front) + (if last.Begin? && Enabled(Run(front).0, last) then [last.list] else [])
  }

  /** The step settles the next entry of the drain. */
  ghost predicate Settles(s: State, step: Step, d: nat) {
    Enabled(s, step) && (step == Acked(d) || (step.Rejected? && step.rd == d && !step.retryAfter.Unusable?))
  }

  ghost function Settlements(steps: seq<Step>, d: nat): nat {
    if steps == [] then 0
    else
      var front := steps[..|steps| - 1];
      Settlements(front, d) + (if Settles(Run(front).0, steps[|steps| - 1], d) then 1 else 0)
  }

  /** An answer came with a retry time that cannot be used. */
  ghost predicate GaveUp(steps: seq<Step>, d: nat) {
    steps != [] &&
      var front, last := steps[..|steps| - 1], steps[|steps| - 1];
      GaveUp(front, d) || StopsAt(Run(front).0, last, d)
  }

  ghost predicate StopsAt(s: State, step: Step, d: nat) {
    Enabled(s, step) && step.Rejected? && step.rd == d && step.retryAfter.Unusable?
  }

  /** A drain settles the entries of its list one after the other, and stops for good when it gives up. */
  ghost predicate GoesInOrder(steps: seq<Step>, d: nat) {
    var s, lists, n := Run(steps).0, Lists(steps), Settlements(steps, d);
    if d < |lists| then
      && d in s.drains && n <= |lists[d]|
      && s.drains[d] == if GaveUp(steps, d) then [] else lists[d][n..]
    else d !in s.drains && n == 0 && !GaveUp(steps, d)
  }

  ghost predicate AllGoInOrder(steps: seq<Step>) {
    Run(steps).0.nextDrain == |Lists(steps)| && forall d: nat :: GoesInOrder(steps, d)
  }

  lemma OneStepMore(front: seq<Step>, step: Step, d: nat)
    ensures var s := Run(front).0;
      && Run(front + [step]).0 == Next(s, step)
      && Lists(front + [step]) == (if step.Begin? && Enabled(s, step) then Lists(front) + [step.list] else Lists(front))
      && Settlements(front + [step], d) == Settlements(front, d) + (if Settles(s, step, d) then 1 else 0)
      && GaveUp(front + [step], d) == (GaveUp(front, d) || StopsAt(s, step, d))
  {
    assert (front + [step])[..|front|] == front;
  }

  lemma StepGoesInOrder(front: seq<Step>, step: Step, d: nat)
    requires AllGoInOrder(front)
    ensures GoesInOrder(front + [step], d)
  {
    assert GoesInOrder(front, d);
    OneStepMore(front, step, d);
  }

  /** In every run each drain goes through its list in order, until it is through or gives up. */
  lemma {:induction false} DrainsGoInOrder(steps: seq<Step>)
    ensures AllGoInOrder(steps)
  {
    if steps != [] {
      var front, step := steps[..|steps| - 1], steps[|steps| - 1];
      DrainsGoInOrder(front);
      assert steps == front + [step];
      OneStepMore(front, step, 0);
      forall d: nat ensures GoesInOrder(steps, d) {
        StepGoesInOrder(front, step, d);
      }
    }
  }

  /** However a run goes on, ids are not given out again, and what was put under one stays what it was. */
  lemma {:induction false} IdsAreNotReused(steps: seq<Step>, more: seq<Step>)
    ensures Run(steps).0.table.nextId <= Run(steps + more).0.table.nextId
    ensures var put, put' := Run(steps).1.put, Run(steps + more).1.put;
      forall id :: id in put ==> id in put' && put'[id] == put[id]
  {
    if more == [] {
      assert steps + more == steps;
    } else {
      var front := more[..|more| - 1];
      IdsAreNotReused(steps, front);
      assert (steps + more)[..|steps + more| - 1] == steps + front;
      NothingIsLost(steps + front);
      NextKeepsInv(Run(steps + front).0, Run(steps + front).1, more[|more| - 1]);
    }
  }

  /**
   Settling an id whose row is already gone changes nothing.  No record put later can get the id: it is
   below the next id to be given out, which never falls, so however the run goes on, a row under the
   id holds the record that the drain read.
   */
  lemma LateSettlementIsHarmless(
    steps: seq<Step>, more: seq<Step>, d: nat, error: string, retryAfterMs: Option<nat>, now: int)
    requires d in Run(steps).0.drains && Run(steps).0.drains[d] != []
    ensures var t, t' := Run(steps).0.table, Run(steps + more).0.table;
      var entry := Run(steps).0.drains[d][0];
      && (entry.id !in t.rows ==>
            MarkDone(t, entry.id) == t && MarkFailed(t, entry.id, error, retryAfterMs, now) == t)
      && entry.id < t.nextId <= t'.nextId
      && (entry.id in t'.rows ==> t'.rows[entry.id].record == entry.record)
  {
    NothingIsLost(steps);
    NothingIsLost(steps + more);
    IdsAreNotReused(steps, more);
    var (s, h) := Run(steps);
    var id := s.drains[d][0].id;
    assert id in h.put && h.put[id] == s.drains[d][0].record;
    if id !in s.table.rows {
      assert s.table.rows - {id} == s.table.rows;
    }
  }
}
