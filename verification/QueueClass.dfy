/** The publish queue as an object over its table. */
module QueueClass {
  import opened Wrappers
  import opened Records
  import opened Backoff
  import opened Queue

  class PublishQueue {
    var rows: map<nat, QueueRow>
    var nextId: nat

    ghost function View(): Table
      reads this
    {
      Table(rows, nextId)
    }

    /** Ids are handed out in order. */
    ghost predicate Valid()
      reads this
    {
      forall id :: id in rows ==> id < nextId
    }

    constructor ()
      ensures Valid() && View() == START.table
    {
      rows, nextId := map[], 1;
    }

    method Enqueue(record: Record, now: int)
      requires Valid()
      modifies this
      ensures Valid() && View() == Queue.Enqueue(old(View()), record, now)
    {
      rows := rows[nextId := QueueRow(record, now, now + BASE_DELAY_MS, 0, "")];
      nextId := nextId + 1;
    }

    /** Selects the due rows by id, keeping the selection ordered by creation time. */
    method GetReady(now: int) returns (ready: seq<QueueEntry>)
      requires Valid()
      ensures IsReadyList(View(), now, ready)
    {
      ready := [];
      for id := 0 to nextId
        invariant SelectedBelow(View(), now, id, ready)
      {
        if id in rows && rows[id].nextRetryAt <= now {
          var k := InsertionPoint(ready, id, now);
          InsertKeepsSelection(View(), now, id, ready, k, QueueEntry(id, rows[id].record, rows[id].attempts));
          ready := InsertAt(ready, k, QueueEntry(id, rows[id].record, rows[id].attempts));
        }
      }
      SelectionIsReadyList(View(), now, nextId, ready);
    }

    method InsertionPoint(ready: seq<QueueEntry>, id: nat, now: int) returns (k: nat)
      requires id in rows && SelectedBelow(View(), now, id, ready)
      ensures k <= |ready|
      ensures forall i :: 0 <= i < |ready| ==>
                (i < k <==> Created(View(), ready[i].id) <= Created(View(), id))
    {
      k := |ready|;
      while k > 0 && rows[ready[k - 1].id].createdAt > rows[id].createdAt
        invariant 0 <= k <= |ready|
        invariant forall i :: k <= i < |ready| ==> Created(View(), ready[i].id) > Created(View(), id)
      {
        k := k - 1;
      }
      OlderFirst(View(), now, ready, k, id);
    }

    method MarkDone(id: nat)
      requires Valid()
      modifies this
      ensures Valid() && View() == Queue.MarkDone(old(View()), id)
    {
      rows := rows - {id};
    }

    method MarkFailed(id: nat, error: string, retryAfterMs: Option<nat>, now: int)
      requires Valid()
      modifies this
      ensures Valid() && View() == Queue.MarkFailed(old(View()), id, error, retryAfterMs, now)
    {
      var nextRetryAt: int;
      if retryAfterMs.Some? {
        nextRetryAt := now + retryAfterMs.value;
      } else {
        if id !in rows {
          return;
        }
        nextRetryAt := now + Min(BASE_DELAY_MS * Pow2(rows[id].attempts + 1), MAX_DELAY_MS);
      }
      if id in rows {
        var row := rows[id];
        rows := rows[id := row.(attempts := row.attempts + 1, nextRetryAt := nextRetryAt, lastError := error)];
      }
    }
  }

  /** The due rows with an id below a bound, each once, oldest first. */
  ghost predicate SelectedBelow(t: Table, now: int, bound: nat, list: seq<QueueEntry>) {
    AllDue(t, now, bound, list) && AllListed(t, now, bound, list) && Ordered(t, list)
  }

  ghost predicate AllDue(t: Table, now: int, bound: nat, list: seq<QueueEntry>) {
    forall i :: 0 <= i < |list| ==> EntryOf(t, now, list[i]) && list[i].id < bound
  }

  ghost predicate AllListed(t: Table, now: int, bound: nat, list: seq<QueueEntry>) {
    forall id: nat :: IsReady(t, id, now) && id < bound ==> Listed(list, id)
  }

  ghost predicate Listed(list: seq<QueueEntry>, id: nat) {
    exists i :: 0 <= i < |list| && list[i].id == id
  }

  ghost predicate Ordered(t: Table, list: seq<QueueEntry>) {
    forall i, j :: 0 <= i < j < |list| ==> Before(t, list[i].id, list[j].id)
  }

  ghost predicate Before(t: Table, a: nat, b: nat) {
    a != b && Created(t, a) <= Created(t, b)
  }

  ghost predicate EntryOf(t: Table, now: int, e: QueueEntry) {
    IsReady(t, e.id, now) && e.record == t.rows[e.id].record && e.attempts == t.rows[e.id].attempts
  }

  ghost function Created(t: Table, id: nat): int {
    if id in t.rows then t.rows[id].createdAt else 0
  }

  function InsertAt(list: seq<QueueEntry>, k: nat, e: QueueEntry): seq<QueueEntry>
    requires k <= |list|
  {
    list[..k] + [e] + list[k..]
  }

  lemma InsertKeepsListed(list: seq<QueueEntry>, k: nat, e: QueueEntry, id: nat)
    requires k <= |list|
    ensures Listed(InsertAt(list, k, e), id) <==> Listed(list, id) || id == e.id
  {
    var longer := InsertAt(list, k, e);
    assert longer[k] == e;
    if Listed(list, id) {
      var i :| 0 <= i < |list| && list[i].id == id;
      assert longer[if i < k then i else i + 1] == list[i];
    }
    if Listed(longer, id) && id != e.id {
      var i :| 0 <= i < |longer| && longer[i].id == id;
      assert longer[i] == list[if i < k then i else i - 1];
    }
  }

  lemma InsertKeepsSelection(t: Table, now: int, id: nat, list: seq<QueueEntry>, k: nat, e: QueueEntry)
    requires SelectedBelow(t, now, id, list) && EntryOf(t, now, e) && e.id == id
    requires k <= |list| && forall i :: 0 <= i < |list| ==> (i < k <==> Created(t, list[i].id) <= Created(t, id))
    ensures SelectedBelow(t, now, id + 1, InsertAt(list, k, e))
  {
    var longer := InsertAt(list, k, e);
    forall i | 0 <= i < |longer| ensures longer[i] == if i < k then list[i] else if i == k then e else list[i - 1] {
    }
    forall x: nat | IsReady(t, x, now) && x < id + 1 ensures Listed(longer, x) {
      InsertKeepsListed(list, k, e, x);
    }
    InsertKeepsOrdered(t, list, k, e);
  }

  lemma InsertKeepsOrdered(t: Table, list: seq<QueueEntry>, k: nat, e: QueueEntry)
    requires Ordered(t, list) && k <= |list|
    requires forall i :: 0 <= i < |list| ==>
               list[i].id != e.id && (i < k <==> Created(t, list[i].id) <= Created(t, e.id))
    ensures Ordered(t, InsertAt(list, k, e))
  {
    var longer := InsertAt(list, k, e);
    forall i, j | 0 <= i < j < |longer| ensures Before(t, longer[i].id, longer[j].id) {
      assert longer[i] == if i < k then list[i] else if i == k then e else list[i - 1];
      assert longer[j] == if j < k then list[j] else if j == k then e else list[j - 1];
      if i != k && j != k {
        assert Before(t, list[if i < k then i else i - 1].id, list[if j < k then j else j - 1].id);
      }
    }
  }

  /** A complete selection is what the query returns. */
  lemma SelectionIsReadyList(t: Table, now: int, bound: nat, list: seq<QueueEntry>)
    requires SelectedBelow(t, now, bound, list) && forall id :: id in t.rows ==> id < bound
    ensures IsReadyList(t, now, list)
  {
    forall i, j | 0 <= i < j < |list|
      ensures list[i].id != list[j].id && t.rows[list[i].id].createdAt <= t.rows[list[j].id].createdAt
    {
      assert Before(t, list[i].id, list[j].id) && EntryOf(t, now, list[i]) && EntryOf(t, now, list[j]);
    }
    forall id: nat | IsReady(t, id, now) ensures exists i :: 0 <= i < |list| && list[i].id == id {
      assert Listed(list, id);
    }
  }

  lemma OlderFirst(t: Table, now: int, list: seq<QueueEntry>, k: nat, id: nat)
    requires Ordered(t, list) && k <= |list|
    requires k > 0 ==> Created(t, list[k - 1].id) <= Created(t, id)
    ensures forall i :: 0 <= i < k ==> Created(t, list[i].id) <= Created(t, id)
  {
    forall i | 0 <= i < k ensures Created(t, list[i].id) <= Created(t, id) {
      if i < k - 1 {
        assert Before(t, list[i].id, list[k - 1].id);
      }
    }
  }
}
