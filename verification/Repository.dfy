/** The table of events and the statements that read and change it. */
module Repository {
  import opened Types
  import opened EventRows
  import FairSelection

  /** The in-memory copy of a row that a claim returns; `attempts` is the number before the claim. */
  datatype WebhookEvent = WebhookEvent(
    id: EventId,
    webhook: WebhookId,
    attempts: nat,
    createdAt: Time,
    nextAttemptAt: Option<Time>,
    processingInstance: Option<InstanceId>)
  {
    function Item(): FairSelection.Item {
      FairSelection.Item(id, webhook, nextAttemptAt, createdAt)
    }
  }

  function Scan(id: EventId, row: Row): WebhookEvent {
    WebhookEvent(id, row.webhook, row.attempts, row.createdAt, row.nextAttemptAt, row.instance)
  }

  /** A claim counts an attempt in the row and gives the row to the instance; the copy still carries the
      number of attempts from before, and everything else is as it was. */
  predicate IsClaim(id: EventId, before: Row, after: Row, instance: InstanceId, now: Time, event: WebhookEvent) {
    && after == before.(status := Processing, instance := Some(instance), startedAt := Some(now),
                        attempts := event.attempts + 1)
    && after.attempts == before.attempts + 1
    && event.id == id && event.webhook == before.webhook
    && event.createdAt == before.createdAt && event.nextAttemptAt == before.nextAttemptAt
  }

  function Items(events: seq<WebhookEvent>): seq<FairSelection.Item> {
    seq(|events|, k requires 0 <= k < |events| => events[k].Item())
  }

  /** The ready rows in the order the table stores them. */
  function ReadyIn(rows: map<EventId, Row>, table: seq<EventId>, now: Time): seq<FairSelection.Item> {
    if table == [] then []
    else
      var id := table[|table| - 1];
      ReadyIn(rows, table[..|table| - 1], now)
      + if id in rows && Ready(rows[id], now) then [ItemOf(id, rows[id])] else []
  }

  lemma {:induction false} ReadyInMembers(rows: map<EventId, Row>, table: seq<EventId>, now: Time)
    requires Distinct(table)
    ensures Distinct(ReadyIn(rows, table, now))
    ensures forall x :: x in ReadyIn(rows, table, now) <==>
              x.id in table && x.id in rows && Ready(rows[x.id], now) && x == ItemOf(x.id, rows[x.id])
  {
    if table != [] {
      var init, id := table[..|table| - 1], table[|table| - 1];
      SplitLast(table);
      ReadyInMembers(rows, init, now);
      var before := ReadyIn(rows, init, now);
      forall k | 0 <= k < |before| ensures before[k].id != id {
        assert before[k] in before;
      }
    }
  }

  function StalledIds(rows: map<EventId, Row>, now: Time, timeout: Duration): set<EventId> {
    set id | id in rows && Stalled(rows[id], now, timeout)
  }

  /** The rows the retry check may notify about, in the order the table stores them. */
  function DueIn(rows: map<EventId, Row>, table: seq<EventId>, now: Time): seq<EventId> {
    if table == [] then []
    else
      var id := table[|table| - 1];
      DueIn(rows, table[..|table| - 1], now) + if id in rows && RetryReady(rows[id], now) then [id] else []
  }

  lemma {:induction false} DueInMembers(rows: map<EventId, Row>, table: seq<EventId>, now: Time)
    requires Distinct(table)
    ensures Distinct(DueIn(rows, table, now))
    ensures forall id :: id in DueIn(rows, table, now) <==> id in table && id in RetryReadySet(rows, now)
  {
    if table != [] {
      SplitLast(table);
      DueInMembers(rows, table[..|table| - 1], now);
    }
  }

  class WebhookRepository {
    var rows: map<EventId, Row>
    /** The order in which an unordered query meets the rows. */
    var table: seq<EventId>
    var nextID: EventId

    ghost predicate Valid()
      reads this
    {
      && Distinct(table)
      && (forall id :: id in table <==> id in rows)
      && (forall id :: id in rows ==> id < nextID)
    }

    constructor ()
      ensures Valid() && rows == map[]
    {
      rows, table, nextID := map[], [], 0;
    }

    method StoreEvent(webhook: WebhookId, now: Time) returns (id: EventId)
      requires Valid()
      modifies this
      ensures Valid() && id !in old(rows)
      ensures rows == old(rows)[id := Row(webhook, Pending, 0, now, None, None, None, None)]
    {
      id := nextID;
      assert id !in table;
      nextID := nextID + 1;
      rows, table := rows[id := NewRow(webhook, now)], table + [id];
    }

    method UpdateEventAttempts(id: EventId, attempts: nat, now: Time)
      requires Valid()
      modifies this`rows
      ensures Valid()
      ensures rows ==
              if id in old(rows) then
                old(rows)[id := old(rows)[id].(attempts := attempts, lastAttemptAt := Some(now))]
              else old(rows)
    {
      if id in rows {
        rows := rows[id := SetAttempts(rows[id], attempts, now)];
      }
    }

    method UpdateEventStatus(id: EventId, status: Status)
      requires Valid()
      modifies this`rows
      ensures Valid()
      ensures rows == if id in old(rows) then old(rows)[id := old(rows)[id].(status := status)] else old(rows)
    {
      if id in rows {
        rows := rows[id := rows[id].(status := status)];
      }
    }

    method ReleaseEvent(id: EventId)
      requires Valid()
      modifies this`rows
      ensures Valid()
      ensures rows ==
              if id in old(rows) then
                old(rows)[id := old(rows)[id].(status := Pending, instance := None, startedAt := None)]
              else old(rows)
    {
      if id in rows {
        rows := rows[id := ToPending(rows[id])];
      }
    }

    /** Fails when no row has that ID. */
    method UpdateRetrySchedule(id: EventId, delay: Duration, now: Time) returns (ok: bool)
      requires Valid()
      modifies this`rows
      ensures Valid() && ok == (id in old(rows))
      ensures !ok ==> rows == old(rows)
      ensures ok ==>
                rows == old(rows)[id := old(rows)[id].(
                          status := Pending, instance := None, startedAt := None,
                          lastAttemptAt := Some(now), nextAttemptAt := Some(now + delay))]
    {
      if id !in rows {
        return false;
      }
      rows := rows[id := SetRetry(rows[id], now, delay)];
      return true;
    }

    method UpdateStalledEventsToPending(timeout: Duration, now: Time) returns (count: nat)
      requires Valid()
      modifies this`rows
      ensures Valid() && rows.Keys == old(rows).Keys && count == |StalledIds(old(rows), now, timeout)|
      ensures StalledIds(rows, now, timeout) == {}
      ensures forall id :: id in rows ==>
                var row := old(rows)[id];
                && (id in StalledIds(old(rows), now, timeout) <==>
                      row.status.Processing? && row.startedAt.Some? && row.startedAt.value < now - timeout)
                && rows[id] == if id !in StalledIds(old(rows), now, timeout) then row
                               else row.(status := Pending, instance := None, startedAt := None)
    {
      var stalled := StalledIds(rows, now, timeout);
      rows := map id | id in rows :: if id in stalled then ToPending(rows[id]) else rows[id];
      return |stalled|;
    }

    /** Claims one row if it is pending and no other transaction has locked it, whatever its retry time says. */
    method GetAndMarkEventByID(id: EventId, instance: InstanceId, now: Time, locked: set<EventId>)
        returns (event: Option<WebhookEvent>)
      requires Valid()
      modifies this`rows
      ensures Valid() && (event.Some? <==> id in old(rows) && old(rows)[id].status.Pending? && id !in locked)
      ensures event.None? ==> unchanged(this)
      ensures event.Some? ==>
                && event.value == Scan(id, old(rows)[id]).(processingInstance := Some(instance))
                && rows == old(rows)[id := rows[id]]
                && IsClaim(id, old(rows)[id], rows[id], instance, now, event.value)
    {
      if id !in rows || !rows[id].status.Pending? || id in locked {
        return None;
      }
      var scanned := Scan(id, rows[id]);
      rows := rows[id := MarkProcessing(rows[id], instance, now)];
      return Some(scanned.(processingInstance := Some(instance)));
    }

    method MarkEventsProcessing(ids: seq<EventId>, instance: InstanceId, now: Time)
      requires Valid()
      modifies this`rows
      ensures Valid() && rows.Keys == old(rows).Keys
      ensures forall id :: id in rows ==>
                var row := old(rows)[id];
                rows[id] == if id !in ids then row
                            else row.(status := Processing, instance := Some(instance), startedAt := Some(now),
                                      attempts := row.attempts + 1)
    {
      rows := map id | id in rows :: if id in ids then MarkProcessing(rows[id], instance, now) else rows[id];
    }

    /** The copies of the selected rows and their IDs, in the order of the selection. */
    method PrepareEventsFromRows(batch: seq<FairSelection.Item>)
        returns (events: seq<WebhookEvent>, ids: seq<EventId>)
      requires forall x :: x in batch ==> x.id in rows && x == ItemOf(x.id, rows[x.id])
      ensures Items(events) == batch && |ids| == |events|
      ensures forall k :: 0 <= k < |events| ==>
                && ids[k] == events[k].id && ids[k] in rows && events[k] == Scan(ids[k], rows[ids[k]])
                && events[k].attempts == rows[ids[k]].attempts && events[k].webhook == rows[ids[k]].webhook
    {
      events, ids := [], [];
      for k := 0 to |batch|
        invariant |events| == |ids| == k
        invariant forall j :: 0 <= j < k ==>
                    && ids[j] == events[j].id && ids[j] in rows
                    && events[j] == Scan(ids[j], rows[ids[j]]) && events[j].Item() == batch[j]
      {
        assert batch[k] in batch;
        var id := batch[k].id;
        events, ids := events + [Scan(id, rows[id])], ids + [id];
      }
      assert Items(events) == batch;
    }

    /** Selects a fair batch of ready rows that nobody has locked, and claims all of them. */
    method GetAndMarkEventsForProcessing(limit: int, instance: InstanceId, now: Time, locked: set<EventId>)
        returns (events: seq<WebhookEvent>)
      requires Valid()
      modifies this`rows
      ensures Valid() && rows.Keys == old(rows).Keys
      ensures FairSelection.IsBatch(ReadySet(old(rows), now), limit, locked, Items(events))
      ensures forall j, k :: 0 <= j < k < |events| ==> events[j].id != events[k].id
      ensures forall k :: 0 <= k < |events| ==>
                && events[k].id in rows
                && events[k] == Scan(events[k].id, old(rows)[events[k].id])
                && IsClaim(events[k].id, old(rows)[events[k].id], rows[events[k].id], instance, now, events[k])
                && events[k].processingInstance == old(rows)[events[k].id].instance
      ensures forall id :: id in rows && (forall k :: 0 <= k < |events| ==> events[k].id != id) ==>
                rows[id] == old(rows)[id]
    {
      var ready := ReadyIn(rows, table, now);
      ReadyInMembers(rows, table, now);
      assert Elements(ready) == ReadySet(rows, now);
      FairSelection.QueryIsBatch(ready, limit, locked);
      var batch := FairSelection.Query(ready, limit, locked);
      FairSelection.BatchRows(ReadySet(rows, now), limit, locked, batch);
      var ids;
      events, ids := PrepareEventsFromRows(batch);
      forall j, k | 0 <= j < k < |events| ensures ids[j] != ids[k] {
        assert Items(events)[j] == events[j].Item() && Items(events)[k] == events[k].Item();
      }
      if |events| == 0 {
        return;
      }
      MarkEventsProcessing(ids, instance, now);
    }

    /** The retry check: notifies about due rows, up to its limit, and counts them. */
    method CheckRetryEvents(now: Time) returns (processedCount: nat, notified: set<EventId>)
      requires Valid()
      ensures notified <= RetryReadySet(rows, now)
      ensures processedCount == |notified| == Min(50, |RetryReadySet(rows, now)|)
    {
      var due := DueIn(rows, table, now);
      DueInMembers(rows, table, now);
      assert Elements(due) == RetryReadySet(rows, now);
      var cursor := if |due| <= RETRY_CHECK_LIMIT then due else due[..RETRY_CHECK_LIMIT];
      ElementsSize(due);
      ElementsSize(cursor);
      processedCount, notified := 0, {};
      for k := 0 to |cursor|
        invariant processedCount == k && notified == Elements(cursor[..k])
      {
        processedCount, notified := processedCount + 1, notified + {cursor[k]};
        assert cursor[..k + 1] == cursor[..k] + [cursor[k]];
      }
      assert cursor[..|cursor|] == cursor;
      forall id | id in notified ensures id in RetryReadySet(rows, now) {
        assert id in due;
      }
    }
  }
}
