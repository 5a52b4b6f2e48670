/** One row of `webhook_events` and what each SQL statement does to it. */
module EventRows {
  import opened Types
  import FairSelection

  datatype Status = Pending | Processing | Succeeded | Failed {
    predicate Terminal() {
      Succeeded? || Failed?
    }
  }

  datatype Row = Row(
    webhook: WebhookId,
    status: Status,
    attempts: nat,
    createdAt: Time,
    lastAttemptAt: Option<Time>,
    nextAttemptAt: Option<Time>,
    instance: Option<InstanceId>,
    startedAt: Option<Time>)

  /** Three minutes. */
  const STALL_TIMEOUT: Duration := 180_000_000_000

  /** Half a second: how long a listener waits for room in the queue. */
  const ENQUEUE_TIMEOUT: Duration := 500_000_000

  /** How many rows one run of `check_retry_events` notifies about at most. */
  const RETRY_CHECK_LIMIT: nat := 50

  function NewRow(webhook: WebhookId, now: Time): Row {
    Row(webhook, Pending, 0, now, None, None, None, None)
  }

  function MarkProcessing(row: Row, instance: InstanceId, now: Time): Row {
    row.(status := Processing, instance := Some(instance), startedAt := Some(now), attempts := row.attempts + 1)
  }

  /** Back to pending without an owner: a release, and also what the sweep does to a stalled row. */
  function ToPending(row: Row): Row {
    row.(status := Pending, instance := None, startedAt := None)
  }

  function SetRetry(row: Row, now: Time, delay: Duration): Row {
    ToPending(row).(lastAttemptAt := Some(now), nextAttemptAt := Some(now + delay))
  }

  function SetAttempts(row: Row, attempts: nat, now: Time): Row {
    row.(attempts := attempts, lastAttemptAt := Some(now))
  }

  predicate Stalled(row: Row, now: Time, timeout: Duration) {
    row.status.Processing? && row.startedAt.Some? && row.startedAt.value < now - timeout
  }

  predicate Due(row: Row, now: Time) {
    row.nextAttemptAt.None? || row.nextAttemptAt.value <= now
  }

  /** The rows the polling query may take. */
  predicate Ready(row: Row, now: Time) {
    row.status.Pending? && Due(row, now)
  }

  /** What the polling query sees of a row. */
  function ItemOf(id: EventId, row: Row): FairSelection.Item {
    FairSelection.Item(id, row.webhook, row.nextAttemptAt, row.createdAt)
  }

  /** The rows `check_retry_events` notifies about, with its owner and age filter. */
  predicate RetryReady(row: Row, now: Time) {
    && Ready(row, now)
    && row.nextAttemptAt.Some?
    && (row.instance.None? || (row.startedAt.Some? && row.startedAt.value < now - STALL_TIMEOUT))
  }

  function ReadySet(rows: map<EventId, Row>, now: Time): set<FairSelection.Item> {
    set id | id in rows && Ready(rows[id], now) :: ItemOf(id, rows[id])
  }

  function RetryReadySet(rows: map<EventId, Row>, now: Time): set<EventId> {
    set id | id in rows && RetryReady(rows[id], now)
  }

  /** Whether the row trigger notifies about a row that was inserted or updated. */
  predicate Notifies(inserted: bool, row: Row, now: Time) {
    (inserted || row.status.Pending?) && Due(row, now)
  }
}
