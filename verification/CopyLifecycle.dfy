/** One event over its whole life: its row, the in-memory copies the instances hold of it, and
    what has happened so far. Every step of the service acts on one event by one `Op`. */
module CopyLifecycle {
  import opened Types
  import opened EventRows
  import Backoff

  datatype Config = Config(
    maxRetries: int,
    initialDelay: Duration,
    maxDelay: Duration,
    queueCapacity: nat,
    pollLimit: int)

  datatype Via = Listener | Poller

  /** Where a copy is: with the goroutine that claimed it, in the instance's queue, with a worker
      before delivery, or with a worker that still has to write the outcome. */
  datatype Phase =
    | Held(via: Via)
    | Queued
    | Picked
    | Settling(verdict: Status)
    | Bumping
    | Scheduling
  {
    predicate Delivered() {
      Settling? || Bumping? || Scheduling?
    }
  }

  datatype Copy = Copy(instance: InstanceId, attempts: nat, claimedAt: Time, phase: Phase) {
    function AttemptCount(): nat {
      attempts + 1
    }
  }

  /** One execution of `UpdateRetrySchedule`. */
  datatype Retry = Retry(at: Time, count: nat, draw: real, wild: int) {
    function NextAttempt(cfg: Config): Time
      requires count >= 1
    {
      at + RetryDelay(cfg, count, draw, wild)
    }
  }

  /** `lost` counts lost copies, `overtaken` the sweeps that returned the row although a copy was alive. */
  datatype Log = Log(
    claims: nat,
    processed: nat,
    released: nat,
    lost: nat,
    overtaken: nat,
    deliveries: nat,
    successes: nat,
    retries: seq<Retry>)

  /** The copy made by claim number `k` (from 0) is `copies[k]`, as long as it lives. */
  datatype Event = Event(row: Row, copies: map<nat, Copy>, log: Log)

  function NewEvent(webhook: WebhookId, now: Time): Event {
    Event(NewRow(webhook, now), map[], Log(0, 0, 0, 0, 0, 0, 0, []))
  }

  datatype Op =
    | Claim(instance: InstanceId, via: Via)
    | Release(k: nat)
    | Enqueue(k: nat)
    | HandOff(k: nat)
    | Pick(k: nat)
    | MissConfig(k: nat)
    | Deliver(k: nat, success: bool)
    | Settle(k: nat)
    | Bump(k: nat, stored: bool)
    | Reschedule(k: nat, draw: real, wild: int)
    | FailReschedule(k: nat)
    | Sweep
    | Lose(ks: set<nat>)

  predicate Enabled(now: Time, ev: Event, op: Op) {
    match op
    case Claim(_, _) => ev.row.status.Pending?
    case Release(k) => k in ev.copies && ev.copies[k].phase.Held?
    case Enqueue(k) => k in ev.copies && ev.copies[k].phase.Held?
    case HandOff(k) => k in ev.copies && ev.copies[k].phase.Held?
    case Pick(k) => k in ev.copies && ev.copies[k].phase.Queued?
    case MissConfig(k) => k in ev.copies && ev.copies[k].phase.Picked?
    case Deliver(k, _) => k in ev.copies && ev.copies[k].phase.Picked?
    case Settle(k) => k in ev.copies && ev.copies[k].phase.Settling?
    case Bump(k, _) => k in ev.copies && ev.copies[k].phase.Bumping?
    case Reschedule(k, draw, _) =>
      k in ev.copies && ev.copies[k].phase.Scheduling? && Backoff.IsDraw(draw)
    case FailReschedule(k) => k in ev.copies && ev.copies[k].phase.Scheduling?
    case Sweep => Stalled(ev.row, now, STALL_TIMEOUT)
    case Lose(ks) => ks <= ev.copies.Keys
  }

  function WithPhase(ev: Event, k: nat, phase: Phase): Event
    requires k in ev.copies
  {
    ev.(copies := ev.copies[k := ev.copies[k].(phase := phase)])
  }

  /** The phase `processEvent` goes to when a delivery has returned. */
  function AfterDelivery(cfg: Config, count: nat, success: bool): Phase {
    if success then Settling(Succeeded)
    else if count >= cfg.maxRetries then Settling(Failed)
    else Bumping
  }

  function RetryDelay(cfg: Config, count: nat, draw: real, wild: int): Duration
    requires count >= 1
  {
    Backoff.CalculateBackoff(count, cfg.initialDelay, cfg.maxDelay, draw, wild)
  }

  function Apply(cfg: Config, now: Time, ev: Event, op: Op): Event
    requires Enabled(now, ev, op)
  {
    match op
    case Claim(i, via) =>
      Event(MarkProcessing(ev.row, i, now),
            ev.copies[ev.log.claims := Copy(i, ev.row.attempts, now, Held(via))],
            ev.log.(claims := ev.log.claims + 1))
    case Release(k) =>
      Event(ToPending(ev.row), ev.copies - {k}, ev.log.(released := ev.log.released + 1))
    case Enqueue(k) => WithPhase(ev, k, Queued)
    case HandOff(k) => WithPhase(ev, k, Picked)
    case Pick(k) => WithPhase(ev, k, Picked)
    case MissConfig(k) => WithPhase(ev, k, Settling(Failed))
    case Deliver(k, success) =>
      WithPhase(ev, k, AfterDelivery(cfg, ev.copies[k].AttemptCount(), success)).(
        log := ev.log.(deliveries := ev.log.deliveries + 1,
                       successes := ev.log.successes + One(success)))
    case Settle(k) =>
      Event(ev.row.(status := ev.copies[k].phase.verdict), ev.copies - {k},
            ev.log.(processed := ev.log.processed + 1))
    case Bump(k, stored) =>
      WithPhase(ev, k, Scheduling).(
        row := if stored then SetAttempts(ev.row, ev.copies[k].AttemptCount(), now) else ev.row)
    case Reschedule(k, draw, wild) =>
      var count := ev.copies[k].AttemptCount();
      Event(SetRetry(ev.row, now, RetryDelay(cfg, count, draw, wild)), ev.copies - {k},
            ev.log.(processed := ev.log.processed + 1, retries := ev.log.retries + [Retry(now, count, draw, wild)]))
    case FailReschedule(k) => WithPhase(ev, k, Settling(Failed))
    case Sweep =>
      ev.(row := ToPending(ev.row), log := ev.log.(overtaken := ev.log.overtaken + One(ev.copies != map[])))
    case Lose(ks) => ev.(copies := ev.copies - ks, log := ev.log.(lost := ev.log.lost + |ks|))
  }

  /** Whether the step runs an UPDATE on the row, so that the row trigger fires. */
  predicate Updates(op: Op) {
    op.Claim? || op.Release? || op.Settle? || (op.Bump? && op.stored) || op.Reschedule? || op.Sweep?
  }

  /** The life of a copy: it is held, then queued or handed over, picked, delivered once or found without
      configuration, and then settled, or bumped and scheduled. */
  predicate ComesAfter(before: Phase, after: Phase) {
    match before
    case Held(_) => after.Queued? || after.Picked?
    case Queued => after.Picked?
    case Picked => after.Bumping? || after.Settling?
    case Bumping => after.Scheduling?
    case Scheduling => after == Settling(Failed)
    case Settling(_) => false
  }

  /** A step moves a copy on in this order or not at all. It ends a copy that is held, settling or
      scheduled, or loses it; and only a delivery, which finds the copy picked, counts as one. */
  lemma CopyMovesOn(cfg: Config, now: Time, ev: Event, op: Op, k: nat)
    requires Sane(ev) && Enabled(now, ev, op) && k in ev.copies
    ensures var ev' := Apply(cfg, now, ev, op);
            && (k in ev'.copies ==>
                  && ev'.copies[k].(phase := ev.copies[k].phase) == ev.copies[k]
                  && (ev'.copies[k].phase == ev.copies[k].phase || ComesAfter(ev.copies[k].phase, ev'.copies[k].phase)))
            && (k !in ev'.copies && !op.Lose? ==>
                  ev.copies[k].phase.Held? || ev.copies[k].phase.Settling? || ev.copies[k].phase.Scheduling?)
            && (ev'.log.deliveries != ev.log.deliveries ==>
                  && ev'.log.deliveries == ev.log.deliveries + 1
                  && op.Deliver? && ev.copies[op.k].phase.Picked? && !ev'.copies[op.k].phase.Picked?)
  {
  }

  // ----- What holds in every run, stale copies included

  predicate Sane(ev: Event) {
    && (forall k :: k in ev.copies ==> k < ev.log.claims)
    && (forall k :: k in ev.copies && ev.copies[k].phase.Settling? ==> ev.copies[k].phase.verdict.Terminal())
    && ev.log.claims == ev.log.processed + ev.log.released + ev.log.lost + |ev.copies|
    && (ev.row.status.Pending? ==> ev.row.instance.None? && ev.row.startedAt.None?)
    && (ev.row.status.Processing? ==> ev.row.instance.Some? && ev.row.startedAt.Some?)
    && (ev.row.status.Succeeded? ==> ev.log.successes >= 1)
    && (forall k :: k in ev.copies && ev.copies[k].phase == Settling(Succeeded) ==> ev.log.successes >= 1)
  }

  lemma StepSane(cfg: Config, now: Time, ev: Event, op: Op)
    requires Sane(ev) && Enabled(now, ev, op)
    ensures Sane(Apply(cfg, now, ev, op))
  {
    StepCounts(cfg, now, ev, op);
  }

  lemma StepCounts(cfg: Config, now: Time, ev: Event, op: Op)
    requires Sane(ev) && Enabled(now, ev, op)
    ensures var log, copies := Apply(cfg, now, ev, op).log, Apply(cfg, now, ev, op).copies;
            log.claims == log.processed + log.released + log.lost + |copies|
  {
    var copies := Apply(cfg, now, ev, op).copies;
    if op.Claim? {
      assert ev.log.claims !in ev.copies;
      assert |copies| == |ev.copies| + 1;
    } else if op.Lose? {
      RemoveCopies(ev.copies, op.ks);
    } else if op.Release? || op.Settle? || op.Reschedule? {
      RemoveCopies(ev.copies, {op.k});
    } else {
      assert |copies| == |ev.copies|;
    }
  }

  /** The copies that may still be delivered successfully, or hand the event on to another delivery. */
  function Unsettled(ev: Event): set<nat> {
    set k | k in ev.copies && !ev.copies[k].phase.Settling?
  }

  /** How many chances an event has to be settled by a delivery: its unsettled copies, and a row that
      can still be claimed. */
  function Chances(ev: Event): nat {
    |Unsettled(ev)| + One(ev.row.status.Pending?) + One(ev.row.status.Processing? && ev.copies == map[])
  }

  /** The step is a delivery after which the event is not retried. */
  predicate Settles(cfg: Config, ev: Event, op: Op) {
    op.Deliver? && op.k in ev.copies && AfterDelivery(cfg, ev.copies[op.k].AttemptCount(), op.success).Settling?
  }

  /** A lost copy, or a sweep that overtakes a copy, gives one more chance; a delivery that settles takes one. */
  lemma StepChances(cfg: Config, now: Time, ev: Event, op: Op)
    requires Sane(ev) && Enabled(now, ev, op)
    ensures var ev' := Apply(cfg, now, ev, op);
            Chances(ev') + One(Settles(cfg, ev, op)) <=
            Chances(ev) + (ev'.log.lost - ev.log.lost) + (ev'.log.overtaken - ev.log.overtaken)
  {
    StepUnsettled(cfg, now, ev, op);
    if op.Lose? && op.ks != {} {
      var k :| k in op.ks;
      SubsetSize({k}, op.ks);
    }
  }

  /** How many successful deliveries there can be: a first one, and another for each copy that was lost
      and each sweep that overtook a copy. */
  predicate SuccessesCovered(ev: Event) {
    ev.log.successes + Chances(ev) <= 1 + ev.log.lost + ev.log.overtaken
  }

  lemma StepSuccessesCovered(cfg: Config, now: Time, ev: Event, op: Op)
    requires Sane(ev) && SuccessesCovered(ev) && Enabled(now, ev, op)
    ensures SuccessesCovered(Apply(cfg, now, ev, op))
  {
    StepChances(cfg, now, ev, op);
  }

  /** By how much a step changes the number of unsettled copies, at most. */
  function UnsettledChange(cfg: Config, ev: Event, op: Op): int {
    match op
    case Claim(_, _) => 1
    case Release(_) => -1
    case MissConfig(_) => -1
    case Deliver(k, success) =>
      if k in ev.copies && AfterDelivery(cfg, ev.copies[k].AttemptCount(), success).Settling? then -1 else 0
    case Reschedule(_, _, _) => -1
    case FailReschedule(_) => -1
    case _ => 0
  }

  lemma StepUnsettled(cfg: Config, now: Time, ev: Event, op: Op)
    requires Sane(ev) && Enabled(now, ev, op)
    ensures |Unsettled(Apply(cfg, now, ev, op))| <= |Unsettled(ev)| + UnsettledChange(cfg, ev, op)
  {
    if op.Claim? {
      assert Unsettled(Apply(cfg, now, ev, op)) == Unsettled(ev) + {ev.log.claims};
    } else if UnsettledChange(cfg, ev, op) == -1 {
      OneUnsettledLess(cfg, now, ev, op);
    } else {
      NoMoreUnsettled(cfg, now, ev, op);
    }
  }

  lemma OneUnsettledLess(cfg: Config, now: Time, ev: Event, op: Op)
    requires Enabled(now, ev, op) && UnsettledChange(cfg, ev, op) == -1
    ensures |Unsettled(Apply(cfg, now, ev, op))| == |Unsettled(ev)| - 1
  {
    assert op.k in Unsettled(ev);
    assert Unsettled(Apply(cfg, now, ev, op)) == Unsettled(ev) - {op.k};
  }

  lemma NoMoreUnsettled(cfg: Config, now: Time, ev: Event, op: Op)
    requires Enabled(now, ev, op) && UnsettledChange(cfg, ev, op) == 0
    ensures |Unsettled(Apply(cfg, now, ev, op))| <= |Unsettled(ev)|
  {
    forall k | k in Unsettled(Apply(cfg, now, ev, op)) ensures k in Unsettled(ev) {
    }
    SubsetSize(Unsettled(Apply(cfg, now, ev, op)), Unsettled(ev));
  }

  // ----- Deliveries that are followed by a retry

  /** How often an event can be delivered and retried from a row with `attempts` on. A copy that was
      overtaken may put the attempts back to its own number once, so each number doubles what follows. */
  function Weight(cfg: Config, attempts: nat): nat {
    Backoff.Pow2(Max(0, cfg.maxRetries - 1 - attempts)) - 1
  }

  /** What a copy can add: its own delivery, if a retry may follow, and what follows its attempts write. */
  function CopyWeight(cfg: Config, copy: Copy): nat {
    match copy.phase
    case Bumping => Weight(cfg, copy.AttemptCount())
    case Scheduling => 0
    case Settling(_) => 0
    case _ => Weight(cfg, copy.AttemptCount()) + One(copy.AttemptCount() < cfg.maxRetries)
  }

  /** What the copies of the first `n` claims can add. */
  function CopiesWeight(cfg: Config, copies: map<nat, Copy>, n: nat): nat {
    if n == 0 then 0
    else CopiesWeight(cfg, copies, n - 1) + if n - 1 in copies then CopyWeight(cfg, copies[n - 1]) else 0
  }

  function RetriesLeft(cfg: Config, ev: Event): nat {
    Weight(cfg, ev.row.attempts) + CopiesWeight(cfg, ev.copies, ev.log.claims)
  }

  lemma ClaimWeight(cfg: Config, attempts: nat)
    ensures Weight(cfg, attempts) >= 2 * Weight(cfg, attempts + 1) + One(attempts + 1 < cfg.maxRetries)
  {
  }

  /** Fewer or lighter copies weigh less. */
  lemma {:induction false} LighterCopies(cfg: Config, a: map<nat, Copy>, b: map<nat, Copy>, n: nat)
    requires forall k :: k in b && k < n ==> k in a && CopyWeight(cfg, b[k]) <= CopyWeight(cfg, a[k])
    ensures CopiesWeight(cfg, b, n) <= CopiesWeight(cfg, a, n)
  {
    if n > 0 {
      LighterCopies(cfg, a, b, n - 1);
    }
  }

  /** Where only copy `k` becomes lighter, the sum drops by as much. */
  lemma {:induction false} OneLighter(cfg: Config, a: map<nat, Copy>, b: map<nat, Copy>, k: nat, n: nat)
    requires k < n && k in a && forall j :: j in b && j < n && j != k ==> j in a && b[j] == a[j]
    ensures CopiesWeight(cfg, b, n) + CopyWeight(cfg, a[k]) <=
            CopiesWeight(cfg, a, n) + if k in b then CopyWeight(cfg, b[k]) else 0
  {
    if k == n - 1 {
      LighterCopies(cfg, a, b, k);
    } else {
      OneLighter(cfg, a, b, k, n - 1);
    }
  }

  /** The step is a delivery after which the event is to be retried. */
  predicate Retries(cfg: Config, ev: Event, op: Op) {
    op.Deliver? && !Settles(cfg, ev, op)
  }

  /** No step adds to the retries that are left, and a delivery before a retry uses one up. */
  lemma StepRetriesLeft(cfg: Config, now: Time, ev: Event, op: Op)
    requires Sane(ev) && Enabled(now, ev, op)
    ensures RetriesLeft(cfg, Apply(cfg, now, ev, op)) + One(Retries(cfg, ev, op)) <= RetriesLeft(cfg, ev)
  {
    if op.Claim? {
      ClaimRetriesLeft(cfg, now, ev, op);
    } else if op.Sweep? || op.Lose? {
      LighterCopies(cfg, ev.copies, Apply(cfg, now, ev, op).copies, ev.log.claims);
    } else {
      CopyRetriesLeft(cfg, now, ev, op);
    }
  }

  lemma ClaimRetriesLeft(cfg: Config, now: Time, ev: Event, op: Op)
    requires Enabled(now, ev, op) && op.Claim?
    ensures RetriesLeft(cfg, Apply(cfg, now, ev, op)) <= RetriesLeft(cfg, ev)
  {
    ClaimWeight(cfg, ev.row.attempts);
    LighterCopies(cfg, ev.copies, Apply(cfg, now, ev, op).copies, ev.log.claims);
  }

  /** A step of one copy. */
  lemma CopyRetriesLeft(cfg: Config, now: Time, ev: Event, op: Op)
    requires Sane(ev) && Enabled(now, ev, op) && !op.Claim? && !op.Sweep? && !op.Lose?
    ensures RetriesLeft(cfg, Apply(cfg, now, ev, op)) + One(Retries(cfg, ev, op)) <= RetriesLeft(cfg, ev)
  {
    OneLighter(cfg, ev.copies, Apply(cfg, now, ev, op).copies, op.k, ev.log.claims);
  }

  /** How many deliveries there can be: those that settle, and those that a retry follows. */
  predicate DeliveriesCovered(cfg: Config, ev: Event) {
    ev.log.deliveries + Chances(ev) + RetriesLeft(cfg, ev) <= 1 + ev.log.lost + ev.log.overtaken + Weight(cfg, 0)
  }

  lemma StepDeliveriesCovered(cfg: Config, now: Time, ev: Event, op: Op)
    requires Sane(ev) && DeliveriesCovered(cfg, ev) && Enabled(now, ev, op)
    ensures DeliveriesCovered(cfg, Apply(cfg, now, ev, op))
  {
    StepChances(cfg, now, ev, op);
    StepRetriesLeft(cfg, now, ev, op);
  }

  lemma RemoveCopies(copies: map<nat, Copy>, ks: set<nat>)
    requires ks <= copies.Keys
    ensures |copies - ks| == |copies| - |ks|
  {
  }
}
