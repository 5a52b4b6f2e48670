/** What the sweep's timeout buys: as long as no sweep meets a copy that is still alive after the
    timeout, a row and its only copy move in step. Each lemma is about one step on one event. */
module Ownership {
  import opened Types
  import opened EventRows
  import opened CopyLifecycle
  import Backoff

  /** A copy only exists while its row is processing, there is one at most, the row names its
      holder, and the row has counted its claim. */
  ghost predicate Exclusive(ev: Event) {
    && (ev.copies != map[] ==> ev.row.status.Processing?)
    && (forall j, k :: j in ev.copies && k in ev.copies ==> j == k)
    && (forall k :: k in ev.copies ==>
          && ev.row.instance == Some(ev.copies[k].instance)
          && ev.copies[k].AttemptCount() == ev.row.attempts)
  }

  /** The inductive form of `Exclusive`: the copy is that of the last claim, and `attempts` counts claims. */
  ghost predicate Owned(ev: Event) {
    && ev.row.attempts == ev.log.claims
    && (forall k :: k in ev.copies ==>
          && k + 1 == ev.log.claims
          && ev.row.status.Processing?
          && ev.row.instance == Some(ev.copies[k].instance)
          && ev.row.startedAt == Some(ev.copies[k].claimedAt)
          && ev.copies[k].AttemptCount() == ev.row.attempts)
  }

  /** No live copy, queued ones included, has outlived the stall timeout. */
  ghost predicate NoStaleCopy(now: Time, ev: Event) {
    forall k :: k in ev.copies ==> now - ev.copies[k].claimedAt <= STALL_TIMEOUT
  }

  lemma OwnedIsExclusive(ev: Event)
    requires Owned(ev)
    ensures Exclusive(ev)
  {
  }

  /** Ownership survives every step except exactly a sweep that meets a stale copy. */
  lemma StepOwned(cfg: Config, now: Time, ev: Event, op: Op)
    requires Sane(ev) && Owned(ev) && Enabled(now, ev, op)
    ensures var ev' := Apply(cfg, now, ev, op);
            && (op.Sweep? && !NoStaleCopy(now, ev) ==> !Exclusive(ev'))
            && (op.Sweep? ==> NoStaleCopy(now, ev) ==> ev.copies == map[])
            && ((op.Sweep? ==> NoStaleCopy(now, ev)) ==> Owned(ev'))
  {
  }

  /** The copy of the last claim, if it lives. */
  function Current(ev: Event): Option<Copy> {
    if ev.log.claims >= 1 && ev.log.claims - 1 in ev.copies then Some(ev.copies[ev.log.claims - 1]) else None
  }

  /** How often an event can have been delivered. A delivery is followed by a retry, by a terminal
      status, by a loss, or is still being written down. */
  ghost predicate WithinBudget(cfg: Config, ev: Event) {
    var retries := |ev.log.retries|;
    var live := Current(ev);
    && retries + One(live.Some?) <= ev.row.attempts
    && retries <= Max(0, cfg.maxRetries - 1)
    && ev.log.deliveries <=
       retries + ev.log.lost + One(live.Some? && live.value.phase.Delivered()) + One(ev.row.status.Terminal())
    && ev.log.successes <=
       ev.log.lost + One(live.Some? && live.value.phase == Settling(Succeeded)) + One(ev.row.status.Succeeded?)
    && (live.Some? && (live.value.phase.Bumping? || live.value.phase.Scheduling?) ==>
          live.value.AttemptCount() < cfg.maxRetries)
  }

  lemma StepWithinBudget(cfg: Config, now: Time, ev: Event, op: Op)
    requires Sane(ev) && Owned(ev) && WithinBudget(cfg, ev) && Enabled(now, ev, op)
    requires op.Sweep? ==> NoStaleCopy(now, ev)
    ensures WithinBudget(cfg, Apply(cfg, now, ev, op))
  {
    StepOwned(cfg, now, ev, op);
    if op.Lose? && op.ks != {} {
      var k :| k in op.ks;
      assert |op.ks| >= 1;
    }
  }

  /** An event is delivered at most max(1, maxRetries) times, plus once for each copy that was lost. */
  lemma DeliveryBound(cfg: Config, ev: Event)
    requires Owned(ev) && WithinBudget(cfg, ev)
    ensures ev.log.deliveries <= Max(1, cfg.maxRetries) + ev.log.lost
    ensures ev.log.successes <= 1 + ev.log.lost
  {
  }

  /** The delays of all attempts that can be retried fit the integer they are converted to. */
  predicate BackoffInRange(cfg: Config) {
    cfg.maxRetries >= 2 ==> Backoff.InRange(cfg.maxRetries - 1, cfg.initialDelay, cfg.maxDelay)
  }

  ghost predicate RetriesInOrder(cfg: Config, now: Time, ev: Event) {
    var rs := ev.log.retries;
    && (forall i :: 0 <= i < |rs| ==> 1 <= rs[i].count < cfg.maxRetries && Backoff.IsDraw(rs[i].draw))
    && (forall i, j :: 0 <= i < j < |rs| ==> rs[i].at <= rs[j].at && rs[i].count < rs[j].count)
    && (rs == [] ==> ev.row.nextAttemptAt.None?)
    && (rs != [] ==>
          var last := rs[|rs| - 1];
          && last.at <= now
          && last.count + One(Current(ev).Some?) <= ev.row.attempts
          && ev.row.nextAttemptAt == Some(last.NextAttempt(cfg)))
  }

  lemma StepRetriesInOrder(cfg: Config, now: Time, ev: Event, op: Op)
    requires Sane(ev) && Owned(ev) && WithinBudget(cfg, ev) && RetriesInOrder(cfg, now, ev) && Enabled(now, ev, op)
    requires op.Sweep? ==> NoStaleCopy(now, ev)
    ensures RetriesInOrder(cfg, now, Apply(cfg, now, ev, op))
  {
    if op.Reschedule? {
      RescheduleInOrder(cfg, now, ev, op);
    } else {
      StepOwned(cfg, now, ev, op);
    }
  }

  lemma RescheduleInOrder(cfg: Config, now: Time, ev: Event, op: Op)
    requires Owned(ev) && WithinBudget(cfg, ev) && RetriesInOrder(cfg, now, ev)
    requires Enabled(now, ev, op) && op.Reschedule?
    ensures RetriesInOrder(cfg, now, Apply(cfg, now, ev, op))
  {
  }

  lemma NextAttemptsGrow(cfg: Config, r: Retry, s: Retry)
    requires BackoffInRange(cfg) && r.at <= s.at && 1 <= r.count < s.count < cfg.maxRetries
    requires Backoff.IsDraw(r.draw) && Backoff.IsDraw(s.draw)
    ensures r.NextAttempt(cfg) <= s.NextAttempt(cfg)
  {
    var top := cfg.maxRetries - 1;
    if s.count < top {
      Backoff.BaseGrows(s.count, top, cfg.initialDelay);
    }
    Backoff.DelayMonotone(r.count, s.count, cfg.initialDelay, cfg.maxDelay, r.draw, s.draw, r.wild, s.wild);
  }

  /** Successive retry times of one event never go backwards. */
  lemma RetryTimesGrow(cfg: Config, now: Time, ev: Event, i: nat, j: nat)
    requires BackoffInRange(cfg) && RetriesInOrder(cfg, now, ev) && i < j < |ev.log.retries|
    ensures ev.log.retries[i].NextAttempt(cfg) <= ev.log.retries[j].NextAttempt(cfg)
  {
    NextAttemptsGrow(cfg, ev.log.retries[i], ev.log.retries[j]);
  }

  /** The time an event waits over some retries, whose attempt numbers may skip. */
  function TotalDelay(cfg: Config, rs: seq<Retry>): Duration
    requires forall k :: 0 <= k < |rs| ==> rs[k].count >= 1
  {
    if rs == [] then 0
    else
      var last := rs[|rs| - 1];
      TotalDelay(cfg, rs[..|rs| - 1]) + RetryDelay(cfg, last.count, last.draw, last.wild)
  }

  lemma OneDelay(cfg: Config, r: Retry, n: nat)
    requires Backoff.IsDraw(r.draw) && 1 <= r.count <= n && Backoff.InRange(n, cfg.initialDelay, cfg.maxDelay)
    ensures var delay := RetryDelay(cfg, r.count, r.draw, r.wild);
            delay <= cfg.maxDelay && 10 * delay <= 13 * Backoff.Base(n, cfg.initialDelay)
  {
    if r.count < n {
      Backoff.BaseGrows(r.count, n, cfg.initialDelay);
    }
    Backoff.DelayBounds(r.count, cfg.initialDelay, cfg.maxDelay, r.draw, r.wild);
  }

  /** Attempt numbers are rising, from 1 to at most `n`. */
  predicate Rising(rs: seq<Retry>, n: nat) {
    && (forall k :: 0 <= k < |rs| ==> 1 <= rs[k].count <= n && Backoff.IsDraw(rs[k].draw))
    && (forall j, k :: 0 <= j < k < |rs| ==> rs[j].count < rs[k].count)
  }

  lemma AllButLastRising(rs: seq<Retry>, n: nat)
    requires rs != [] && Rising(rs, n)
    ensures n >= 1 && Rising(rs[..|rs| - 1], n - 1)
  {
    var last := rs[|rs| - 1];
    assert forall k :: 0 <= k < |rs| - 1 ==> rs[k].count < last.count;
  }

  /** Retries with rising attempt numbers up to `n` wait at most 1.3 * initial * (2^n - 1) in total. */
  lemma {:induction false} TotalDelayBound(cfg: Config, rs: seq<Retry>, n: nat)
    requires Rising(rs, n) && (n >= 1 ==> Backoff.InRange(n, cfg.initialDelay, cfg.maxDelay))
    ensures 10 * TotalDelay(cfg, rs) <= 13 * Backoff.SumOfBases(n, cfg.initialDelay)
  {
    if n >= 1 {
      if n > 1 {
        Backoff.BaseGrows(n - 1, n, cfg.initialDelay);
      }
      Backoff.SumOfBasesGrows(n, cfg.initialDelay);
      if rs == [] {
        TotalDelayBound(cfg, [], n - 1);
        assert 0 <= Backoff.Base(n, cfg.initialDelay);
      } else {
        AllButLastRising(rs, n);
        TotalDelayBound(cfg, rs[..|rs| - 1], n - 1);
        OneDelay(cfg, rs[|rs| - 1], n);
      }
    }
  }

  function Times(n: nat, delay: Duration): Duration {
    n * delay
  }

  lemma OneMoreTime(n: nat, delay: Duration)
    ensures Times(n + 1, delay) == Times(n, delay) + delay
  {
  }

  /** They also wait at most `n` times the maximal delay. */
  lemma {:induction false} TotalDelayCapped(cfg: Config, rs: seq<Retry>, n: nat)
    requires Rising(rs, n) && (n >= 1 ==> Backoff.InRange(n, cfg.initialDelay, cfg.maxDelay))
    ensures TotalDelay(cfg, rs) <= Times(n, cfg.maxDelay)
  {
    if n >= 1 {
      if n > 1 {
        Backoff.BaseGrows(n - 1, n, cfg.initialDelay);
      }
      OneMoreTime(n - 1, cfg.maxDelay);
      if rs == [] {
        TotalDelayCapped(cfg, [], n - 1);
      } else {
        AllButLastRising(rs, n);
        TotalDelayCapped(cfg, rs[..|rs| - 1], n - 1);
        OneDelay(cfg, rs[|rs| - 1], n);
      }
    }
  }

  /** The largest attempt number that is retried. */
  function Retryable(cfg: Config): nat {
    Max(0, cfg.maxRetries - 1)
  }

  /** All the delays of one event, for the retries it has had so far. */
  lemma AllDelaysBound(cfg: Config, now: Time, ev: Event)
    requires RetriesInOrder(cfg, now, ev) && BackoffInRange(cfg)
    ensures var total := TotalDelay(cfg, ev.log.retries);
            && 10 * total <= 13 * (cfg.initialDelay * (Backoff.Pow2(Retryable(cfg)) - 1))
            && total <= Retryable(cfg) * cfg.maxDelay
  {
    TotalDelayBound(cfg, ev.log.retries, Retryable(cfg));
    TotalDelayCapped(cfg, ev.log.retries, Retryable(cfg));
  }

  ghost predicate InStep(cfg: Config, now: Time, ev: Event) {
    Sane(ev) && Owned(ev) && WithinBudget(cfg, ev) && RetriesInOrder(cfg, now, ev)
  }

  /** `later` is a possible future of the row `row`: attempts do not drop, a terminal row does not
      change at all, and a retry time is never unset or, with delays in range, moved back. The webhook and
      the creation time stay. */
  predicate Advances(cfg: Config, row: Row, later: Row) {
    && later.webhook == row.webhook && later.createdAt == row.createdAt
    && row.attempts <= later.attempts
    && (row.status.Terminal() ==> later == row)
    && (row.nextAttemptAt.Some? ==>
          && later.nextAttemptAt.Some?
          && (BackoffInRange(cfg) ==> row.nextAttemptAt.value <= later.nextAttemptAt.value))
  }

  lemma StepAdvances(cfg: Config, now: Time, ev: Event, op: Op)
    requires InStep(cfg, now, ev) && Enabled(now, ev, op)
    requires op.Sweep? ==> NoStaleCopy(now, ev)
    ensures Advances(cfg, ev.row, Apply(cfg, now, ev, op).row)
    ensures op.Bump? ==> Apply(cfg, now, ev, op).row.attempts == ev.row.attempts
  {
    if BackoffInRange(cfg) && op.Reschedule? && ev.log.retries != [] {
      var count := ev.copies[op.k].AttemptCount();
      NextAttemptsGrow(cfg, ev.log.retries[|ev.log.retries| - 1], Retry(now, count, op.draw, op.wild));
    }
  }

  /** One step keeps everything, unless it is a sweep that meets a stale copy. */
  lemma StepInStep(cfg: Config, now: Time, ev: Event, op: Op)
    requires InStep(cfg, now, ev) && Enabled(now, ev, op)
    requires op.Sweep? ==> NoStaleCopy(now, ev)
    ensures InStep(cfg, now, Apply(cfg, now, ev, op))
    ensures Advances(cfg, ev.row, Apply(cfg, now, ev, op).row)
  {
    StepSane(cfg, now, ev, op);
    StepOwned(cfg, now, ev, op);
    StepWithinBudget(cfg, now, ev, op);
    StepRetriesInOrder(cfg, now, ev, op);
    StepAdvances(cfg, now, ev, op);
  }

  lemma InStepLater(cfg: Config, now: Time, later: Time, ev: Event)
    requires InStep(cfg, now, ev) && now <= later
    ensures InStep(cfg, later, ev)
  {
  }

  lemma NewInStep(cfg: Config, webhook: WebhookId, now: Time)
    ensures InStep(cfg, now, NewEvent(webhook, now))
  {
  }
}
