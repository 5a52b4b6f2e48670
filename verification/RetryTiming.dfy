/** When a retry is claimed: earlier than planned by a notification, later or never by polls. */
module RetryTiming {
  import opened Types
  import opened EventRows
  import opened CopyLifecycle
  import opened DeliveryProtocol
  import opened Progress
  import Backoff
  import FairSelection
  import Ownership

  // ----- Claims before the retry time

  /** The step claims the event although its retry time has not come. */
  ghost predicate ClaimsEarly(cfg: Config, s: State, step: Step, e: EventId)
    requires CanStep(cfg, s, step)
  {
    && e in s.events
    && NextEvent(cfg, s, step, e).log.claims > s.events[e].log.claims
    && !Due(s.events[e].row, s.clock)
  }

  /** Exactly a notification about a pending event that is not due does that; a poll never does. */
  lemma ClaimsEarlyExactly(cfg: Config, s: State, step: Step, e: EventId)
    requires CanStep(cfg, s, step) && e in s.events
    ensures ClaimsEarly(cfg, s, step, e) <==>
            && step.HandleNotification? && step.e == e
            && s.events[e].row.status.Pending? && !Due(s.events[e].row, s.clock)
    ensures step.Poll? ==> !ClaimsEarly(cfg, s, step, e)
  {
    OpsEnabled(cfg, s, step, e);
    if step.Poll? && e in Ids(step.batch) {
      BatchIsReady(cfg, s, step, e);
    }
  }

  ghost predicate EarlyAt(cfg: Config, r: Run, j: nat, e: EventId)
    requires j < |r.steps| && IsRun(cfg, r)
  {
    MovesAt(cfg, r, j) && ClaimsEarly(cfg, r.states[j], r.steps[j], e)
  }

  /** Some claim of the run is early. */
  ghost predicate HasEarlyClaim(cfg: Config, r: Run, e: EventId)
    requires IsRun(cfg, r)
  {
    exists j: nat :: j < |r.steps| && EarlyAt(cfg, r, j, e)
  }

  /** A retry can be planned for later than at once. */
  predicate CanPostpone(cfg: Config) {
    cfg.maxRetries >= 2 && cfg.initialDelay > 0 && cfg.maxDelay > 0
  }

  /** No retry of the event is planned for later, nor can its copies plan one unless they may retry. */
  predicate NeverPostponed(cfg: Config, now: Time, ev: Event) {
    && Due(ev.row, now)
    && forall k :: k in ev.copies && (ev.copies[k].phase.Bumping? || ev.copies[k].phase.Scheduling?) ==>
         ev.copies[k].AttemptCount() < cfg.maxRetries
  }

  lemma NoDelay(cfg: Config, count: nat, draw: real, wild: int)
    requires !CanPostpone(cfg) && 0 <= cfg.initialDelay && 1 <= count < cfg.maxRetries
    ensures RetryDelay(cfg, count, draw, wild) <= 0
  {
    if cfg.maxDelay > 0 {
      assert Backoff.Base(count, cfg.initialDelay) == 0;
      assert Backoff.Jittered(count, cfg.initialDelay, draw) == 0.0;
    }
  }

  lemma StepNeverPostpones(cfg: Config, now: Time, ev: Event, op: Op)
    requires !CanPostpone(cfg) && 0 <= cfg.initialDelay
    requires NeverPostponed(cfg, now, ev) && Enabled(now, ev, op)
    ensures NeverPostponed(cfg, now, Apply(cfg, now, ev, op))
  {
    if op.Reschedule? {
      NoDelay(cfg, ev.copies[op.k].AttemptCount(), op.draw, op.wild);
    }
  }

  ghost predicate NeverPostponedIn(cfg: Config, s: State, e: EventId) {
    e in s.events ==> NeverPostponed(cfg, s.clock, s.events[e])
  }

  lemma MoveNeverPostpones(cfg: Config, s: State, step: Step, e: EventId)
    requires !CanPostpone(cfg) && 0 <= cfg.initialDelay && CanStep(cfg, s, step) && NeverPostponedIn(cfg, s, e)
    ensures NeverPostponedIn(cfg, Next(cfg, s, step), e)
    ensures !ClaimsEarly(cfg, s, step, e)
  {
    ClockNext(cfg, s, step);
    if e in s.events {
      EventNext(cfg, s, step, e);
      OpsEnabled(cfg, s, step, e);
      if OpOn(s, step, e).Some? {
        StepNeverPostpones(cfg, s.clock, s.events[e], OpOn(s, step, e).value);
      }
    } else if e in Next(cfg, s, step).events {
      NewEventNext(cfg, s, step, e);
    }
  }

  lemma {:induction false} RunNeverPostpones(cfg: Config, start: Time, r: Run, j: nat, e: EventId)
    requires !CanPostpone(cfg) && 0 <= cfg.initialDelay && FromStart(cfg, start, r) && j < |r.states|
    ensures NeverPostponedIn(cfg, r.states[j], e)
  {
    if j > 0 {
      RunNeverPostpones(cfg, start, r, j - 1, e);
      assert MovesAt(cfg, r, j - 1);
      MoveNeverPostpones(cfg, r.states[j - 1], r.steps[j - 1], e);
    }
  }

  lemma NoEarlyClaim(cfg: Config, start: Time, r: Run, e: EventId)
    requires !CanPostpone(cfg) && 0 <= cfg.initialDelay && FromStart(cfg, start, r)
    ensures !HasEarlyClaim(cfg, r, e)
  {
    forall j: nat | j < |r.steps| ensures !EarlyAt(cfg, r, j, e) {
      RunNeverPostpones(cfg, start, r, j, e);
      if MovesAt(cfg, r, j) {
        MoveNeverPostpones(cfg, r.states[j], r.steps[j], e);
      }
    }
  }

  // ----- A run that leads to a retry

  /** Every delivery fails; a delay that does not fit 64 bits comes out as 1. */
  const FAILING: World := World(n => false, n => 0.0, n => 1)

  /** Event 0 waits for its first retry, planned `delay` from now, and a notification about it is left. */
  ghost predicate Postponed(s: State, delay: Duration) {
    && 0 in s.events && 0 in s.notes && Queue(s, 0) == []
    && s.events.Keys == {0} && s.events[0].copies == map[]
    && s.events[0].row.status.Pending? && s.events[0].row.webhook == 0
    && s.events[0].row.nextAttemptAt == Some(s.clock + delay)
  }

  function FirstDelay(cfg: Config): Duration {
    RetryDelay(cfg, 1, 0.0, 1)
  }

  lemma FirstDelayPositive(cfg: Config)
    requires CanPostpone(cfg)
    ensures FirstDelay(cfg) > 0
  {
    assert Backoff.Base(1, cfg.initialDelay) == cfg.initialDelay;
    assert Backoff.Jittered(1, cfg.initialDelay, 0.0) == cfg.initialDelay as real;
  }

  /** A new event whose first copy is with a worker. */
  function ClaimedOnce(cfg: Config): (ev: Event)
    ensures ev.copies == map[0 := Copy(0, 0, 0, Picked)]
  {
    HandedOver(Apply(cfg, 0, NewEvent(0, 0), Claim(0, Listener)))
  }

  lemma FirstClaim(cfg: Config) returns (r: Run, t: State)
    ensures Leads(cfg, Init(0), r, t, 0, FAILING)
    ensures t.clock == 0 && 0 in t.notes && Queue(t, 0) == []
    ensures t.events == map[0 := ClaimedOnce(cfg)]
  {
    var a, s1 := Single(cfg, Init(0), StoreEvent(0, 0), 0, FAILING);
    assert s1.events == map[0 := NewEvent(0, 0)];
    var b, s2 := Notice(cfg, s1, 0, 0, FAILING);
    var c;
    c, t := HandOver(cfg, s2, 0, 0, 0, 0, FAILING);
    var bc := Join(cfg, s1, b, s2, c, t, 0, FAILING);
    r := Join(cfg, Init(0), a, s1, bc, t, 0, FAILING);
  }

  /** One step of the worker that holds copy 0. */
  lemma WorkerStep(cfg: Config, s: State, op: Op) returns (r: Run, t: State)
    requires CanStep(cfg, s, Act(0, op)) && Smooth(s, Act(0, op), 0, FAILING)
    requires op.Deliver? || op.Bump? || op.Reschedule?
    ensures Leads(cfg, s, r, t, 0, FAILING)
    ensures t.clock == s.clock && s.notes <= t.notes && t.queues == s.queues
    ensures t.events == s.events[0 := Apply(cfg, s.clock, s.events[0], op)]
  {
    ActEffect(cfg, s, 0, op);
    r, t := Single(cfg, s, Act(0, op), 0, FAILING);
  }

  /** The event after its first delivery has failed, with the copy about to plan a retry. */
  function FailedOnce(cfg: Config, ev: Event): Event
    requires 0 in ev.copies && ev.copies[0].phase.Picked? && cfg.maxRetries >= 2 && ev.copies[0].attempts == 0
  {
    Apply(cfg, 0, Apply(cfg, 0, ev, Deliver(0, false)), Bump(0, true))
  }

  lemma FailFirst(cfg: Config, s: State) returns (r: Run, t: State)
    requires cfg.maxRetries >= 2 && s.clock == 0 && 0 in s.events && 0 in s.events[0].copies
    requires s.events[0].copies[0].phase.Picked? && s.events[0].copies[0].attempts == 0
    ensures Leads(cfg, s, r, t, 0, FAILING)
    ensures t.clock == 0 && s.notes <= t.notes && t.queues == s.queues
    ensures t.events == s.events[0 := FailedOnce(cfg, s.events[0])]
  {
    var a, s1 := WorkerStep(cfg, s, Deliver(0, false));
    var b;
    b, t := WorkerStep(cfg, s1, Bump(0, true));
    r := Join(cfg, s, a, s1, b, t, 0, FAILING);
  }

  lemma PlanFirst(cfg: Config, s: State) returns (r: Run, t: State)
    requires cfg.maxRetries >= 2 && s.clock == 0 && 0 in s.notes && Queue(s, 0) == []
    requires s.events == map[0 := FailedOnce(cfg, ClaimedOnce(cfg))]
    ensures Leads(cfg, s, r, t, 0, FAILING) && Postponed(t, FirstDelay(cfg))
  {
    r, t := WorkerStep(cfg, s, Reschedule(0, 0.0, 1));
    assert t.events[0].copies == map[];
  }

  /** A timely run in which the first delivery fails and a retry is planned. */
  lemma PlanRetry(cfg: Config) returns (r: Run, t: State)
    requires cfg.maxRetries >= 2
    ensures Leads(cfg, Init(0), r, t, 0, FAILING) && Postponed(t, FirstDelay(cfg))
  {
    var a, s1 := FirstClaim(cfg);
    var b, s2 := FailFirst(cfg, s1);
    var c;
    c, t := PlanFirst(cfg, s2);
    var bc := Join(cfg, s1, b, s2, c, t, 0, FAILING);
    r := Join(cfg, Init(0), a, s1, bc, t, 0, FAILING);
  }

  lemma SmoothIsTimely(cfg: Config, s: State, r: Run, t: State, e: EventId, world: World)
    requires Leads(cfg, s, r, t, e, world)
    ensures Timely(r, e)
  {
    forall j | 0 <= j < |r.steps| ensures TimelyAt(r.states[j], r.steps[j], e) {
      assert SmoothAt(r, j, e, world);
    }
  }

  /** A timely run in which a second notification claims the retry before its time. */
  lemma EarlyClaimRun(cfg: Config) returns (r: Run)
    requires CanPostpone(cfg)
    ensures FromStart(cfg, 0, r) && Timely(r, 0) && HasEarlyClaim(cfg, r, 0)
  {
    FirstDelayPositive(cfg);
    var a, s := PlanRetry(cfg);
    var step := HandleNotification(0, 0);
    var b, t := Single(cfg, s, step, 0, FAILING);
    r := Join(cfg, Init(0), a, s, b, t, 0, FAILING);
    SmoothIsTimely(cfg, Init(0), r, t, 0, FAILING);
    ClaimsEarlyExactly(cfg, s, step, 0);
    var last := |a.steps|;
    assert r.states[last] == s && r.steps[last] == step;
    assert MovesAt(cfg, r, last);
    assert EarlyAt(cfg, r, last, 0);
  }

  /** No timely run claims a retry before its time exactly when no retry can be planned for later: when
      there are no retries, or no delay. Then no run at all does. */
  lemma NoEarlyClaimExactly(cfg: Config)
    requires 0 <= cfg.initialDelay
    ensures (forall start: Time, r: Run, e: EventId ::
               FromStart(cfg, start, r) && Timely(r, e) ==> !HasEarlyClaim(cfg, r, e))
            <==> !CanPostpone(cfg)
    ensures !CanPostpone(cfg) ==>
              forall start: Time, r: Run, e: EventId :: FromStart(cfg, start, r) ==> !HasEarlyClaim(cfg, r, e)
  {
    if CanPostpone(cfg) {
      var r := EarlyClaimRun(cfg);
      assert FromStart(cfg, 0, r) && Timely(r, 0) && HasEarlyClaim(cfg, r, 0);
    } else {
      forall start: Time, r: Run, e: EventId | FromStart(cfg, start, r) ensures !HasEarlyClaim(cfg, r, e) {
        NoEarlyClaim(cfg, start, r, e);
      }
    }
  }

  // ----- Retries that polls do not reach

  /** The event waits for a retry, and nobody has a copy of it. */
  ghost predicate Waiting(s: State, e: EventId) {
    && e in s.events && s.events[e].copies == map[]
    && s.events[e].row.status.Pending? && s.events[e].row.nextAttemptAt.Some?
  }

  /** No notification of the event is handled, and a poll finds a quota of new rows of its webhook. */
  ghost predicate PassesOver(cfg: Config, s: State, step: Step, e: EventId) {
    && !(step.HandleNotification? && step.e == e)
    && (step.Poll? && e in s.events ==>
          var ready := ReadyItems(s);
          |FairSelection.NewRows(s.events[e].row.webhook, ready)|
          >= FairSelection.Quota(cfg.pollLimit, |FairSelection.Webhooks(ready)|))
  }

  lemma NotInBatch(cfg: Config, s: State, step: Step, e: EventId)
    requires CanStep(cfg, s, step) && step.Poll? && e in s.events && s.events[e].row.nextAttemptAt.Some?
    requires PassesOver(cfg, s, step, e)
    ensures e !in Ids(step.batch)
  {
    if e in Ids(step.batch) {
      var x :| x in step.batch && x.id == e;
      FairSelection.BatchRows(ReadyItems(s), cfg.pollLimit, step.locked, step.batch);
      assert x in ReadyItems(s);
      FairSelection.RetriesWaitForNewRows(ReadyItems(s), cfg.pollLimit, step.locked, step.batch, x);
    }
  }

  lemma StepPassesOver(cfg: Config, s: State, step: Step, e: EventId)
    requires CanStep(cfg, s, step) && Waiting(s, e) && PassesOver(cfg, s, step, e)
    ensures e in Next(cfg, s, step).events && Next(cfg, s, step).events[e] == s.events[e]
  {
    EventNext(cfg, s, step, e);
    OpsEnabled(cfg, s, step, e);
    if step.Poll? {
      NotInBatch(cfg, s, step, e);
    }
    if OpOn(s, step, e).Some? {
      assert OpOn(s, step, e) == Some(Lose({}));
      assert s.events[e].copies - {} == s.events[e].copies;
    }
  }

  ghost predicate PassesOverAt(cfg: Config, r: Run, j: nat, e: EventId)
    requires j < |r.steps| && |r.states| == |r.steps| + 1
  {
    PassesOver(cfg, r.states[j], r.steps[j], e)
  }

  /** As long as each poll finds a quota of new rows, and no notification comes, a retry is never
      claimed: it stays as it is, however long it has been due. */
  lemma {:induction false} RetryPassedOver(cfg: Config, r: Run, j: nat, e: EventId)
    requires IsRun(cfg, r) && Waiting(r.states[0], e) && j < |r.states|
    requires forall k {:trigger PassesOverAt(cfg, r, k, e)} :: 0 <= k < |r.steps| ==> PassesOverAt(cfg, r, k, e)
    ensures e in r.states[j].events && r.states[j].events[e] == r.states[0].events[e]
  {
    if j > 0 {
      RetryPassedOver(cfg, r, j - 1, e);
      assert MovesAt(cfg, r, j - 1) && PassesOverAt(cfg, r, j - 1, e);
      StepPassesOver(cfg, r.states[j - 1], r.steps[j - 1], e);
    }
  }

  // ----- Such runs, of any length

  /** The step passes event 0 over; a poll does so although its retry is due. */
  ghost predicate Misses(cfg: Config, s: State, step: Step) {
    && PassesOver(cfg, s, step, 0)
    && (step.Poll? ==>
          && 0 in s.events && Ready(s.events[0].row, s.clock) && s.events[0].row.nextAttemptAt.Some?
          && 0 !in Ids(step.batch))
  }

  ghost predicate MissesAt(cfg: Config, r: Run, j: nat)
    requires j < |r.steps| && |r.states| == |r.steps| + 1
  {
    Misses(cfg, r.states[j], r.steps[j])
  }

  /** The run polls `n` times, and every step passes the retry of event 0 over. */
  ghost predicate MissesTimes(cfg: Config, r: Run, n: nat) {
    && |r.states| == |r.steps| + 1 && |Batches(r.steps)| == n
    && forall j {:trigger MissesAt(cfg, r, j)} :: 0 <= j < |r.steps| ==> MissesAt(cfg, r, j)
  }

  lemma {:induction false} BatchesOfBoth(a: seq<Step>, b: seq<Step>)
    ensures Batches(a + b) == Batches(a) + Batches(b)
  {
    if a == [] {
      assert a + b == b;
    } else {
      BatchesOfBoth(a[1..], b);
      assert (a + b)[0] == a[0] && (a + b)[1..] == a[1..] + b;
      var first := if a[0].Poll? then [a[0].batch] else [];
      assert first + (Batches(a[1..]) + Batches(b)) == (first + Batches(a[1..])) + Batches(b);
    }
  }

  lemma JoinMisses(cfg: Config, s: State, a: Run, m: nat, t: State, b: Run, n: nat, u: State) returns (r: Run)
    requires Leads(cfg, s, a, t, 0, FAILING) && Leads(cfg, t, b, u, 0, FAILING)
    requires MissesTimes(cfg, a, m) && MissesTimes(cfg, b, n)
    ensures Leads(cfg, s, r, u, 0, FAILING) && MissesTimes(cfg, r, m + n)
  {
    r := Join(cfg, s, a, t, b, u, 0, FAILING);
    BatchesOfBoth(a.steps, b.steps);
    forall j | 0 <= j < |r.steps| ensures MissesAt(cfg, r, j) {
      if j < |a.steps| {
        assert MissesAt(cfg, a, j);
      } else {
        assert MissesAt(cfg, b, j - |a.steps|);
      }
    }
  }

  lemma SingleMisses(cfg: Config, s: State, step: Step) returns (r: Run, t: State)
    requires CanStep(cfg, s, step) && Smooth(s, step, 0, FAILING) && Misses(cfg, s, step)
    ensures t == Next(cfg, s, step) && Leads(cfg, s, r, t, 0, FAILING) && MissesTimes(cfg, r, One(step.Poll?))
  {
    r, t := Single(cfg, s, step, 0, FAILING);
    assert MissesAt(cfg, r, 0);
    assert r.steps[1..] == [] && Batches([]) == [];
  }

  /** All ready rows are of webhook 0: one retry and `n` new ones. */
  ghost predicate Crowd(ready: set<FairSelection.Item>, retry: FairSelection.Item, n: int) {
    && (forall x :: x in ready ==> x.webhook == 0)
    && FairSelection.Retries(0, ready) == {retry}
    && |FairSelection.NewRows(0, ready)| == n
  }

  lemma CrowdGrows(ready: set<FairSelection.Item>, retry: FairSelection.Item, n: nat, item: FairSelection.Item)
    requires Crowd(ready, retry, n) && item !in ready && item.webhook == 0 && item.next.None?
    ensures Crowd(ready + {item}, retry, n + 1)
  {
    assert FairSelection.NewRows(0, ready + {item}) == FairSelection.NewRows(0, ready) + {item};
    assert FairSelection.Retries(0, ready + {item}) == FairSelection.Retries(0, ready);
  }

  lemma CrowdLeaves(ready: set<FairSelection.Item>, retry: FairSelection.Item, n: nat)
    requires Crowd(ready, retry, n)
    ensures Crowd(ready - FairSelection.NewRows(0, ready), retry, 0)
  {
    var rest := ready - FairSelection.NewRows(0, ready);
    assert FairSelection.NewRows(0, rest) == {};
    assert FairSelection.Retries(0, rest) == FairSelection.Retries(0, ready);
  }

  /** A poll that finds as many new rows as it may take takes exactly these. */
  lemma BatchOfNewRows(ready: set<FairSelection.Item>, retry: FairSelection.Item, limit: nat,
                       batch: seq<FairSelection.Item>)
    requires Crowd(ready, retry, limit) && limit >= 1 && FairSelection.IsBatch(ready, limit, {}, batch)
    ensures Elements(batch) == FairSelection.NewRows(0, ready)
    ensures FairSelection.Quota(limit, |FairSelection.Webhooks(ready)|) == limit
  {
    var news := FairSelection.NewRows(0, ready);
    assert retry in FairSelection.Retries(0, ready);
    assert FairSelection.Webhooks(ready) == {0};
    FairSelection.QuotaArithmetic(limit, 1);
    FairSelection.RetriesWaitForNewRows(ready, limit, {}, batch, retry);
    FairSelection.BatchAtLeast(ready, limit, batch);
    assert FairSelection.Of(0, ready) == news + {retry} by {
      assert FairSelection.Of(0, ready) == news + FairSelection.Retries(0, ready);
    }
    assert forall x :: x in ready ==> x in FairSelection.Of(0, ready);
    SubsetSize(news, ready);
    SubsetSize(Elements(batch), news);
  }

  function RetryItem(s: State): FairSelection.Item
    requires 0 in s.events
  {
    ItemOf(0, s.events[0].row)
  }

  /** The retry of event 0 is due, among `n` new rows; IDs from `id` on are free. */
  ghost predicate Crowded(s: State, id: EventId, n: int) {
    && Waiting(s, 0) && Due(s.events[0].row, s.clock) && Queue(s, 0) == []
    && (forall x :: x in s.events ==> x < id)
    && Crowd(ReadyItems(s), RetryItem(s), n)
  }

  lemma ReadySetGrows(rows: map<EventId, Row>, now: Time, id: EventId, row: Row)
    requires id !in rows && Ready(row, now)
    ensures ReadySet(rows[id := row], now) == ReadySet(rows, now) + {ItemOf(id, row)}
    ensures ItemOf(id, row) !in ReadySet(rows, now)
  {
    var more := rows[id := row];
    forall x | x in ReadySet(rows, now) + {ItemOf(id, row)} ensures x in ReadySet(more, now) {
      assert x.id in more && Ready(more[x.id], now) && x == ItemOf(x.id, more[x.id]);
    }
  }

  lemma StoreEffect(cfg: Config, s: State, id: EventId)
    requires id !in s.events
    ensures var t := Next(cfg, s, StoreEvent(id, 0));
            && t.clock == s.clock && t.queues == s.queues
            && t.events == s.events[id := NewEvent(0, s.clock)]
  {
  }

  lemma StoreAddsReady(s: State, id: EventId, t: State)
    requires id !in s.events && t.clock == s.clock && t.events == s.events[id := NewEvent(0, s.clock)]
    ensures var item := ItemOf(id, NewRow(0, s.clock));
            ReadyItems(t) == ReadyItems(s) + {item} && item !in ReadyItems(s)
  {
    assert Rows(t) == Rows(s)[id := NewRow(0, s.clock)];
    ReadySetGrows(Rows(s), s.clock, id, NewRow(0, s.clock));
  }

  lemma StoreOne(cfg: Config, s: State, id: EventId, n: nat) returns (r: Run, t: State)
    requires Crowded(s, id, n)
    ensures Leads(cfg, s, r, t, 0, FAILING) && MissesTimes(cfg, r, 0) && Crowded(t, id + 1, n + 1)
  {
    r, t := SingleMisses(cfg, s, StoreEvent(id, 0));
    StoreEffect(cfg, s, id);
    StoreAddsReady(s, id, t);
    CrowdGrows(ReadyItems(s), RetryItem(s), n, ItemOf(id, NewRow(0, s.clock)));
  }

  lemma StayMisses(cfg: Config, s: State) returns (r: Run, t: State)
    ensures t == s && Leads(cfg, s, r, t, 0, FAILING) && MissesTimes(cfg, r, 0)
  {
    r, t := Run([s], []), s;
  }

  lemma {:induction false} StoreMany(cfg: Config, s: State, id: EventId, n: nat, more: nat)
      returns (r: Run, t: State)
    requires Crowded(s, id, n)
    ensures Leads(cfg, s, r, t, 0, FAILING) && MissesTimes(cfg, r, 0) && Crowded(t, id + more, n + more)
    decreases more
  {
    if more == 0 {
      r, t := StayMisses(cfg, s);
    } else {
      var a, s1 := StoreOne(cfg, s, id, n);
      var b;
      b, t := StoreMany(cfg, s1, id + 1, n + 1, more - 1);
      r := JoinMisses(cfg, s, a, 0, s1, b, 0, t);
    }
  }

  lemma StartPollEffect(cfg: Config, s: State) returns (r: Run, t: State)
    requires PollAllowed(cfg.queueCapacity, |Queue(s, 0)|)
    ensures Leads(cfg, s, r, t, 0, FAILING) && MissesTimes(cfg, r, 0) && 0 in t.polling
    ensures t.clock == s.clock && t.events == s.events && t.queues == s.queues
  {
    r, t := SingleMisses(cfg, s, StartPoll(0));
    QuietEffect(cfg, s, StartPoll(0));
  }

  lemma ReadyNext(s: State)
    ensures forall x :: x in ReadyItems(s) ==> x.id in s.events && x.next == s.events[x.id].row.nextAttemptAt
  {
  }

  lemma PollLeavesRetry(cfg: Config, s: State, step: Step)
    requires step.Poll? && CanStep(cfg, s, step) && 0 in s.events && 0 !in Ids(step.batch)
    ensures var t := Next(cfg, s, step);
            && t.events.Keys == s.events.Keys && t.events[0] == s.events[0]
            && t.clock == s.clock && Queue(t, 0) == Queue(s, 0)
  {
    PollEffect(cfg, s, step);
  }

  lemma TakeEffect(cfg: Config, s: State, id: EventId, step: Step)
    requires Crowded(s, id, cfg.pollLimit) && cfg.pollLimit >= 1
    requires step.Poll? && CanStep(cfg, s, step)
    requires Elements(step.batch) == FairSelection.NewRows(0, ReadyItems(s)) && 0 !in Ids(step.batch)
    ensures Crowded(Next(cfg, s, step), id, 0)
  {
    PollLeavesRetry(cfg, s, step);
    PollTakesBatch(cfg, s, step);
    CrowdLeaves(ReadyItems(s), RetryItem(s), cfg.pollLimit);
  }

  lemma TakeNewRows(cfg: Config, s: State, id: EventId) returns (r: Run, t: State)
    requires Crowded(s, id, cfg.pollLimit) && cfg.pollLimit >= 1 && 0 in s.polling
    ensures Leads(cfg, s, r, t, 0, FAILING) && MissesTimes(cfg, r, 1) && Crowded(t, id, 0)
  {
    assert RetryItem(s) in FairSelection.Retries(0, ReadyItems(s));
    var batch := SomeBatch(cfg, s);
    BatchOfNewRows(ReadyItems(s), RetryItem(s), cfg.pollLimit, batch);
    assert forall x :: x in batch ==> x in Elements(batch);
    ReadyNext(s);
    r, t := SingleMisses(cfg, s, Poll(0, {}, batch));
    TakeEffect(cfg, s, id, Poll(0, {}, batch));
  }

  /** New rows come, a poll takes exactly these, and the retry is where it was. */
  lemma MissOnce(cfg: Config, s: State, id: EventId) returns (r: Run, t: State)
    requires Crowded(s, id, 0) && cfg.pollLimit >= 1 && cfg.queueCapacity >= 2
    ensures Leads(cfg, s, r, t, 0, FAILING) && MissesTimes(cfg, r, 1) && Crowded(t, id + cfg.pollLimit, 0)
  {
    var a, s1 := StoreMany(cfg, s, id, 0, cfg.pollLimit);
    var b, s2 := StartPollEffect(cfg, s1);
    assert Rows(s2) == Rows(s1);
    var c;
    c, t := TakeNewRows(cfg, s2, id + cfg.pollLimit);
    var bc := JoinMisses(cfg, s1, b, 0, s2, c, 1, t);
    r := JoinMisses(cfg, s, a, 0, s1, bc, 1, t);
  }

  lemma {:induction false} MissManyTimes(cfg: Config, s: State, id: EventId, n: nat) returns (r: Run, t: State)
    requires Crowded(s, id, 0) && cfg.pollLimit >= 1 && cfg.queueCapacity >= 2
    ensures Leads(cfg, s, r, t, 0, FAILING) && MissesTimes(cfg, r, n) && Waiting(t, 0)
    decreases n
  {
    if n == 0 {
      r, t := StayMisses(cfg, s);
    } else {
      var a, s1 := MissOnce(cfg, s, id);
      var b;
      b, t := MissManyTimes(cfg, s1, id + cfg.pollLimit, n - 1);
      r := JoinMisses(cfg, s, a, 1, s1, b, n - 1, t);
    }
  }

  lemma WaitUntilDue(cfg: Config, s: State, delay: Duration) returns (r: Run, t: State)
    requires Postponed(s, delay)
    ensures Leads(cfg, s, r, t, 0, FAILING) && Crowded(t, 1, 0)
  {
    r, t := QuietStep(cfg, s, Tick(Max(0, delay)), 0, FAILING);
    assert Rows(t).Keys == {0};
    assert ReadyItems(t) == {RetryItem(t)};
    assert FairSelection.NewRows(0, ReadyItems(t)) == {};
  }

  /** A webhook that keeps storing events keeps its retry waiting: for every number `n` the service
      reaches a state from which, without any fault or lock, `n` polls in a row find a quota of new rows
      and miss a retry that is due. */
  lemma RetryStarves(cfg: Config, n: nat) returns (r: Run)
    requires cfg.maxRetries >= 2 && cfg.pollLimit >= 1 && cfg.queueCapacity >= 2
    ensures r.states != [] && ReachableInTime(cfg, r.states[0], 0)
    ensures Leads(cfg, r.states[0], r, r.Last(), 0, FAILING)
    ensures MissesTimes(cfg, r, n) && forall k :: 0 <= k < |r.steps| ==> PassesOverAt(cfg, r, k, 0)
    ensures Waiting(r.states[0], 0) && Waiting(r.Last(), 0) && r.Last().events[0] == r.states[0].events[0]
  {
    var a, s1 := PlanRetry(cfg);
    var b, s2 := WaitUntilDue(cfg, s1, FirstDelay(cfg));
    var before := Join(cfg, Init(0), a, s1, b, s2, 0, FAILING);
    SmoothIsTimely(cfg, Init(0), before, s2, 0, FAILING);
    assert FromStart(cfg, 0, before);
    var t;
    r, t := MissManyTimes(cfg, s2, 1, n);
    forall k | 0 <= k < |r.steps| ensures PassesOverAt(cfg, r, k, 0) {
      assert MissesAt(cfg, r, k);
    }
    RetryPassedOver(cfg, r, |r.steps|, 0);
  }
}
