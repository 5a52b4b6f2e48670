/** Crashes, releases and notifications: what one of them changes, and timely runs that show how far
    the bounds on deliveries and attempts can be used up. */
module Incidents {
  import opened Types
  import opened EventRows
  import opened CopyLifecycle
  import opened DeliveryProtocol
  import opened Progress
  import RetryTiming

  // ----- Single steps

  lemma CrashIsLoss(cfg: Config, s: State, i: InstanceId, e: EventId)
    requires e in s.events
    ensures var t := Next(cfg, s, Crash(i));
            && e in t.events
            && t.events[e] == Apply(cfg, s.clock, s.events[e], Lose(CopiesOf(s.events[e], i)))
            && t.clock == s.clock && s.notes <= t.notes
  {
    EventNext(cfg, s, Crash(i), e);
  }

  lemma CrashEmptiesQueue(cfg: Config, s: State, i: InstanceId)
    ensures var t := Next(cfg, s, Crash(i));
            && Queue(t, i) == [] && t.polling[i] == 0
            && (forall j :: j != i ==> Queue(t, j) == Queue(s, j) && t.polling[j] == s.polling[j])
  {
  }

  lemma LosesExactly(cfg: Config, now: Time, ev: Event, i: InstanceId)
    ensures var ev' := Apply(cfg, now, ev, Lose(CopiesOf(ev, i)));
            && ev'.row == ev.row
            && (forall k :: k in ev'.copies <==> k in ev.copies && ev.copies[k].instance != i)
            && (forall k :: k in ev'.copies ==> ev'.copies[k] == ev.copies[k])
            && ev'.log.lost + |ev'.copies| == ev.log.lost + |ev.copies|
            && ev'.log == ev.log.(lost := ev'.log.lost)
  {
    RemoveCopies(ev.copies, CopiesOf(ev, i));
  }

  /** A crash leaves no copy of its instance alive, nothing in its queue and no poll under way. It counts
      each of the copies as lost, and touches no row and no copy of another instance. */
  lemma CrashLosesCopies(cfg: Config, s: State, i: InstanceId, e: EventId)
    requires e in s.events
    ensures var t := Next(cfg, s, Crash(i));
            && e in t.events && t.events[e].row == s.events[e].row
            && (forall k :: k in t.events[e].copies <==> k in s.events[e].copies && s.events[e].copies[k].instance != i)
            && (forall k :: k in t.events[e].copies ==> t.events[e].copies[k] == s.events[e].copies[k])
            && t.events[e].log.lost + |t.events[e].copies| == s.events[e].log.lost + |s.events[e].copies|
            && Queue(t, i) == [] && t.polling[i] == 0
            && (forall j :: j != i ==> Queue(t, j) == Queue(s, j) && t.polling[j] == s.polling[j])
  {
    CrashIsLoss(cfg, s, i, e);
    LosesExactly(cfg, s.clock, s.events[e], i);
    CrashEmptiesQueue(cfg, s, i);
  }

  /** In every run, what is released was polled and met a queue with exactly as many entries as fit, or
      was notified and held for at least half a second. */
  lemma ReleaseHasReason(cfg: Config, start: Time, r: Run, j: nat, e: EventId, k: nat)
    requires FromStart(cfg, start, r) && j < |r.steps| && r.steps[j] == Act(e, Release(k))
    ensures var s := r.states[j];
            && e in s.events && k in s.events[e].copies && s.events[e].copies[k].phase.Held?
            && var copy := s.events[e].copies[k];
            && (copy.phase.via.Poller? ==> |Queue(s, copy.instance)| == cfg.queueCapacity)
            && (copy.phase.via.Listener? ==> s.clock - copy.claimedAt >= 500_000_000)
  {
    assert MovesAt(cfg, r, j);
    EveryRun(cfg, start, r, j, e, r.states[j].events[e].copies[k].instance);
  }

  /** What can be done with a held copy: it enters the queue exactly when there is room, is handed over
      exactly when the queue has no capacity, and given back by a poller exactly when there is no room,
      by a listener exactly when half a second has passed. */
  lemma HeldChoices(cfg: Config, s: State, e: EventId, k: nat)
    requires e in s.events && k in s.events[e].copies && s.events[e].copies[k].phase.Held?
    ensures var copy := s.events[e].copies[k];
            var queued := |Queue(s, copy.instance)|;
            && (CanStep(cfg, s, Act(e, Enqueue(k))) <==> queued < cfg.queueCapacity)
            && (CanStep(cfg, s, Act(e, HandOff(k))) <==> cfg.queueCapacity == 0)
            && (CanStep(cfg, s, Act(e, Release(k))) <==>
                  if copy.phase.via.Poller? then queued >= cfg.queueCapacity
                  else s.clock >= copy.claimedAt + 500_000_000)
  {
  }

  /** Any copy can be lost alone, except one in the queue, which only goes with its instance. */
  lemma LossExactly(cfg: Config, s: State, e: EventId, k: nat)
    requires e in s.events && k in s.events[e].copies
    ensures CanStep(cfg, s, Act(e, Lose({k}))) <==> !s.events[e].copies[k].phase.Queued?
  {
    if CanStep(cfg, s, Act(e, Lose({k}))) {
      assert k in {k};
    }
  }

  /** A poll goes on exactly when the queue would be at most 75% full with one more entry. */
  lemma StartPollExactly(cfg: Config, s: State, i: InstanceId)
    ensures CanStep(cfg, s, StartPoll(i)) <==> 4 * (|Queue(s, i)| + 1) <= 3 * cfg.queueCapacity
  {
  }

  /** Only the head of a queue is received, and by its own instance. */
  lemma PickExactly(cfg: Config, s: State, e: EventId, k: nat)
    requires SoundState(cfg, s) && e in s.events && k in s.events[e].copies && s.events[e].copies[k].phase.Queued?
    ensures var queue := Queue(s, s.events[e].copies[k].instance);
            queue != [] && (CanStep(cfg, s, Act(e, Pick(k))) <==> queue[0] == Ref(e, k))
  {
    var i := s.events[e].copies[k].instance;
    assert QueueMatches(cfg, s, i);
    assert IsQueued(s, Ref(e, k), i);
  }

  /** How many of the steps are looks at the queue of instance `i`, less the polls that have claimed or ended. */
  function Looks(steps: seq<Step>, i: InstanceId): int {
    if steps == [] then 0
    else
      var last := steps[|steps| - 1];
      Looks(steps[..|steps| - 1], i) + One(last == StartPoll(i)) - One(EndsPoll(last, i))
  }

  predicate EndsPoll(step: Step, i: InstanceId) {
    step == EndPoll(i) || (step.Poll? && step.instance == i)
  }

  /** In every run each poll that claims has looked at the queue before, once for each claim. */
  lemma {:induction false} PollsHaveLooked(cfg: Config, start: Time, r: Run, j: nat, i: InstanceId)
    requires FromStart(cfg, start, r) && j < |r.states|
    ensures 0 <= r.states[j].polling[i] <= Looks(r.steps[..j], i)
  {
    if j > 0 {
      PollsHaveLooked(cfg, start, r, j - 1, i);
      assert MovesAt(cfg, r, j - 1);
      assert r.steps[..j][..j - 1] == r.steps[..j - 1];
      PollingNext(cfg, r.states[j - 1], r.steps[j - 1], i);
    }
  }

  lemma PollingNext(cfg: Config, s: State, step: Step, i: InstanceId)
    requires CanStep(cfg, s, step)
    ensures Next(cfg, s, step).polling[i] <=
            s.polling[i] + One(step == StartPoll(i)) - One(EndsPoll(step, i))
  {
  }

  /** A retry check finds at most 50 events, and as many as there are: pending ones whose retry time has come. */
  lemma RetryCheckFinds(cfg: Config, start: Time, r: Run, j: nat, found: set<EventId>)
    requires FromStart(cfg, start, r) && j < |r.steps| && r.steps[j] == CheckRetries(found)
    ensures var s := r.states[j];
            && |found| == Min(50, |RetryReadyIds(s)|)
            && forall e :: e in found ==>
                 && e in s.events && s.events[e].row.status.Pending?
                 && s.events[e].row.nextAttemptAt.Some? && s.events[e].row.nextAttemptAt.value <= s.clock
  {
    assert MovesAt(cfg, r, j);
    forall e | e in found
      ensures e in r.states[j].events && e in RetryReadyIds(r.states[j])
    {
    }
  }

  // ----- Notifications

  /** A statement that leaves a row pending and due sends a notification: a release, a retry, a sweep, or
      a write of the attempts. */
  lemma WriteIsNoticed(cfg: Config, s: State, step: Step, e: EventId)
    requires CanStep(cfg, s, step) && e in s.events && OpOn(s, step, e).Some?
    requires var op := OpOn(s, step, e).value;
             op.Release? || op.Reschedule? || op.Sweep? || (op.Bump? && op.stored)
    ensures var t := Next(cfg, s, step);
            && e in t.events
            && (t.events[e].row.status.Pending? && Due(t.events[e].row, s.clock) ==> e in t.notes)
  {
    EventNext(cfg, s, step, e);
    if NextEvent(cfg, s, step, e).row.status.Pending? && Due(NextEvent(cfg, s, step, e).row, s.clock) {
      assert Notified(cfg, s, step, e);
    }
  }

  /** An event that comes back to pending and is due can be notified about, even if every earlier
      notification was lost. */
  lemma BackToPendingIsNoticed(cfg: Config, s: State, step: Step, e: EventId)
    requires CanStep(cfg, s, step) && e in s.events && !s.events[e].row.status.Pending?
    ensures var t := Next(cfg, s, step);
            && e in t.events
            && (t.events[e].row.status.Pending? && Due(t.events[e].row, s.clock) ==> e in t.notes)
  {
    EventNext(cfg, s, step, e);
    OpsEnabled(cfg, s, step, e);
    if NextEvent(cfg, s, step, e).row.status.Pending? && Due(NextEvent(cfg, s, step, e).row, s.clock) {
      assert Notified(cfg, s, step, e);
    }
  }

  /** So can a new event. */
  lemma StoredIsNoticed(cfg: Config, s: State, e: EventId, webhook: WebhookId)
    requires e !in s.events
    ensures e in Next(cfg, s, StoreEvent(e, webhook)).notes
  {
  }

  /** No notification comes up without a reason: the retry check has found the event, or a statement has
      just written its row, which is pending and due now. */
  lemma NoticeHasReason(cfg: Config, s: State, step: Step, e: EventId)
    requires CanStep(cfg, s, step) && e in s.events && e !in s.notes && e in Next(cfg, s, step).notes
    ensures || (step.CheckRetries? && e in RetryReadyIds(s))
            || (&& OpOn(s, step, e).Some?
                && Next(cfg, s, step).events[e].row.status.Pending?
                && Due(Next(cfg, s, step).events[e].row, s.clock))
  {
    EventNext(cfg, s, step, e);
  }

  // ----- Timely runs with faults

  /** `r` leads from `s` to `t`, and no sweep in it meets a stale copy of event 0. */
  ghost predicate Goes(cfg: Config, s: State, r: Run, t: State) {
    && IsRun(cfg, r) && r.states[0] == s && r.Last() == t
    && forall j {:trigger TimelyStep(r, j)} :: 0 <= j < |r.steps| ==> TimelyStep(r, j)
  }

  ghost predicate TimelyStep(r: Run, j: nat)
    requires j < |r.steps| && |r.states| == |r.steps| + 1
  {
    TimelyAt(r.states[j], r.steps[j], 0)
  }

  lemma GoesInTime(cfg: Config, s: State, r: Run, t: State)
    requires Goes(cfg, s, r, t)
    ensures Timely(r, 0)
  {
    forall j | 0 <= j < |r.steps| ensures TimelyAt(r.states[j], r.steps[j], 0) {
      assert TimelyStep(r, j);
    }
  }

  lemma GoTogether(cfg: Config, s: State, a: Run, t: State, b: Run, u: State) returns (r: Run)
    requires Goes(cfg, s, a, t) && Goes(cfg, t, b, u)
    ensures Goes(cfg, s, r, u)
  {
    r := Run(a.states + b.states[1..], a.steps + b.steps);
    forall j | 0 <= j < |r.steps| ensures MovesAt(cfg, r, j) && TimelyStep(r, j) {
      if j < |a.steps| {
        assert MovesAt(cfg, a, j) && TimelyStep(a, j);
      } else {
        assert MovesAt(cfg, b, j - |a.steps|) && TimelyStep(b, j - |a.steps|);
      }
    }
  }

  lemma GoOnce(cfg: Config, s: State, step: Step) returns (r: Run, t: State)
    requires CanStep(cfg, s, step) && TimelyAt(s, step, 0)
    ensures t == Next(cfg, s, step) && Goes(cfg, s, r, t)
  {
    t := Next(cfg, s, step);
    r := Run([s, t], [step]);
    assert MovesAt(cfg, r, 0) && TimelyStep(r, 0);
  }

  lemma GoNowhere(cfg: Config, s: State) returns (r: Run)
    ensures Goes(cfg, s, r, s)
  {
    r := Run([s], []);
  }

  /** Event 0 is pending with `a` attempts, nobody has a copy of it, and it can be notified about. */
  ghost predicate Waits(s: State, a: nat) {
    && 0 in s.events && 0 in s.notes && Queue(s, 0) == []
    && s.events[0].row.status.Pending? && s.events[0].row.attempts == a && s.events[0].copies == map[]
  }

  /** A worker has the only copy of event 0. */
  ghost predicate Works(s: State, a: nat, k: nat) {
    && 0 in s.events && 0 in s.notes && Queue(s, 0) == []
    && s.events[0].row.status.Processing? && s.events[0].row.attempts == a + 1
    && s.events[0].row.startedAt == Some(s.clock)
    && s.events[0].copies == map[k := Copy(0, a, s.clock, Picked)]
  }

  lemma SmoothGoes(cfg: Config, s: State, r: Run, t: State)
    requires Leads(cfg, s, r, t, 0, RetryTiming.FAILING)
    ensures Goes(cfg, s, r, t)
  {
    forall j | 0 <= j < |r.steps| ensures TimelyStep(r, j) {
      assert SmoothAt(r, j, 0, RetryTiming.FAILING);
    }
  }

  lemma StartWork(cfg: Config, s: State, a: nat) returns (r: Run, t: State, k: nat)
    requires Waits(s, a)
    ensures Goes(cfg, s, r, t) && Works(t, a, k)
    ensures t.events[0].log == s.events[0].log.(claims := s.events[0].log.claims + 1)
  {
    k := s.events[0].log.claims;
    var x, s1 := GoOnce(cfg, s, HandleNotification(0, 0));
    NoticeEffect(cfg, s, 0, 0);
    var y;
    y, t := HandOver(cfg, s1, 0, 0, k, 0, RetryTiming.FAILING);
    SmoothGoes(cfg, s1, y, t);
    r := GoTogether(cfg, s, x, s1, y, t);
  }

  /** A step through the copy of event 0. */
  lemma GoAct(cfg: Config, s: State, op: Op) returns (r: Run, t: State)
    requires CanStep(cfg, s, Act(0, op)) && !op.Enqueue? && !op.Pick?
    ensures Goes(cfg, s, r, t)
    ensures t.queues == s.queues && t.clock == s.clock && s.notes <= t.notes
    ensures t.events == s.events[0 := Apply(cfg, s.clock, s.events[0], op)]
  {
    ActEffect(cfg, s, 0, op);
    r, t := GoOnce(cfg, s, Act(0, op));
  }

  lemma LoseOnly(cfg: Config, now: Time, ev: Event, k: nat)
    requires ev.copies.Keys == {k} && ev.copies[k].instance == 0
    ensures var ev' := Apply(cfg, now, ev, Lose(CopiesOf(ev, 0)));
            && ev'.row == ev.row && ev'.copies == map[]
            && ev'.log == ev.log.(lost := ev.log.lost + 1)
  {
    assert CopiesOf(ev, 0) == {k};
  }

  /** Its instance crashes while it has the only copy. */
  lemma CrashWithCopy(cfg: Config, s: State, k: nat) returns (r: Run, t: State)
    requires 0 in s.events && s.events[0].copies.Keys == {k} && s.events[0].copies[k].instance == 0
    ensures Goes(cfg, s, r, t) && t.clock == s.clock && s.notes <= t.notes && Queue(t, 0) == []
    ensures 0 in t.events && t.events[0].row == s.events[0].row && t.events[0].copies == map[]
    ensures t.events[0].log == s.events[0].log.(lost := s.events[0].log.lost + 1)
  {
    r, t := GoOnce(cfg, s, Crash(0));
    CrashIsLoss(cfg, s, 0, 0);
    CrashEmptiesQueue(cfg, s, 0);
    LoseOnly(cfg, s.clock, s.events[0], k);
  }

  /** The sweep takes a row back that has no copy left. */
  lemma WaitAndSweep(cfg: Config, s: State) returns (r: Run, t: State)
    requires 0 in s.events && 0 in s.notes && Queue(s, 0) == []
    requires s.events[0].row.status.Processing? && s.events[0].row.startedAt == Some(s.clock)
    requires s.events[0].copies == map[]
    ensures Goes(cfg, s, r, t) && Waits(t, s.events[0].row.attempts) && t.events[0].log == s.events[0].log
  {
    var x, s1 := GoOnce(cfg, s, Tick(STALL_TIMEOUT + 1));
    QuietEffect(cfg, s, Tick(STALL_TIMEOUT + 1));
    var y;
    y, t := SweepBack(cfg, s1);
    r := GoTogether(cfg, s, x, s1, y, t);
  }

  lemma SweepBack(cfg: Config, s: State) returns (r: Run, t: State)
    requires 0 in s.events && Stalled(s.events[0].row, s.clock, STALL_TIMEOUT) && s.events[0].copies == map[]
    ensures Goes(cfg, s, r, t) && t.queues == s.queues && s.notes <= t.notes && 0 in t.events
    ensures t.events[0].row == ToPending(s.events[0].row) && t.events[0].copies == map[]
    ensures t.events[0].log == s.events[0].log
  {
    r, t := GoOnce(cfg, s, CleanupStalled);
    EventNext(cfg, s, CleanupStalled, 0);
  }

  /** The event is delivered, but the instance crashes before it can write that down. */
  lemma LoseDelivery(cfg: Config, s: State, a: nat, success: bool) returns (r: Run, t: State)
    requires Waits(s, a)
    ensures Goes(cfg, s, r, t) && Waits(t, a + 1)
    ensures var before, after := s.events[0].log, t.events[0].log;
            && after.deliveries == before.deliveries + 1 && after.successes == before.successes + One(success)
            && after.lost == before.lost + 1 && after.overtaken == before.overtaken
  {
    var x, s1, k := StartWork(cfg, s, a);
    var y, s2 := GoAct(cfg, s1, Deliver(k, success));
    var z, s3 := CrashWithCopy(cfg, s2, k);
    var w;
    w, t := WaitAndSweep(cfg, s3);
    var zw := GoTogether(cfg, s2, z, s3, w, t);
    var yzw := GoTogether(cfg, s1, y, s2, zw, t);
    r := GoTogether(cfg, s, x, s1, yzw, t);
  }

  lemma {:induction false} LoseDeliveries(cfg: Config, s: State, a: nat, success: bool, n: nat)
      returns (r: Run, t: State)
    requires Waits(s, a)
    ensures Goes(cfg, s, r, t) && Waits(t, a + n)
    ensures var before, after := s.events[0].log, t.events[0].log;
            && after.deliveries == before.deliveries + n
            && after.successes == before.successes + (if success then n else 0)
            && after.lost == before.lost + n && after.overtaken == before.overtaken
    decreases n
  {
    if n == 0 {
      t := s;
      r := GoNowhere(cfg, s);
    } else {
      var x, s1 := LoseDelivery(cfg, s, a, success);
      var y;
      y, t := LoseDeliveries(cfg, s1, a + 1, success, n - 1);
      r := GoTogether(cfg, s, x, s1, y, t);
    }
  }

  /** A failed delivery that is retried. */
  lemma FailAndRetry(cfg: Config, s: State, a: nat) returns (r: Run, t: State)
    requires Waits(s, a) && a + 1 < cfg.maxRetries
    ensures Goes(cfg, s, r, t) && Waits(t, a + 1)
    ensures var before, after := s.events[0].log, t.events[0].log;
            && after.deliveries == before.deliveries + 1
            && after.lost == before.lost && after.overtaken == before.overtaken
  {
    var w, s1, k := StartWork(cfg, s, a);
    var x, s2 := GoAct(cfg, s1, Deliver(k, false));
    var y, s3 := GoAct(cfg, s2, Bump(k, true));
    var z;
    z, t := GoAct(cfg, s3, Reschedule(k, 0.0, 0));
    assert t.events[0].copies == map[];
    var yz := GoTogether(cfg, s2, y, s3, z, t);
    var xyz := GoTogether(cfg, s1, x, s2, yz, t);
    r := GoTogether(cfg, s, w, s1, xyz, t);
  }

  lemma {:induction false} FailAndRetryTimes(cfg: Config, s: State, a: nat, n: nat) returns (r: Run, t: State)
    requires Waits(s, a) && (n > 0 ==> a + n < cfg.maxRetries)
    ensures Goes(cfg, s, r, t) && Waits(t, a + n)
    ensures var before, after := s.events[0].log, t.events[0].log;
            && after.deliveries == before.deliveries + n
            && after.lost == before.lost && after.overtaken == before.overtaken
    decreases n
  {
    if n == 0 {
      t := s;
      r := GoNowhere(cfg, s);
    } else {
      var x, s1 := FailAndRetry(cfg, s, a);
      var y;
      y, t := FailAndRetryTimes(cfg, s1, a + 1, n - 1);
      r := GoTogether(cfg, s, x, s1, y, t);
    }
  }

  /** The last delivery settles the event. */
  lemma DeliverAndSettle(cfg: Config, s: State, a: nat, success: bool) returns (r: Run, t: State)
    requires Waits(s, a) && (success || a + 1 >= cfg.maxRetries)
    ensures Goes(cfg, s, r, t) && IsSettled(t, 0)
    ensures var before, after := s.events[0].log, t.events[0].log;
            && after.deliveries == before.deliveries + 1 && after.successes == before.successes + One(success)
            && after.lost == before.lost && after.overtaken == before.overtaken
  {
    var x, s1, k := StartWork(cfg, s, a);
    var y, s2 := GoAct(cfg, s1, Deliver(k, success));
    var z;
    z, t := GoAct(cfg, s2, Settle(k));
    var yz := GoTogether(cfg, s1, y, s2, z, t);
    r := GoTogether(cfg, s, x, s1, yz, t);
  }

  lemma FirstWait(cfg: Config) returns (r: Run, t: State)
    ensures Goes(cfg, Init(0), r, t) && Waits(t, 0) && t.events[0] == NewEvent(0, 0)
  {
    r, t := GoOnce(cfg, Init(0), StoreEvent(0, 0));
    assert t.events == map[0 := NewEvent(0, 0)];
  }

  /** The bound on deliveries in timely runs is reached: for every `n` there is one in which `n` crashes
      lose a copy and the event is delivered max(1, maxRetries) + n times. */
  lemma CrashesRepeatDeliveries(cfg: Config, n: nat) returns (r: Run)
    ensures FromStart(cfg, 0, r) && Timely(r, 0) && IsSettled(r.Last(), 0)
    ensures var log := r.Last().events[0].log;
            log.deliveries == Max(1, cfg.maxRetries) + n && log.lost == n && log.overtaken == 0
  {
    var retries := Max(0, cfg.maxRetries - 1);
    var w, s1 := FirstWait(cfg);
    var x, s2 := FailAndRetryTimes(cfg, s1, 0, retries);
    var y, s3 := LoseDeliveries(cfg, s2, retries, false, n);
    var z, t := DeliverAndSettle(cfg, s3, retries + n, false);
    var yz := GoTogether(cfg, s2, y, s3, z, t);
    var xyz := GoTogether(cfg, s1, x, s2, yz, t);
    r := GoTogether(cfg, Init(0), w, s1, xyz, t);
    GoesInTime(cfg, Init(0), r, t);
  }

  /** So is the bound on successful ones. */
  lemma CrashesRepeatSuccesses(cfg: Config, n: nat) returns (r: Run)
    ensures FromStart(cfg, 0, r) && Timely(r, 0) && IsSettled(r.Last(), 0)
    ensures var log := r.Last().events[0].log; log.successes == 1 + n && log.lost == n && log.overtaken == 0
  {
    var x, s1 := FirstWait(cfg);
    var y, s2 := LoseDeliveries(cfg, s1, 0, true, n);
    var z, t := DeliverAndSettle(cfg, s2, n, true);
    var yz := GoTogether(cfg, s1, y, s2, z, t);
    r := GoTogether(cfg, Init(0), x, s1, yz, t);
    GoesInTime(cfg, Init(0), r, t);
  }

  /** A notified copy finds no room for half a second and is given back. */
  lemma ReleaseOnce(cfg: Config, s: State, a: nat) returns (r: Run, t: State)
    requires Waits(s, a) && Due(s.events[0].row, s.clock)
    ensures Goes(cfg, s, r, t) && Waits(t, a + 1) && Due(t.events[0].row, t.clock)
    ensures var before, after := s.events[0].log, t.events[0].log;
            after.released == before.released + 1 && after.deliveries == before.deliveries
  {
    var k := s.events[0].log.claims;
    var x, s1 := GoOnce(cfg, s, HandleNotification(0, 0));
    NoticeEffect(cfg, s, 0, 0);
    var y, s2 := GoOnce(cfg, s1, Tick(ENQUEUE_TIMEOUT));
    EventNext(cfg, s1, Tick(ENQUEUE_TIMEOUT), 0);
    var z;
    z, t := GoAct(cfg, s2, Release(k));
    assert t.events[0].copies == map[];
    var yz := GoTogether(cfg, s1, y, s2, z, t);
    r := GoTogether(cfg, s, x, s1, yz, t);
  }

  lemma {:induction false} ReleaseTimes(cfg: Config, s: State, a: nat, n: nat) returns (r: Run, t: State)
    requires Waits(s, a) && Due(s.events[0].row, s.clock)
    ensures Goes(cfg, s, r, t) && Waits(t, a + n)
    ensures var before, after := s.events[0].log, t.events[0].log;
            after.released == before.released + n && after.deliveries == before.deliveries
    decreases n
  {
    if n == 0 {
      t := s;
      r := GoNowhere(cfg, s);
    } else {
      var x, s1 := ReleaseOnce(cfg, s, a);
      var y;
      y, t := ReleaseTimes(cfg, s1, a + 1, n - 1);
      r := GoTogether(cfg, s, x, s1, y, t);
    }
  }

  /** Releases inflate the attempts without bound: for every `n` a timely run releases the event `n` times,
      which leaves it pending with `n` attempts and not a single delivery. */
  lemma ReleasesInflateAttempts(cfg: Config, n: nat) returns (r: Run)
    ensures FromStart(cfg, 0, r) && Timely(r, 0) && 0 in r.Last().events
    ensures var ev := r.Last().events[0];
            ev.row.status.Pending? && ev.row.attempts == n && ev.log.released == n && ev.log.deliveries == 0
  {
    var x, s1 := FirstWait(cfg);
    var y, t := ReleaseTimes(cfg, s1, 0, n);
    r := GoTogether(cfg, Init(0), x, s1, y, t);
    GoesInTime(cfg, Init(0), r, t);
  }
}
