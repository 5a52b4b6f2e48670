/** The whole service: any number of instances around one table. Each SQL statement or transaction,
    each queue operation and each delivery is one atomic step. A step acts on every event by at most
    one `Op`, so what is proved about one event holds of every run. */
module DeliveryProtocol {
  import opened Types
  import opened EventRows
  import opened CopyLifecycle
  import opened Ownership
  import FairSelection
  import Backoff

  /** A queued copy: the event, and which of its copies. */
  datatype Ref = Ref(event: EventId, k: nat)

  /** `notes` holds the events that some instance may still be notified about. Handling a notification
      leaves it in place, since every instance, and each listener of an instance, gets its own.
      `polling` holds the instances with a poll that has found room in the queue and has yet to claim. */
  datatype State = State(
    clock: Time,
    events: map<EventId, Event>,
    queues: map<InstanceId, seq<Ref>>,
    notes: set<EventId>,
    polling: multiset<InstanceId>)

  datatype Step =
    | Tick(time: nat)
    | StoreEvent(e: EventId, webhook: WebhookId)
    | HandleNotification(instance: InstanceId, e: EventId)
    | StartPoll(instance: InstanceId)
    | Poll(instance: InstanceId, locked: set<EventId>, batch: seq<FairSelection.Item>)
    | EndPoll(instance: InstanceId)
    | CheckRetries(found: set<EventId>)
    | CleanupStalled
    | Act(e: EventId, op: Op)
    | Crash(instance: InstanceId)
    | DropNotification(e: EventId)

  function Init(now: Time): State {
    State(now, map[], map[], {}, multiset{})
  }

  function Queue(s: State, i: InstanceId): seq<Ref> {
    if i in s.queues then s.queues[i] else []
  }

  function Rows(s: State): map<EventId, Row> {
    map e | e in s.events :: s.events[e].row
  }

  function ReadyItems(s: State): set<FairSelection.Item> {
    ReadySet(Rows(s), s.clock)
  }

  function Ids(batch: seq<FairSelection.Item>): set<EventId> {
    set x | x in batch :: x.id
  }

  function RetryReadyIds(s: State): set<EventId> {
    RetryReadySet(Rows(s), s.clock)
  }

  function CopiesOf(ev: Event, i: InstanceId): set<nat> {
    set k | k in ev.copies && ev.copies[k].instance == i
  }

  /** What a step does to event `e`, if anything. */
  function OpOn(s: State, step: Step, e: EventId): Option<Op>
    requires e in s.events
  {
    match step
    case HandleNotification(i, e') =>
      if e == e' && s.events[e].row.status.Pending? then Some(Claim(i, Listener)) else None
    case Poll(i, _, batch) => if e in Ids(batch) then Some(Claim(i, Poller)) else None
    case CleanupStalled => if Stalled(s.events[e].row, s.clock, STALL_TIMEOUT) then Some(Sweep) else None
    case Act(e', op) => if e == e' then Some(op) else None
    case Crash(i) => Some(Lose(CopiesOf(s.events[e], i)))
    case _ => None
  }

  /** A release needs its reason: a poller releases when the queue is full, a listener after its timeout.
      A queue without capacity stores nothing: the copy goes straight to a waiting worker. A copy in the
      queue is only lost when its instance crashes. */
  predicate CanAct(cfg: Config, s: State, e: EventId, op: Op)
    requires e in s.events && Enabled(s.clock, s.events[e], op)
  {
    var ev := s.events[e];
    match op
    case Claim(_, _) => false
    case Sweep => false
    case Enqueue(k) => |Queue(s, ev.copies[k].instance)| < cfg.queueCapacity
    case HandOff(_) => cfg.queueCapacity == 0
    case Release(k) =>
      if ev.copies[k].phase.via.Poller? then |Queue(s, ev.copies[k].instance)| >= cfg.queueCapacity
      else s.clock >= ev.copies[k].claimedAt + ENQUEUE_TIMEOUT
    case Pick(k) =>
      var queue := Queue(s, ev.copies[k].instance);
      queue != [] && queue[0] == Ref(e, k)
    case Lose(ks) => forall k :: k in ks ==> !ev.copies[k].phase.Queued?
    case _ => true
  }

  /** A poll is skipped when the queue is at least 75% full. Later on it does not look again. */
  predicate PollAllowed(capacity: nat, queued: nat) {
    queued < capacity * 3 / 4
  }

  ghost predicate CanStep(cfg: Config, s: State, step: Step) {
    match step
    case Tick(_) => true
    case StoreEvent(e, _) => e !in s.events
    case HandleNotification(_, e) => e in s.notes && e in s.events
    case StartPoll(i) => PollAllowed(cfg.queueCapacity, |Queue(s, i)|)
    case Poll(i, locked, batch) =>
      i in s.polling && FairSelection.IsBatch(ReadyItems(s), cfg.pollLimit, locked, batch)
    case EndPoll(i) => i in s.polling
    case CheckRetries(found) =>
      found <= RetryReadyIds(s) && |found| == Min(RETRY_CHECK_LIMIT, |RetryReadyIds(s)|)
    case CleanupStalled => true
    case Act(e, op) => e in s.events && Enabled(s.clock, s.events[e], op) && CanAct(cfg, s, e, op)
    case Crash(_) => true
    case DropNotification(_) => true
  }

  lemma BatchIsReady(cfg: Config, s: State, step: Step, e: EventId)
    requires step.Poll? && CanStep(cfg, s, step) && e in Ids(step.batch)
    ensures e in s.events && Ready(s.events[e].row, s.clock)
  {
    FairSelection.BatchRows(ReadyItems(s), cfg.pollLimit, step.locked, step.batch);
    var x :| x in step.batch && x.id == e;
    assert x in ReadyItems(s);
  }

  lemma OpsEnabled(cfg: Config, s: State, step: Step, e: EventId)
    requires CanStep(cfg, s, step) && e in s.events
    ensures OpOn(s, step, e).Some? ==> Enabled(s.clock, s.events[e], OpOn(s, step, e).value)
  {
    if step.Poll? && e in Ids(step.batch) {
      BatchIsReady(cfg, s, step, e);
    }
  }

  ghost function NextEvent(cfg: Config, s: State, step: Step, e: EventId): Event
    requires CanStep(cfg, s, step) && e in s.events
  {
    OpsEnabled(cfg, s, step, e);
    match OpOn(s, step, e)
    case None => s.events[e]
    case Some(op) => Apply(cfg, s.clock, s.events[e], op)
  }

  /** The row trigger: which updated rows send a notification. */
  ghost predicate Notified(cfg: Config, s: State, step: Step, e: EventId)
    requires CanStep(cfg, s, step) && e in s.events
  {
    && OpOn(s, step, e).Some?
    && Updates(OpOn(s, step, e).value)
    && Notifies(false, NextEvent(cfg, s, step, e).row, s.clock)
  }

  function NextQueues(s: State, step: Step): map<InstanceId, seq<Ref>> {
    match step
    case Act(e, Enqueue(k)) =>
      if e in s.events && k in s.events[e].copies then
        var i := s.events[e].copies[k].instance;
        s.queues[i := Queue(s, i) + [Ref(e, k)]]
      else s.queues
    case Act(e, Pick(k)) =>
      if e in s.events && k in s.events[e].copies then
        var i := s.events[e].copies[k].instance;
        if Queue(s, i) == [] then s.queues else s.queues[i := Queue(s, i)[1..]]
      else s.queues
    case Crash(i) => s.queues[i := []]
    case _ => s.queues
  }

  /** A poll is over when it has claimed, or when its transaction fails. */
  function NextPolling(s: State, step: Step): multiset<InstanceId> {
    match step
    case StartPoll(i) => s.polling + multiset{i}
    case Poll(i, _, _) => s.polling - multiset{i}
    case EndPoll(i) => s.polling - multiset{i}
    case Crash(i) => s.polling[i := 0]
    case _ => s.polling
  }

  ghost function Next(cfg: Config, s: State, step: Step): State
    requires CanStep(cfg, s, step)
  {
    State(
      if step.Tick? then s.clock + step.time else s.clock,
      (map e | e in s.events :: NextEvent(cfg, s, step, e))
      + (if step.StoreEvent? then map[step.e := NewEvent(step.webhook, s.clock)] else map[]),
      NextQueues(s, step),
      (if step.DropNotification? then s.notes - {step.e} else s.notes)
      + (set e | e in s.events && Notified(cfg, s, step, e))
      + (if step.StoreEvent? && Notifies(true, NewRow(step.webhook, s.clock), s.clock) then {step.e} else {})
      + (if step.CheckRetries? then step.found else {}),
      NextPolling(s, step))
  }

  lemma EventNext(cfg: Config, s: State, step: Step, e: EventId)
    requires CanStep(cfg, s, step) && e in s.events
    ensures e in Next(cfg, s, step).events && Next(cfg, s, step).events[e] == NextEvent(cfg, s, step, e)
  {
  }

  // ----- Runs

  /** A finite behaviour of the service: step `j` leads from state `j` to state `j + 1`. */
  datatype Run = Run(states: seq<State>, steps: seq<Step>) {
    function Last(): State
      requires states != []
    {
      states[|states| - 1]
    }
  }

  ghost predicate MovesAt(cfg: Config, r: Run, j: nat)
    requires j < |r.steps| && |r.states| == |r.steps| + 1
  {
    CanStep(cfg, r.states[j], r.steps[j]) && r.states[j + 1] == Next(cfg, r.states[j], r.steps[j])
  }

  ghost predicate IsRun(cfg: Config, r: Run) {
    && |r.states| == |r.steps| + 1
    && forall j {:trigger MovesAt(cfg, r, j)} :: 0 <= j < |r.steps| ==> MovesAt(cfg, r, j)
  }

  ghost predicate FromStart(cfg: Config, start: Time, r: Run) {
    IsRun(cfg, r) && r.states[0] == Init(start)
  }

  ghost predicate TimelyAt(s: State, step: Step, e: EventId) {
    step.CleanupStalled? && e in s.events ==> NoStaleCopy(s.clock, s.events[e])
  }

  /** No sweep of the run meets a copy of `e` that is still alive after the stall timeout. */
  ghost predicate Timely(r: Run, e: EventId)
    requires |r.states| == |r.steps| + 1
  {
    forall j {:trigger TimelyAt(r.states[j], r.steps[j], e)} ::
      0 <= j < |r.steps| ==> TimelyAt(r.states[j], r.steps[j], e)
  }

  ghost predicate ExclusiveIn(s: State, e: EventId) {
    e in s.events ==> Exclusive(s.events[e])
  }

  ghost predicate Follows(cfg: Config, s: State, e: EventId) {
    e in s.events ==> InStep(cfg, s.clock, s.events[e])
  }

  lemma EventInStep(cfg: Config, s: State, step: Step, e: EventId)
    requires CanStep(cfg, s, step) && e in s.events && InStep(cfg, s.clock, s.events[e]) && TimelyAt(s, step, e)
    ensures InStep(cfg, s.clock, NextEvent(cfg, s, step, e))
    ensures Advances(cfg, s.events[e].row, NextEvent(cfg, s, step, e).row)
  {
    OpsEnabled(cfg, s, step, e);
    if OpOn(s, step, e).Some? {
      StepInStep(cfg, s.clock, s.events[e], OpOn(s, step, e).value);
    }
  }

  lemma NewEventNext(cfg: Config, s: State, step: Step, e: EventId)
    requires CanStep(cfg, s, step) && e !in s.events && e in Next(cfg, s, step).events
    ensures step.StoreEvent? && Next(cfg, s, step).events[e] == NewEvent(step.webhook, s.clock)
    ensures Next(cfg, s, step).clock == s.clock
  {
  }

  lemma ClockNext(cfg: Config, s: State, step: Step)
    requires CanStep(cfg, s, step)
    ensures s.clock <= Next(cfg, s, step).clock
  {
  }

  lemma StepFollows(cfg: Config, s: State, step: Step, e: EventId)
    requires CanStep(cfg, s, step) && Follows(cfg, s, e) && TimelyAt(s, step, e)
    ensures Follows(cfg, Next(cfg, s, step), e)
    ensures e in s.events ==>
              e in Next(cfg, s, step).events && Advances(cfg, s.events[e].row, Next(cfg, s, step).events[e].row)
  {
    ClockNext(cfg, s, step);
    if e in s.events {
      EventNext(cfg, s, step, e);
      EventInStep(cfg, s, step, e);
      InStepLater(cfg, s.clock, Next(cfg, s, step).clock, NextEvent(cfg, s, step, e));
    } else if e in Next(cfg, s, step).events {
      NewEventNext(cfg, s, step, e);
      NewInStep(cfg, step.webhook, s.clock);
    }
  }

  /** A step from a state in step breaks exclusive ownership exactly when it is an untimely sweep. */
  lemma StepExclusive(cfg: Config, s: State, step: Step, e: EventId)
    requires CanStep(cfg, s, step) && Follows(cfg, s, e)
    ensures ExclusiveIn(Next(cfg, s, step), e) <==> TimelyAt(s, step, e)
  {
    var s' := Next(cfg, s, step);
    if TimelyAt(s, step, e) {
      StepFollows(cfg, s, step, e);
      if e in s'.events {
        OwnedIsExclusive(s'.events[e]);
      }
    } else {
      var k :| k in s.events[e].copies && s.clock - s.events[e].copies[k].claimedAt > STALL_TIMEOUT;
      assert OpOn(s, step, e) == Some(Sweep);
      StepOwned(cfg, s.clock, s.events[e], Sweep);
      EventNext(cfg, s, step, e);
    }
  }

  lemma {:induction false} TimelyPrefix(cfg: Config, r: Run, e: EventId, n: nat)
    requires IsRun(cfg, r) && n < |r.states| && Follows(cfg, r.states[0], e)
    requires || (forall j :: 0 <= j <= n ==> ExclusiveIn(r.states[j], e))
             || (forall j {:trigger TimelyAt(r.states[j], r.steps[j], e)} ::
                   0 <= j < n ==> TimelyAt(r.states[j], r.steps[j], e))
    ensures Follows(cfg, r.states[n], e) && ExclusiveIn(r.states[n], e)
    ensures n > 0 ==> TimelyAt(r.states[n - 1], r.steps[n - 1], e)
  {
    if n > 0 {
      TimelyPrefix(cfg, r, e, n - 1);
      assert MovesAt(cfg, r, n - 1);
      StepExclusive(cfg, r.states[n - 1], r.steps[n - 1], e);
      StepFollows(cfg, r.states[n - 1], r.steps[n - 1], e);
    } else if e in r.states[0].events {
      OwnedIsExclusive(r.states[0].events[e]);
    }
  }

  /** Exclusive ownership over whole runs of the service, for any number of instances, crashes,
      duplicate and lost notifications, polls and sweeps: it holds in every state of a run exactly
      when no sweep of the run meets a stale copy. */
  lemma ExclusiveOwnership(cfg: Config, start: Time, r: Run, e: EventId)
    requires FromStart(cfg, start, r)
    ensures (forall j :: 0 <= j < |r.states| ==> ExclusiveIn(r.states[j], e)) <==> Timely(r, e)
  {
    if forall j :: 0 <= j < |r.states| ==> ExclusiveIn(r.states[j], e) {
      forall j | 0 <= j < |r.steps| ensures TimelyAt(r.states[j], r.steps[j], e) {
        TimelyPrefix(cfg, r, e, j + 1);
      }
    }
    if Timely(r, e) {
      forall j | 0 <= j < |r.states| ensures ExclusiveIn(r.states[j], e) {
        TimelyPrefix(cfg, r, e, j);
      }
    }
  }

  /** One more step after `first`, ..., `s`. */
  lemma FollowsOn(cfg: Config, first: State, s: State, step: Step, t: State, e: EventId)
    requires CanStep(cfg, s, step) && t == Next(cfg, s, step) && TimelyAt(s, step, e)
    requires Follows(cfg, s, e) && AdvancesTo(cfg, first, s, e)
    ensures Follows(cfg, t, e) && AdvancesTo(cfg, first, t, e)
  {
    StepFollows(cfg, s, step, e);
    if e in first.events {
      AdvancesOn(cfg, first.events[e].row, s.events[e].row, t.events[e].row);
    }
  }

  ghost predicate AdvancesTo(cfg: Config, s: State, t: State, e: EventId) {
    e in s.events ==> e in t.events && Advances(cfg, s.events[e].row, t.events[e].row)
  }

  lemma AdvancesOn(cfg: Config, a: Row, b: Row, c: Row)
    requires Advances(cfg, a, b) && Advances(cfg, b, c)
    ensures Advances(cfg, a, c)
  {
  }

  lemma {:induction false} RunFollows(cfg: Config, r: Run, e: EventId, i: nat, j: nat)
    requires IsRun(cfg, r) && Timely(r, e) && i <= j < |r.states| && Follows(cfg, r.states[i], e)
    ensures Follows(cfg, r.states[j], e) && AdvancesTo(cfg, r.states[i], r.states[j], e)
  {
    if i < j {
      RunFollows(cfg, r, e, i, j - 1);
      RunFollowsOn(cfg, r, e, i, j - 1);
    }
  }

  lemma RunFollowsOn(cfg: Config, r: Run, e: EventId, i: nat, j: nat)
    requires IsRun(cfg, r) && Timely(r, e) && i <= j < |r.steps|
    requires Follows(cfg, r.states[j], e) && AdvancesTo(cfg, r.states[i], r.states[j], e)
    ensures Follows(cfg, r.states[j + 1], e) && AdvancesTo(cfg, r.states[i], r.states[j + 1], e)
  {
    assert MovesAt(cfg, r, j);
    assert TimelyAt(r.states[j], r.steps[j], e);
    FollowsOn(cfg, r.states[i], r.states[j], r.steps[j], r.states[j + 1], e);
  }

  // ----- Facts about every run of the service

  /** In every run, stale copies or not: claims are accounted for, pending rows have no owner,
      processing rows have one, and success needs a successful delivery. */
  ghost predicate AllSane(s: State) {
    forall e {:trigger Sane(s.events[e])} :: e in s.events ==> Sane(s.events[e])
  }

  lemma StepAllSane(cfg: Config, s: State, step: Step)
    requires CanStep(cfg, s, step) && AllSane(s)
    ensures AllSane(Next(cfg, s, step))
  {
    var s' := Next(cfg, s, step);
    forall e | e in s'.events ensures Sane(s'.events[e]) {
      if e in s.events {
        assert Sane(s.events[e]);
        EventNext(cfg, s, step, e);
        OpsEnabled(cfg, s, step, e);
        if OpOn(s, step, e).Some? {
          StepSane(cfg, s.clock, s.events[e], OpOn(s, step, e).value);
        }
      }
    }
  }

  /** The copies of an event that wait in the queue of instance `i`. */
  function QueuedAt(ev: Event, i: InstanceId): set<nat> {
    set k | k in ev.copies && ev.copies[k].phase.Queued? && ev.copies[k].instance == i
  }

  /** A queue holds exactly the copies that are queued at its instance, each once, within its capacity. */
  ghost predicate QueueMatches(cfg: Config, s: State, i: InstanceId) {
    var queue := Queue(s, i);
    && |queue| <= cfg.queueCapacity
    && (forall a, b :: 0 <= a < b < |queue| ==> queue[a] != queue[b])
    && (forall r :: r in queue <==> IsQueued(s, r, i))
  }

  ghost predicate IsQueued(s: State, r: Ref, i: InstanceId) {
    r.event in s.events && r.k in QueuedAt(s.events[r.event], i)
  }

  ghost predicate QueuesMatch(cfg: Config, s: State) {
    forall i {:trigger QueueMatches(cfg, s, i)} :: QueueMatches(cfg, s, i)
  }

  function QueuedAfter(ev: Event, op: Op, i: InstanceId): set<nat> {
    match op
    case Enqueue(k) =>
      QueuedAt(ev, i) + if k in ev.copies && ev.copies[k].instance == i then {k} else {}
    case Pick(k) => QueuedAt(ev, i) - {k}
    case Lose(ks) => QueuedAt(ev, i) - ks
    case _ => QueuedAt(ev, i)
  }

  lemma QueuedAfterCorrect(cfg: Config, now: Time, ev: Event, op: Op, i: InstanceId)
    requires Sane(ev) && Enabled(now, ev, op)
    ensures QueuedAt(Apply(cfg, now, ev, op), i) == QueuedAfter(ev, op, i)
  {
  }

  lemma QueueAfter(cfg: Config, s: State, step: Step, i: InstanceId)
    requires CanStep(cfg, s, step)
    ensures var queue := Queue(s, i);
            Queue(Next(cfg, s, step), i) ==
            if step.Act? && step.op.Enqueue? && s.events[step.e].copies[step.op.k].instance == i then
              queue + [Ref(step.e, step.op.k)]
            else if step.Act? && step.op.Pick? && s.events[step.e].copies[step.op.k].instance == i then
              assert queue[0] == Ref(step.e, step.op.k); queue[1..]
            else if step == Crash(i) then []
            else queue
  {
  }

  lemma StepQueuesMatch(cfg: Config, s: State, step: Step)
    requires CanStep(cfg, s, step) && AllSane(s) && QueuesMatch(cfg, s)
    ensures QueuesMatch(cfg, Next(cfg, s, step))
  {
    var s' := Next(cfg, s, step);
    forall i ensures QueueMatches(cfg, s', i) {
      assert QueueMatches(cfg, s, i);
      QueueAfter(cfg, s, step, i);
      if step.Act? && step.op.Enqueue? {
        assert !IsQueued(s, Ref(step.e, step.op.k), i);
      }
      forall r: Ref ensures r in Queue(s', i) <==> IsQueued(s', r, i) {
        QueueEntry(cfg, s, step, i, r);
      }
    }
  }

  lemma QueueEntry(cfg: Config, s: State, step: Step, i: InstanceId, r: Ref)
    requires CanStep(cfg, s, step) && AllSane(s) && QueueMatches(cfg, s, i)
    ensures r in Queue(Next(cfg, s, step), i) <==> IsQueued(Next(cfg, s, step), r, i)
  {
    QueueAfter(cfg, s, step, i);
    if r.event in s.events {
      EventNext(cfg, s, step, r.event);
      assert Sane(s.events[r.event]);
      QueuedNext(cfg, s, step, r.event, i);
      QueueEntryKept(cfg, s, step, i, r);
    } else {
      assert r !in Queue(s, i);
    }
  }

  lemma QueueEntryKept(cfg: Config, s: State, step: Step, i: InstanceId, r: Ref)
    requires CanStep(cfg, s, step) && QueueMatches(cfg, s, i) && r.event in s.events
    ensures r in Queue(Next(cfg, s, step), i) <==> r.k in QueuedLater(s, step, r.event, i)
  {
    assert r in Queue(s, i) <==> IsQueued(s, r, i);
    if step.Act? && step.op.Pick? {
      PickedEntry(cfg, s, step, i, r);
    } else if step.Act? && step.op.Enqueue? {
      EnqueuedEntry(cfg, s, step, i, r);
    } else {
      OtherEntry(cfg, s, step, i, r);
      OtherQueued(cfg, s, step, i, r);
    }
  }

  lemma OtherQueued(cfg: Config, s: State, step: Step, i: InstanceId, r: Ref)
    requires CanStep(cfg, s, step) && !(step.Act? && (step.op.Pick? || step.op.Enqueue?)) && r.event in s.events
    ensures r.k in QueuedLater(s, step, r.event, i) <==> r.k in QueuedAt(s.events[r.event], i) && step != Crash(i)
  {
  }

  lemma EnqueuedEntry(cfg: Config, s: State, step: Step, i: InstanceId, r: Ref)
    requires CanStep(cfg, s, step) && step.Act? && step.op.Enqueue?
    ensures r in Queue(Next(cfg, s, step), i) <==>
            || r in Queue(s, i)
            || (r == Ref(step.e, step.op.k) && s.events[step.e].copies[step.op.k].instance == i)
  {
    QueueAfter(cfg, s, step, i);
  }

  lemma OtherEntry(cfg: Config, s: State, step: Step, i: InstanceId, r: Ref)
    requires CanStep(cfg, s, step) && !(step.Act? && (step.op.Pick? || step.op.Enqueue?))
    ensures r in Queue(Next(cfg, s, step), i) <==> r in Queue(s, i) && step != Crash(i)
  {
    QueueAfter(cfg, s, step, i);
  }

  lemma PickedEntry(cfg: Config, s: State, step: Step, i: InstanceId, r: Ref)
    requires CanStep(cfg, s, step) && step.Act? && step.op.Pick? && QueueMatches(cfg, s, i)
    ensures r in Queue(Next(cfg, s, step), i) <==> r in Queue(s, i) && r != Ref(step.e, step.op.k)
  {
  }

  function QueuedLater(s: State, step: Step, e: EventId, i: InstanceId): set<nat>
    requires e in s.events
  {
    match OpOn(s, step, e)
    case None => QueuedAt(s.events[e], i)
    case Some(op) => QueuedAfter(s.events[e], op, i)
  }

  lemma QueuedNext(cfg: Config, s: State, step: Step, e: EventId, i: InstanceId)
    requires CanStep(cfg, s, step) && e in s.events && Sane(s.events[e])
    ensures QueuedAt(NextEvent(cfg, s, step, e), i) == QueuedLater(s, step, e, i)
  {
    OpsEnabled(cfg, s, step, e);
    if OpOn(s, step, e).Some? {
      QueuedAfterCorrect(cfg, s.clock, s.events[e], OpOn(s, step, e).value, i);
    }
  }

  // ----- Whole runs, from the start of the service

  ghost predicate SoundState(cfg: Config, s: State) {
    AllSane(s) && QueuesMatch(cfg, s)
  }

  lemma StepSound(cfg: Config, s: State, step: Step)
    requires CanStep(cfg, s, step) && SoundState(cfg, s)
    ensures SoundState(cfg, Next(cfg, s, step))
  {
    StepAllSane(cfg, s, step);
    StepQueuesMatch(cfg, s, step);
  }

  lemma {:induction false} RunSound(cfg: Config, r: Run, i: nat, j: nat)
    requires IsRun(cfg, r) && i <= j < |r.states| && SoundState(cfg, r.states[i])
    ensures SoundState(cfg, r.states[j])
  {
    if i < j {
      RunSound(cfg, r, i, j - 1);
      assert MovesAt(cfg, r, j - 1);
      StepSound(cfg, r.states[j - 1], r.steps[j - 1]);
    }
  }

  lemma InitSound(cfg: Config, start: Time)
    ensures SoundState(cfg, Init(start))
  {
    forall i ensures QueueMatches(cfg, Init(start), i) {
    }
  }

  lemma {:induction false} EventsRemain(cfg: Config, r: Run, i: nat, j: nat)
    requires IsRun(cfg, r) && i <= j < |r.states|
    ensures r.states[i].events.Keys <= r.states[j].events.Keys
  {
    if i < j {
      EventsRemain(cfg, r, i, j - 1);
      assert MovesAt(cfg, r, j - 1);
    }
  }

  /** In every run, stale copies included: each claim has ended once or still has its copy, a row with
      status success was delivered successfully, and a queue holds each of its copies once and never
      exceeds its capacity. */
  lemma EveryRun(cfg: Config, start: Time, r: Run, j: nat, e: EventId, i: InstanceId)
    requires FromStart(cfg, start, r) && j < |r.states|
    ensures QueueMatches(cfg, r.states[j], i)
    ensures e in r.states[j].events ==>
              var ev := r.states[j].events[e];
              && ev.log.claims == ev.log.processed + ev.log.released + ev.log.lost + |ev.copies|
              && (ev.row.status.Succeeded? ==> ev.log.successes >= 1)
  {
    InitSound(cfg, start);
    RunSound(cfg, r, 0, j);
    if e in r.states[j].events {
      assert Sane(r.states[j].events[e]);
    }
  }

  /** In every run, the owner and age filter of `check_retry_events` excludes nothing: it finds
      exactly the pending rows whose retry time has come. */
  lemma RetryFilterIsRedundant(cfg: Config, start: Time, r: Run, j: nat, e: EventId)
    requires FromStart(cfg, start, r) && j < |r.states| && e in r.states[j].events
    ensures var s := r.states[j];
            var row := s.events[e].row;
            && (e in RetryReadyIds(s) <==>
                  row.status.Pending? && row.nextAttemptAt.Some? && row.nextAttemptAt.value <= s.clock)
            && (row.status.Pending? ==> row.instance.None? && row.startedAt.None?)
            && (row.status.Processing? ==> row.instance.Some? && row.startedAt.Some?)
  {
    InitSound(cfg, start);
    RunSound(cfg, r, 0, j);
    assert Sane(r.states[j].events[e]);
  }

  /** In timely runs `attempts` is the number of claims, and these are the processed, released and
      lost ones plus the live copy, if any. */
  lemma AttemptAccounting(cfg: Config, start: Time, r: Run, j: nat, e: EventId)
    requires FromStart(cfg, start, r) && Timely(r, e) && j < |r.states| && e in r.states[j].events
    ensures var ev := r.states[j].events[e];
            && ev.row.attempts == ev.log.claims == ev.log.processed + ev.log.released + ev.log.lost + |ev.copies|
            && |ev.copies| <= 1
  {
    RunFollows(cfg, r, e, 0, j);
    OneCopy(r.states[j].events[e]);
  }

  lemma OneCopy(ev: Event)
    requires Owned(ev)
    ensures |ev.copies| <= 1
  {
    assert ev.copies.Keys <= {ev.log.claims - 1};
    assert ev.copies.Keys == {} || ev.copies.Keys == {ev.log.claims - 1};
  }

  /** In timely runs an event is delivered at most max(1, maxRetries) times, and successfully at most
      once, plus once for each lost copy; releases do not count. */
  lemma DeliveryBoundInRuns(cfg: Config, start: Time, r: Run, j: nat, e: EventId)
    requires FromStart(cfg, start, r) && Timely(r, e) && j < |r.states| && e in r.states[j].events
    ensures var log := r.states[j].events[e].log;
            log.deliveries <= Max(1, cfg.maxRetries) + log.lost && log.successes <= 1 + log.lost
  {
    RunFollows(cfg, r, e, 0, j);
    DeliveryBound(cfg, r.states[j].events[e]);
  }

  ghost predicate CoveredIn(cfg: Config, s: State, e: EventId) {
    e in s.events ==> SuccessesCovered(s.events[e]) && DeliveriesCovered(cfg, s.events[e])
  }

  lemma StepCovered(cfg: Config, s: State, step: Step, e: EventId)
    requires CanStep(cfg, s, step) && AllSane(s) && CoveredIn(cfg, s, e)
    ensures CoveredIn(cfg, Next(cfg, s, step), e)
  {
    if e in s.events {
      assert Sane(s.events[e]);
      EventNext(cfg, s, step, e);
      OpsEnabled(cfg, s, step, e);
      if OpOn(s, step, e).Some? {
        StepSuccessesCovered(cfg, s.clock, s.events[e], OpOn(s, step, e).value);
        StepDeliveriesCovered(cfg, s.clock, s.events[e], OpOn(s, step, e).value);
      }
    } else if e in Next(cfg, s, step).events {
      NewEventNext(cfg, s, step, e);
    }
  }

  lemma {:induction false} RunCovered(cfg: Config, start: Time, r: Run, j: nat, e: EventId)
    requires FromStart(cfg, start, r) && j < |r.states|
    ensures CoveredIn(cfg, r.states[j], e)
  {
    if j > 0 {
      RunCovered(cfg, start, r, j - 1, e);
      InitSound(cfg, start);
      RunSound(cfg, r, 0, j - 1);
      assert MovesAt(cfg, r, j - 1);
      StepCovered(cfg, r.states[j - 1], r.steps[j - 1], e);
    }
  }

  /** In every run, timely or not, an event is delivered successfully at most once, plus once for each
      lost copy and once for each sweep that overtook a copy. */
  lemma SuccessBoundInRuns(cfg: Config, start: Time, r: Run, j: nat, e: EventId)
    requires FromStart(cfg, start, r) && j < |r.states| && e in r.states[j].events
    ensures var log := r.states[j].events[e].log; log.successes <= 1 + log.lost + log.overtaken
  {
    RunCovered(cfg, start, r, j, e);
  }

  /** In every run, timely or not, an event is delivered at most 2^(maxRetries-1) times, plus once for each
      lost copy and once for each sweep that overtook a copy. */
  lemma DeliveryBoundInAllRuns(cfg: Config, start: Time, r: Run, j: nat, e: EventId)
    requires FromStart(cfg, start, r) && j < |r.states| && e in r.states[j].events
    ensures var log := r.states[j].events[e].log;
            log.deliveries <= Backoff.Pow2(Max(0, cfg.maxRetries - 1)) + log.lost + log.overtaken
  {
    RunCovered(cfg, start, r, j, e);
  }

  /** Between any two moments of a timely run, attempts do not drop, retry times do not go back, and
      a row that was terminal has not changed. */
  lemma OnlyForward(cfg: Config, start: Time, r: Run, i: nat, j: nat, e: EventId)
    requires FromStart(cfg, start, r) && Timely(r, e) && i <= j < |r.states| && e in r.states[i].events
    ensures e in r.states[j].events && Advances(cfg, r.states[i].events[e].row, r.states[j].events[e].row)
  {
    RunFollows(cfg, r, e, 0, i);
    RunFollows(cfg, r, e, i, j);
  }

  /** The write of `UpdateEventAttempts` never changes the stored number in a timely run. */
  lemma AttemptsWriteIsIdempotent(cfg: Config, start: Time, r: Run, j: nat, e: EventId, k: nat)
    requires FromStart(cfg, start, r) && Timely(r, e) && j < |r.steps| && r.steps[j] == Act(e, Bump(k, true))
    ensures e in r.states[j].events && e in r.states[j + 1].events
    ensures r.states[j + 1].events[e].row.attempts == r.states[j].events[e].row.attempts
  {
    RunFollows(cfg, r, e, 0, j);
    assert MovesAt(cfg, r, j);
    EventNext(cfg, r.states[j], r.steps[j], e);
  }

  /** All retry times ever set for an event in a timely run, in the order they were set. */
  lemma RetryTimesInOrder(cfg: Config, start: Time, r: Run, j: nat, e: EventId, a: nat, b: nat)
    requires FromStart(cfg, start, r) && Timely(r, e) && BackoffInRange(cfg)
    requires j < |r.states| && e in r.states[j].events && a < b < |r.states[j].events[e].log.retries|
    ensures var retries := r.states[j].events[e].log.retries;
            && 1 <= retries[a].count < retries[b].count < cfg.maxRetries
            && retries[a].NextAttempt(cfg) <= retries[b].NextAttempt(cfg)
  {
    RunFollows(cfg, r, e, 0, j);
    RetryTimesGrow(cfg, r.states[j].clock, r.states[j].events[e], a, b);
  }

  /** All the delays of an event in a timely run, however many attempt numbers releases and losses skip,
      add up to at most 1.3 * initial * (2^(maxRetries-1) - 1), and to at most (maxRetries - 1) * max. */
  lemma TotalDelayInRuns(cfg: Config, start: Time, r: Run, j: nat, e: EventId)
    requires FromStart(cfg, start, r) && Timely(r, e) && BackoffInRange(cfg)
    requires j < |r.states| && e in r.states[j].events
    ensures var retries, n := r.states[j].events[e].log.retries, Max(0, cfg.maxRetries - 1);
            && (forall k :: 0 <= k < |retries| ==> retries[k].count >= 1)
            && 10 * TotalDelay(cfg, retries) <= 13 * (cfg.initialDelay * (Backoff.Pow2(n) - 1))
            && TotalDelay(cfg, retries) <= n * cfg.maxDelay
  {
    RunFollows(cfg, r, e, 0, j);
    AllDelaysBound(cfg, r.states[j].clock, r.states[j].events[e]);
  }

  /** A poll takes exactly its batch out of the ready rows; so the bounds on draining the ready rows
      are bounds on the polls of the service. */
  lemma PollTakesBatch(cfg: Config, s: State, step: Step)
    requires step.Poll? && CanStep(cfg, s, step)
    ensures ReadyItems(Next(cfg, s, step)) == ReadyItems(s) - Elements(step.batch)
  {
    var s' := Next(cfg, s, step);
    assert s'.events.Keys == s.events.Keys;
    forall e | e in s.events
      ensures s'.events[e] == if e in Ids(step.batch) then NextEvent(cfg, s, step, e) else s.events[e]
      ensures e in Ids(step.batch) ==> s'.events[e].row.status.Processing?
    {
      EventNext(cfg, s, step, e);
    }
    TakenFromReady(cfg, s, step.locked, step.batch, s');
  }

  /** Rows of the batch that are processing now are not ready, the others are as they were. */
  lemma TakenFromReady(cfg: Config, s: State, locked: set<EventId>, batch: seq<FairSelection.Item>, t: State)
    requires FairSelection.IsBatch(ReadyItems(s), cfg.pollLimit, locked, batch)
    requires t.clock == s.clock && t.events.Keys == s.events.Keys
    requires forall e :: e in s.events && e in Ids(batch) ==> t.events[e].row.status.Processing?
    requires forall e :: e in s.events && e !in Ids(batch) ==> t.events[e].row == s.events[e].row
    ensures ReadyItems(t) == ReadyItems(s) - Elements(batch)
  {
    FairSelection.BatchRows(ReadyItems(s), cfg.pollLimit, locked, batch);
    forall x ensures x in ReadyItems(t) <==> x in ReadyItems(s) - Elements(batch) {
      if x in ReadyItems(s) && x.id in Ids(batch) {
        var y :| y in batch && y.id == x.id;
        assert y in ReadyItems(s);
        assert x == y;
      }
      if x in ReadyItems(s) && x.id !in Ids(batch) {
        assert ItemOf(x.id, t.events[x.id].row) == ItemOf(x.id, s.events[x.id].row) == x;
      }
      if x in ReadyItems(t) {
        assert x.id !in Ids(batch);
        assert ItemOf(x.id, t.events[x.id].row) == ItemOf(x.id, s.events[x.id].row) == x;
      }
    }
  }

  /** The batches of the polls among the steps, in order. */
  function Batches(steps: seq<Step>): seq<seq<FairSelection.Item>> {
    if steps == [] then []
    else (if steps[0].Poll? then [steps[0].batch] else []) + Batches(steps[1..])
  }

  ghost predicate OnlyPolls(step: Step) {
    (step.Poll? && step.locked == {}) || step.StartPoll? || step.EndPoll?
  }

  /** With nothing else happening, ceil(R / q) polls of any instances empty the R ready rows, where q is
      the quota of the first poll. */
  lemma PollsDrainReady(cfg: Config, r: Run)
    requires IsRun(cfg, r) && cfg.pollLimit >= 1
    requires forall j :: 0 <= j < |r.steps| ==> OnlyPolls(r.steps[j])
    requires var ready := ReadyItems(r.states[0]);
             var quota := FairSelection.Quota(cfg.pollLimit, |FairSelection.Webhooks(ready)|);
             |Batches(r.steps)| >= FairSelection.CeilDiv(|ready|, quota)
    ensures ReadyItems(r.Last()) == {}
  {
    PollsTakeBatches(cfg, r, 0);
    assert r.steps[0..] == r.steps;
    FairSelection.Draining(ReadyItems(r.states[0]), cfg.pollLimit, Batches(r.steps));
  }

  /** From state `j` on, the batches of the run are successive answers of the polling query. */
  lemma {:induction false} PollsTakeBatches(cfg: Config, r: Run, j: nat)
    requires IsRun(cfg, r) && j <= |r.steps|
    requires forall k :: 0 <= k < |r.steps| ==> OnlyPolls(r.steps[k])
    ensures FairSelection.ArePolls(ReadyItems(r.states[j]), cfg.pollLimit, Batches(r.steps[j..]))
    ensures FairSelection.Remaining(ReadyItems(r.states[j]), Batches(r.steps[j..])) == ReadyItems(r.Last())
    decreases |r.steps| - j
  {
    if j < |r.steps| {
      assert MovesAt(cfg, r, j);
      PollsTakeBatches(cfg, r, j + 1);
      assert r.steps[j..][1..] == r.steps[j + 1..];
      var rest := Batches(r.steps[j + 1..]);
      if r.steps[j].Poll? {
        PollTakesBatch(cfg, r.states[j], r.steps[j]);
        assert ([r.steps[j].batch] + rest)[1..] == rest;
      } else {
        RowsUntouched(cfg, r.states[j], r.steps[j]);
        assert [] + rest == rest;
      }
    }
  }

  lemma RowsUntouched(cfg: Config, s: State, step: Step)
    requires CanStep(cfg, s, step) && (step.StartPoll? || step.EndPoll?)
    ensures ReadyItems(Next(cfg, s, step)) == ReadyItems(s)
  {
    assert Next(cfg, s, step).events == s.events;
  }
}
