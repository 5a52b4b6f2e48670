/** No event gets stuck: from every state of every run, steps without any fault lead each event to a
    terminal status, whatever the outcomes of its deliveries are. */
module Progress {
  import opened Types
  import opened EventRows
  import opened CopyLifecycle
  import opened Ownership
  import opened DeliveryProtocol
  import Backoff
  import FairSelection

  /** What the outside world decides about one event: the outcome of its next deliveries, by number,
      and the random draws of its next retries. */
  datatype World = World(success: nat -> bool, draw: nat -> real, wild: nat -> int)

  ghost predicate Fair(world: World) {
    forall n :: Backoff.IsDraw(world.draw(n))
  }

  /** Steps in which nothing fails: no crash, loss, dropped notification, failed write or missing
      configuration, and no sweep that meets a stale copy of `e`. The outcomes for `e` are those of `world`. */
  ghost predicate Smooth(s: State, step: Step, e: EventId, world: World) {
    match step
    case Tick(_) => true
    case StoreEvent(_, _) => true
    case HandleNotification(_, _) => true
    case StartPoll(_) => true
    case Poll(_, locked, _) => locked == {}
    case CheckRetries(_) => true
    case CleanupStalled => e in s.events ==> NoStaleCopy(s.clock, s.events[e])
    case Act(e', op) =>
      (match op
       case Enqueue(_) => true
       case HandOff(_) => true
       case Pick(_) => true
       case Deliver(_, success) => e' == e && e in s.events ==> success == world.success(s.events[e].log.deliveries)
       case Settle(_) => true
       case Bump(_, stored) => stored
       case Reschedule(_, draw, wild) =>
         e' == e && e in s.events ==>
           var n := |s.events[e].log.retries|; draw == world.draw(n) && wild == world.wild(n)
       case _ => false)
    case _ => false
  }

  ghost predicate SmoothAt(r: Run, j: nat, e: EventId, world: World)
    requires j < |r.steps| && |r.states| == |r.steps| + 1
  {
    Smooth(r.states[j], r.steps[j], e, world)
  }

  /** `r` is a smooth run from `s` to `t`. */
  ghost predicate Leads(cfg: Config, s: State, r: Run, t: State, e: EventId, world: World) {
    && IsRun(cfg, r) && r.states[0] == s && r.Last() == t
    && forall j {:trigger SmoothAt(r, j, e, world)} :: 0 <= j < |r.steps| ==> SmoothAt(r, j, e, world)
  }

  lemma Stay(cfg: Config, s: State, e: EventId, world: World) returns (r: Run, t: State)
    ensures t == s && Leads(cfg, s, r, t, e, world)
  {
    r, t := Run([s], []), s;
  }

  lemma Join(cfg: Config, s: State, a: Run, t: State, b: Run, u: State, e: EventId, world: World) returns (r: Run)
    requires Leads(cfg, s, a, t, e, world) && Leads(cfg, t, b, u, e, world)
    ensures Leads(cfg, s, r, u, e, world)
    ensures r.states == a.states + b.states[1..] && r.steps == a.steps + b.steps
  {
    r := Run(a.states + b.states[1..], a.steps + b.steps);
    forall j | 0 <= j < |r.steps| ensures MovesAt(cfg, r, j) && SmoothAt(r, j, e, world) {
      if j < |a.steps| {
        assert MovesAt(cfg, a, j) && SmoothAt(a, j, e, world);
      } else {
        assert MovesAt(cfg, b, j - |a.steps|) && SmoothAt(b, j - |a.steps|, e, world);
      }
    }
  }

  lemma Single(cfg: Config, s: State, step: Step, e: EventId, world: World) returns (r: Run, s': State)
    requires CanStep(cfg, s, step) && Smooth(s, step, e, world)
    ensures s' == Next(cfg, s, step) && r == Run([s, s'], [step]) && Leads(cfg, s, r, s', e, world)
  {
    s' := Next(cfg, s, step);
    r := Run([s, s'], [step]);
    assert MovesAt(cfg, r, 0) && SmoothAt(r, 0, e, world);
  }

  /** The invariant a plan relies on holds in every run. */
  ghost predicate Sound(cfg: Config, s: State, e: EventId) {
    SoundState(cfg, s) && e in s.events
  }

  lemma LeadsSound(cfg: Config, s: State, r: Run, t: State, e: EventId, world: World)
    requires Leads(cfg, s, r, t, e, world) && Sound(cfg, s, e)
    ensures Sound(cfg, t, e)
  {
    RunSound(cfg, r, 0, |r.steps|);
    EventsRemain(cfg, r, 0, |r.steps|);
  }

  /** The effect of a step on one event through one of its copies. */
  lemma ActEffect(cfg: Config, s: State, e: EventId, op: Op)
    requires CanStep(cfg, s, Act(e, op))
    ensures var t := Next(cfg, s, Act(e, op));
            && t.clock == s.clock
            && t.events == s.events[e := Apply(cfg, s.clock, s.events[e], op)]
            && s.notes <= t.notes
            && t.polling == s.polling
            && (!op.Enqueue? && !op.Pick? ==> t.queues == s.queues)
  {
  }

  /** How many of the deliveries numbered from `n` on, before number `m`, succeed. */
  function Successes(world: World, n: nat, m: nat): nat
    decreases m
  {
    if m <= n then 0 else Successes(world, n, m - 1) + One(world.success(m - 1))
  }

  /** Nothing is lost or released, and the deliveries and retries have the outcomes and draws of `world`. */
  predicate Faultless(before: Event, after: Event, world: World) {
    && after.log.lost == before.log.lost && after.log.released == before.log.released
    && after.log.deliveries >= before.log.deliveries
    && after.log.successes == before.log.successes + Successes(world, before.log.deliveries, after.log.deliveries)
    && before.log.retries <= after.log.retries
    && forall n :: |before.log.retries| <= n < |after.log.retries| ==>
         after.log.retries[n].draw == world.draw(n) && after.log.retries[n].wild == world.wild(n)
  }

  lemma StepIsFaultless(cfg: Config, s: State, step: Step, e: EventId, world: World)
    requires CanStep(cfg, s, step) && Smooth(s, step, e, world) && e in s.events
    ensures e in Next(cfg, s, step).events && Faultless(s.events[e], Next(cfg, s, step).events[e], world)
  {
    EventNext(cfg, s, step, e);
    OpsEnabled(cfg, s, step, e);
    if OpOn(s, step, e).Some? {
      OpIsFaultless(cfg, s.clock, s.events[e], OpOn(s, step, e).value, world);
    }
  }

  lemma OpIsFaultless(cfg: Config, now: Time, ev: Event, op: Op, world: World)
    requires Enabled(now, ev, op) && !op.Release? && !op.Lose?
    requires op.Deliver? ==> op.success == world.success(ev.log.deliveries)
    requires op.Reschedule? ==> op.draw == world.draw(|ev.log.retries|) && op.wild == world.wild(|ev.log.retries|)
    ensures Faultless(ev, Apply(cfg, now, ev, op), world)
  {
  }

  lemma {:induction false} SuccessesAddUp(world: World, n: nat, m: nat, k: nat)
    requires n <= m <= k
    ensures Successes(world, n, m) + Successes(world, m, k) == Successes(world, n, k)
    decreases k
  {
    if m < k {
      SuccessesAddUp(world, n, m, k - 1);
    }
  }

  lemma {:induction false} SmoothRunIsFaultless(cfg: Config, r: Run, j: nat, e: EventId, world: World)
    requires IsRun(cfg, r) && j < |r.states| && e in r.states[0].events
    requires forall k {:trigger SmoothAt(r, k, e, world)} :: 0 <= k < |r.steps| ==> SmoothAt(r, k, e, world)
    ensures e in r.states[j].events && Faultless(r.states[0].events[e], r.states[j].events[e], world)
  {
    if j > 0 {
      SmoothRunIsFaultless(cfg, r, j - 1, e, world);
      assert MovesAt(cfg, r, j - 1) && SmoothAt(r, j - 1, e, world);
      StepIsFaultless(cfg, r.states[j - 1], r.steps[j - 1], e, world);
      SuccessesAddUp(world, r.states[0].events[e].log.deliveries, r.states[j - 1].events[e].log.deliveries,
                     r.states[j].events[e].log.deliveries);
    }
  }

  /** A plan goes without loss or release, and its deliveries turn out as the world decides. */
  lemma LeadsIsFaultless(cfg: Config, s: State, r: Run, t: State, e: EventId, world: World)
    requires Leads(cfg, s, r, t, e, world) && e in s.events
    ensures e in t.events && Faultless(s.events[e], t.events[e], world)
  {
    SmoothRunIsFaultless(cfg, r, |r.steps|, e, world);
  }

  // ----- Finishing a copy

  /** The row counts the attempt of copy `k`, and a copy that is to be retried may be. */
  ghost predicate Counted(cfg: Config, ev: Event, k: nat) {
    && k in ev.copies
    && ev.copies[k].AttemptCount() == ev.row.attempts
    && (ev.copies[k].phase.Bumping? || ev.copies[k].phase.Scheduling? ==> ev.row.attempts < cfg.maxRetries)
  }

  /** All live copies are counted, as in every timely run. */
  ghost predicate AllCounted(cfg: Config, ev: Event) {
    forall k {:trigger Counted(cfg, ev, k)} :: k in ev.copies ==> Counted(cfg, ev, k)
  }

  lemma InStepIsCounted(cfg: Config, now: Time, ev: Event)
    requires InStep(cfg, now, ev)
    ensures AllCounted(cfg, ev)
  {
    forall k | k in ev.copies ensures Counted(cfg, ev, k) {
      assert Current(ev) == Some(ev.copies[k]);
    }
  }

  /** The event is settled, or waits for a retry; after a counted copy that retry is still allowed. */
  ghost predicate Ended(cfg: Config, before: Event, k: nat, after: Event) {
    && (after.row.status.Terminal() || after.row.status.Pending?)
    && (Counted(cfg, before, k) && after.row.status.Pending? ==>
          after.row.attempts == before.row.attempts < cfg.maxRetries)
  }

  function Rank(phase: Phase): nat {
    match phase
    case Held(_) => 5
    case Queued => 4
    case Picked => 3
    case Bumping => 2
    case Scheduling => 1
    case Settling(_) => 0
  }

  /** The worker's next own step for a copy it has picked. */
  function NextOp(ev: Event, k: nat, world: World): Op
    requires k in ev.copies && Rank(ev.copies[k].phase) <= 3
  {
    match ev.copies[k].phase
    case Picked => Deliver(k, world.success(ev.log.deliveries))
    case Bumping => Bump(k, true)
    case Scheduling => Reschedule(k, world.draw(|ev.log.retries|), world.wild(|ev.log.retries|))
    case _ => Settle(k)
  }

  predicate EndsCopy(op: Op) {
    op.Settle? || op.Reschedule?
  }

  /** The worker's own steps lower the rank of the copy until one of them ends it. */
  lemma NextOpEffect(cfg: Config, now: Time, ev: Event, k: nat, world: World)
    requires Sane(ev) && Fair(world) && k in ev.copies && Rank(ev.copies[k].phase) <= 3
    ensures var op := NextOp(ev, k, world);
            && Enabled(now, ev, op)
            && var ev' := Apply(cfg, now, ev, op);
            && ev'.log.deliveries == ev.log.deliveries + One(ev.copies[k].phase.Picked?)
            && (if EndsCopy(op) then Ended(cfg, ev, k, ev') else LowersRank(cfg, ev, k, ev'))
  {
  }

  ghost predicate LowersRank(cfg: Config, before: Event, k: nat, after: Event) {
    && k in before.copies && k in after.copies
    && Rank(after.copies[k].phase) < Rank(before.copies[k].phase) && !after.copies[k].phase.Picked?
    && (Counted(cfg, before, k) ==> Counted(cfg, after, k) && after.row.attempts == before.row.attempts)
  }

  /** A worker brings the copy it holds to its end with at most one delivery. */
  lemma {:induction false} FinishCopy(cfg: Config, s: State, e: EventId, k: nat, world: World)
      returns (r: Run, t: State)
    requires Sound(cfg, s, e) && Fair(world)
    requires k in s.events[e].copies && Rank(s.events[e].copies[k].phase) <= 3
    ensures Leads(cfg, s, r, t, e, world) && Sound(cfg, t, e)
    ensures Ended(cfg, s.events[e], k, t.events[e])
    ensures t.events[e].log.deliveries == s.events[e].log.deliveries + One(s.events[e].copies[k].phase.Picked?)
    decreases Rank(s.events[e].copies[k].phase)
  {
    var op := NextOp(s.events[e], k, world);
    assert Sane(s.events[e]);
    NextOpEffect(cfg, s.clock, s.events[e], k, world);
    ActEffect(cfg, s, e, op);
    var first, s' := Single(cfg, s, Act(e, op), e, world);
    LeadsSound(cfg, s, first, s', e, world);
    if EndsCopy(op) {
      r, t := first, s';
    } else {
      var rest;
      rest, t := FinishCopy(cfg, s', e, k, world);
      r := Join(cfg, s, first, s', rest, t, e, world);
    }
  }

  // ----- Emptying a queue

  /** The same event, except that a worker may have picked copies of it. */
  ghost predicate SameButPicked(before: Event, after: Event) {
    && after.row == before.row && after.log == before.log && after.copies.Keys == before.copies.Keys
    && forall k :: k in before.copies ==>
         || after.copies[k] == before.copies[k]
         || (before.copies[k].phase.Queued? && after.copies[k] == before.copies[k].(phase := Picked))
  }

  /** The head of a queue can be picked. */
  lemma HeadCanBePicked(cfg: Config, s: State, i: InstanceId, e: EventId)
    requires QueuesMatch(cfg, s) && Queue(s, i) != []
    requires e in s.events
    ensures var head := Queue(s, i)[0];
            && CanStep(cfg, s, Act(head.event, Pick(head.k)))
            && var s' := Next(cfg, s, Act(head.event, Pick(head.k)));
            && Queue(s', i) == Queue(s, i)[1..] && s'.clock == s.clock
            && e in s'.events && SameButPicked(s.events[e], s'.events[e])
  {
    var head := Queue(s, i)[0];
    assert QueueMatches(cfg, s, i);
    assert head in Queue(s, i);
    QueueAfter(cfg, s, Act(head.event, Pick(head.k)), i);
    ActEffect(cfg, s, head.event, Pick(head.k));
  }

  lemma PickHead(cfg: Config, s: State, i: InstanceId, e: EventId, world: World) returns (r: Run, s': State)
    requires Sound(cfg, s, e) && Queue(s, i) != []
    ensures Leads(cfg, s, r, s', e, world) && Sound(cfg, s', e)
    ensures Queue(s', i) == Queue(s, i)[1..] && s'.clock == s.clock
    ensures SameButPicked(s.events[e], s'.events[e])
  {
    var head := Queue(s, i)[0];
    HeadCanBePicked(cfg, s, i, e);
    r, s' := Single(cfg, s, Act(head.event, Pick(head.k)), e, world);
    LeadsSound(cfg, s, r, s', e, world);
  }

  lemma SameButPickedTwice(a: Event, b: Event, c: Event)
    requires SameButPicked(a, b) && SameButPicked(b, c)
    ensures SameButPicked(a, c)
  {
  }

  /** The workers of an instance pick everything from its queue. */
  lemma {:induction false} EmptyQueue(cfg: Config, s: State, i: InstanceId, e: EventId, world: World)
      returns (r: Run, t: State)
    requires Sound(cfg, s, e)
    ensures Leads(cfg, s, r, t, e, world) && Sound(cfg, t, e) && Queue(t, i) == [] && t.clock == s.clock
    ensures SameButPicked(s.events[e], t.events[e])
    decreases |Queue(s, i)|
  {
    if Queue(s, i) == [] {
      r, t := Stay(cfg, s, e, world);
    } else {
      var first, s' := PickHead(cfg, s, i, e, world);
      var rest;
      rest, t := EmptyQueue(cfg, s', i, e, world);
      SameButPickedTwice(s.events[e], s'.events[e], t.events[e]);
      r := Join(cfg, s, first, s', rest, t, e, world);
    }
  }

  // ----- From claim to worker

  /** The last claim of the event is held by a goroutine of instance `i` that has yet to enqueue it. */
  predicate HeldBy(ev: Event, i: InstanceId) {
    && ev.log.claims >= 1 && ev.log.claims - 1 in ev.copies
    && ev.copies[ev.log.claims - 1].phase.Held? && ev.copies[ev.log.claims - 1].instance == i
  }

  function HandedOver(ev: Event): Event {
    if ev.log.claims >= 1 && ev.log.claims - 1 in ev.copies then WithPhase(ev, ev.log.claims - 1, Picked) else ev
  }

  /** Copy `k` of the event is held by a goroutine of instance `i`. */
  predicate HoldsCopy(s: State, i: InstanceId, x: EventId, k: nat) {
    && x in s.events && k in s.events[x].copies
    && s.events[x].copies[k].phase.Held? && s.events[x].copies[k].instance == i
  }

  /** With an empty queue, a held copy passes through it to a worker; without capacity it goes there directly. */
  lemma HandOver(cfg: Config, s: State, i: InstanceId, x: EventId, k: nat, e: EventId, world: World)
      returns (r: Run, t: State)
    requires Queue(s, i) == [] && HoldsCopy(s, i, x, k)
    ensures Leads(cfg, s, r, t, e, world)
    ensures Queue(t, i) == [] && t.clock == s.clock && t.polling == s.polling && s.notes <= t.notes
    ensures t.events == s.events[x := WithPhase(s.events[x], k, Picked)]
  {
    if cfg.queueCapacity == 0 {
      ActEffect(cfg, s, x, HandOff(k));
      r, t := Single(cfg, s, Act(x, HandOff(k)), e, world);
    } else {
      var first, s1 := EnqueueOne(cfg, s, i, x, k, e, world);
      var second;
      second, t := PickOne(cfg, s1, i, x, k, e, world);
      assert t.events == s.events[x := WithPhase(s.events[x], k, Picked)] by {
        var c := s.events[x].copies[k];
        UpdatedTwice(s.events[x].copies, k, c.(phase := Queued), c.(phase := Picked));
        UpdatedTwice(s.events, x, WithPhase(s.events[x], k, Queued), WithPhase(s.events[x], k, Picked));
      }
      r := Join(cfg, s, first, s1, second, t, e, world);
    }
  }

  lemma UpdatedTwice<K, V>(m: map<K, V>, k: K, v: V, w: V)
    ensures m[k := v][k := w] == m[k := w]
  {
  }

  lemma EnqueueOne(cfg: Config, s: State, i: InstanceId, x: EventId, k: nat, e: EventId, world: World)
      returns (r: Run, s1: State)
    requires cfg.queueCapacity >= 1 && Queue(s, i) == [] && HoldsCopy(s, i, x, k)
    ensures Leads(cfg, s, r, s1, e, world)
    ensures Queue(s1, i) == [Ref(x, k)] && s1.clock == s.clock && s1.polling == s.polling && s.notes <= s1.notes
    ensures s1.events == s.events[x := WithPhase(s.events[x], k, Queued)]
  {
    var step := Act(x, Enqueue(k));
    ActEffect(cfg, s, x, step.op);
    QueueAfter(cfg, s, step, i);
    r, s1 := Single(cfg, s, step, e, world);
  }

  lemma PickOne(cfg: Config, s: State, i: InstanceId, x: EventId, k: nat, e: EventId, world: World)
      returns (r: Run, s1: State)
    requires Queue(s, i) == [Ref(x, k)]
    requires x in s.events && k in s.events[x].copies
    requires s.events[x].copies[k].phase.Queued? && s.events[x].copies[k].instance == i
    ensures Leads(cfg, s, r, s1, e, world)
    ensures Queue(s1, i) == [] && s1.clock == s.clock && s1.polling == s.polling && s.notes <= s1.notes
    ensures s1.events == s.events[x := WithPhase(s.events[x], k, Picked)]
  {
    var step := Act(x, Pick(k));
    ActEffect(cfg, s, x, step.op);
    QueueAfter(cfg, s, step, i);
    r, s1 := Single(cfg, s, step, e, world);
  }

  /** A poller enqueues its whole batch while workers pick it. */
  lemma {:induction false} HandOverAll(cfg: Config, s: State, i: InstanceId, xs: seq<EventId>, e: EventId, world: World)
      returns (r: Run, t: State)
    requires Queue(s, i) == []
    requires forall a, b :: 0 <= a < b < |xs| ==> xs[a] != xs[b]
    requires forall x :: x in xs ==> x in s.events && HeldBy(s.events[x], i)
    ensures Leads(cfg, s, r, t, e, world)
    ensures Queue(t, i) == [] && t.clock == s.clock && t.events.Keys == s.events.Keys
    ensures forall x :: x in s.events ==>
              t.events[x] == if x in xs then HandedOver(s.events[x]) else s.events[x]
    decreases |xs|
  {
    if xs == [] {
      r, t := Stay(cfg, s, e, world);
    } else {
      assert xs[0] in xs;
      var first, s1 := HandOver(cfg, s, i, xs[0], s.events[xs[0]].log.claims - 1, e, world);
      assert xs == [xs[0]] + xs[1..];
      forall x | x in xs[1..] ensures x != xs[0] {
        var a :| 0 <= a < |xs[1..]| && xs[1..][a] == x;
        assert xs[a + 1] == x;
      }
      var rest;
      rest, t := HandOverAll(cfg, s1, i, xs[1..], e, world);
      r := Join(cfg, s, first, s1, rest, t, e, world);
    }
  }

  // ----- Getting an event claimed

  /** The event has been claimed once more and the copy is with a worker; nothing was delivered. */
  ghost predicate ClaimedAndPicked(before: Event, after: Event) {
    && after.log == before.log.(claims := before.log.claims + 1)
    && after.row.attempts == before.row.attempts + 1
    && before.log.claims in after.copies && after.copies[before.log.claims].phase.Picked?
    && after.copies[before.log.claims].AttemptCount() == after.row.attempts
  }

  lemma {:induction false} SomeListing(rows: set<FairSelection.Item>) returns (table: seq<FairSelection.Item>)
    ensures Distinct(table) && Elements(table) == rows
  {
    if rows == {} {
      table := [];
    } else {
      var x :| x in rows;
      var rest := SomeListing(rows - {x});
      forall a | 0 <= a < |rest| ensures rest[a] != x {
        assert rest[a] in Elements(rest);
      }
      table := rest + [x];
      assert Elements(table) == Elements(rest) + {x};
    }
  }

  /** A poll without locked rows finds some batch. */
  lemma SomeBatch(cfg: Config, s: State) returns (batch: seq<FairSelection.Item>)
    requires cfg.pollLimit >= 1 && ReadyItems(s) != {}
    ensures FairSelection.IsBatch(ReadyItems(s), cfg.pollLimit, {}, batch)
    ensures Distinct(batch) && Elements(batch) <= ReadyItems(s) && batch != []
  {
    var table := SomeListing(ReadyItems(s));
    FairSelection.QueryIsBatch(table, cfg.pollLimit, {});
    batch := FairSelection.Query(table, cfg.pollLimit, {});
    FairSelection.BatchRows(ReadyItems(s), cfg.pollLimit, {}, batch);
    FairSelection.BatchAtLeast(ReadyItems(s), cfg.pollLimit, batch);
  }

  /** What a poll does to each event. */
  lemma PollEffect(cfg: Config, s: State, step: Step)
    requires step.Poll? && CanStep(cfg, s, step)
    ensures var s1 := Next(cfg, s, step);
            && s1.clock == s.clock && s1.queues == s.queues && s1.events.Keys == s.events.Keys
            && forall x :: x in s.events ==>
                 if x in Ids(step.batch) then
                   s.events[x].row.status.Pending?
                   && s1.events[x] == Apply(cfg, s.clock, s.events[x], Claim(step.instance, Poller))
                 else s1.events[x] == s.events[x]
  {
    var s1 := Next(cfg, s, step);
    assert s1.events.Keys == s.events.Keys;
    forall x | x in s.events
      ensures if x in Ids(step.batch) then
                s.events[x].row.status.Pending?
                && s1.events[x] == Apply(cfg, s.clock, s.events[x], Claim(step.instance, Poller))
              else s1.events[x] == s.events[x]
    {
      EventNext(cfg, s, step, x);
      OpsEnabled(cfg, s, step, x);
    }
  }

  /** Polls get an event claimed that no notification is left for: each poll takes at least one ready
      row, and hands its batch to the workers, until the event is in the batch. */
  lemma {:induction false} ClaimByPolls(cfg: Config, s: State, i: InstanceId, e: EventId, world: World)
      returns (r: Run, t: State)
    requires cfg.queueCapacity >= 2 && cfg.pollLimit >= 1 && Queue(s, i) == []
    requires e in s.events && Ready(s.events[e].row, s.clock)
    ensures Leads(cfg, s, r, t, e, world) && e in t.events && ClaimedAndPicked(s.events[e], t.events[e])
    decreases |ReadyItems(s)|
  {
    assert Rows(s)[e] == s.events[e].row;
    assert ItemOf(e, s.events[e].row) in ReadyItems(s);
    var batch := SomeBatch(cfg, s);
    var first, s1 := PollAndHandOver(cfg, s, i, batch, e, world);
    if e in Ids(batch) {
      r, t := first, s1;
    } else {
      TakenFromReady(cfg, s, {}, batch, s1);
      assert batch[0] in Elements(batch);
      ProperSubsetSize(ReadyItems(s1), ReadyItems(s), batch[0]);
      var rest;
      rest, t := ClaimByPolls(cfg, s1, i, e, world);
      r := Join(cfg, s, first, s1, rest, t, e, world);
    }
  }

  lemma ProperSubsetSize<T>(a: set<T>, b: set<T>, x: T)
    requires a <= b && x in b && x !in a
    ensures |a| < |b|
  {
    assert b == a + (b - a) && x in b - a;
  }

  lemma PollAndHandOver(cfg: Config, s: State, i: InstanceId, batch: seq<FairSelection.Item>, e: EventId, world: World)
      returns (r: Run, t: State)
    requires cfg.queueCapacity >= 2 && Queue(s, i) == []
    requires FairSelection.IsBatch(ReadyItems(s), cfg.pollLimit, {}, batch)
    requires Distinct(batch) && Elements(batch) <= ReadyItems(s)
    ensures Leads(cfg, s, r, t, e, world) && Queue(t, i) == []
    ensures t.clock == s.clock && t.events.Keys == s.events.Keys
    ensures forall x :: x in s.events ==>
              if x in Ids(batch) then ClaimedAndPicked(s.events[x], t.events[x]) && t.events[x].row.status.Processing?
              else t.events[x] == s.events[x]
  {
    var first, s1 := PollOnce(cfg, s, i, batch, e, world);
    var xs := seq(|batch|, a requires 0 <= a < |batch| => batch[a].id);
    IdsDistinct(s, batch, xs);
    var rest;
    rest, t := HandOverAll(cfg, s1, i, xs, e, world);
    r := Join(cfg, s, first, s1, rest, t, e, world);
  }

  lemma PollOnce(cfg: Config, s: State, i: InstanceId, batch: seq<FairSelection.Item>, e: EventId, world: World)
      returns (r: Run, s1: State)
    requires cfg.queueCapacity >= 2 && Queue(s, i) == []
    requires FairSelection.IsBatch(ReadyItems(s), cfg.pollLimit, {}, batch)
    ensures Leads(cfg, s, r, s1, e, world) && Queue(s1, i) == []
    ensures s1.clock == s.clock && s1.events.Keys == s.events.Keys
    ensures forall x :: x in s.events && x !in Ids(batch) ==> s1.events[x] == s.events[x]
    ensures forall x :: x in s.events && x in Ids(batch) ==>
              && HeldBy(s1.events[x], i) && s1.events[x].row.status.Processing?
              && ClaimedAndPicked(s.events[x], HandedOver(s1.events[x]))
  {
    var start, s0 := QuietStep(cfg, s, StartPoll(i), e, world);
    var step := Poll(i, {}, batch);
    assert ReadyItems(s0) == ReadyItems(s);
    PollEffect(cfg, s0, step);
    var poll;
    poll, s1 := Single(cfg, s0, step, e, world);
    r := Join(cfg, s, start, s0, poll, s1, e, world);
    forall x | x in s.events && x in Ids(batch)
      ensures HeldBy(s1.events[x], i) && s1.events[x].row.status.Processing?
      ensures ClaimedAndPicked(s.events[x], HandedOver(s1.events[x]))
    {
      ClaimEffect(cfg, s.clock, s.events[x], i, Poller);
    }
  }

  lemma ClaimEffect(cfg: Config, now: Time, ev: Event, i: InstanceId, via: Via)
    requires ev.row.status.Pending?
    ensures var ev' := Apply(cfg, now, ev, Claim(i, via));
            HeldBy(ev', i) && ev'.row.status.Processing? && ClaimedAndPicked(ev, HandedOver(ev'))
  {
  }

  lemma IdsDistinct(s: State, batch: seq<FairSelection.Item>, xs: seq<EventId>)
    requires Distinct(batch) && Elements(batch) <= ReadyItems(s)
    requires |xs| == |batch| && forall a :: 0 <= a < |xs| ==> xs[a] == batch[a].id
    ensures forall a, b :: 0 <= a < b < |xs| ==> xs[a] != xs[b]
    ensures forall x :: x in xs <==> x in Ids(batch)
    ensures forall x :: x in xs ==> x in s.events
  {
    forall a | 0 <= a < |xs|
      ensures xs[a] in s.events && batch[a] == ItemOf(xs[a], s.events[xs[a]].row) && xs[a] in Ids(batch)
    {
      assert batch[a] in Elements(batch);
      assert batch[a] in ReadyItems(s);
    }
    forall x | x in Ids(batch) ensures x in xs {
      var y :| y in batch && y.id == x;
      var a :| 0 <= a < |batch| && batch[a] == y;
      assert xs[a] == x;
    }
  }

  lemma {:induction false} SomeFound(ids: set<EventId>, e: EventId, n: nat) returns (found: set<EventId>)
    requires e in ids && n >= 1
    ensures found <= ids && |found| == Min(n, |ids|) && e in found
  {
    if |ids| <= n {
      found := ids;
    } else if n == 1 {
      found := {e};
    } else {
      assert ids - {e} != {} by {
        assert |ids - {e}| == |ids| - 1;
      }
      var x :| x in ids - {e};
      var rest := SomeFound(ids - {x}, e, n - 1);
      found := rest + {x};
    }
  }

  predicate IsQuiet(step: Step) {
    step.Tick? || step.CheckRetries? || step.StartPoll?
  }

  lemma QuietEffect(cfg: Config, s: State, step: Step)
    requires CanStep(cfg, s, step) && IsQuiet(step)
    ensures Next(cfg, s, step).events == s.events
  {
    var t := Next(cfg, s, step);
    forall x | x in s.events ensures t.events[x] == s.events[x] {
      EventNext(cfg, s, step, x);
    }
    assert t.events.Keys == s.events.Keys;
  }

  /** Letting time pass, checking for due retries, or finding room for a poll changes no event. */
  lemma QuietStep(cfg: Config, s: State, step: Step, e: EventId, world: World) returns (r: Run, t: State)
    requires CanStep(cfg, s, step) && IsQuiet(step)
    ensures Leads(cfg, s, r, t, e, world)
    ensures t.events == s.events && t.queues == s.queues && s.notes <= t.notes
    ensures t.polling == s.polling + if step.StartPoll? then multiset{step.instance} else multiset{}
    ensures t.clock == s.clock + if step.Tick? then step.time else 0
    ensures step.CheckRetries? ==> step.found <= t.notes
  {
    r, t := Single(cfg, s, step, e, world);
    QuietEffect(cfg, s, step);
  }

  lemma NoticeEffect(cfg: Config, s: State, i: InstanceId, e: EventId)
    requires e in s.events && e in s.notes && s.events[e].row.status.Pending?
    ensures Next(cfg, s, HandleNotification(i, e)).events ==
            s.events[e := Apply(cfg, s.clock, s.events[e], Claim(i, Listener))]
  {
    var t := Next(cfg, s, HandleNotification(i, e));
    forall x | x in s.events
      ensures t.events[x] == if x == e then Apply(cfg, s.clock, s.events[e], Claim(i, Listener)) else s.events[x]
    {
      EventNext(cfg, s, HandleNotification(i, e), x);
    }
    assert t.events.Keys == s.events.Keys;
  }

  lemma Notice(cfg: Config, s: State, i: InstanceId, e: EventId, world: World) returns (r: Run, t: State)
    requires e in s.events && e in s.notes && s.events[e].row.status.Pending?
    ensures Leads(cfg, s, r, t, e, world) && Queue(t, i) == Queue(s, i)
    ensures t.clock == s.clock && s.notes <= t.notes
    ensures t.events == s.events[e := Apply(cfg, s.clock, s.events[e], Claim(i, Listener))]
    ensures HeldBy(t.events[e], i) && ClaimedAndPicked(s.events[e], HandedOver(t.events[e]))
  {
    r, t := Single(cfg, s, HandleNotification(i, e), e, world);
    NoticeEffect(cfg, s, i, e);
    ClaimEffect(cfg, s.clock, s.events[e], i, Listener);
  }

  /** An event with a retry time is found by the retry check once the time has come, and claimed by
      a notified instance. */
  lemma ClaimByNotice(cfg: Config, s: State, i: InstanceId, e: EventId, world: World) returns (r: Run, t: State)
    requires AllSane(s) && Queue(s, i) == []
    requires e in s.events && s.events[e].row.status.Pending? && s.events[e].row.nextAttemptAt.Some?
    ensures Leads(cfg, s, r, t, e, world) && e in t.events && ClaimedAndPicked(s.events[e], t.events[e])
  {
    var due := s.events[e].row.nextAttemptAt.value;
    var a, s1 := QuietStep(cfg, s, Tick(Max(0, due - s.clock)), e, world);
    assert Sane(s.events[e]);
    assert e in RetryReadyIds(s1);
    var found := SomeFound(RetryReadyIds(s1), e, RETRY_CHECK_LIMIT);
    var b, s2 := QuietStep(cfg, s1, CheckRetries(found), e, world);
    var c, s3 := Notice(cfg, s2, i, e, world);
    var d;
    d, t := HandOver(cfg, s3, i, e, s3.events[e].log.claims - 1, e, world);
    var cd := Join(cfg, s2, c, s3, d, t, e, world);
    var bcd := Join(cfg, s1, b, s2, cd, t, e, world);
    r := Join(cfg, s, a, s1, bcd, t, e, world);
  }

  // ----- Delivery rounds

  /** From pending: one claim, one delivery, and then settled or one attempt further. */
  lemma Round(cfg: Config, s: State, i: InstanceId, e: EventId, world: World) returns (r: Run, t: State)
    requires cfg.queueCapacity >= 2 && cfg.pollLimit >= 1 && Fair(world)
    requires Sound(cfg, s, e) && s.events[e].row.status.Pending?
    ensures Leads(cfg, s, r, t, e, world) && Sound(cfg, t, e)
    ensures t.events[e].log.deliveries == s.events[e].log.deliveries + 1
    ensures t.events[e].row.status.Terminal()
         || (&& t.events[e].row.status.Pending?
             && t.events[e].row.attempts == s.events[e].row.attempts + 1 < cfg.maxRetries)
  {
    var a, s1 := EmptyQueue(cfg, s, i, e, world);
    var b, s2 := Claimed(cfg, s1, i, e, world);
    LeadsSound(cfg, s1, b, s2, e, world);
    assert Counted(cfg, s2.events[e], s1.events[e].log.claims);
    var c;
    c, t := FinishCopy(cfg, s2, e, s1.events[e].log.claims, world);
    var bc := Join(cfg, s1, b, s2, c, t, e, world);
    r := Join(cfg, s, a, s1, bc, t, e, world);
  }

  lemma Claimed(cfg: Config, s: State, i: InstanceId, e: EventId, world: World) returns (r: Run, t: State)
    requires cfg.queueCapacity >= 2 && cfg.pollLimit >= 1 && AllSane(s) && Queue(s, i) == []
    requires e in s.events && s.events[e].row.status.Pending?
    ensures Leads(cfg, s, r, t, e, world) && e in t.events && ClaimedAndPicked(s.events[e], t.events[e])
  {
    if s.events[e].row.nextAttemptAt.Some? {
      r, t := ClaimByNotice(cfg, s, i, e, world);
    } else {
      r, t := ClaimByPolls(cfg, s, i, e, world);
    }
  }

  /** A pending event is settled after at most max(1, maxRetries - attempts) deliveries. */
  lemma {:induction false} Rounds(cfg: Config, s: State, i: InstanceId, e: EventId, world: World)
      returns (r: Run, t: State)
    requires cfg.queueCapacity >= 2 && cfg.pollLimit >= 1 && Fair(world)
    requires Sound(cfg, s, e) && s.events[e].row.status.Pending?
    ensures Leads(cfg, s, r, t, e, world) && e in t.events && t.events[e].row.status.Terminal()
    ensures t.events[e].log.deliveries <= s.events[e].log.deliveries + Max(1, cfg.maxRetries - s.events[e].row.attempts)
    decreases Max(0, cfg.maxRetries - s.events[e].row.attempts)
  {
    var first, s1 := Round(cfg, s, i, e, world);
    if s1.events[e].row.status.Terminal() {
      r, t := first, s1;
    } else {
      var rest;
      rest, t := Rounds(cfg, s1, i, e, world);
      r := Join(cfg, s, first, s1, rest, t, e, world);
    }
  }

  // ----- From any state of a run

  lemma SweepStalled(cfg: Config, s: State, e: EventId, world: World) returns (r: Run, t: State)
    requires e in s.events && s.events[e].copies == map[] && Stalled(s.events[e].row, s.clock, STALL_TIMEOUT)
    ensures Leads(cfg, s, r, t, e, world)
    ensures e in t.events && t.events[e] == s.events[e].(row := ToPending(s.events[e].row))
  {
    r, t := Single(cfg, s, CleanupStalled, e, world);
    EventNext(cfg, s, CleanupStalled, e);
  }

  /** A processing row without a copy is swept back to pending once the timeout has passed. */
  lemma Recover(cfg: Config, s: State, e: EventId, world: World) returns (r: Run, t: State)
    requires e in s.events && Sane(s.events[e]) && s.events[e].row.status.Processing? && s.events[e].copies == map[]
    ensures Leads(cfg, s, r, t, e, world)
    ensures e in t.events && t.events[e] == s.events[e].(row := ToPending(s.events[e].row))
  {
    var wait := s.events[e].row.startedAt.value + STALL_TIMEOUT + 1 - s.clock;
    var a, s1 := QuietStep(cfg, s, Tick(Max(0, wait)), e, world);
    var b;
    b, t := SweepStalled(cfg, s1, e, world);
    r := Join(cfg, s, a, s1, b, t, e, world);
  }

  /** Copy `k` has reached a worker; nothing else has happened to the event. */
  ghost predicate ReachedWorker(before: Event, k: nat, after: Event) {
    && after.row == before.row && after.log == before.log
    && k in before.copies && k in after.copies
    && after.copies[k] == before.copies[k].(phase := Picked)
  }

  /** A copy that is held reaches a worker of its instance, once the queue is empty. */
  lemma HeldReachesWorker(cfg: Config, s: State, e: EventId, k: nat, world: World) returns (r: Run, t: State)
    requires Sound(cfg, s, e) && k in s.events[e].copies && s.events[e].copies[k].phase.Held?
    requires Queue(s, s.events[e].copies[k].instance) == []
    ensures Leads(cfg, s, r, t, e, world) && Sound(cfg, t, e) && ReachedWorker(s.events[e], k, t.events[e])
  {
    r, t := HandOver(cfg, s, s.events[e].copies[k].instance, e, k, e, world);
    LeadsSound(cfg, s, r, t, e, world);
  }

  /** A copy that is held or queued reaches a worker of its instance. */
  lemma ReachWorker(cfg: Config, s: State, e: EventId, k: nat, world: World) returns (r: Run, t: State)
    requires Sound(cfg, s, e) && k in s.events[e].copies && Rank(s.events[e].copies[k].phase) > 3
    ensures Leads(cfg, s, r, t, e, world) && Sound(cfg, t, e) && ReachedWorker(s.events[e], k, t.events[e])
  {
    var i := s.events[e].copies[k].instance;
    var a, s1 := EmptyQueue(cfg, s, i, e, world);
    QueueIsEmpty(cfg, s1, i, e, k);
    if s.events[e].copies[k].phase.Held? {
      var b;
      b, t := HeldReachesWorker(cfg, s1, e, k, world);
      r := Join(cfg, s, a, s1, b, t, e, world);
    } else {
      r, t := a, s1;
    }
  }

  lemma QueueIsEmpty(cfg: Config, s: State, i: InstanceId, e: EventId, k: nat)
    requires QueuesMatch(cfg, s) && Queue(s, i) == [] && e in s.events && k in s.events[e].copies
    ensures !(s.events[e].copies[k].phase.Queued? && s.events[e].copies[k].instance == i)
  {
    assert QueueMatches(cfg, s, i);
    assert !IsQueued(s, Ref(e, k), i);
  }

  lemma FinishSound(cfg: Config, s: State, i: InstanceId, e: EventId, world: World) returns (r: Run, t: State)
    requires cfg.queueCapacity >= 2 && cfg.pollLimit >= 1 && Fair(world)
    requires Sound(cfg, s, e) && !s.events[e].row.status.Terminal()
    ensures Leads(cfg, s, r, t, e, world) && IsSettled(t, e)
    ensures t.events[e].log.deliveries <= s.events[e].log.deliveries + One(s.events[e].copies != map[])
            + Max(1, cfg.maxRetries - if AllCounted(cfg, s.events[e]) then s.events[e].row.attempts else 0)
  {
    var a, s1 := EndCopy(cfg, s, e, world);
    if s1.events[e].row.status.Terminal() {
      r, t := a, s1;
    } else {
      var b;
      b, t := Rounds(cfg, s1, i, e, world);
      r := Join(cfg, s, a, s1, b, t, e, world);
    }
  }

  /** What is left after `EndCopy`. */
  ghost predicate CopyEnded(cfg: Config, before: Event, after: Event) {
    && (after.row.status.Terminal() || after.row.status.Pending?)
    && (AllCounted(cfg, before) && after.row.status.Pending? ==> after.row.attempts == before.row.attempts)
    && after.log.deliveries <= before.log.deliveries + One(before.copies != map[])
  }

  /** A live copy, if there is one, is finished; a row without a copy is swept. */
  lemma EndCopy(cfg: Config, s: State, e: EventId, world: World) returns (r: Run, t: State)
    requires Fair(world) && Sound(cfg, s, e) && !s.events[e].row.status.Terminal()
    ensures Leads(cfg, s, r, t, e, world) && Sound(cfg, t, e) && CopyEnded(cfg, s.events[e], t.events[e])
  {
    if s.events[e].row.status.Pending? {
      r, t := Stay(cfg, s, e, world);
    } else if s.events[e].copies == map[] {
      assert Sane(s.events[e]);
      r, t := Recover(cfg, s, e, world);
      LeadsSound(cfg, s, r, t, e, world);
    } else {
      var k :| k in s.events[e].copies;
      r, t := DriveCopy(cfg, s, e, k, world);
      assert AllCounted(cfg, s.events[e]) ==> Counted(cfg, s.events[e], k);
    }
  }

  lemma DriveCopy(cfg: Config, s: State, e: EventId, k: nat, world: World) returns (r: Run, t: State)
    requires Fair(world) && Sound(cfg, s, e) && k in s.events[e].copies
    ensures Leads(cfg, s, r, t, e, world) && Sound(cfg, t, e) && Ended(cfg, s.events[e], k, t.events[e])
    ensures t.events[e].log.deliveries <= s.events[e].log.deliveries + 1
  {
    if Rank(s.events[e].copies[k].phase) <= 3 {
      r, t := FinishCopy(cfg, s, e, k, world);
    } else {
      var a, s1 := ReachWorker(cfg, s, e, k, world);
      var b;
      b, t := FinishCopy(cfg, s1, e, k, world);
      assert Counted(cfg, s.events[e], k) ==> Counted(cfg, s1.events[e], k);
      r := Join(cfg, s, a, s1, b, t, e, world);
    }
  }

  // ----- Exactly when no event gets stuck

  /** Some run of the service reaches `s`. */
  ghost predicate Reachable(cfg: Config, s: State) {
    exists start: Time, r: Run :: FromStart(cfg, start, r) && r.Last() == s
  }

  /** Some run that is timely for `e` does. */
  ghost predicate ReachableInTime(cfg: Config, s: State, e: EventId) {
    exists start: Time, r: Run :: FromStart(cfg, start, r) && Timely(r, e) && r.Last() == s
  }

  /** Some continuation from `s` settles `e`. */
  ghost predicate CanFinish(cfg: Config, s: State, e: EventId) {
    exists r: Run :: IsRun(cfg, r) && r.states[0] == s && IsSettled(r.Last(), e)
  }

  predicate IsSettled(s: State, e: EventId) {
    e in s.events && s.events[e].row.status.Terminal()
  }

  lemma ReachableIsSound(cfg: Config, s: State)
    requires Reachable(cfg, s)
    ensures SoundState(cfg, s)
  {
    var start: Time, r: Run :| FromStart(cfg, start, r) && r.Last() == s;
    InitSound(cfg, start);
    RunSound(cfg, r, 0, |r.steps|);
  }

  lemma InTimeIsCounted(cfg: Config, s: State, e: EventId)
    requires ReachableInTime(cfg, s, e) && e in s.events
    ensures Reachable(cfg, s) && AllCounted(cfg, s.events[e])
  {
    var start: Time, r: Run :| FromStart(cfg, start, r) && Timely(r, e) && r.Last() == s;
    RunFollows(cfg, r, e, 0, |r.steps|);
    InStepIsCounted(cfg, s.clock, s.events[e]);
  }

  /** From every state of every run, and whatever its deliveries bring, an event that is not terminal
      becomes terminal by steps without a fault, driven by any instance `i`: after at most
      max(1, maxRetries) deliveries, or max(1, maxRetries - attempts) if the run was timely, and one
      more if a copy of it is alive and finished first. */
  lemma Finish(cfg: Config, s: State, i: InstanceId, e: EventId, world: World) returns (r: Run, t: State)
    requires cfg.queueCapacity >= 2 && cfg.pollLimit >= 1 && Fair(world)
    requires Reachable(cfg, s) && e in s.events && !s.events[e].row.status.Terminal()
    ensures Leads(cfg, s, r, t, e, world) && IsSettled(t, e) && Faultless(s.events[e], t.events[e], world)
    ensures t.events[e].log.deliveries <= s.events[e].log.deliveries
            + Max(1, cfg.maxRetries) + One(s.events[e].copies != map[])
    ensures ReachableInTime(cfg, s, e) ==>
              t.events[e].log.deliveries <= s.events[e].log.deliveries
              + Max(1, cfg.maxRetries - s.events[e].row.attempts) + One(s.events[e].copies != map[])
  {
    ReachableIsSound(cfg, s);
    r, t := FinishSound(cfg, s, i, e, world);
    LeadsIsFaultless(cfg, s, r, t, e, world);
    if ReachableInTime(cfg, s, e) {
      InTimeIsCounted(cfg, s, e);
    }
  }

  /** A pending event without a retry time, whose notification is gone and for which no poll is on its way. */
  ghost predicate Forgotten(cfg: Config, s: State, e: EventId) {
    && e in s.events && e !in s.notes
    && s.events[e].row.status.Pending? && s.events[e].row.nextAttemptAt.None? && s.events[e].copies == map[]
    && (s.polling == multiset{} || cfg.pollLimit < 1)
  }

  lemma NoOpOnForgotten(cfg: Config, s: State, step: Step, e: EventId)
    requires cfg.queueCapacity < 2 || cfg.pollLimit < 1
    requires CanStep(cfg, s, step) && Forgotten(cfg, s, e)
    ensures OpOn(s, step, e).None? || OpOn(s, step, e) == Some(Lose({}))
  {
    if step.Poll? {
      FairSelection.BatchRows(ReadyItems(s), cfg.pollLimit, step.locked, step.batch);
      assert Ids(step.batch) == {};
    }
    OpsEnabled(cfg, s, step, e);
    if step.Act? && step.e == e {
      assert step.op == Lose({});
    }
    assert CopiesOf(s.events[e], if step.Crash? then step.instance else 0) == {};
  }

  lemma NotNoticed(cfg: Config, s: State, step: Step, e: EventId)
    requires CanStep(cfg, s, step) && e in s.events && e !in s.notes && s.events[e].row.nextAttemptAt.None?
    requires OpOn(s, step, e).None? || OpOn(s, step, e) == Some(Lose({}))
    ensures e !in Next(cfg, s, step).notes
  {
    assert !Notified(cfg, s, step, e);
  }

  lemma NoPolls(cfg: Config, s: State, step: Step)
    requires cfg.queueCapacity < 2 || cfg.pollLimit < 1
    requires CanStep(cfg, s, step) && (s.polling == multiset{} || cfg.pollLimit < 1)
    ensures Next(cfg, s, step).polling == multiset{} || cfg.pollLimit < 1
  {
  }

  /** Without polls that can take a row, nothing ever touches a forgotten event again. */
  lemma ForgottenStays(cfg: Config, s: State, step: Step, e: EventId)
    requires cfg.queueCapacity < 2 || cfg.pollLimit < 1
    requires CanStep(cfg, s, step) && Forgotten(cfg, s, e)
    ensures Forgotten(cfg, Next(cfg, s, step), e)
    ensures Next(cfg, s, step).events[e].row == s.events[e].row
  {
    EventNext(cfg, s, step, e);
    NoOpOnForgotten(cfg, s, step, e);
    NotNoticed(cfg, s, step, e);
    NoPolls(cfg, s, step);
  }

  lemma {:induction false} ForgottenForever(cfg: Config, r: Run, e: EventId, j: nat)
    requires cfg.queueCapacity < 2 || cfg.pollLimit < 1
    requires IsRun(cfg, r) && Forgotten(cfg, r.states[0], e) && j < |r.states|
    ensures Forgotten(cfg, r.states[j], e)
  {
    if j > 0 {
      ForgottenForever(cfg, r, e, j - 1);
      assert MovesAt(cfg, r, j - 1);
      ForgottenStays(cfg, r.states[j - 1], r.steps[j - 1], e);
    }
  }

  /** An event is stored and its notification is lost. */
  lemma ForgetOne(cfg: Config, e: EventId) returns (s: State)
    ensures Reachable(cfg, s) && Forgotten(cfg, s, e)
  {
    var s0 := Init(0);
    var s1 := Next(cfg, s0, StoreEvent(e, 0));
    s := Next(cfg, s1, DropNotification(e));
    EventNext(cfg, s1, DropNotification(e), e);
    var r := Run([s0, s1, s], [StoreEvent(e, 0), DropNotification(e)]);
    assert MovesAt(cfg, r, 0) && MovesAt(cfg, r, 1);
    assert FromStart(cfg, 0, r) && r.Last() == s;
  }

  /** Every event of every run, timely or not, can still be settled exactly when the queue has room for
      two entries and a poll may return a row. With a smaller queue each poll is skipped as "75% full",
      so an event whose only notification is lost stays pending for ever. */
  lemma NeverStuckExactly(cfg: Config)
    ensures (forall s: State, e: EventId :: Reachable(cfg, s) && e in s.events ==> CanFinish(cfg, s, e))
            <==> (cfg.queueCapacity >= 2 && cfg.pollLimit >= 1)
  {
    if cfg.queueCapacity >= 2 && cfg.pollLimit >= 1 {
      forall s: State, e: EventId | Reachable(cfg, s) && e in s.events ensures CanFinish(cfg, s, e) {
        ReachableCanFinish(cfg, s, e);
      }
    } else {
      var s := ForgetOne(cfg, 0);
      forall r: Run | IsRun(cfg, r) && r.states[0] == s ensures !IsSettled(r.Last(), 0) {
        ForgottenForever(cfg, r, 0, |r.steps|);
      }
      assert !CanFinish(cfg, s, 0);
    }
  }

  lemma ReachableCanFinish(cfg: Config, s: State, e: EventId)
    requires cfg.queueCapacity >= 2 && cfg.pollLimit >= 1 && Reachable(cfg, s) && e in s.events
    ensures CanFinish(cfg, s, e)
  {
    var world := World(n => true, n => 0.0, n => 0);
    var r, t;
    if s.events[e].row.status.Terminal() {
      r, t := Stay(cfg, s, e, world);
    } else {
      r, t := Finish(cfg, s, 0, e, world);
    }
    assert IsRun(cfg, r) && r.states[0] == s && IsSettled(r.Last(), e);
  }
}
