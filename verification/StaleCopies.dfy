/** Why the timeliness condition is needed: runs without any crash or loss in which workers are slower
    than the stall timeout. They reach the bounds on deliveries and on successful deliveries. */
module StaleCopies {
  import opened Types
  import opened EventRows
  import opened CopyLifecycle
  import opened DeliveryProtocol
  import opened Progress
  import Backoff

  /** The plans below are about event 0; nothing is promised about event 1, which does not exist. */
  const WORLD: World := World(n => true, n => 0.0, n => 0)

  /** The instance is notified of event 0 and brings its copy to a worker. */
  lemma ClaimAndPick(cfg: Config, s: State) returns (r: Run, t: State)
    requires Queue(s, 0) == []
    requires 0 in s.events && 1 !in s.events && 0 in s.notes && s.events[0].row.status.Pending?
    ensures Leads(cfg, s, r, t, 1, WORLD) && t.clock == s.clock && Queue(t, 0) == [] && 0 in t.notes
    ensures 0 in t.events && 1 !in t.events
    ensures t.events[0] == HandedOver(Apply(cfg, s.clock, s.events[0], Claim(0, Listener)))
  {
    var step := HandleNotification(0, 0);
    var a, s1 := Single(cfg, s, step, 1, WORLD);
    EventNext(cfg, s, step, 0);
    var b;
    b, t := HandOver(cfg, s1, 0, 0, s.events[0].log.claims, 1, WORLD);
    r := Join(cfg, s, a, s1, b, t, 1, WORLD);
  }

  /** The sweep takes a stalled row back, although a copy of it is alive. */
  lemma SweepUnderCopy(cfg: Config, s: State) returns (r: Run, t: State)
    requires 0 in s.events && 1 !in s.events && Stalled(s.events[0].row, s.clock, STALL_TIMEOUT)
    ensures Leads(cfg, s, r, t, 1, WORLD)
    ensures t.queues == s.queues && t.clock == s.clock && s.notes <= t.notes
    ensures 0 in t.events && 1 !in t.events
    ensures t.events[0] == Apply(cfg, s.clock, s.events[0], Sweep)
  {
    r, t := Single(cfg, s, CleanupStalled, 1, WORLD);
    EventNext(cfg, s, CleanupStalled, 0);
  }

  /** A worker's own step for a copy of event 0. */
  lemma WorkerStep(cfg: Config, s: State, op: Op) returns (r: Run, t: State)
    requires CanStep(cfg, s, Act(0, op)) && Smooth(s, Act(0, op), 1, WORLD)
    requires op.Deliver? || op.Bump? || op.Reschedule? || op.Settle?
    ensures Leads(cfg, s, r, t, 1, WORLD)
    ensures t.queues == s.queues && t.clock == s.clock && s.notes <= t.notes
    ensures t.events == s.events[0 := Apply(cfg, s.clock, s.events[0], op)]
  {
    ActEffect(cfg, s, 0, op);
    r, t := Single(cfg, s, Act(0, op), 1, WORLD);
  }

  /** The copies 0, ..., n - 1 are all alive, the first `m` of them delivered successfully. */
  ghost predicate Pile(ev: Event, n: nat, m: nat) {
    && (forall k: nat :: k in ev.copies <==> k < n)
    && (forall k :: k in ev.copies ==> ev.copies[k].phase == if k < m then Settling(Succeeded) else Picked)
    && ev.log.claims == n && ev.log.successes == m && ev.log.lost == 0 && ev.log.overtaken + 1 == n
  }

  /** Event 0 is being processed, its workers hold `n` copies of it, and a notification is left. */
  ghost predicate Piled(s: State, n: nat) {
    && 0 in s.events && 1 !in s.events && 0 in s.notes && Queue(s, 0) == []
    && Pile(s.events[0], n, 0)
    && s.events[0].row.status.Processing? && s.events[0].row.nextAttemptAt.None?
    && s.events[0].row.startedAt == Some(s.clock)
  }

  lemma FirstCopy(cfg: Config) returns (r: Run, t: State)
    ensures Leads(cfg, Init(0), r, t, 1, WORLD) && Piled(t, 1)
  {
    var a, s1 := Single(cfg, Init(0), StoreEvent(0, 0), 1, WORLD);
    assert s1.events == map[0 := NewEvent(0, 0)];
    var b;
    b, t := ClaimAndPick(cfg, s1);
    r := Join(cfg, Init(0), a, s1, b, t, 1, WORLD);
  }

  /** The workers sleep past the timeout, the sweep overtakes them, and one more copy is made. */
  lemma OneMoreCopy(cfg: Config, s: State, n: nat) returns (r: Run, t: State)
    requires Piled(s, n) && n >= 1
    ensures Leads(cfg, s, r, t, 1, WORLD) && Piled(t, n + 1)
  {
    var a, s1 := QuietStep(cfg, s, Tick(STALL_TIMEOUT + 1), 1, WORLD);
    var b, s2 := SweepUnderCopy(cfg, s1);
    assert 0 in s.events[0].copies;
    var c;
    c, t := ClaimAndPick(cfg, s2);
    var bc := Join(cfg, s1, b, s2, c, t, 1, WORLD);
    r := Join(cfg, s, a, s1, bc, t, 1, WORLD);
  }

  lemma {:induction false} ManyCopies(cfg: Config, n: nat) returns (r: Run, t: State)
    requires n >= 1
    ensures Leads(cfg, Init(0), r, t, 1, WORLD) && Piled(t, n)
  {
    if n == 1 {
      r, t := FirstCopy(cfg);
    } else {
      var a, s1 := ManyCopies(cfg, n - 1);
      var b;
      b, t := OneMoreCopy(cfg, s1, n - 1);
      r := Join(cfg, Init(0), a, s1, b, t, 1, WORLD);
    }
  }

  lemma {:induction false} DeliverAll(cfg: Config, s: State, n: nat, m: nat) returns (r: Run, t: State)
    requires 0 in s.events && Pile(s.events[0], n, m) && m <= n
    ensures Leads(cfg, s, r, t, 1, WORLD) && 0 in t.events && Pile(t.events[0], n, n)
    decreases n - m
  {
    if m == n {
      r, t := Stay(cfg, s, 1, WORLD);
    } else {
      var a, s1 := WorkerStep(cfg, s, Deliver(m, true));
      var b;
      b, t := DeliverAll(cfg, s1, n, m + 1);
      r := Join(cfg, s, a, s1, b, t, 1, WORLD);
    }
  }

  /** The bound on successful deliveries is reached: for every `n` there is a run without any loss in
      which n - 1 sweeps overtake a copy and the event is delivered successfully `n` times. */
  lemma SlowWorkersDeliverOften(cfg: Config, n: nat) returns (r: Run)
    requires n >= 1
    ensures FromStart(cfg, 0, r) && 0 in r.Last().events && (n > 1 ==> !ExclusiveIn(r.Last(), 0))
    ensures var log := r.Last().events[0].log;
            log.successes == n && log.lost == 0 && log.overtaken == n - 1
  {
    var a, s1 := ManyCopies(cfg, n);
    var b, t := DeliverAll(cfg, s1, n, 0);
    r := Join(cfg, Init(0), a, s1, b, t, 1, WORLD);
    assert n > 1 ==> 0 in t.events[0].copies && 1 in t.events[0].copies;
  }

  // ----- As many deliveries as there can be

  /** Event 0 can be claimed, and its row counts `a` attempts. */
  ghost predicate Open(s: State, a: nat) {
    && 0 in s.events && 1 !in s.events && 0 in s.notes && Queue(s, 0) == []
    && s.events[0].row.status.Pending? && s.events[0].row.attempts == a
    && (forall k :: k in s.events[0].copies ==> k < s.events[0].log.claims)
  }

  /** Between two states of event 0 there are so many deliveries and overtaking sweeps, and no loss. */
  predicate Happens(before: Event, after: Event, deliveries: nat, overtaken: nat) {
    && after.log.deliveries == before.log.deliveries + deliveries
    && after.log.overtaken == before.log.overtaken + overtaken
    && after.log.lost == before.log.lost && after.log.claims >= before.log.claims
  }

  /** A last attempt, which fails and settles the event. */
  lemma LastAttempt(cfg: Config, s: State, a: nat) returns (r: Run, t: State)
    requires Open(s, a) && a + 1 >= cfg.maxRetries
    ensures Leads(cfg, s, r, t, 1, WORLD)
    ensures Explored(s, t) && Happens(s.events[0], t.events[0], 1, 0)
  {
    var k := s.events[0].log.claims;
    var x, s1 := ClaimAndPick(cfg, s);
    var y, s2 := WorkerStep(cfg, s1, Deliver(k, false));
    var z;
    z, t := WorkerStep(cfg, s2, Settle(k));
    assert t.events[0].copies == s.events[0].copies;
    var yz := Join(cfg, s1, y, s2, z, t, 1, WORLD);
    r := Join(cfg, s, x, s1, yz, t, 1, WORLD);
  }

  /** An attempt fails, and before its worker writes that down a sweep overtakes it. */
  lemma HoldAttempt(cfg: Config, s: State, a: nat) returns (r: Run, t: State)
    requires Open(s, a) && a + 1 < cfg.maxRetries
    ensures Leads(cfg, s, r, t, 1, WORLD)
    ensures Open(t, a + 1) && Happens(s.events[0], t.events[0], 1, 1)
    ensures t.events[0].log.claims == s.events[0].log.claims + 1
    ensures t.events[0].copies == s.events[0].copies[s.events[0].log.claims := Copy(0, a, s.clock, Bumping)]
  {
    var k := s.events[0].log.claims;
    var w, s1 := ClaimAndPick(cfg, s);
    var x, s2 := WorkerStep(cfg, s1, Deliver(k, false));
    var y, s3 := QuietStep(cfg, s2, Tick(STALL_TIMEOUT + 1), 1, WORLD);
    var z;
    z, t := SweepUnderCopy(cfg, s3);
    assert k in s3.events[0].copies;
    var yz := Join(cfg, s2, y, s3, z, t, 1, WORLD);
    var xyz := Join(cfg, s1, x, s2, yz, t, 1, WORLD);
    r := Join(cfg, s, w, s1, xyz, t, 1, WORLD);
  }

  /** The overtaken worker writes its old attempts and its retry over a row that has been settled. */
  lemma Reopen(cfg: Config, s: State, k: nat, a: nat) returns (r: Run, t: State)
    requires 0 in s.events && 1 !in s.events && 0 in s.notes && Queue(s, 0) == []
    requires k in s.events[0].copies && forall j :: j in s.events[0].copies ==> j < s.events[0].log.claims
    requires s.events[0].copies[k].phase.Bumping? && s.events[0].copies[k].attempts == a
    ensures Leads(cfg, s, r, t, 1, WORLD)
    ensures Open(t, a + 1) && Happens(s.events[0], t.events[0], 0, 0)
    ensures t.events[0].copies == s.events[0].copies - {k}
  {
    var x, s1 := WorkerStep(cfg, s, Bump(k, true));
    var y;
    y, t := WorkerStep(cfg, s1, Reschedule(k, 0.0, 0));
    assert t.events[0].copies == s.events[0].copies - {k};
    r := Join(cfg, s, x, s1, y, t, 1, WORLD);
  }

  /** Event 0 has been settled, and its other copies are as they were. */
  ghost predicate Explored(s: State, t: State) {
    && 0 in s.events && 0 in t.events && 1 !in t.events && 0 in t.notes && Queue(t, 0) == []
    && t.events[0].row.status.Failed? && t.events[0].copies == s.events[0].copies
    && t.events[0].log.claims >= s.events[0].log.claims
  }

  /** How many attempts that can be retried are left after `a` of them. */
  function Levels(cfg: Config, a: nat): nat {
    Max(0, cfg.maxRetries - 1 - a)
  }

  /** Each attempt that can be retried is overtaken, and all that follows it happens twice: before and
      after its worker writes its retry. */
  lemma {:induction false} Explore(cfg: Config, s: State, a: nat) returns (r: Run, t: State)
    requires Open(s, a)
    ensures Leads(cfg, s, r, t, 1, WORLD) && Explored(s, t)
    ensures var leaves := Backoff.Pow2(Levels(cfg, a));
            Happens(s.events[0], t.events[0], 2 * leaves - 1, leaves - 1)
    decreases Levels(cfg, a)
  {
    if Levels(cfg, a) == 0 {
      r, t := LastAttempt(cfg, s, a);
    } else {
      var k := s.events[0].log.claims;
      var w, s1 := HoldAttempt(cfg, s, a);
      var x, s2 := Explore(cfg, s1, a + 1);
      var y, s3 := Reopen(cfg, s2, k, a);
      assert s3.events[0].copies == s.events[0].copies;
      var z;
      z, t := Explore(cfg, s3, a + 1);
      var yz := Join(cfg, s2, y, s3, z, t, 1, WORLD);
      var xyz := Join(cfg, s1, x, s2, yz, t, 1, WORLD);
      r := Join(cfg, s, w, s1, xyz, t, 1, WORLD);
    }
  }

  /** The bound on deliveries is reached, too: for every configuration there is a run without any loss
      in which the event is delivered 2^(maxRetries-1) times, plus once for each overtaking sweep. */
  lemma StaleWritesRepeatDeliveries(cfg: Config) returns (r: Run)
    ensures FromStart(cfg, 0, r) && 0 in r.Last().events
    ensures var log, bound := r.Last().events[0].log, Backoff.Pow2(Max(0, cfg.maxRetries - 1));
            log.deliveries == bound + log.overtaken && log.overtaken == bound - 1 && log.lost == 0
  {
    var a, s1 := Single(cfg, Init(0), StoreEvent(0, 0), 1, WORLD);
    assert s1.events == map[0 := NewEvent(0, 0)];
    var b, t := Explore(cfg, s1, 0);
    r := Join(cfg, Init(0), a, s1, b, t, 1, WORLD);
  }
}
