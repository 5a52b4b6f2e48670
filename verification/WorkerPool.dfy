/** The autoscaling worker pool: the registry of workers, its counters, and the controller that runs
    every five seconds. */
module WorkerPools {
  import opened Types
  import Backoff

  datatype Worker = Worker(id: nat, createdAt: Time)

  // ----- The controller's decision

  /** How many workers a tick takes away: one when little happens, half of the extra ones when idle. */
  function ToRemove(active: int, least: int, queued: nat, rate: real): int {
    if rate < 0.1 && active > least then
      if rate == 0.0 && queued == 0 then Min(active - least, Max(1, (active - least) / 2)) else 1
    else 0
  }

  /** How many workers a tick adds, by the fill of the queue and the time it would take to empty it. */
  function ToAdd(active: int, most: int, queued: nat, capacity: nat, rate: real): int
    requires queued <= capacity
  {
    if queued == 0 then 0
    else
      var utilization := queued as real / capacity as real * 100.0;
      var timeToEmpty := queued as real / (if rate > 0.001 then rate else 0.001);
      if (timeToEmpty > 5.0 || utilization > 50.0) && active < most then
        if utilization > 80.0 || timeToEmpty > 30.0 then Min(3, most - active) else 1
      else 0
  }

  function AfterTick(active: int, least: int, most: int, queued: nat, capacity: nat, rate: real): int
    requires queued <= capacity
  {
    var kept := active - ToRemove(active, least, queued, rate);
    kept + ToAdd(kept, most, queued, capacity, rate)
  }

  /** A tick stays between the bounds, and while events wait it never ends with fewer workers than it
      began with, not even when it first removes one. */
  lemma TickBounds(active: int, least: int, most: int, queued: nat, capacity: nat, rate: real)
    requires active <= most && queued <= capacity && rate >= 0.0
    ensures AfterTick(active, least, most, queued, capacity, rate) <= most
    ensures least <= active ==> least <= AfterTick(active, least, most, queued, capacity, rate)
    ensures queued > 0 ==> AfterTick(active, least, most, queued, capacity, rate) >= active
    ensures queued == 0 ==> AfterTick(active, least, most, queued, capacity, rate) <= active
  {
  }

  /** Emptying the queue takes more than five seconds, or it is more than half full. */
  predicate Pressing(queued: nat, capacity: nat, rate: real) {
    queued > 0 && (queued as real > 5.0 * AtLeast(rate) || 2 * queued > capacity)
  }

  /** It takes more than thirty seconds, or it is more than 80% full. */
  predicate Overloaded(queued: nat, capacity: nat, rate: real) {
    queued > 0 && (queued as real > 30.0 * AtLeast(rate) || 5 * queued > 4 * capacity)
  }

  /** The rate, but at least one event in a thousand seconds. */
  function AtLeast(rate: real): real {
    if rate > 0.001 then rate else 0.001
  }

  lemma QuotientExceeds(x: real, y: real, bound: real)
    requires y > 0.0
    ensures x / y > bound <==> x > bound * y
  {
    assert x == x / y * y;
  }

  /** A tick that finds `active` workers, fewer than the maximum, adds up to three when it finds the queue
      overloaded, one when it only presses, and none otherwise. */
  lemma AddedExactly(active: int, most: int, queued: nat, capacity: nat, rate: real)
    requires active < most && queued <= capacity && rate >= 0.0
    ensures ToAdd(active, most, queued, capacity, rate) ==
            if Overloaded(queued, capacity, rate) then Min(3, most - active)
            else One(Pressing(queued, capacity, rate))
  {
    if queued > 0 {
      QuotientExceeds(queued as real, AtLeast(rate), 5.0);
      QuotientExceeds(queued as real, AtLeast(rate), 30.0);
      QuotientExceeds(queued as real, capacity as real, 0.5);
      QuotientExceeds(queued as real, capacity as real, 0.8);
      assert queued as real / capacity as real * 100.0 > 50.0 <==> queued as real / capacity as real > 0.5;
      assert queued as real / capacity as real * 100.0 > 80.0 <==> queued as real / capacity as real > 0.8;
    }
  }

  /** What a tick does with the number of workers. Below 0.1 events per second it first gives up workers
      above the minimum: one, or half of them when nothing happens at all. */
  predicate IsTick(active: int, least: int, most: int, queued: nat, capacity: nat, rate: real, after: int) {
    if rate < 0.1 && active > least then
      if queued > 0 then
        after == active - 1 + if Overloaded(queued, capacity, rate) then Min(3, most - active + 1) else 1
      else if rate > 0.0 || active == least + 1 then after == active - 1
      else after == active - (active - least) / 2
    else if queued > 0 && active < most then
      after == active + if Overloaded(queued, capacity, rate) then Min(3, most - active)
                        else One(Pressing(queued, capacity, rate))
    else after == active
  }

  lemma TickExactly(active: int, least: int, most: int, queued: nat, capacity: nat, rate: real)
    requires active <= most && queued <= capacity && rate >= 0.0
    ensures IsTick(active, least, most, queued, capacity, rate, AfterTick(active, least, most, queued, capacity, rate))
  {
    var kept := active - ToRemove(active, least, queued, rate);
    if kept < most {
      AddedExactly(kept, most, queued, capacity, rate);
    }
  }

  /** With the rest fixed, more waiting events never lead to fewer workers. */
  lemma TickMonotone(active: int, least: int, most: int, queued: nat, more: nat, capacity: nat, rate: real)
    requires active <= most && queued <= more <= capacity && rate >= 0.0
    ensures AfterTick(active, least, most, queued, capacity, rate)
            <= AfterTick(active, least, most, more, capacity, rate)
  {
    TickExactly(active, least, most, queued, capacity, rate);
    TickExactly(active, least, most, more, capacity, rate);
  }

  /** The workers above the minimum after a tick without any activity. */
  function ExtraAfterIdleTick(extra: nat): nat {
    if extra <= 1 then 0 else extra - extra / 2
  }

  function ExtraAfterIdleTicks(extra: nat, ticks: nat): nat {
    if ticks == 0 then extra else ExtraAfterIdleTicks(ExtraAfterIdleTick(extra), ticks - 1)
  }

  /** An idle tick removes half of the extra workers, and the last one. */
  lemma IdleTickOnExtra(active: int, least: int, most: int, capacity: nat)
    requires least <= active <= most
    ensures AfterTick(active, least, most, 0, capacity, 0.0) == least + ExtraAfterIdleTick(active - least)
  {
  }

  /** Idle ticks reach the minimum exactly when there are enough of them: `ticks` of them suffice for
      `extra` workers if and only if extra <= 2^(ticks - 1); from then on nothing changes. */
  lemma {:induction false} IdleConvergence(extra: nat, ticks: nat)
    ensures ExtraAfterIdleTicks(extra, ticks) == 0 <==> (extra == 0 || (ticks >= 1 && extra <= Backoff.Pow2(ticks - 1)))
  {
    if ticks >= 1 {
      IdleConvergence(ExtraAfterIdleTick(extra), ticks - 1);
    }
  }

  // ----- The pool

  class WorkerPool {
    const minWorkers: int
    const maxWorkers: int
    var activeWorkers: int
    var workers: map<nat, Worker>
    var nextWorkerID: nat
    var lastProcessed: int
    var totalProcessed: int
    var successfulDeliveries: int
    var failedDeliveries: int
    var processingTimeNs: int
    /** The workers whose stop channel has been closed, in the order of closing. */
    var closed: seq<nat>

    /** Worker numbers are fresh, and no stop channel is closed twice or while its worker is registered. */
    ghost predicate RegistryValid()
      reads this
    {
      && (forall id :: id in workers ==> id < nextWorkerID && workers[id].id == id)
      && (forall k :: 0 <= k < |closed| ==> closed[k] < nextWorkerID && closed[k] !in workers)
      && (forall j, k :: 0 <= j < k < |closed| ==> closed[j] != closed[k])
    }

    ghost predicate Valid()
      reads this
    {
      && 1 <= minWorkers <= maxWorkers
      && activeWorkers == |workers| <= maxWorkers
      && RegistryValid()
      && totalProcessed == successfulDeliveries + failedDeliveries
      && 0 <= lastProcessed <= totalProcessed
    }

    function Counters(): (int, int, int, int)
      reads this
    {
      (totalProcessed, successfulDeliveries, failedDeliveries, processingTimeNs)
    }

    constructor (least: int, most: int, now: Time)
      ensures Valid()
      ensures minWorkers == Max(1, least) && maxWorkers == Max(most, minWorkers)
      ensures activeWorkers == minWorkers && totalProcessed == 0 && closed == []
    {
      minWorkers := Max(1, least);
      maxWorkers := Max(most, Max(1, least));
      activeWorkers, workers, nextWorkerID := 0, map[], 0;
      lastProcessed, totalProcessed, successfulDeliveries, failedDeliveries, processingTimeNs := 0, 0, 0, 0, 0;
      closed := [];
      new;
      for i := 0 to minWorkers
        invariant Valid() && activeWorkers == i && totalProcessed == 0 && closed == []
      {
        var added := AddWorker(now);
      }
    }

    /** Starts a worker with a new number, unless the pool is full. */
    method AddWorker(now: Time) returns (added: bool)
      requires Valid()
      modifies this`activeWorkers, this`workers, this`nextWorkerID
      ensures Valid() && added == (old(activeWorkers) < maxWorkers)
      ensures added ==>
                && old(nextWorkerID) !in old(workers)
                && workers == old(workers)[old(nextWorkerID) := Worker(old(nextWorkerID), now)]
                && nextWorkerID == old(nextWorkerID) + 1
                && activeWorkers == old(activeWorkers) + 1
      ensures !added ==> unchanged(this)
    {
      if activeWorkers >= maxWorkers {
        return false;
      }
      var workerID := nextWorkerID;
      nextWorkerID := nextWorkerID + 1;
      workers := workers[workerID := Worker(workerID, now)];
      activeWorkers := activeWorkers + 1;
      return true;
    }

    /** A worker that was created no later than any other; the registry may be visited in any order. */
    method OldestWorker() returns (oldest: nat)
      requires workers != map[]
      ensures oldest in workers
      ensures forall id :: id in workers ==> workers[oldest].createdAt <= workers[id].createdAt
    {
      oldest := 0;
      var oldestTime: Option<Time> := None;
      var unvisited := workers.Keys;
      while unvisited != {}
        invariant unvisited <= workers.Keys
        invariant oldestTime.None? <==> unvisited == workers.Keys
        invariant oldestTime.Some? ==> oldest in workers && oldestTime.value == workers[oldest].createdAt
        invariant oldestTime.Some? ==>
                    forall id :: id in workers.Keys - unvisited ==> oldestTime.value <= workers[id].createdAt
        decreases unvisited
      {
        var id :| id in unvisited;
        unvisited := unvisited - {id};
        if oldestTime.None? || workers[id].createdAt < oldestTime.value {
          oldest, oldestTime := id, Some(workers[id].createdAt);
        }
      }
    }

    /** Closes the stop channel of a registered worker and forgets the worker. */
    method StopWorker(id: nat)
      requires RegistryValid() && id in workers
      modifies this`workers, this`closed
      ensures RegistryValid() && id !in old(closed)
      ensures workers == old(workers) - {id} && |workers| == |old(workers)| - 1 && closed == old(closed) + [id]
    {
      closed := closed + [id];
      workers := workers - {id};
      assert workers.Keys == old(workers).Keys - {id};
    }

    /** Stops an oldest worker, unless only the minimum is left. */
    method RemoveWorker() returns (removed: bool, ghost id: nat)
      requires Valid()
      modifies this`activeWorkers, this`workers, this`closed
      ensures Valid() && removed == (old(activeWorkers) > minWorkers)
      ensures removed ==>
                && id in old(workers) && id !in old(closed)
                && (forall other :: other in old(workers) ==>
                      old(workers)[id].createdAt <= old(workers)[other].createdAt)
                && workers == old(workers) - {id}
                && closed == old(closed) + [id]
                && activeWorkers == old(activeWorkers) - 1
      ensures !removed ==> unchanged(this)
    {
      if activeWorkers <= minWorkers {
        return false, 0;
      }
      var oldest := OldestWorker();
      StopWorker(oldest);
      activeWorkers := activeWorkers - 1;
      return true, oldest;
    }

    /** What a panicking worker does to the registry before it is replaced. For a worker that is still
        registered the pool stays consistent; one that was removed before is subtracted twice. */
    method WorkerPanics(id: nat)
      requires Valid()
      modifies this`activeWorkers, this`workers
      ensures workers == old(workers) - {id} && activeWorkers == old(activeWorkers) - 1
      ensures Valid() <==> id in old(workers)
    {
      workers := workers - {id};
      activeWorkers := activeWorkers - 1;
      assert workers.Keys == old(workers).Keys - {id};
      assert id !in old(workers) ==> workers == old(workers);
    }

    /** Stops all workers, closing the channel of each exactly once. */
    method Shutdown()
      requires Valid()
      modifies this`activeWorkers, this`workers, this`closed
      ensures Valid() && workers == map[] && activeWorkers == 0
      ensures old(closed) <= closed
      ensures forall id :: id in closed <==> id in old(closed) || id in old(workers)
    {
      while workers != map[]
        invariant RegistryValid()
        invariant workers.Keys <= old(workers).Keys && old(closed) <= closed
        invariant forall id :: id in closed <==> id in old(closed) || (id in old(workers) && id !in workers)
        decreases |workers|
      {
        var id :| id in workers;
        StopWorker(id);
      }
      activeWorkers := 0;
    }

    method RecordSuccess()
      requires Valid()
      modifies this`successfulDeliveries, this`totalProcessed
      ensures Valid()
      ensures successfulDeliveries == old(successfulDeliveries) + 1 && totalProcessed == old(totalProcessed) + 1
    {
      successfulDeliveries := successfulDeliveries + 1;
      totalProcessed := totalProcessed + 1;
    }

    method RecordFailure()
      requires Valid()
      modifies this`failedDeliveries, this`totalProcessed
      ensures Valid()
      ensures failedDeliveries == old(failedDeliveries) + 1 && totalProcessed == old(totalProcessed) + 1
    {
      failedDeliveries := failedDeliveries + 1;
      totalProcessed := totalProcessed + 1;
    }

    method RecordProcessingTime(duration: Duration)
      requires Valid()
      modifies this`processingTimeNs
      ensures Valid() && processingTimeNs == old(processingTimeNs) + duration
    {
      processingTimeNs := processingTimeNs + duration;
    }

    /** Events per second since the last check. */
    function ProcessingRate(elapsed: real): real
      reads this
    {
      if elapsed > 0.0 then (totalProcessed - lastProcessed) as real / elapsed else 0.0
    }

    /** One tick of the controller, `elapsed` seconds after the last one. It ends with the number of
        workers that `AfterTick` gives, and none of its requests is refused. */
    method AdjustWorkerCount(queueLength: nat, queueCapacity: nat, elapsed: real, now: Time) returns (refused: nat)
      requires Valid() && queueLength <= queueCapacity
      modifies this
      ensures Valid() && lastProcessed == totalProcessed
      ensures Counters() == old(Counters())
      ensures var rate := old(ProcessingRate(elapsed));
              activeWorkers == AfterTick(old(activeWorkers), minWorkers, maxWorkers, queueLength, queueCapacity, rate)
      ensures var rate := old(ProcessingRate(elapsed));
              IsTick(old(activeWorkers), minWorkers, maxWorkers, queueLength, queueCapacity, rate, activeWorkers)
      ensures refused == 0 && activeWorkers <= maxWorkers
      ensures minWorkers <= old(activeWorkers) ==> minWorkers <= activeWorkers
      ensures queueLength > 0 ==> activeWorkers >= old(activeWorkers)
    {
      refused := 0;
      var rate := ProcessingRate(elapsed);
      RateNotNegative(elapsed);
      TickBounds(activeWorkers, minWorkers, maxWorkers, queueLength, queueCapacity, rate);
      TickExactly(activeWorkers, minWorkers, maxWorkers, queueLength, queueCapacity, rate);
      lastProcessed := totalProcessed;

      var workersToRemove := ToRemove(activeWorkers, minWorkers, queueLength, rate);
      for i := 0 to workersToRemove
        invariant Valid() && lastProcessed == totalProcessed && refused == 0
        invariant Counters() == old(Counters())
        invariant activeWorkers == old(activeWorkers) - i
      {
        var removed, _ := RemoveWorker();
        refused := refused + if removed then 0 else 1;
      }

      var workersToAdd := ToAdd(activeWorkers, maxWorkers, queueLength, queueCapacity, rate);
      ghost var kept := activeWorkers;
      for i := 0 to workersToAdd
        invariant Valid() && lastProcessed == totalProcessed && refused == 0
        invariant Counters() == old(Counters())
        invariant activeWorkers == kept + i
      {
        var added := AddWorker(now);
        refused := refused + if added then 0 else 1;
      }
    }

    lemma RateNotNegative(elapsed: real)
      requires Valid()
      ensures ProcessingRate(elapsed) >= 0.0
      ensures elapsed > 0.0 ==> ProcessingRate(elapsed) * elapsed == (totalProcessed - lastProcessed) as real
    {
    }

    method IdleTick(queueCapacity: nat, elapsed: real, now: Time)
      requires Valid() && minWorkers <= activeWorkers && lastProcessed == totalProcessed
      modifies this
      ensures Valid() && minWorkers <= activeWorkers <= old(activeWorkers) && lastProcessed == totalProcessed
      ensures activeWorkers - minWorkers == ExtraAfterIdleTick(old(activeWorkers) - minWorkers)
    {
      IdleTickOnExtra(activeWorkers, minWorkers, maxWorkers, queueCapacity);
      TickBounds(activeWorkers, minWorkers, maxWorkers, 0, queueCapacity, 0.0);
      var refused := AdjustWorkerCount(0, queueCapacity, elapsed, now);
    }

    /** The controller's loop while nothing is processed and nothing waits: after `ticks` ticks only the
        minimum is left if and only if there were at most 2^(ticks - 1) extra workers. */
    method ManageWhileIdle(ticks: nat, queueCapacity: nat, elapsed: nat -> real, now: nat -> Time)
      requires Valid() && minWorkers <= activeWorkers && lastProcessed == totalProcessed
      modifies this
      ensures Valid() && minWorkers <= activeWorkers <= old(activeWorkers)
      ensures activeWorkers == minWorkers + ExtraAfterIdleTicks(old(activeWorkers) - minWorkers, ticks)
      ensures activeWorkers == minWorkers <==>
                || old(activeWorkers) == minWorkers
                || (ticks >= 1 && old(activeWorkers) - minWorkers <= Backoff.Pow2(ticks - 1))
    {
      for k := 0 to ticks
        invariant Valid() && minWorkers <= activeWorkers <= old(activeWorkers) && lastProcessed == totalProcessed
        invariant ExtraAfterIdleTicks(activeWorkers - minWorkers, ticks - k) ==
                  ExtraAfterIdleTicks(old(activeWorkers) - minWorkers, ticks)
      {
        IdleTick(queueCapacity, elapsed(k), now(k));
      }
      IdleConvergence(old(activeWorkers) - minWorkers, ticks);
    }

    /** The controller keeps ticking after a shutdown, and starts workers again if and only if events wait
        for long or fill more than half of the queue. */
    method TickAfterShutdown(queueLength: nat, queueCapacity: nat, elapsed: real, now: Time)
      requires Valid() && queueLength <= queueCapacity
      modifies this
      ensures Valid()
      ensures activeWorkers > 0 <==> Pressing(queueLength, queueCapacity, old(ProcessingRate(elapsed)))
    {
      RateNotNegative(elapsed);
      TickAfterShutdownRestarts(minWorkers, maxWorkers, queueLength, queueCapacity, ProcessingRate(elapsed));
      Shutdown();
      var refused := AdjustWorkerCount(queueLength, queueCapacity, elapsed, now);
    }
  }

  /** The controller keeps ticking after `Shutdown`: with no worker left, a tick starts some exactly
      when the waiting events press. */
  lemma TickAfterShutdownRestarts(least: int, most: int, queued: nat, capacity: nat, rate: real)
    requires 1 <= least <= most && queued <= capacity && rate >= 0.0
    ensures AfterTick(0, least, most, queued, capacity, rate) > 0 <==> Pressing(queued, capacity, rate)
  {
    AddedExactly(0, most, queued, capacity, rate);
  }
}
