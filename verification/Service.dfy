/** The goroutines of one instance as sequential code: the backup poll, the notification handler and
    the worker's processing of one event. What other goroutines, the database and the network do
    meanwhile is an argument. */
module Service {
  import opened Types
  import opened EventRows
  import opened CopyLifecycle
  import opened Repository
  import Backoff
  import DeliveryProtocol
  import FairSelection
  import WorkerPools
  import ConfigCache

  /** Where a polled event ends: in the queue, back in pending, or in processing without a copy, for
      the sweep to find. */
  datatype Fate = Enqueued | Released | Abandoned

  datatype NotificationResult = Unreadable | ClaimFailed | NotClaimed | Accepted | QueueFull

  /** What other goroutines and instances do meanwhile: a worker receives from the queue, another
      producer offers it an event, or somebody writes a row. */
  datatype Action = Take | Put(event: WebhookEvent) | Write(id: EventId, row: Row)

  predicate Writes(actions: seq<Action>, id: EventId) {
    exists k :: 0 <= k < |actions| && actions[k].Write? && actions[k].id == id
  }

  /** An event that has entered the queue; `own` ones came from the method in question. */
  datatype Entry = Entry(event: WebhookEvent, own: bool)

  function EventsOf(entered: seq<Entry>): seq<WebhookEvent> {
    seq(|entered|, k requires 0 <= k < |entered| => entered[k].event)
  }

  function OwnEvents(entered: seq<Entry>): seq<WebhookEvent> {
    if entered == [] then []
    else
      var last := entered[|entered| - 1];
      OwnEvents(entered[..|entered| - 1]) + if last.own then [last.event] else []
  }

  lemma OneMoreEntry(entered: seq<Entry>, x: Entry)
    ensures EventsOf(entered + [x]) == EventsOf(entered) + [x.event]
    ensures OwnEvents(entered + [x]) == OwnEvents(entered) + if x.own then [x.event] else []
  {
    assert (entered + [x])[..|entered|] == entered;
  }

  function Kept(events: seq<WebhookEvent>, fates: seq<Fate>): seq<WebhookEvent>
    requires |events| == |fates|
  {
    if events == [] then []
    else
      var n := |events| - 1;
      Kept(events[..n], fates[..n]) + if fates[n].Enqueued? then [events[n]] else []
  }

  lemma OneMoreKept(events: seq<WebhookEvent>, fates: seq<Fate>, event: WebhookEvent, fate: Fate)
    requires |events| == |fates|
    ensures Kept(events + [event], fates + [fate]) == Kept(events, fates) + if fate.Enqueued? then [event] else []
  {
  }

  lemma {:induction false} RestAbandoned(events: seq<WebhookEvent>, more: seq<WebhookEvent>,
                                         fates: seq<Fate>, rest: seq<Fate>)
    requires |events| == |fates| && |more| == |rest| && forall k :: 0 <= k < |rest| ==> rest[k].Abandoned?
    ensures Kept(events + more, fates + rest) == Kept(events, fates)
  {
    if more == [] {
      assert events + more == events && fates + rest == fates;
    } else {
      var n := |more| - 1;
      RestAbandoned(events, more[..n], fates, rest[..n]);
      OneMoreKept(events + more[..n], fates + rest[..n], more[n], rest[n]);
      assert events + more == events + more[..n] + [more[n]] && fates + rest == fates + rest[..n] + [rest[n]];
    }
  }

  /** Some event of the batch with that ID is released. */
  predicate ReleasedIn(events: seq<WebhookEvent>, fates: seq<Fate>, id: EventId) {
    exists k :: 0 <= k < |events| && k < |fates| && fates[k].Released? && events[k].id == id
  }

  lemma OneMoreReleased(events: seq<WebhookEvent>, fates: seq<Fate>, event: WebhookEvent, fate: Fate)
    requires |events| == |fates|
    ensures forall id :: ReleasedIn(events + [event], fates + [fate], id) <==>
              ReleasedIn(events, fates, id) || (fate.Released? && id == event.id)
  {
    var n := |events|;
    assert (events + [event])[n] == event && (fates + [fate])[n] == fate;
    forall id | ReleasedIn(events, fates, id) ensures ReleasedIn(events + [event], fates + [fate], id) {
      var k :| 0 <= k < n && fates[k].Released? && events[k].id == id;
      assert (fates + [fate])[k].Released? && (events + [event])[k].id == id;
    }
  }

  lemma RestNotReleased(events: seq<WebhookEvent>, fates: seq<Fate>, rest: seq<Fate>)
    requires |fates| + |rest| == |events| && forall k :: 0 <= k < |rest| ==> rest[k].Abandoned?
    ensures forall id :: ReleasedIn(events, fates + rest, id) <==> ReleasedIn(events[..|fates|], fates, id)
  {
    forall id | ReleasedIn(events[..|fates|], fates, id) ensures ReleasedIn(events, fates + rest, id) {
      var k :| 0 <= k < |fates| && fates[k].Released? && events[k].id == id;
      assert (fates + rest)[k].Released?;
    }
  }

  lemma ReleasedByFate(events: seq<WebhookEvent>, fates: seq<Fate>)
    requires |events| == |fates| && forall j, k :: 0 <= j < k < |events| ==> events[j].id != events[k].id
    ensures forall k :: 0 <= k < |events| ==> (ReleasedIn(events, fates, events[k].id) <==> fates[k].Released?)
  {
  }

  /** Nobody writes that row during the loop over `n` events. */
  predicate Unwritten(n: nat, between: nat -> seq<Action>, id: EventId) {
    forall k :: 0 <= k < n ==> !Writes(between(k), id)
  }

  ghost predicate Quiet(between: nat -> seq<Action>) {
    forall k :: between(k) == []
  }

  predicate InBatch(events: seq<WebhookEvent>, id: EventId) {
    exists k :: 0 <= k < |events| && events[k].id == id
  }

  /** What the loop makes of a row. */
  function LoopRow(row: Row, released: bool): Row {
    if released then ToPending(row) else row
  }

  /** The row of a claimed event afterwards; a release keeps the counted attempt. */
  function PolledRow(row: Row, instance: InstanceId, now: Time, fate: Fate): Row {
    var marked := MarkProcessing(row, instance, now);
    if fate.Released? then ToPending(marked) else marked
  }

  /** What the loop over these events makes of the table: a row that nobody else writes meanwhile is
      released if it has that fate, and is left alone otherwise. */
  ghost predicate RowsAfter(before: map<EventId, Row>, after: map<EventId, Row>, between: nat -> seq<Action>,
                            events: seq<WebhookEvent>, fates: seq<Fate>)
  {
    && after.Keys == before.Keys
    && forall id :: id in before && Unwritten(|events|, between, id) ==>
         after[id] == LoopRow(before[id], ReleasedIn(events, fates, id))
  }

  /** A claim followed by the loop. */
  lemma PolledRows(found: map<EventId, Row>, marked: map<EventId, Row>, after: map<EventId, Row>,
                   events: seq<WebhookEvent>, between: nat -> seq<Action>, fates: seq<Fate>,
                   instance: InstanceId, now: Time)
    requires |events| == |fates| && marked.Keys == found.Keys
    requires forall j, k :: 0 <= j < k < |events| ==> events[j].id != events[k].id
    requires forall k :: 0 <= k < |events| ==>
               && events[k].id in found
               && IsClaim(events[k].id, found[events[k].id], marked[events[k].id], instance, now, events[k])
    requires RowsAfter(marked, after, between, events, fates)
    ensures forall k :: 0 <= k < |events| && Unwritten(|events|, between, events[k].id) ==>
              && after[events[k].id] == PolledRow(found[events[k].id], instance, now, fates[k])
              && after[events[k].id].attempts == events[k].attempts + 1
    ensures forall id :: id in marked && Unwritten(|events|, between, id) && !InBatch(events, id) ==>
              after[id] == marked[id]
  {
    ReleasedByFate(events, fates);
  }

  lemma OneMoreRow(start: map<EventId, Row>, before: map<EventId, Row>, after: map<EventId, Row>,
                   between: nat -> seq<Action>, events: seq<WebhookEvent>, fates: seq<Fate>,
                   event: WebhookEvent, fate: Fate)
    requires |events| == |fates| && RowsAfter(start, before, between, events, fates) && after.Keys == before.Keys
    requires forall id :: id in before && !Writes(between(|events|), id) ==>
               after[id] == LoopRow(before[id], fate.Released? && id == event.id)
    ensures RowsAfter(start, after, between, events + [event], fates + [fate])
  {
    OneMoreReleased(events, fates, event, fate);
    forall id | id in start && Unwritten(|events| + 1, between, id)
      ensures after[id] == LoopRow(start[id], ReleasedIn(events + [event], fates + [fate], id))
    {
      assert Unwritten(|events|, between, id) && !Writes(between(|events|), id);
    }
  }

  /** What a loop over a batch changes: the table, the own events in the queue, and its length. */
  datatype Snapshot = Snapshot(rows: map<EventId, Row>, own: seq<WebhookEvent>, queued: nat)

  /** An event is abandoned from the stop signal on, or when its release fails. Undisturbed, the first
      events that fit are the ones enqueued. */
  ghost predicate FatesFollow(capacity: nat, before: nat, after: nat, between: nat -> seq<Action>, stopAt: nat,
                              released: nat -> bool, fates: seq<Fate>)
  {
    && (forall k :: stopAt <= k < |fates| ==> fates[k].Abandoned?)
    && (forall k :: 0 <= k < |fates| && fates[k].Abandoned? ==> k >= stopAt || !released(k))
    && (Quiet(between) && |fates| <= stopAt ==>
          && after == Min(capacity, before + |fates|)
          && forall k :: 0 <= k < |fates| ==> (fates[k].Enqueued? <==> before + k < capacity))
  }

  lemma OneMoreFate(capacity: nat, start: nat, before: nat, after: nat, between: nat -> seq<Action>, stopAt: nat,
                    released: nat -> bool, fates: seq<Fate>, fate: Fate)
    requires start <= capacity && FatesFollow(capacity, start, before, between, stopAt, released, fates)
    requires |fates| < stopAt && (fate.Abandoned? ==> !released(|fates|))
    requires between(|fates|) == [] ==>
               (fate.Enqueued? <==> before < capacity) && after == before + One(fate.Enqueued?)
    ensures FatesFollow(capacity, start, after, between, stopAt, released, fates + [fate])
  {
  }

  /** The loop has dealt with these events, which met these fates. */
  ghost predicate Handled(capacity: nat, start: Snapshot, end: Snapshot, between: nat -> seq<Action>, stopAt: nat,
                          released: nat -> bool, events: seq<WebhookEvent>, fates: seq<Fate>)
  {
    && |events| == |fates|
    && RowsAfter(start.rows, end.rows, between, events, fates)
    && end.own == start.own + Kept(events, fates)
    && FatesFollow(capacity, start.queued, end.queued, between, stopAt, released, fates)
  }

  /** What `Offer` does with one event. */
  ghost predicate Offered(capacity: nat, start: Snapshot, end: Snapshot, before: seq<Action>, released: bool,
                          event: WebhookEvent, fate: Fate)
  {
    && end.rows.Keys == start.rows.Keys
    && (forall id :: id in start.rows && !Writes(before, id) ==>
          end.rows[id] == LoopRow(start.rows[id], fate.Released? && id == event.id))
    && end.own == start.own + (if fate.Enqueued? then [event] else [])
    && (fate.Enqueued? || end.queued == capacity)
    && (fate.Released? ==> released) && (fate.Abandoned? ==> !released)
    && (before == [] ==>
          (fate.Enqueued? <==> start.queued < capacity) && end.queued == start.queued + One(fate.Enqueued?))
  }

  lemma OneMoreHandled(capacity: nat, start: Snapshot, mid: Snapshot, end: Snapshot, between: nat -> seq<Action>,
                       stopAt: nat, released: nat -> bool, events: seq<WebhookEvent>, fates: seq<Fate>,
                       event: WebhookEvent, fate: Fate)
    requires start.queued <= capacity && Handled(capacity, start, mid, between, stopAt, released, events, fates)
    requires |events| < stopAt
    requires Offered(capacity, mid, end, between(|events|), released(|events|), event, fate)
    ensures Handled(capacity, start, end, between, stopAt, released, events + [event], fates + [fate])
  {
    OneMoreKept(events, fates, event, fate);
    OneMoreFate(capacity, start.queued, mid.queued, end.queued, between, stopAt, released, fates, fate);
    OneMoreRow(start.rows, mid.rows, end.rows, between, events, fates, event, fate);
  }

  lemma RestHandled(capacity: nat, start: Snapshot, end: Snapshot, between: nat -> seq<Action>, stopAt: nat,
                    released: nat -> bool, events: seq<WebhookEvent>, done: seq<Fate>, rest: seq<Fate>)
    requires |done| <= |events| && stopAt <= |done|
    requires Handled(capacity, start, end, between, stopAt, released, events[..|done|], done)
    requires |done| + |rest| == |events| && forall k :: 0 <= k < |rest| ==> rest[k].Abandoned?
    ensures Handled(capacity, start, end, between, stopAt, released, events, done + rest)
  {
    var n := |done|;
    RestAbandoned(events[..n], events[n..], done, rest);
    RestNotReleased(events, done, rest);
    assert events[..n] + events[n..] == events;
    assert n < |events| ==> !(|events| <= stopAt);
    if n == |events| {
      assert rest == [] && done + rest == done && events[..n] == events;
    }
    forall id | id in start.rows && Unwritten(|events|, between, id)
      ensures end.rows[id] == LoopRow(start.rows[id], ReleasedIn(events, done + rest, id))
    {
      assert Unwritten(n, between, id);
    }
  }

  class EventQueueManager {
    const repo: WebhookRepository
    const instanceID: InstanceId
    const capacity: nat
    const maxEventsPerPoll: int
    var eventQueue: seq<WebhookEvent>
    /** Everything that has entered the queue, the own part of it, and what workers have received from it. */
    ghost var entered: seq<Entry>
    ghost var own: seq<WebhookEvent>
    ghost var received: seq<WebhookEvent>

    /** The queue is within its capacity, and nothing is lost, repeated or reordered in it. */
    ghost predicate Valid()
      reads this, repo
    {
      && repo.Valid() && |eventQueue| <= capacity
      && received + eventQueue == EventsOf(entered) && own == OwnEvents(entered)
    }

    constructor (repo: WebhookRepository, instanceID: InstanceId, capacity: nat, maxEventsPerPoll: int)
      requires repo.Valid()
      ensures Valid() && eventQueue == []
      ensures this.repo == repo && this.instanceID == instanceID
      ensures this.capacity == capacity && this.maxEventsPerPoll == maxEventsPerPoll
    {
      this.repo, this.instanceID, this.capacity, this.maxEventsPerPoll := repo, instanceID, capacity, maxEventsPerPoll;
      eventQueue, entered, own, received := [], [], [], [];
    }

    /** Whether a send succeeds at once. A queue without capacity needs a waiting worker. */
    predicate Room(waiting: bool)
      reads this
    {
      |eventQueue| < capacity || (capacity == 0 && waiting)
    }

    method Send(event: WebhookEvent, mine: bool)
      requires Valid() && Room(true)
      modifies this`eventQueue, this`entered, this`own, this`received
      ensures Valid() && entered == old(entered) + [Entry(event, mine)]
      ensures own == if mine then old(own) + [event] else old(own)
      ensures eventQueue == if capacity == 0 then old(eventQueue) else old(eventQueue) + [event]
    {
      OneMoreEntry(entered, Entry(event, mine));
      entered := entered + [Entry(event, mine)];
      own := if mine then own + [event] else own;
      if capacity == 0 {
        received := received + [event];
      } else {
        eventQueue := eventQueue + [event];
      }
    }

    /** What others do to the queue and the table, one action after the other. */
    method Elapse(actions: seq<Action>)
      requires Valid()
      modifies this`eventQueue, this`entered, this`own, this`received, repo`rows
      ensures Valid() && repo.rows.Keys == old(repo.rows).Keys
      ensures forall id :: id in repo.rows && !Writes(actions, id) ==> repo.rows[id] == old(repo.rows)[id]
      ensures old(entered) <= entered && own == old(own)
      ensures actions == [] ==> eventQueue == old(eventQueue) && entered == old(entered)
    {
      for k := 0 to |actions|
        invariant Valid() && repo.rows.Keys == old(repo.rows).Keys
        invariant forall id :: id in repo.rows && !Writes(actions, id) ==> repo.rows[id] == old(repo.rows)[id]
        invariant old(entered) <= entered && own == old(own)
        invariant actions == [] ==> eventQueue == old(eventQueue) && entered == old(entered)
      {
        match actions[k]
        case Take =>
          if eventQueue != [] {
            received, eventQueue := received + [eventQueue[0]], eventQueue[1..];
          }
        case Put(event) =>
          if |eventQueue| < capacity {
            Send(event, false);
          }
        case Write(id, row) =>
          assert Writes(actions, id);
          if id in repo.rows {
            repo.rows := repo.rows[id := row];
          }
      }
    }

    /** The backup poll. `before` happens between the look at the queue and the claim, `between(k)` before
        the loop reaches event `k`. `committed` tells whether the transaction came through, `stopAt` from
        which event on the stop signal is seen, and `released(k)` whether a release works. `found` is the
        table that the query meets. */
    method PollEvents(now: Time, locked: set<EventId>, committed: bool, before: seq<Action>,
                      between: nat -> seq<Action>, stopAt: nat, released: nat -> bool)
        returns (events: seq<WebhookEvent>, fates: seq<Fate>, ghost found: map<EventId, Row>)
      requires Valid()
      modifies this`eventQueue, this`entered, this`own, this`received, repo`rows
      ensures Valid() && |fates| == |events| && repo.rows.Keys == old(repo.rows).Keys == found.Keys
      ensures 4 * (|old(eventQueue)| + 1) > 3 * capacity ==> unchanged(this) && unchanged(repo)
      ensures 4 * (|old(eventQueue)| + 1) > 3 * capacity || !committed ==> events == []
      ensures 4 * (|old(eventQueue)| + 1) <= 3 * capacity && committed ==>
                FairSelection.IsBatch(ReadySet(found, now), maxEventsPerPoll, locked, Items(events))
      ensures forall id :: id in found && !Writes(before, id) ==> found[id] == old(repo.rows)[id]
      ensures forall j, k :: 0 <= j < k < |events| ==> events[j].id != events[k].id
      ensures forall k :: 0 <= k < |events| ==>
                events[k].id in found && events[k] == Scan(events[k].id, found[events[k].id])
      ensures forall k :: 0 <= k < |events| && Unwritten(|events|, between, events[k].id) ==>
                && repo.rows[events[k].id] == PolledRow(found[events[k].id], instanceID, now, fates[k])
                && repo.rows[events[k].id].attempts == events[k].attempts + 1
      ensures forall id :: id in repo.rows && Unwritten(|events|, between, id) && !InBatch(events, id) ==>
                repo.rows[id] == found[id]
      ensures old(entered) <= entered && own == old(own) + Kept(events, fates)
      ensures forall k :: 0 <= k < |events| && fates[k].Abandoned? ==> k >= stopAt || !released(k)
      ensures before == [] && Quiet(between) && stopAt >= |events| ==>
                forall k :: 0 <= k < |events| ==> (fates[k].Enqueued? <==> |old(eventQueue)| + k < capacity)
    {
      events, fates, found := [], [], repo.rows;
      if |eventQueue| >= capacity * 3 / 4 {
        return;
      }
      Elapse(before);
      found := repo.rows;
      if !committed {
        return;
      }
      events := repo.GetAndMarkEventsForProcessing(maxEventsPerPoll, instanceID, now, locked);
      ghost var marked := repo.rows;
      fates := EnqueueOrRelease(events, between, stopAt, released);
      PolledRows(found, marked, repo.rows, events, between, fates, instanceID, now);
    }

    ghost function Snap(): Snapshot
      reads this, repo
    {
      Snapshot(repo.rows, own, |eventQueue|)
    }

    /** The loop over a claimed batch: enqueue each event, or release it when the queue is full. */
    method EnqueueOrRelease(events: seq<WebhookEvent>, between: nat -> seq<Action>, stopAt: nat, released: nat -> bool)
        returns (fates: seq<Fate>)
      requires Valid()
      modifies this`eventQueue, this`entered, this`own, this`received, repo`rows
      ensures Valid() && old(entered) <= entered
      ensures Handled(capacity, old(Snap()), Snap(), between, stopAt, released, events, fates)
    {
      fates := [];
      for k := 0 to |events|
        invariant Valid() && old(entered) <= entered && |fates| == k <= stopAt
        invariant Handled(capacity, old(Snap()), Snap(), between, stopAt, released, events[..k], fates)
      {
        if stopAt <= k {
          var rest := seq(|events| - k, _ => Abandoned);
          RestHandled(capacity, old(Snap()), Snap(), between, stopAt, released, events, fates, rest);
          fates := fates + rest;
          return;
        }
        fates := OfferNext(events, k, fates, between, stopAt, released, old(Snap()));
      }
      assert events[..|events|] == events;
    }

    method OfferNext(events: seq<WebhookEvent>, k: nat, fates: seq<Fate>, between: nat -> seq<Action>, stopAt: nat,
                     released: nat -> bool, ghost start: Snapshot)
        returns (next: seq<Fate>)
      requires Valid() && k < |events| && |fates| == k < stopAt && start.queued <= capacity
      requires Handled(capacity, start, Snap(), between, stopAt, released, events[..k], fates)
      modifies this`eventQueue, this`entered, this`own, this`received, repo`rows
      ensures Valid() && old(entered) <= entered && |next| == k + 1
      ensures Handled(capacity, start, Snap(), between, stopAt, released, events[..k + 1], next)
    {
      var fate := Offer(events[k], between(k), released(k));
      OneMoreHandled(capacity, start, old(Snap()), Snap(), between, stopAt, released,
                     events[..k], fates, events[k], fate);
      assert events[..k + 1] == events[..k] + [events[k]];
      next := fates + [fate];
    }

    /** One event of the batch: a full queue is not waited for. */
    method Offer(event: WebhookEvent, before: seq<Action>, released: bool) returns (fate: Fate)
      requires Valid()
      modifies this`eventQueue, this`entered, this`own, this`received, repo`rows
      ensures Valid() && old(entered) <= entered
      ensures Offered(capacity, old(Snap()), Snap(), before, released, event, fate)
    {
      Elapse(before);
      if |eventQueue| < capacity {
        Send(event, true);
        return Enqueued;
      }
      if released {
        repo.ReleaseEvent(event.id);
        return Released;
      }
      return Abandoned;
    }

    /** A notification: claim the row, then enqueue the copy or, when no room comes up for half a second,
        release the row. `meanwhile` happens in that time, `committed` tells whether the transaction of
        the claim came through, `waiting` whether a worker waits at a queue without capacity, and
        `released` whether a release works. */
    method HandleNotification(payload: Option<EventId>, now: Time, locked: set<EventId>, committed: bool,
                              waiting: bool, meanwhile: seq<Action>, released: bool)
        returns (result: NotificationResult)
      requires Valid()
      modifies this`eventQueue, this`entered, this`own, this`received, repo`rows
      ensures Valid() && repo.rows.Keys == old(repo.rows).Keys
      ensures result.Unreadable? <==> payload.None?
      ensures result.ClaimFailed? <==> payload.Some? && !committed
      ensures result.NotClaimed? <==>
                && payload.Some? && committed
                && !(payload.value in old(repo.rows) && old(repo.rows)[payload.value].status.Pending?
                     && payload.value !in locked)
      ensures result.Unreadable? || result.ClaimFailed? || result.NotClaimed? ==> unchanged(this) && unchanged(repo)
      ensures result.Accepted? || result.QueueFull? ==>
                var fate := if result.Accepted? then Enqueued else if released then Released else Abandoned;
                forall id :: id in repo.rows && !Writes(meanwhile, id) ==>
                  repo.rows[id] == if id == payload.value then PolledRow(old(repo.rows)[id], instanceID, now, fate)
                                   else old(repo.rows)[id]
      ensures old(entered) <= entered
      ensures own == old(own) +
              if result.Accepted? then
                [Scan(payload.value, old(repo.rows)[payload.value]).(processingInstance := Some(instanceID))]
              else []
      ensures |old(eventQueue)| < capacity || (capacity == 0 && waiting) ==> !result.QueueFull?
      ensures result.QueueFull? ==> |eventQueue| == capacity && (capacity == 0 ==> !waiting)
      ensures result.Accepted? && !Writes(meanwhile, payload.value) ==>
                repo.rows[payload.value].attempts == own[|own| - 1].attempts + 1
    {
      if payload.None? {
        return Unreadable;
      }
      if !committed {
        return ClaimFailed;
      }
      var event := repo.GetAndMarkEventByID(payload.value, instanceID, now, locked);
      if event.None? {
        return NotClaimed;
      }
      var room := Room(waiting);
      if !room {
        Elapse(meanwhile);
        room := Room(waiting);
      }
      if room {
        Send(event.value, true);
        return Accepted;
      }
      if released {
        repo.ReleaseEvent(event.value.id);
      }
      return QueueFull;
    }

    /** The sweep: every row that has been processing for more than three minutes is pending again. */
    method CleanupStalledEvents(now: Time) returns (count: nat)
      requires Valid()
      modifies repo`rows
      ensures Valid() && repo.rows.Keys == old(repo.rows).Keys
      ensures forall id :: id in repo.rows ==>
                var row := old(repo.rows)[id];
                repo.rows[id] == if row.status.Processing? && row.startedAt.Some?
                                    && now - row.startedAt.value > 3 * 60 * 1_000_000_000
                                 then row.(status := Pending, instance := None, startedAt := None)
                                 else row
    {
      count := repo.UpdateStalledEventsToPending(STALL_TIMEOUT, now);
    }

    method ScheduleRetry(id: EventId, delay: Duration, works: bool, now: Time) returns (ok: bool)
      requires Valid()
      modifies repo`rows
      ensures Valid() && ok == (works && id in old(repo.rows))
      ensures repo.rows == if ok then old(repo.rows)[id := SetRetry(old(repo.rows)[id], now, delay)] else old(repo.rows)
    {
      if !works {
        return false;
      }
      ok := repo.UpdateRetrySchedule(id, delay, now);
    }
  }

  // ----- Processing one event

  /** What happens outside while one event is processed. A write that is not stored has failed; nobody
      looks at the error of a write of the status or of the attempts. */
  datatype Outside = Outside(
    address: ConfigCache.Lookup<string>,
    success: bool,
    statusStored: bool,
    attemptsStored: bool,
    retryStored: bool,
    duration: Duration,
    draw: real,
    wild: int)

  /** A copy whose terminal status is not stored is lost. */
  function LastOp(k: nat, o: Outside): Op {
    if o.statusStored then Settle(k) else Lose({k})
  }

  /** The protocol steps that processing a picked copy takes, in order. */
  function Workflow(cfg: Config, k: nat, count: nat, o: Outside): seq<Op> {
    if !o.address.Answer? then [MissConfig(k), LastOp(k, o)]
    else if o.success || count >= cfg.maxRetries then [Deliver(k, o.success), LastOp(k, o)]
    else if o.retryStored then [Deliver(k, false), Bump(k, o.attemptsStored), Reschedule(k, o.draw, o.wild)]
    else [Deliver(k, false), Bump(k, o.attemptsStored), FailReschedule(k), LastOp(k, o)]
  }

  /** The steps, taken one after the other, lead from `ev` to `after`. */
  ghost predicate Performs(cfg: Config, now: Time, ev: Event, ops: seq<Op>, after: Event)
    decreases |ops|
  {
    if ops == [] then ev == after
    else Enabled(now, ev, ops[0]) && Performs(cfg, now, Apply(cfg, now, ev, ops[0]), ops[1..], after)
  }

  function WithStatus(row: Row, status: Status, o: Outside): Row {
    if o.statusStored then row.(status := status) else row
  }

  function RetriedRow(cfg: Config, now: Time, row: Row, count: nat, o: Outside): Row
    requires count >= 1
  {
    var counted := if o.attemptsStored then SetAttempts(row, count, now) else row;
    if o.retryStored then SetRetry(counted, now, RetryDelay(cfg, count, o.draw, o.wild))
    else WithStatus(counted, Failed, o)
  }

  /** The row that the writes of `processEvent` leave behind. */
  function ProcessedRow(cfg: Config, now: Time, row: Row, count: nat, o: Outside): Row
    requires count >= 1
  {
    if !o.address.Answer? then WithStatus(row, Failed, o)
    else if o.success then WithStatus(row, Succeeded, o)
    else if count >= cfg.maxRetries then WithStatus(row, Failed, o)
    else RetriedRow(cfg, now, row, count, o)
  }

  lemma PerformFirst(cfg: Config, now: Time, ev: Event, op: Op, rest: seq<Op>, after: Event)
    requires Enabled(now, ev, op) && Performs(cfg, now, Apply(cfg, now, ev, op), rest, after)
    ensures Performs(cfg, now, ev, [op] + rest, after)
  {
  }

  /** The protocol steps that claim an event for copy `k` and then do with it what its fate says. */
  function ClaimOps(k: nat, instance: InstanceId, via: Via, fate: Fate): seq<Op> {
    [Claim(instance, via)]
    + match fate
      case Enqueued => [Enqueue(k)]
      case Released => [Release(k)]
      case Abandoned => [Lose({k})]
  }

  /** What a poll or a notification does to a row is what these steps do to it, and a copy is left in
      the queue exactly for an enqueued event. */
  lemma PerformClaim(cfg: Config, now: Time, ev: Event, instance: InstanceId, via: Via, fate: Fate)
      returns (after: Event)
    requires Sane(ev) && ev.row.status.Pending?
    ensures forall id :: Scan(id, ev.row).attempts == ev.row.attempts
    ensures var k := ev.log.claims;
            && Performs(cfg, now, ev, ClaimOps(k, instance, via, fate), after)
            && after.row == PolledRow(ev.row, instance, now, fate)
            && after.copies == if fate.Enqueued? then ev.copies[k := Copy(instance, ev.row.attempts, now, Queued)]
                               else ev.copies
  {
    var k := ev.log.claims;
    var ops := ClaimOps(k, instance, via, fate);
    var claimed := Apply(cfg, now, ev, ops[0]);
    after := Apply(cfg, now, claimed, ops[1]);
    assert k !in ev.copies;
    PerformFirst(cfg, now, claimed, ops[1], [], after);
    PerformFirst(cfg, now, ev, ops[0], [ops[1]], after);
    assert ops == [ops[0]] + [ops[1]];
  }

  /** The writes of `processEvent` are those that the protocol's steps make for the copy being processed. */
  lemma PerformWorkflow(cfg: Config, now: Time, ev: Event, k: nat, o: Outside) returns (after: Event)
    requires k in ev.copies && ev.copies[k].phase.Picked? && Backoff.IsDraw(o.draw)
    ensures var count := ev.copies[k].AttemptCount();
            && Performs(cfg, now, ev, Workflow(cfg, k, count, o), after)
            && after.row == ProcessedRow(cfg, now, ev.row, count, o) && after.copies.Keys == ev.copies.Keys - {k}
  {
    var ops := Workflow(cfg, k, ev.copies[k].AttemptCount(), o);
    var first := Apply(cfg, now, ev, ops[0]);
    var second := Apply(cfg, now, first, ops[1]);
    if |ops| == 2 {
      after := second;
      PerformFirst(cfg, now, first, ops[1], [], after);
      assert ops == [ops[0]] + ([ops[1]] + []);
    } else {
      after := PerformAfterBump(cfg, now, second, k, o, ops[2..]);
      PerformFirst(cfg, now, first, ops[1], ops[2..], after);
      assert ops == [ops[0]] + ([ops[1]] + ops[2..]);
    }
    PerformFirst(cfg, now, ev, ops[0], ops[1..], after);
  }

  lemma PerformAfterBump(cfg: Config, now: Time, ev: Event, k: nat, o: Outside, ops: seq<Op>) returns (after: Event)
    requires k in ev.copies && ev.copies[k].phase.Scheduling? && Backoff.IsDraw(o.draw)
    requires ops == if o.retryStored then [Reschedule(k, o.draw, o.wild)] else [FailReschedule(k), LastOp(k, o)]
    ensures Performs(cfg, now, ev, ops, after) && after.copies.Keys == ev.copies.Keys - {k}
    ensures after.row ==
            if o.retryStored then SetRetry(ev.row, now, RetryDelay(cfg, ev.copies[k].AttemptCount(), o.draw, o.wild))
            else WithStatus(ev.row, Failed, o)
  {
    var first := Apply(cfg, now, ev, ops[0]);
    if o.retryStored {
      after := first;
      assert ops == [ops[0]] + [];
    } else {
      after := Apply(cfg, now, first, ops[1]);
      PerformFirst(cfg, now, first, ops[1], [], after);
      assert ops == [ops[0]] + ([ops[1]] + []);
    }
    PerformFirst(cfg, now, ev, ops[0], ops[1..], after);
  }

  class WebhookService {
    const cfg: Config
    const manager: EventQueueManager
    const pool: WorkerPools.WorkerPool

    constructor (cfg: Config, manager: EventQueueManager, pool: WorkerPools.WorkerPool)
      ensures this.cfg == cfg && this.manager == manager && this.pool == pool
    {
      this.cfg, this.manager, this.pool := cfg, manager, pool;
    }

    /** Writes a terminal status, unless the write fails. */
    method WriteStatus(id: EventId, status: Status, o: Outside)
      requires manager.Valid()
      modifies manager.repo`rows
      ensures manager.Valid()
      ensures var rows := old(manager.repo.rows);
              manager.repo.rows == if id in rows then rows[id := WithStatus(rows[id], status, o)] else rows
    {
      if o.statusStored {
        manager.repo.UpdateEventStatus(id, status);
      }
    }

    /** Delivers one event and writes the outcome; counts one success or one failure, unless the event
        is to be retried. */
    method ProcessEvent(event: WebhookEvent, o: Outside, now: Time)
      requires manager.Valid() && pool.Valid() && !o.address.LockMisuse?
      modifies manager.repo`rows, pool
      ensures manager.Valid() && pool.Valid()
      ensures var rows := old(manager.repo.rows);
              manager.repo.rows == if event.id !in rows then rows
                                   else rows[event.id := ProcessedRow(cfg, now, rows[event.id], event.attempts + 1, o)]
      ensures pool.successfulDeliveries == old(pool.successfulDeliveries) + One(o.address.Answer? && o.success)
      ensures pool.processingTimeNs == old(pool.processingTimeNs) + if o.address.Answer? then o.duration else 0
      ensures var retried := && o.address.Answer? && !o.success && event.attempts + 1 < cfg.maxRetries
                             && o.retryStored && event.id in old(manager.repo.rows);
              pool.totalProcessed == old(pool.totalProcessed) + if retried then 0 else 1
    {
      if !o.address.Answer? {
        WriteStatus(event.id, Failed, o);
        pool.RecordFailure();
        return;
      }
      var attemptCount := event.attempts + 1;
      pool.RecordProcessingTime(o.duration);
      if o.success {
        WriteStatus(event.id, Succeeded, o);
        pool.RecordSuccess();
        return;
      }
      if attemptCount >= cfg.maxRetries {
        WriteStatus(event.id, Failed, o);
        pool.RecordFailure();
        return;
      }
      RetryLater(event, o, now);
    }

    /** A claim followed by the processing of its copy, when all writes work: a failure on a row with `a`
        attempts settles the event if and only if a + 1 reaches the maximum, and else plans a retry. */
    method ClaimThenProcess(id: EventId, o: Outside, now: Time)
      requires manager.Valid() && pool.Valid() && o.address.Answer?
      requires o.statusStored && o.attemptsStored && o.retryStored
      requires id in manager.repo.rows && manager.repo.rows[id].status.Pending?
      modifies manager.repo`rows, pool
      ensures manager.Valid() && pool.Valid() && id in manager.repo.rows
      ensures var before, after := old(manager.repo.rows)[id], manager.repo.rows[id];
              && after.attempts == before.attempts + 1
              && (after.status.Succeeded? <==> o.success)
              && (after.status.Failed? <==> !o.success && before.attempts + 1 >= cfg.maxRetries)
              && (after.status.Pending? <==> !o.success && before.attempts + 1 < cfg.maxRetries)
              && (after.status.Pending? ==>
                    && after.instance.None? && after.startedAt.None? && after.lastAttemptAt == Some(now)
                    && after.nextAttemptAt == Some(now + RetryDelay(cfg, before.attempts + 1, o.draw, o.wild)))
    {
      var event := manager.repo.GetAndMarkEventByID(id, manager.instanceID, now, {});
      ProcessEvent(event.value, o, now);
    }

    /** The rest of `processEvent` after a failure that is to be retried. */
    method RetryLater(event: WebhookEvent, o: Outside, now: Time)
      requires manager.Valid() && pool.Valid()
      modifies manager.repo`rows, pool`failedDeliveries, pool`totalProcessed
      ensures manager.Valid() && pool.Valid()
      ensures var rows, count := old(manager.repo.rows), event.attempts + 1;
              manager.repo.rows == if event.id !in rows then rows
                                   else rows[event.id := RetriedRow(cfg, now, rows[event.id], count, o)]
      ensures var scheduled := o.retryStored && event.id in old(manager.repo.rows);
              pool.totalProcessed == old(pool.totalProcessed) + One(!scheduled)
    {
      var attemptCount := event.attempts + 1;
      var delay := RetryDelay(cfg, attemptCount, o.draw, o.wild);
      if o.attemptsStored {
        manager.repo.UpdateEventAttempts(event.id, attemptCount, now);
      }
      var scheduled := manager.ScheduleRetry(event.id, delay, o.retryStored, now);
      if !scheduled {
        WriteStatus(event.id, Failed, o);
        pool.RecordFailure();
      }
    }
  }
}
