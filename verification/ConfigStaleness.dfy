/** How old a served configuration can be. Many goroutines fetch from the database and store what they
    fetched in two separate steps, interleaved with changes, invalidations and lookups. */
module ConfigStaleness {
  import opened Types
  import opened ConfigCache

  /** The contents of `webhook_configs` from some moment on. */
  datatype Version = Version(since: Time, configs: map<WebhookId, WebhookConfig>)

  datatype InFlight = InFlight(id: WebhookId, config: WebhookConfig, at: Time)

  /** A cache entry; `fetchedAt` remembers when its value was read, the code does not store it. */
  datatype Entry = Entry(config: WebhookConfig, expiry: Time, fetchedAt: Time)

  datatype State = State(
    clock: Time,
    history: seq<Version>,
    entries: map<WebhookId, Entry>,
    inFlight: map<nat, InFlight>)

  /** `ttl` is the life of an entry, `delta` bounds the time between a fetch and its store. */
  datatype Limits = Limits(ttl: Duration, delta: Duration)

  datatype Step =
    | Tick(time: nat)
    | Change(configs: map<WebhookId, WebhookConfig>)
    | Fetch(token: nat, id: WebhookId)
    | Store(token: nat)
    | Invalidate(id: WebhookId)

  predicate CanStep(limits: Limits, s: State, step: Step) {
    match step
    case Fetch(token, id) =>
      token !in s.inFlight && s.history != [] && id in s.history[|s.history| - 1].configs
    case Store(token) => token in s.inFlight && s.clock - s.inFlight[token].at <= limits.delta
    case _ => true
  }

  function Next(limits: Limits, s: State, step: Step): State
    requires CanStep(limits, s, step)
  {
    match step
    case Tick(time) => s.(clock := s.clock + time)
    case Change(configs) => s.(history := s.history + [Version(s.clock, configs)])
    case Fetch(token, id) =>
      s.(inFlight := s.inFlight[token := InFlight(id, s.history[|s.history| - 1].configs[id], s.clock)])
    case Store(token) =>
      var f := s.inFlight[token];
      s.(entries := s.entries[f.id := Entry(f.config, s.clock + limits.ttl, f.at)], inFlight := s.inFlight - {token})
    case Invalidate(id) => s.(entries := s.entries - {id})
  }

  datatype Run = Run(states: seq<State>, steps: seq<Step>)

  /** Step `j` leads from state `j` to state `j + 1`. */
  predicate IsRun(limits: Limits, r: Run) {
    && |r.states| == |r.steps| + 1
    && forall j :: 0 <= j < |r.steps| ==> MovesAt(limits, r, j)
  }

  predicate MovesAt(limits: Limits, r: Run, j: nat)
    requires j < |r.steps| && |r.states| == |r.steps| + 1
  {
    CanStep(limits, r.states[j], r.steps[j]) && r.states[j + 1] == Next(limits, r.states[j], r.steps[j])
  }

  predicate IsStart(s: State) {
    |s.history| == 1 && s.history[0].since <= s.clock && s.entries == map[] && s.inFlight == map[]
  }

  /** A lookup is answered from the cache, with this configuration. */
  predicate Serves(s: State, id: WebhookId, config: WebhookConfig) {
    id in s.entries && s.clock < s.entries[id].expiry && s.entries[id].config == config
  }

  predicate VersionHeld(h: seq<Version>, v: nat, id: WebhookId, config: WebhookConfig, t: Time)
    requires v < |h|
  {
    && h[v].since <= t && (v + 1 < |h| ==> t <= h[v + 1].since)
    && id in h[v].configs && h[v].configs[id] == config
  }

  /** At time `t` the database held this configuration. */
  ghost predicate Held(h: seq<Version>, id: WebhookId, config: WebhookConfig, t: Time) {
    exists v: nat :: v < |h| && VersionHeld(h, v, id, config, t)
  }

  ghost predicate Inv(limits: Limits, s: State) {
    && s.history != [] && s.history[|s.history| - 1].since <= s.clock
    && (forall k :: k in s.inFlight ==>
          s.inFlight[k].at <= s.clock && Held(s.history, s.inFlight[k].id, s.inFlight[k].config, s.inFlight[k].at))
    && (forall id :: id in s.entries ==>
          var e := s.entries[id];
          e.fetchedAt <= s.clock && e.expiry <= e.fetchedAt + limits.delta + limits.ttl
          && Held(s.history, id, e.config, e.fetchedAt))
  }

  lemma HeldLater(h: seq<Version>, next: Version, id: WebhookId, config: WebhookConfig, t: Time)
    requires Held(h, id, config, t) && t <= next.since
    ensures Held(h + [next], id, config, t)
  {
    var v: nat :| v < |h| && VersionHeld(h, v, id, config, t);
    assert VersionHeld(h + [next], v, id, config, t);
  }

  lemma StepInv(limits: Limits, s: State, step: Step)
    requires Inv(limits, s) && CanStep(limits, s, step)
    ensures Inv(limits, Next(limits, s, step))
  {
    match step
    case Change(configs) =>
      var next := Version(s.clock, configs);
      forall k | k in s.inFlight
        ensures Held(s.history + [next], s.inFlight[k].id, s.inFlight[k].config, s.inFlight[k].at)
      {
        HeldLater(s.history, next, s.inFlight[k].id, s.inFlight[k].config, s.inFlight[k].at);
      }
      forall id | id in s.entries ensures Held(s.history + [next], id, s.entries[id].config, s.entries[id].fetchedAt) {
        HeldLater(s.history, next, id, s.entries[id].config, s.entries[id].fetchedAt);
      }
    case Fetch(token, id) =>
      var v := |s.history| - 1;
      assert VersionHeld(s.history, v, id, s.history[v].configs[id], s.clock);
    case _ =>
  }

  lemma {:induction false} RunInv(limits: Limits, r: Run, j: nat)
    requires IsRun(limits, r) && IsStart(r.states[0]) && j < |r.states|
    ensures Inv(limits, r.states[j])
  {
    if j > 0 {
      RunInv(limits, r, j - 1);
      assert MovesAt(limits, r, j - 1);
      StepInv(limits, r.states[j - 1], r.steps[j - 1]);
    }
  }

  /** Whatever is interleaved, a configuration served at time t was the database's at some time after
      t - ttl - delta. */
  lemma BoundedStaleness(limits: Limits, r: Run, j: nat, id: WebhookId, config: WebhookConfig)
    requires IsRun(limits, r) && IsStart(r.states[0]) && j < |r.states| && Serves(r.states[j], id, config)
    ensures var s := r.states[j];
            exists t :: s.clock - limits.ttl - limits.delta < t <= s.clock && Held(s.history, id, config, t)
  {
    RunInv(limits, r, j);
  }

  // ----- After an invalidation

  /** Everything the cache may yet serve for `id` was read at `t` or later; an older fetch can no longer
      be stored. */
  ghost predicate OnlySince(limits: Limits, s: State, id: WebhookId, t: Time) {
    && t <= s.clock
    && (id in s.entries ==> s.entries[id].fetchedAt >= t)
    && (forall k :: k in s.inFlight && s.inFlight[k].id == id ==>
          s.inFlight[k].at >= t || s.clock - s.inFlight[k].at > limits.delta)
  }

  lemma {:induction false} OnlySinceLasts(limits: Limits, r: Run, i: nat, j: nat, id: WebhookId, t: Time)
    requires IsRun(limits, r) && i <= j < |r.states| && OnlySince(limits, r.states[i], id, t)
    ensures OnlySince(limits, r.states[j], id, t)
  {
    if i < j {
      OnlySinceLasts(limits, r, i, j - 1, id, t);
      assert MovesAt(limits, r, j - 1);
    }
  }

  /** A fetch of `id` from before this moment can still be stored. */
  predicate Straddles(limits: Limits, s: State, id: WebhookId, k: nat) {
    k in s.inFlight && s.inFlight[k].id == id && s.inFlight[k].at < s.clock <= s.inFlight[k].at + limits.delta
  }

  /** After an invalidation that no fetch of the same webhook straddles, only values are served that
      the database held at the invalidation or later. */
  lemma InvalidationTakesEffect(limits: Limits, r: Run, i: nat, j: nat, id: WebhookId, config: WebhookConfig)
    requires IsRun(limits, r) && IsStart(r.states[0]) && i < j < |r.states| && r.steps[i] == Invalidate(id)
    requires forall k :: !Straddles(limits, r.states[i], id, k)
    requires Serves(r.states[j], id, config)
    ensures exists t :: r.states[i].clock <= t <= r.states[j].clock && Held(r.states[j].history, id, config, t)
  {
    RunInv(limits, r, i);
    RunInv(limits, r, j);
    assert MovesAt(limits, r, i);
    OnlySinceAfterInvalidation(limits, r.states[i], id);
    OnlySinceLasts(limits, r, i + 1, j, id, r.states[i].clock);
  }

  lemma OnlySinceAfterInvalidation(limits: Limits, s: State, id: WebhookId)
    requires Inv(limits, s) && forall k :: !Straddles(limits, s, id, k)
    ensures OnlySince(limits, Next(limits, s, Invalidate(id)), id, s.clock)
  {
    forall k | k in s.inFlight && s.inFlight[k].id == id
      ensures s.inFlight[k].at >= s.clock || s.clock - s.inFlight[k].at > limits.delta
    {
      assert !Straddles(limits, s, id, k);
    }
  }

  /** Some continuation of `s` serves a value of `id` that was fetched before `t`. */
  ghost predicate MayServeOlder(limits: Limits, s: State, id: WebhookId, t: Time) {
    exists r: Run :: IsRun(limits, r) && r.states[0] == s && ServesOlder(r.states[|r.steps|], id, t)
  }

  predicate ServesOlder(s: State, id: WebhookId, t: Time) {
    id in s.entries && s.clock < s.entries[id].expiry && s.entries[id].fetchedAt < t
  }

  /** An invalidation takes effect, whatever follows, exactly when no fetch of the webhook straddles it. */
  lemma InvalidationTakesEffectExactly(limits: Limits, s: State, id: WebhookId)
    requires Inv(limits, s) && limits.ttl >= 1
    ensures !MayServeOlder(limits, Next(limits, s, Invalidate(id)), id, s.clock)
            <==> forall k :: !Straddles(limits, s, id, k)
  {
    var s' := Next(limits, s, Invalidate(id));
    if k :| Straddles(limits, s, id, k) {
      var t := Next(limits, s', Store(k));
      var r := Run([s', t], [Store(k)]);
      assert MovesAt(limits, r, 0);
      assert ServesOlder(r.states[|r.steps|], id, s.clock);
    } else {
      OnlySinceAfterInvalidation(limits, s, id);
      forall r: Run | IsRun(limits, r) && r.states[0] == s' ensures !ServesOlder(r.states[|r.steps|], id, s.clock) {
        OnlySinceLasts(limits, r, 0, |r.steps|, id, s.clock);
      }
    }
  }

  /** A fetch that straddles the invalidation brings the old value back: `before` is replaced by `after`,
      step `i` invalidates the entry because of that, and yet `before` is served again later. */
  lemma StraddlingFetchRevivesOldValue(limits: Limits, before: WebhookConfig, after: WebhookConfig)
      returns (r: Run, s: State, i: nat)
    requires before != after && limits.ttl >= 1 && limits.delta >= 2
    ensures IsRun(limits, r) && IsStart(r.states[0]) && r.states[|r.steps|] == s
    ensures i < |r.steps| && r.steps[i] == Invalidate(0) && Straddles(limits, r.states[i], 0, 0)
    ensures r.states[i].clock < s.clock && Serves(s, 0, before)
    ensures forall t :: r.states[i].clock < t <= s.clock ==> !Held(s.history, 0, before, t)
  {
    var s0 := State(0, [Version(0, map[0 := before])], map[], map[]);
    var s1 := Next(limits, s0, Fetch(0, 0));
    var s2 := Next(limits, s1, Tick(1));
    var s3 := Next(limits, s2, Change(map[0 := after]));
    var s4 := Next(limits, s3, Invalidate(0));
    var s5 := Next(limits, s4, Tick(1));
    s := Next(limits, s5, Store(0));
    r := Run([s0, s1, s2, s3, s4, s5, s],
             [Fetch(0, 0), Tick(1), Change(map[0 := after]), Invalidate(0), Tick(1), Store(0)]);
    i := 3;
    assert s.history == [Version(0, map[0 := before]), Version(1, map[0 := after])];
  }

  // ----- A cache that nobody invalidates

  predicate NeverInvalidated(r: Run) {
    forall j :: 0 <= j < |r.steps| ==> !r.steps[j].Invalidate?
  }

  /** A value is served that the database has not held for the last `d`. */
  ghost predicate ServesUnheld(s: State, id: WebhookId, config: WebhookConfig, d: Duration) {
    Serves(s, id, config) && forall t :: s.clock - d < t <= s.clock ==> !Held(s.history, id, config, t)
  }

  ghost predicate EndsUnheld(limits: Limits, r: Run, id: WebhookId, config: WebhookConfig, d: Duration) {
    IsRun(limits, r) && IsStart(r.states[0]) && NeverInvalidated(r) && ServesUnheld(r.states[|r.steps|], id, config, d)
  }

  /** An address is fetched, replaced at once, and served for as long as possible. */
  lemma OldValueFor(limits: Limits, before: WebhookConfig, after: WebhookConfig, d: Duration) returns (r: Run)
    requires before != after && limits.ttl >= 1 && limits.delta >= 0 && 0 <= d < limits.ttl + limits.delta
    ensures EndsUnheld(limits, r, 0, before, d)
  {
    var wait := Min(d, limits.delta);
    var s0 := State(0, [Version(0, map[0 := before])], map[], map[]);
    var s1 := Next(limits, s0, Fetch(0, 0));
    var s2 := Next(limits, s1, Change(map[0 := after]));
    var s3 := Next(limits, s2, Tick(wait));
    var s4 := Next(limits, s3, Store(0));
    var s := Next(limits, s4, Tick(d - wait));
    r := Run([s0, s1, s2, s3, s4, s], [Fetch(0, 0), Change(map[0 := after]), Tick(wait), Store(0), Tick(d - wait)]);
    assert s.history == [Version(0, map[0 := before]), Version(0, map[0 := after])];
  }

  /** The workers' cache gets no invalidation, whatever is notified. So a delivery may use a value that
      the database has not held for a time `d` exactly when `d` is less than ttl + delta. */
  lemma OldValueExactly(limits: Limits, d: Duration)
    requires limits.ttl >= 1 && limits.delta >= 0 && d >= 0
    ensures (exists r: Run, id: WebhookId, config: WebhookConfig :: EndsUnheld(limits, r, id, config, d))
            <==> d < limits.ttl + limits.delta
  {
    if d < limits.ttl + limits.delta {
      var before, after := WebhookConfig([], "old"), WebhookConfig([], "new");
      var r := OldValueFor(limits, before, after, d);
      assert EndsUnheld(limits, r, 0, before, d);
    } else {
      forall r: Run, id: WebhookId, config: WebhookConfig ensures !EndsUnheld(limits, r, id, config, d) {
        if IsRun(limits, r) && IsStart(r.states[0]) && Serves(r.states[|r.steps|], id, config) {
          BoundedStaleness(limits, r, |r.steps|, id, config);
        }
      }
    }
  }
}
