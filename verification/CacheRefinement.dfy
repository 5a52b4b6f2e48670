/** The configuration cache as a class takes the steps of the state machine that bounds its staleness. */
module CacheRefinement {
  import opened Types
  import opened ConfigCache
  import opened ConfigStaleness

  /** The cache holds the entries of `s`. */
  ghost predicate Represents(cache: WebhookConfigCache, limits: Limits, s: State)
    reads cache
  {
    && cache.ttl == limits.ttl
    && cache.webhookConfigs.Keys == cache.expiry.Keys == s.entries.Keys
    && forall id :: id in s.entries ==>
         cache.webhookConfigs[id] == s.entries[id].config && cache.expiry[id] == s.entries[id].expiry
  }

  /** The steps lead from `s` to `t`. */
  predicate LeadsBy(limits: Limits, s: State, steps: seq<Step>, t: State)
    decreases |steps|
  {
    if steps == [] then s == t
    else CanStep(limits, s, steps[0]) && LeadsBy(limits, Next(limits, s, steps[0]), steps[1..], t)
  }

  /** What the database answers in `s`. */
  predicate Answers(s: State, id: WebhookId, fetched: Fetch) {
    && s.history != []
    && match fetched
       case DatabaseError => true
       case NoRows => id !in s.history[|s.history| - 1].configs
       case Found(config) =>
         id in s.history[|s.history| - 1].configs && s.history[|s.history| - 1].configs[id] == config
  }

  /** A fetch and, after `delay`, its store. */
  function FetchAndStore(token: nat, id: WebhookId, delay: nat): seq<Step> {
    [Fetch(token, id), Tick(delay), Store(token)]
  }

  lemma FetchAndStoreEffect(limits: Limits, s: State, token: nat, id: WebhookId, config: WebhookConfig, delay: nat)
      returns (t: State)
    requires Answers(s, id, Found(config)) && token !in s.inFlight && delay <= limits.delta
    ensures LeadsBy(limits, s, FetchAndStore(token, id, delay), t)
    ensures t.clock == s.clock + delay && t.history == s.history && t.inFlight == s.inFlight
    ensures t.entries == s.entries[id := Entry(config, s.clock + delay + limits.ttl, s.clock)]
  {
    var s1 := Next(limits, s, Fetch(token, id));
    var s2 := Next(limits, s1, Tick(delay));
    t := Next(limits, s2, Store(token));
    var steps := FetchAndStore(token, id, delay);
    assert steps[1..] == [Tick(delay), Store(token)] && steps[1..][1..] == [Store(token)];
    assert LeadsBy(limits, t, [], t);
    assert LeadsBy(limits, s2, [Store(token)], t);
    assert LeadsBy(limits, s1, [Tick(delay), Store(token)], t);
  }

  /** A lookup at `s` either serves the entry that the state machine serves, or takes the steps of a fetch
      and its store, `delay` apart, and answers from the database. */
  ghost predicate LooksUp(limits: Limits, s: State, t: State, token: nat, id: WebhookId, fetched: Fetch, delay: nat) {
    if (exists config :: Serves(s, id, config)) || !fetched.Found? then t == s
    else LeadsBy(limits, s, FetchAndStore(token, id, delay), t)
  }

  method LookupAddress(cache: WebhookConfigCache, limits: Limits, ghost s: State, ghost token: nat, id: WebhookId,
                       now: Time, fetched: Fetch, delay: nat)
      returns (r: Lookup<string>, ghost t: State)
    requires Represents(cache, limits, s) && now == s.clock && token !in s.inFlight
    requires Answers(s, id, fetched) && delay <= limits.delta
    modifies cache
    ensures Represents(cache, limits, t) && LooksUp(limits, s, t, token, id, fetched, delay)
    ensures forall config :: Serves(s, id, config) ==>
              r == if config.postURL == "" then LockMisuse else Answer(config.postURL)
    ensures (forall config :: !Serves(s, id, config)) ==>
              r == match fetched
                   case Found(config) => Answer(config.postURL)
                   case NoRows => NotFound
                   case DatabaseError => Error
  {
    r := cache.GetPostURL(id, now, fetched, now + delay);
    t := s;
    if id in s.entries && s.clock < s.entries[id].expiry {
      assert Serves(s, id, s.entries[id].config);
    } else if fetched.Found? {
      t := FetchAndStoreEffect(limits, s, token, id, fetched.config, delay);
    }
  }

  method LookupEvent(cache: WebhookConfigCache, limits: Limits, ghost s: State, ghost token: nat, id: WebhookId,
                     eventName: string, now: Time, fetched: Fetch, delay: nat)
      returns (r: Lookup<bool>, ghost t: State)
    requires Represents(cache, limits, s) && now == s.clock && token !in s.inFlight
    requires Answers(s, id, fetched) && delay <= limits.delta
    modifies cache
    ensures Represents(cache, limits, t) && LooksUp(limits, s, t, token, id, fetched, delay)
    ensures forall config :: Serves(s, id, config) ==> r == Answer(eventName in config.events)
    ensures (forall config :: !Serves(s, id, config)) ==>
              r == match fetched
                   case Found(config) => Answer(eventName in config.events)
                   case NoRows => Answer(false)
                   case DatabaseError => Error
  {
    r := cache.ValidateWebhook(id, eventName, now, fetched, now + delay);
    t := s;
    if id in s.entries && s.clock < s.entries[id].expiry {
      assert Serves(s, id, s.entries[id].config);
    } else if fetched.Found? {
      t := FetchAndStoreEffect(limits, s, token, id, fetched.config, delay);
    }
  }

  method Refresh(cache: WebhookConfigCache, limits: Limits, ghost s: State, ghost token: nat, id: WebhookId,
                 now: Time, fetched: Fetch, delay: nat)
      returns (ghost t: State)
    requires Represents(cache, limits, s) && now == s.clock && token !in s.inFlight
    requires Answers(s, id, fetched) && delay <= limits.delta
    modifies cache
    ensures Represents(cache, limits, t)
    ensures if fetched.Found? then LeadsBy(limits, s, FetchAndStore(token, id, delay), t) else t == s
  {
    var ok := cache.RefreshConfig(id, fetched, now + delay);
    t := s;
    if ok {
      t := FetchAndStoreEffect(limits, s, token, id, fetched.config, delay);
    }
  }

  /** A change notification is the step that invalidates. */
  method Notify(cache: WebhookConfigCache, limits: Limits, ghost s: State, id: WebhookId)
    requires Represents(cache, limits, s)
    modifies cache
    ensures Represents(cache, limits, Next(limits, s, Invalidate(id)))
  {
    cache.HandleNotification(Some(id));
  }
}
