/** The in-memory copy of webhook configurations. What the database answers and what the clock shows
    are arguments of the operations. */
module ConfigCache {
  import opened Types
  import EventsEncoding

  /** A row of `webhook_configs`, and what a fetch makes of it. */
  datatype WebhookConfig = WebhookConfig(events: seq<string>, postURL: string)

  datatype Fetch = Found(config: WebhookConfig) | NoRows | DatabaseError

  datatype Lookup<T> = Answer(value: T) | NotFound | Error | LockMisuse

  function GetWebhookByID(row: Option<WebhookConfig>): Fetch {
    match row
    case None => NoRows
    case Some(stored) =>
      Found(WebhookConfig(EventsEncoding.Decode(EventsEncoding.Join(stored.events)), stored.postURL))
  }

  /** The database's own check, `name = ANY(events)` on the row with that ID. */
  predicate ValidInDatabase(row: Option<WebhookConfig>, name: string) {
    row.Some? && name in row.value.events
  }

  predicate ValidByFetch(fetched: Fetch, name: string) {
    fetched.Found? && name in fetched.config.events
  }

  /** A lookup that fetches gives the database's own answer for every event name exactly when no name
      in the row has a comma and the row does not list just one empty name. */
  lemma FetchAgreesExactly(row: Option<WebhookConfig>)
    ensures (forall name: string :: ValidByFetch(GetWebhookByID(row), name) <==> ValidInDatabase(row, name))
            <==> (row.Some? ==> EventsEncoding.CommaFree(row.value.events) && row.value.events != [""])
    ensures GetWebhookByID(row).Found? <==> row.Some?
    ensures row.Some? ==> GetWebhookByID(row).config.postURL == row.value.postURL
  {
    if row.Some? {
      var names := row.value.events;
      EventsEncoding.MembershipExactly(names);
      assert forall name: string ::
          (ValidByFetch(GetWebhookByID(row), name) <==> name in EventsEncoding.Decode(EventsEncoding.Join(names)))
          && (ValidInDatabase(row, name) <==> name in names);
    }
  }

  /** The IDs whose configuration a fetch finds. */
  function Fetchable(ids: set<WebhookId>, fetches: WebhookId -> Fetch): set<WebhookId> {
    set id | id in ids && fetches(id).Found?
  }

  /** How many of the first `k` fetches find a configuration. */
  function FoundAmong(ids: seq<WebhookId>, k: nat, fetches: WebhookId -> Fetch): nat
    requires k <= |ids|
  {
    if k == 0 then 0 else FoundAmong(ids, k - 1, fetches) + One(fetches(ids[k - 1]).Found?)
  }

  lemma FetchableGrows(ids: set<WebhookId>, id: WebhookId, fetches: WebhookId -> Fetch)
    requires id !in ids
    ensures |Fetchable(ids + {id}, fetches)| == |Fetchable(ids, fetches)| + One(fetches(id).Found?)
  {
    assert Fetchable(ids + {id}, fetches) == Fetchable(ids, fetches) + if fetches(id).Found? then {id} else {};
  }

  lemma {:induction false} FoundAmongFirst(ids: seq<WebhookId>, k: nat, fetches: WebhookId -> Fetch)
    requires k <= |ids| && Distinct(ids)
    ensures FoundAmong(ids, k, fetches) == |Fetchable(Elements(ids[..k]), fetches)|
  {
    if k > 0 {
      FoundAmongFirst(ids, k - 1, fetches);
      SplitLast(ids[..k]);
      assert ids[..k][..k - 1] == ids[..k - 1];
      FetchableGrows(Elements(ids[..k - 1]), ids[k - 1], fetches);
    }
  }

  class WebhookConfigCache {
    const ttl: Duration
    var webhookConfigs: map<WebhookId, WebhookConfig>
    var expiry: map<WebhookId, Time>

    ghost predicate Valid()
      reads this
    {
      webhookConfigs.Keys == expiry.Keys
    }

    predicate Fresh(id: WebhookId, now: Time)
      reads this
    {
      id in webhookConfigs && id in expiry && now < expiry[id]
    }

    constructor (ttl: Duration)
      ensures Valid() && this.ttl == ttl && webhookConfigs == map[]
    {
      this.ttl := ttl;
      webhookConfigs, expiry := map[], map[];
    }

    method Store(id: WebhookId, config: WebhookConfig, now: Time)
      requires Valid()
      modifies this
      ensures Valid()
      ensures webhookConfigs == old(webhookConfigs)[id := config] && expiry == old(expiry)[id := now + ttl]
    {
      webhookConfigs := webhookConfigs[id := config];
      expiry := expiry[id := now + ttl];
    }

    /** Whether `names` lists the event, found by looking at each in turn. */
    static method Lists(names: seq<string>, eventName: string) returns (found: bool)
      ensures found <==> eventName in names
    {
      for k := 0 to |names|
        invariant eventName !in names[..k]
      {
        if names[k] == eventName {
          return true;
        }
      }
      return false;
    }

    /** Answers from an entry that has not expired, or else from the database, whose answer is then stored. */
    method ValidateWebhook(id: WebhookId, eventName: string, now: Time, fetched: Fetch, stored: Time)
        returns (r: Lookup<bool>)
      requires Valid()
      modifies this
      ensures Valid()
      ensures var cached := id in old(webhookConfigs) && now < old(expiry)[id];
              && (cached ==> r == Answer(eventName in old(webhookConfigs)[id].events))
              && (!cached ==> r == if fetched.DatabaseError? then Error else Answer(ValidByFetch(fetched, eventName)))
              && (cached || !fetched.Found? ==> unchanged(this))
              && (!cached && fetched.Found? ==>
                    && webhookConfigs == old(webhookConfigs)[id := fetched.config]
                    && expiry == old(expiry)[id := stored + ttl])
    {
      if Fresh(id, now) {
        var found := Lists(webhookConfigs[id].events, eventName);
        return Answer(found);
      }
      match fetched
      case NoRows => return Answer(false);
      case DatabaseError => return Error;
      case Found(config) =>
        var isAllowed := Lists(config.events, eventName);
        Store(id, config, stored);
        return Answer(isAllowed);
    }

    /** The delivery address. An entry that has not expired and has an empty address makes it give up the
        read lock twice, and that is the only input on which it happens: it stops the program when nobody
        else reads, and otherwise takes the lock of another reader away. */
    method GetPostURL(id: WebhookId, now: Time, fetched: Fetch, stored: Time) returns (r: Lookup<string>)
      requires Valid()
      modifies this
      ensures Valid()
      ensures var cached := id in old(webhookConfigs) && now < old(expiry)[id];
              && (cached ==>
                    r == if old(webhookConfigs)[id].postURL == "" then LockMisuse
                         else Answer(old(webhookConfigs)[id].postURL))
              && (!cached ==>
                    r == match fetched
                         case Found(config) => Answer(config.postURL)
                         case NoRows => NotFound
                         case DatabaseError => Error)
              && (cached || !fetched.Found? ==> unchanged(this))
              && (!cached && fetched.Found? ==>
                    && webhookConfigs == old(webhookConfigs)[id := fetched.config]
                    && expiry == old(expiry)[id := stored + ttl])
    {
      if Fresh(id, now) {
        var postURL := webhookConfigs[id].postURL;
        if postURL != "" {
          return Answer(postURL);
        }
        return LockMisuse;
      }
      match fetched
      case NoRows => return NotFound;
      case DatabaseError => return Error;
      case Found(config) =>
        Store(id, config, stored);
        return Answer(config.postURL);
    }

    /** An address that was stored at `stored` is used until its ttl is over, and fetched again after that. */
    method StoreThenLookup(id: WebhookId, config: WebhookConfig, stored: Time, now: Time, fetched: Fetch, later: Time)
        returns (r: Lookup<string>)
      requires Valid() && config.postURL != ""
      modifies this
      ensures Valid()
      ensures now < stored + ttl ==> r == Answer(config.postURL) && expiry == old(expiry)[id := stored + ttl]
      ensures now >= stored + ttl && fetched.Found? ==>
                r == Answer(fetched.config.postURL) && expiry == old(expiry)[id := later + ttl]
    {
      Store(id, config, stored);
      r := GetPostURL(id, now, fetched, later);
    }

    /** Replaces the entry, or leaves it as it is when the fetch fails or finds no row. */
    method RefreshConfig(id: WebhookId, fetched: Fetch, stored: Time) returns (ok: bool)
      requires Valid()
      modifies this
      ensures Valid() && ok == fetched.Found?
      ensures ok ==> webhookConfigs == old(webhookConfigs)[id := fetched.config]
      ensures ok ==> expiry == old(expiry)[id := stored + ttl]
      ensures !ok ==> unchanged(this)
    {
      if fetched.Found? {
        Store(id, fetched.config, stored);
      }
      return fetched.Found?;
    }

    /** The cached IDs, in any order. */
    method CachedIDs() returns (webhookIDs: seq<WebhookId>)
      ensures Distinct(webhookIDs) && Elements(webhookIDs) == webhookConfigs.Keys
      ensures forall j :: 0 <= j < |webhookIDs| ==> webhookIDs[j] in webhookConfigs
    {
      webhookIDs := [];
      var unvisited := webhookConfigs.Keys;
      while unvisited != {}
        invariant Distinct(webhookIDs) && unvisited <= webhookConfigs.Keys
        invariant Elements(webhookIDs) == webhookConfigs.Keys - unvisited
        decreases unvisited
      {
        var id :| id in unvisited;
        assert id !in Elements(webhookIDs);
        var longer := webhookIDs + [id];
        assert longer[..|webhookIDs|] == webhookIDs;
        SplitLast(longer);
        unvisited, webhookIDs := unvisited - {id}, longer;
      }
    }

    /** Refreshes each entry once, in any order. An entry whose row is gone keeps its old value and expiry. */
    method RefreshAllConfigs(fetches: WebhookId -> Fetch, stored: WebhookId -> Time)
        returns (refreshed: nat, errors: nat)
      requires Valid()
      modifies this
      ensures Valid() && webhookConfigs.Keys == old(webhookConfigs).Keys
      ensures forall id :: id in webhookConfigs ==>
                if fetches(id).Found? then webhookConfigs[id] == fetches(id).config && expiry[id] == stored(id) + ttl
                else webhookConfigs[id] == old(webhookConfigs)[id] && expiry[id] == old(expiry)[id]
      ensures refreshed == |Fetchable(old(webhookConfigs).Keys, fetches)|
      ensures refreshed + errors == |old(webhookConfigs).Keys|
    {
      var webhookIDs := CachedIDs();
      refreshed, errors := RefreshEach(webhookIDs, fetches, stored);
      assert webhookIDs[..|webhookIDs|] == webhookIDs;
      FoundAmongFirst(webhookIDs, |webhookIDs|, fetches);
      ElementsSize(webhookIDs);
      forall id | id in webhookConfigs ensures id in Elements(webhookIDs) {
      }
    }

    method RefreshEach(webhookIDs: seq<WebhookId>, fetches: WebhookId -> Fetch, stored: WebhookId -> Time)
        returns (refreshed: nat, errors: nat)
      requires Valid() && Distinct(webhookIDs) && forall j :: 0 <= j < |webhookIDs| ==> webhookIDs[j] in webhookConfigs
      modifies this
      ensures Valid() && webhookConfigs.Keys == old(webhookConfigs).Keys
      ensures refreshed == FoundAmong(webhookIDs, |webhookIDs|, fetches) && refreshed + errors == |webhookIDs|
      ensures forall j :: 0 <= j < |webhookIDs| ==>
                var id := webhookIDs[j];
                if fetches(id).Found? then webhookConfigs[id] == fetches(id).config && expiry[id] == stored(id) + ttl
                else webhookConfigs[id] == old(webhookConfigs)[id] && expiry[id] == old(expiry)[id]
    {
      refreshed, errors := 0, 0;
      for k := 0 to |webhookIDs|
        invariant Valid() && webhookConfigs.Keys == old(webhookConfigs).Keys
        invariant refreshed == FoundAmong(webhookIDs, k, fetches) && refreshed + errors == k
        invariant forall j :: 0 <= j < |webhookIDs| ==>
                    var id := webhookIDs[j];
                    if j < k && fetches(id).Found? then
                      webhookConfigs[id] == fetches(id).config && expiry[id] == stored(id) + ttl
                    else webhookConfigs[id] == old(webhookConfigs)[id] && expiry[id] == old(expiry)[id]
      {
        var ok := RefreshConfig(webhookIDs[k], fetches(webhookIDs[k]), stored(webhookIDs[k]));
        refreshed, errors := refreshed + One(ok), errors + One(!ok);
      }
    }

    method InvalidateCache(id: WebhookId)
      requires Valid()
      modifies this
      ensures Valid() && webhookConfigs == old(webhookConfigs) - {id} && expiry == old(expiry) - {id}
    {
      webhookConfigs := webhookConfigs - {id};
      expiry := expiry - {id};
    }

    /** A change notification drops the entry it names; one that cannot be read is ignored. */
    method HandleNotification(payload: Option<WebhookId>)
      requires Valid()
      modifies this
      ensures Valid()
      ensures payload.None? ==> unchanged(this)
      ensures payload.Some? ==> payload.value !in webhookConfigs && payload.value !in expiry
      ensures forall id :: payload != Some(id) ==>
                && (id in webhookConfigs <==> id in old(webhookConfigs))
                && (id in webhookConfigs ==>
                      webhookConfigs[id] == old(webhookConfigs)[id] && expiry[id] == old(expiry)[id])
    {
      if payload.Some? {
        InvalidateCache(payload.value);
      }
    }
  }
}
