/** The bundle provider and its watcher as they run: loops over the informer's
    objects, and builds that fill the three caches step by step. */
module BundleProvider {
  import opened Strings
  import opened Identity
  import opened Policies
  import opened BundleCaches
  import opened BundleService
  import Lru = BundleLru

  /** The objects under `keys` that were looked at so far and kept. */
  ghost predicate Kept(order: seq<string>, keys: set<string>, todo: set<string>) {
    Listing(order, keys - todo)
  }

  lemma KeepOne(order: seq<string>, keys: set<string>, todo: set<string>, k: string)
    requires Kept(order, keys, todo) && k in todo
    ensures k in keys ==> Kept(order + [k], keys, todo - {k})
    ensures k !in keys ==> Kept(order, keys, todo - {k})
  {
    if k in keys {
      assert keys - (todo - {k}) == keys - todo + {k};
      assert k !in order;
    } else {
      assert keys - (todo - {k}) == keys - todo;
    }
  }

  lemma UnderSnoc(prefix: string, ps: seq<Policy>, p: Policy)
    ensures Under(prefix, ps + [p]) == Under(prefix, ps) + [Policy(prefix + p.path, p.content)]
  {
    assert (ps + [p])[|ps|] == p;
  }

  ghost function GatherFor(env: Env, s: Service, id: ClientIdentity, pick: Pick): Option<seq<Policy>> {
    match ClientPolicies(s.store, id)
    case None => None
    case Some(c) => Some(Gather(GlobalTier(env, s, pick), NamespaceTier(s, id.ns, pick), c))
  }

  lemma TiersIgnoreSort(env: Env, s: Service, ns: string, pick: Pick)
    ensures forall sorted :: GlobalTier(env, s, pick.(sorted := sorted)) == GlobalTier(env, s, pick)
    ensures forall sorted :: NamespaceTier(s, ns, pick.(sorted := sorted)) == NamespaceTier(s, ns, pick)
  {
  }

  /** A build, once its list is gathered. */
  lemma BuildIs(env: Env, s: Service, id: ClientIdentity, pick: Pick)
    requires var all := GatherFor(env, s, id, pick); all.Some? ==> pick.sorted == Sort(all.value)
    ensures var s' := s.(global := Some(GlobalTier(env, s, pick)), ns := s.ns[id.ns := NamespaceTier(s, id.ns, pick)]);
            Build(env, s, id, pick) == match GatherFor(env, s, id, pick)
              case None => (s', Error)
              case Some(all) => Finish(env, s', CacheKey(id), all, HashOf(env.hash, Sort(all)))
  {
  }

  class Provider {
    const env: Env
    const etagCache: ETagCache
    const bundleCache: BundleCache
    const policyCache: PolicyCache
    var store: map<string, Cr>

    constructor (env: Env, etagCache: ETagCache, bundleCache: BundleCache, policyCache: PolicyCache)
      requires bundleCache.Valid() && bundleCache.config == env.lru
      ensures Valid() && store == map[] && this.env == env
      ensures this.etagCache == etagCache && this.bundleCache == bundleCache && this.policyCache == policyCache
    {
      this.env := env;
      this.etagCache, this.bundleCache, this.policyCache := etagCache, bundleCache, policyCache;
      store := map[];
    }

    ghost predicate Valid()
      reads this, bundleCache
    {
      bundleCache.Valid() && bundleCache.config == env.lru
    }

    /** The service state these fields represent, at a time and with events pending. */
    ghost function State(now: int, queue: seq<Cr>): Service
      reads this, etagCache, bundleCache, policyCache
    {
      Service(now, store, queue, policyCache.global, policyCache.ns, etagCache.entries, bundleCache.evictList)
    }

    // ---- watcher ----

    /** `invalidate`, on the object an event carries. */
    method Invalidate(ev: Cr, ghost now: int, ghost queue: seq<Cr>)
      requires Valid()
      modifies etagCache, bundleCache, policyCache
      ensures Valid() && State(now, queue) == BundleService.Invalidate(env, old(State(now, queue)), ev)
    {
      var scope := if ev.scope == "" then "client" else ev.scope;
      if scope == "global" {
        if ev.id.ns != env.serviceNs { return; }
        policyCache.InvalidateGlobal();
        etagCache.InvalidateAll();
        bundleCache.InvalidateAll();
      } else if scope == "namespace" {
        policyCache.InvalidateNamespace(ev.id.ns);
        etagCache.InvalidateAll();
        bundleCache.InvalidateAll();
      } else if scope == "client" {
        var key := ev.id.ns + "/" + ev.id.name;
        etagCache.Invalidate(key);
        bundleCache.Invalidate(key);
      }
    }

    /** `Watcher.GetGlobalPolicies`: each global object of the service namespace once. */
    method ListGlobal() returns (order: seq<string>)
      ensures Listing(order, GlobalKeys(env, store))
    {
      order := [];
      var todo := store.Keys;
      assert GlobalKeys(env, store) - todo == {};
      while todo != {}
        invariant todo <= store.Keys && Kept(order, GlobalKeys(env, store), todo)
      {
        var k :| k in todo;
        KeepOne(order, GlobalKeys(env, store), todo, k);
        todo := todo - {k};
        if Scope(store[k]) == "global" {
          if store[k].id.ns == env.serviceNs { order := order + [k]; }
        }
      }
      assert GlobalKeys(env, store) - todo == GlobalKeys(env, store);
    }

    /** `Watcher.GetNamespacePolicies`. */
    method ListNamespace(ns: string) returns (order: seq<string>)
      ensures Listing(order, NamespaceKeys(store, ns))
    {
      order := [];
      var todo := store.Keys;
      assert NamespaceKeys(store, ns) - todo == {};
      while todo != {}
        invariant todo <= store.Keys && Kept(order, NamespaceKeys(store, ns), todo)
      {
        var k :| k in todo;
        KeepOne(order, NamespaceKeys(store, ns), todo, k);
        todo := todo - {k};
        if Scope(store[k]) == "namespace" {
          if store[k].id.ns == ns { order := order + [k]; }
        }
      }
      assert NamespaceKeys(store, ns) - todo == NamespaceKeys(store, ns);
    }

    /** `extractPolicies`: objects that cannot be converted are skipped. */
    method ExtractPolicies(order: seq<string>) returns (result: seq<Policy>)
      ensures result == Extract(store, order)
    {
      result := [];
      for i := 0 to |order|
        invariant result == Extract(store, order[..i])
      {
        ExtractAppend(store, order[..i], [order[i]]);
        assert order[..i + 1] == order[..i] + [order[i]];
        assert Extract(store, [order[i]]) == PoliciesOf(store, order[i]) + [];
        if order[i] in store && store[order[i]].policies.Some? {
          result := result + store[order[i]].policies.value;
        }
      }
      assert order[..|order|] == order;
    }

    // ---- provider ----

    method GetGlobalPolicies() returns (policies: seq<Policy>, ghost order: seq<string>)
      modifies policyCache
      ensures policyCache.global == Some(policies) && policyCache.ns == old(policyCache.ns)
      ensures policies == if old(policyCache.global).Some? then old(policyCache.global).value
                          else Extract(store, Ordered(order, GlobalKeys(env, store)))
    {
      order := [];
      if policyCache.global.Some? { return policyCache.global.value, []; }
      var found := ListGlobal();
      order := found;
      policies := ExtractPolicies(found);
      policyCache.SetGlobal(policies);
    }

    method GetNamespacePolicies(ns: string) returns (policies: seq<Policy>, ghost order: seq<string>)
      modifies policyCache
      ensures policyCache.ns == old(policyCache.ns)[ns := policies] && policyCache.global == old(policyCache.global)
      ensures policies == if ns in old(policyCache.ns) then old(policyCache.ns)[ns]
                          else Extract(store, Ordered(order, NamespaceKeys(store, ns)))
    {
      order := [];
      if ns in policyCache.ns { return policyCache.ns[ns], []; }
      var found := ListNamespace(ns);
      order := found;
      policies := ExtractPolicies(found);
      policyCache.SetNamespace(ns, policies);
    }

    /** One tier's append loop of `buildBundle`. */
    static method AppendTier(all: seq<Policy>, prefix: string, ps: seq<Policy>) returns (r: seq<Policy>)
      ensures r == all + Under(prefix, ps)
    {
      r := all;
      for i := 0 to |ps|
        invariant r == all + Under(prefix, ps[..i])
      {
        UnderSnoc(prefix, ps[..i], ps[i]);
        assert ps[..i + 1] == ps[..i] + [ps[i]];
        r := r + [Policy(prefix + ps[i].path, ps[i].content)];
      }
      assert ps[..|ps|] == ps;
    }

    /** Hashes the gathered list, sets the ETag, archives and caches. */
    method Store(now: int, key: string, all: seq<Policy>, hash: string) returns (reply: Reply)
      requires Valid()
      modifies etagCache, bundleCache
      ensures Valid() && (State(now, []), reply) == Finish(env, old(State(now, [])), key, all, hash)
    {
      etagCache.Set(key, hash);
      var data := env.archive(all);
      if data == None { return Error; }
      bundleCache.Set(now, key, data.value, hash);
      return Bundle(data.value, hash);
    }

    /** The append loops of `buildBundle`; None when the client's object cannot be
        converted. */
    method GatherPolicies(id: ClientIdentity) returns (all: Option<seq<Policy>>, ghost pick: Pick)
      modifies policyCache
      ensures var s := old(State(0, []));
              && policyCache.global == Some(GlobalTier(env, s, pick))
              && policyCache.ns == s.ns[id.ns := NamespaceTier(s, id.ns, pick)]
              && all == GatherFor(env, s, id, pick)
              && (all.Some? ==> pick.sorted == Sort(all.value))
    {
      ghost var s := State(0, []);
      var global, globalOrder := GetGlobalPolicies();
      var ns, nsOrder := GetNamespacePolicies(id.ns);
      pick := Pick(globalOrder, nsOrder, []);
      TiersIgnoreSort(env, s, id.ns, pick);
      assert global == GlobalTier(env, s, pick) && ns == NamespaceTier(s, id.ns, pick);
      var key := CacheKey(id);
      var client := if key in store then store[key].policies else Some([]);
      if client == None { return None, pick; }
      var list := Concatenate(global, ns, client.value);
      pick := Pick(globalOrder, nsOrder, Sort(list));
      return Some(list), pick;
    }

    static method Concatenate(global: seq<Policy>, ns: seq<Policy>, client: seq<Policy>) returns (all: seq<Policy>)
      ensures all == Gather(global, ns, client)
    {
      all := AppendTier([], Prefix(Global), global);
      all := AppendTier(all, Prefix(Namespace), ns);
      all := AppendTier(all, Prefix(Client), client);
    }

    method BuildBundle(now: int, id: ClientIdentity) returns (reply: Reply, ghost pick: Pick)
      requires Valid()
      modifies etagCache, bundleCache, policyCache
      ensures Valid() && (State(now, []), reply) == Build(env, old(State(now, [])), id, pick)
    {
      ghost var s := State(now, []);
      var all;
      all, pick := GatherPolicies(id);
      BuildIs(env, s, id, pick);
      if all == None { return Error, pick; }
      var hash := ContentHash(env.hash, all.value);
      reply := Store(now, CacheKey(id), all.value, hash);
    }

    method GetBundle(now: int, id: ClientIdentity, ifNoneMatch: string) returns (reply: Reply, ghost pick: Pick)
      requires Valid()
      modifies etagCache, bundleCache, policyCache
      ensures Valid() && (State(now, []), reply) == BundleService.GetBundle(env, old(State(now, [])), id, ifNoneMatch, pick)
    {
      pick := Pick([], [], []);
      var key := CacheKey(id);
      var cached, known := etagCache.Get(key);
      if known && ifNoneMatch != "" && ifNoneMatch == cached { return NotModified(cached), pick; }
      var data, etag, hit := bundleCache.Get(now, key);
      if hit {
        etagCache.Set(key, etag);
        return Bundle(data, etag), pick;
      }
      reply, pick := BuildBundle(now, id);
    }
  }
}
