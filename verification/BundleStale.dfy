/** Why the coherent runs of the bundle service are the well-scoped ones: every object
    and every update outside them has a run that ends with a stale cache and no event
    left to repair it. */
module BundleStale {
  import opened Strings
  import opened Identity
  import opened Policies
  import opened BundleService
  import opened BundleCoherence
  import Lru = BundleLru

  lemma RunGrows(env: Env, acts: seq<Action>, a: Action)
    ensures Run(env, acts + [a]) == Next(env, Run(env, acts), a)
  {
    assert (acts + [a])[..|acts|] == acts;
  }

  lemma NothingListed(order: seq<string>)
    requires Listing(order, {})
    ensures order == []
  {
    ListingCount(order, {});
  }

  lemma OneListed(order: seq<string>, k: string)
    requires Listing(order, {k})
    ensures order == [k]
  {
    ListingCount(order, {k});
    assert order[0] in order;
  }

  lemma FreshOfNothing(env: Env, store: map<string, Cr>, ns: string, ps: seq<Policy>)
    ensures GlobalKeys(env, store) == {} && FreshGlobal(env, store, ps) ==> ps == []
    ensures NamespaceKeys(store, ns) == {} && FreshNamespace(store, ns, ps) ==> ps == []
  {
    if GlobalKeys(env, store) == {} && FreshGlobal(env, store, ps) {
      var order :| Listing(order, GlobalKeys(env, store)) && ps == Extract(store, order);
      NothingListed(order);
    }
    if NamespaceKeys(store, ns) == {} && FreshNamespace(store, ns, ps) {
      var order :| Listing(order, NamespaceKeys(store, ns)) && ps == Extract(store, order);
      NothingListed(order);
    }
  }

  // ---- An object that is not well scoped ----

  /** A request, the object stored, its event delivered. */
  function StrayRun(cr: Cr, pick: Pick): seq<Action> {
    [Request(cr.id, "", pick)] + [Upsert(cr)] + [DeliverEvent]
  }

  lemma GatherNothing()
    ensures Gather([], [], []) == []
  {
  }

  /** A first request over an empty store caches the tag of the empty bundle. */
  lemma FirstRequest(env: Env, id: ClientIdentity, pick: Pick)
    ensures var s := Next(env, Init(), Request(id, "", pick));
            s.store == map[] && s.queue == [] && CacheKey(id) in s.etag && s.etag[CacheKey(id)] == "sha256:empty"
  {
    RequestBuilds(env, Init(), id, pick);
    EmptyTiers(env, pick, id.ns);
    GatherNothing();
    var sorted := SortBy(pick.sorted, []);
    assert |sorted| == |multiset(sorted)| == 0;
  }

  lemma RequestBuilds(env: Env, s: Service, id: ClientIdentity, pick: Pick)
    requires s.etag == map[] && s.bundles == []
    ensures Next(env, s, Request(id, "", pick)) == Build(env, s, id, pick).0
  {
    assert s.(bundles := []) == s;
  }

  lemma EmptyTiers(env: Env, pick: Pick, ns: string)
    ensures GlobalTier(env, Init(), pick) == [] && NamespaceTier(Init(), ns, pick) == []
  {
    assert GlobalKeys(env, map[]) == {} && NamespaceKeys(map[], ns) == {};
    NothingListed(Ordered(pick.global, {}));
    NothingListed(Ordered(pick.ns, {}));
  }

  /** With an object that is in no tier stored alone, a fresh list holds its policies. */
  lemma StrayList(env: Env, cr: Cr, all: seq<Policy>)
    requires !WellScoped(env, cr) && cr.policies.Some? && FreshList(env, map[CacheKey(cr.id) := cr], cr.id, all)
    ensures |all| == |cr.policies.value|
  {
    var store := map[CacheKey(cr.id) := cr];
    var g, n, c :| FreshGlobal(env, store, g) && FreshNamespace(store, cr.id.ns, n)
                   && ClientPolicies(store, cr.id) == Some(c) && all == Gather(g, n, c);
    assert GlobalKeys(env, store) == {} && NamespaceKeys(store, cr.id.ns) == {};
    FreshOfNothing(env, store, cr.id.ns, g);
    FreshOfNothing(env, store, cr.id.ns, n);
  }

  lemma EmptyTagIsOfNothing(env: Env, all: seq<Policy>)
    requires CollisionFree(env.hash) && TagOf(env, all, "sha256:empty")
    ensures all == []
  {
    var sorted :| SortOf(sorted, all) && "sha256:empty" == HashOf(env.hash, sorted);
    HashIsInjective(env.hash, sorted, []);
    assert |all| == |multiset(all)| && |sorted| == |multiset(sorted)|;
  }

  /** Every object that is not well scoped goes stale: a run of three steps ends with no
      event pending and a tag that no fresh build gives, which is still answered with
      "not modified". */
  lemma StrayObjectGoesStale(env: Env, cr: Cr, pick: Pick)
    requires CollisionFree(env.hash) && !WellScoped(env, cr)
    requires cr.policies.Some? && cr.policies.value != []
    ensures var s := Run(env, StrayRun(cr, pick));
            var key := CacheKey(cr.id);
            && s.queue == [] && key in s.etag && !FreshTag(env, s.store, cr.id, s.etag[key])
            && forall next :: GetBundle(env, s, cr.id, s.etag[key], next).1 == NotModified(s.etag[key])
  {
    var a := Request(cr.id, "", pick);
    var s1 := Next(env, Init(), a);
    FirstRequest(env, cr.id, pick);
    StrayDelivered(env, s1, cr);
    RunGrows(env, [], a);
    RunGrows(env, [a], Upsert(cr));
    RunGrows(env, [a] + [Upsert(cr)], DeliverEvent);
    var s := Run(env, StrayRun(cr, pick));
    assert [] + [a] == [a];
    assert |"sha256:empty"| > 0;
    if FreshTag(env, s.store, cr.id, "sha256:empty") {
      var all :| FreshList(env, s.store, cr.id, all) && TagOf(env, all, "sha256:empty");
      EmptyTagIsOfNothing(env, all);
      StrayList(env, cr, all);
    }
  }

  /** Storing such an object and delivering its event changes the store only. */
  lemma StrayDelivered(env: Env, s: Service, cr: Cr)
    requires !WellScoped(env, cr) && s.store == map[] && s.queue == []
    ensures Next(env, Next(env, s, Upsert(cr)), DeliverEvent) == s.(store := map[CacheKey(cr.id) := cr])
  {
    assert ([] + [cr])[1..] == [];
  }

  // ---- An update that changes the scope ----

  /** An object is stored and announced, a client asks, the object changes its scope. */
  function ScopeRun(was: Cr, now: Cr, pick: Pick): seq<Action> {
    [Upsert(was)] + [DeliverEvent] + [Request(was.id, "", pick)] + [Upsert(now)] + [DeliverEvent]
  }

  /** The cached tier of `was` is not what a fresh build would cache. */
  ghost predicate StaleTier(env: Env, s: Service, was: Cr) {
    if Scope(was) == "global" then s.global.Some? && !FreshGlobal(env, s.store, s.global.value)
    else was.id.ns in s.ns && !FreshNamespace(s.store, was.id.ns, s.ns[was.id.ns])
  }

  lemma StoredAndAnnounced(env: Env, was: Cr)
    ensures Next(env, Next(env, Init(), Upsert(was)), DeliverEvent) == Init().(store := map[CacheKey(was.id) := was])
  {
    var s := Init();
    assert ([] + [was])[1..] == [];
    InvalidateRemovesExactly(env, s.(store := map[CacheKey(was.id) := was]), was);
    assert Lru.Remove([], CacheKey(was.id)) == [];
    assert s.ns - {was.id.ns} == s.ns && s.etag - {CacheKey(was.id)} == s.etag;
  }

  lemma OnlyInTier(env: Env, was: Cr, pick: Pick)
    requires WellScoped(env, was) && Scope(was) != "client" && was.policies.Some?
    ensures var s := Init().(store := map[CacheKey(was.id) := was]);
            if Scope(was) == "global" then GlobalTier(env, s, pick) == was.policies.value
            else NamespaceTier(s, was.id.ns, pick) == was.policies.value
  {
    var key := CacheKey(was.id);
    var store := map[key := was];
    assert Extract(store, [key]) == was.policies.value + [] by { assert [key][1..] == []; }
    if Scope(was) == "global" {
      assert GlobalKeys(env, store) == {key};
      OneListed(Ordered(pick.global, {key}), key);
    } else {
      assert NamespaceKeys(store, was.id.ns) == {key};
      OneListed(Ordered(pick.ns, {key}), key);
    }
  }

  /** The request caches the object's policies as its tier. */
  lemma TierCached(env: Env, was: Cr, pick: Pick)
    requires WellScoped(env, was) && Scope(was) != "client" && was.policies.Some?
    ensures var s0 := Init().(store := map[CacheKey(was.id) := was]);
            var s := Next(env, s0, Request(was.id, "", pick));
            && s.store == s0.store && s.queue == []
            && (if Scope(was) == "global" then s.global == Some(was.policies.value)
                else was.id.ns in s.ns && s.ns[was.id.ns] == was.policies.value)
  {
    var s0 := Init().(store := map[CacheKey(was.id) := was]);
    RequestBuilds(env, s0, was.id, pick);
    OnlyInTier(env, was, pick);
    BuildKeepsTiers(env, s0, was.id, pick);
  }

  lemma BuildKeepsTiers(env: Env, s: Service, id: ClientIdentity, pick: Pick)
    ensures var r := Build(env, s, id, pick).0;
            r.store == s.store && r.queue == s.queue && r.global == Some(GlobalTier(env, s, pick))
            && r.ns == s.ns[id.ns := NamespaceTier(s, id.ns, pick)]
  {
    match ClientPolicies(s.store, id)
    case None =>
    case Some(c) =>
      var all := Gather(GlobalTier(env, s, pick), NamespaceTier(s, id.ns, pick), c);
      FinishFrame(env, WithTiers(env, s, id, pick), CacheKey(id), all, HashOf(env.hash, SortBy(pick.sorted, all)));
  }

  /** The new scope's event leaves the old scope's tier in place. */
  lemma WrongTierInvalidated(env: Env, s: Service, was: Cr, now: Cr)
    requires WellScoped(env, was) && WellScoped(env, now) && now.id == was.id
    requires Scope(was) != "client" && Scope(now) != Scope(was)
    requires was.policies.Some? && was.policies.value != []
    requires s.store == map[CacheKey(was.id) := was] && s.queue == []
    requires if Scope(was) == "global" then s.global == Some(was.policies.value)
             else was.id.ns in s.ns && s.ns[was.id.ns] == was.policies.value
    ensures var t := Next(env, Next(env, s, Upsert(now)), DeliverEvent);
            t.queue == [] && StaleTier(env, t, was)
  {
    var key := CacheKey(was.id);
    var store := map[key := now];
    assert s.store[key := now] == store;
    assert ([] + [now])[1..] == [];
    InvalidateRemovesExactly(env, s.(store := store), now);
    if Scope(was) == "global" {
      assert GlobalKeys(env, store) == {};
    } else {
      assert NamespaceKeys(store, was.id.ns) == {};
    }
    FreshOfNothing(env, store, was.id.ns, was.policies.value);
  }

  /** Every update that leaves the global or a namespace scope goes stale: a run of five
      steps ends with no event pending and the old tier still cached. */
  lemma ScopeChangeGoesStale(env: Env, was: Cr, now: Cr, pick: Pick)
    requires WellScoped(env, was) && WellScoped(env, now) && now.id == was.id
    requires Scope(was) != "client" && Scope(now) != Scope(was)
    requires was.policies.Some? && was.policies.value != []
    ensures var s := Run(env, ScopeRun(was, now, pick));
            s.queue == [] && StaleTier(env, s, was)
  {
    var a := Request(was.id, "", pick);
    StoredAndAnnounced(env, was);
    TierCached(env, was, pick);
    var s := Next(env, Init().(store := map[CacheKey(was.id) := was]), a);
    WrongTierInvalidated(env, s, was, now);
    RunGrows(env, [], Upsert(was));
    assert [] + [Upsert(was)] == [Upsert(was)];
    RunGrows(env, [Upsert(was)], DeliverEvent);
    RunGrows(env, [Upsert(was)] + [DeliverEvent], a);
    RunGrows(env, [Upsert(was)] + [DeliverEvent] + [a], Upsert(now));
    RunGrows(env, [Upsert(was)] + [DeliverEvent] + [a] + [Upsert(now)], DeliverEvent);
  }
}
