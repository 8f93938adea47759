/** Cache coherence of the bundle service over every run: an entry that differs from a
    fresh build always has an undelivered event that will remove it. */
module BundleCoherence {
  import opened Strings
  import opened Identity
  import opened Policies
  import opened BundleService
  import Lru = BundleLru

  // ---- A fresh build over the current store ----

  ghost predicate FreshGlobal(env: Env, store: map<string, Cr>, g: seq<Policy>) {
    exists order :: Listing(order, GlobalKeys(env, store)) && g == Extract(store, order)
  }

  ghost predicate FreshNamespace(store: map<string, Cr>, ns: string, n: seq<Policy>) {
    exists order :: Listing(order, NamespaceKeys(store, ns)) && n == Extract(store, order)
  }

  /** `all` is a list a build that finds every cache empty may gather. */
  ghost predicate FreshList(env: Env, store: map<string, Cr>, id: ClientIdentity, all: seq<Policy>) {
    exists g, n, c :: FreshGlobal(env, store, g) && FreshNamespace(store, id.ns, n)
                      && ClientPolicies(store, id) == Some(c) && all == Gather(g, n, c)
  }

  ghost predicate TagOf(env: Env, all: seq<Policy>, tag: string) {
    exists sorted :: SortOf(sorted, all) && tag == HashOf(env.hash, sorted)
  }

  ghost predicate FreshTag(env: Env, store: map<string, Cr>, id: ClientIdentity, tag: string) {
    exists all :: FreshList(env, store, id, all) && TagOf(env, all, tag)
  }

  ghost predicate FreshItem(env: Env, store: map<string, Cr>, id: ClientIdentity, x: Lru.Item) {
    exists all :: FreshList(env, store, id, all) && TagOf(env, all, x.etag) && env.archive(all) == Some(x.data)
  }

  // ---- Coherence ----

  ghost predicate PendingGlobal(env: Env, queue: seq<Cr>) {
    exists ev :: ev in queue && KillsGlobal(env, ev)
  }

  ghost predicate PendingNamespace(queue: seq<Cr>, ns: string) {
    exists ev :: ev in queue && KillsNamespace(ev, ns)
  }

  ghost predicate PendingKey(env: Env, queue: seq<Cr>, key: string) {
    exists ev :: ev in queue && KillsKey(env, ev, key)
  }

  ghost predicate GlobalOk(env: Env, s: Service) {
    s.global.Some? ==> FreshGlobal(env, s.store, s.global.value) || PendingGlobal(env, s.queue)
  }

  ghost predicate NamespacesOk(s: Service) {
    forall ns :: ns in s.ns ==> FreshNamespace(s.store, ns, s.ns[ns]) || PendingNamespace(s.queue, ns)
  }

  ghost predicate TagOk(env: Env, s: Service, id: ClientIdentity) {
    CacheKey(id) in s.etag ==> FreshTag(env, s.store, id, s.etag[CacheKey(id)]) || PendingKey(env, s.queue, CacheKey(id))
  }

  ghost predicate ItemOk(env: Env, s: Service, id: ClientIdentity, x: Lru.Item) {
    x in s.bundles && x.key == CacheKey(id) ==> FreshItem(env, s.store, id, x) || PendingKey(env, s.queue, x.key)
  }

  ghost predicate KeysOk(env: Env, s: Service) {
    && (forall id :: ValidId(id) ==> TagOk(env, s, id))
    && (forall id, x :: ValidId(id) ==> ItemOk(env, s, id, x))
  }

  ghost predicate StoreOk(env: Env, store: map<string, Cr>) {
    forall k :: k in store ==> k == CacheKey(store[k].id) && ValidId(store[k].id) && WellScoped(env, store[k])
  }

  ghost predicate Coherent(env: Env, s: Service) {
    StoreOk(env, s.store) && GlobalOk(env, s) && NamespacesOk(s) && KeysOk(env, s)
  }

  /** Objects are well scoped and no update moves one out of the namespace or global
      scope; requests carry identities that parsed. */
  ghost predicate Permitted(env: Env, s: Service, a: Action) {
    match a
    case Upsert(cr) =>
      && ValidId(cr.id) && WellScoped(env, cr)
      && (CacheKey(cr.id) in s.store ==>
            var was := s.store[CacheKey(cr.id)]; Scope(was) == "client" || Scope(cr) == Scope(was))
    case Request(id, _, _) => ValidId(id)
    case _ => true
  }

  ghost predicate PermittedRun(env: Env, acts: seq<Action>) {
    acts == [] ||
    (PermittedRun(env, acts[..|acts| - 1]) && Permitted(env, Run(env, acts[..|acts| - 1]), acts[|acts| - 1]))
  }

  // ---- A change of the store ----

  ghost predicate ChangedAt(a: map<string, Cr>, b: map<string, Cr>, key: string) {
    forall k :: k != key ==> (k in a <==> k in b) && (k in a ==> a[k] == b[k])
  }

  lemma {:induction false} ExtractSame(a: map<string, Cr>, b: map<string, Cr>, order: seq<string>)
    requires forall k :: k in order ==> PoliciesOf(a, k) == PoliciesOf(b, k)
    ensures Extract(a, order) == Extract(b, order)
    decreases |order|
  {
    if order != [] { ExtractSame(a, b, order[1..]); }
  }

  lemma ChangeKeepsGlobal(env: Env, a: map<string, Cr>, b: map<string, Cr>, key: string, g: seq<Policy>)
    requires ChangedAt(a, b, key) && FreshGlobal(env, a, g)
    requires (key in a ==> !IsGlobal(env, a[key])) && (key in b ==> !IsGlobal(env, b[key]))
    ensures FreshGlobal(env, b, g)
  {
    var order :| Listing(order, GlobalKeys(env, a)) && g == Extract(a, order);
    assert GlobalKeys(env, a) == GlobalKeys(env, b);
    ExtractSame(a, b, order);
  }

  lemma ChangeKeepsNamespace(a: map<string, Cr>, b: map<string, Cr>, key: string, ns: string, n: seq<Policy>)
    requires ChangedAt(a, b, key) && FreshNamespace(a, ns, n)
    requires (key in a ==> !IsNamespace(a[key], ns)) && (key in b ==> !IsNamespace(b[key], ns))
    ensures FreshNamespace(b, ns, n)
  {
    var order :| Listing(order, NamespaceKeys(a, ns)) && n == Extract(a, order);
    assert NamespaceKeys(a, ns) == NamespaceKeys(b, ns);
    ExtractSame(a, b, order);
  }

  lemma ChangeKeepsList(env: Env, a: map<string, Cr>, b: map<string, Cr>, at: ClientIdentity, id: ClientIdentity, all: seq<Policy>)
    requires StoreOk(env, a) && StoreOk(env, b) && ValidId(at) && ValidId(id)
    requires ChangedAt(a, b, CacheKey(at)) && FreshList(env, a, id, all)
    requires (CacheKey(at) in a ==> !Affects(env, a[CacheKey(at)], id)) && (CacheKey(at) in b ==> !Affects(env, b[CacheKey(at)], id))
    ensures FreshList(env, b, id, all)
  {
    var key := CacheKey(at);
    var g, n, c :| FreshGlobal(env, a, g) && FreshNamespace(a, id.ns, n)
                   && ClientPolicies(a, id) == Some(c) && all == Gather(g, n, c);
    ChangeKeepsGlobal(env, a, b, key, g);
    ChangeKeepsNamespace(a, b, key, id.ns, n);
    CacheKeyInjective(at, id);
    if key in a { CacheKeyInjective(a[key].id, at); }
    if key in b { CacheKeyInjective(b[key].id, at); }
    assert ClientPolicies(b, id) == Some(c);
  }

  /** A change whose event covers the old and the new object keeps every entry coherent. */
  lemma StoreChangeKeeps(env: Env, s: Service, s': Service, at: ClientIdentity, ev: Cr)
    requires Coherent(env, s) && StoreOk(env, s'.store) && ValidId(at) && ChangedAt(s.store, s'.store, CacheKey(at))
    requires s' == s.(store := s'.store, queue := s.queue + [ev])
    requires CacheKey(at) in s.store ==> Covers(env, ev, s.store[CacheKey(at)])
    requires CacheKey(at) in s'.store ==> Covers(env, ev, s'.store[CacheKey(at)])
    ensures Coherent(env, s')
  {
    var key := CacheKey(at);
    assert ev in s'.queue;
    if s.global.Some? && FreshGlobal(env, s.store, s.global.value) && !KillsGlobal(env, ev) {
      ChangeKeepsGlobal(env, s.store, s'.store, key, s.global.value);
    }
    QueueGrows(env, s.queue, ev);
    forall ns | ns in s'.ns ensures FreshNamespace(s'.store, ns, s'.ns[ns]) || PendingNamespace(s'.queue, ns) {
      if FreshNamespace(s.store, ns, s.ns[ns]) && !KillsNamespace(ev, ns) {
        ChangeKeepsNamespace(s.store, s'.store, key, ns, s.ns[ns]);
      }
    }
    forall id | ValidId(id) ensures TagOk(env, s', id) {
      assert TagOk(env, s, id);
      if !KillsKey(env, ev, CacheKey(id)) && CacheKey(id) in s.etag && FreshTag(env, s.store, id, s.etag[CacheKey(id)]) {
        var all :| FreshList(env, s.store, id, all) && TagOf(env, all, s.etag[CacheKey(id)]);
        ChangeKeepsList(env, s.store, s'.store, at, id, all);
      }
    }
    forall id, x | ValidId(id) ensures ItemOk(env, s', id, x) {
      assert ItemOk(env, s, id, x);
      if !KillsKey(env, ev, CacheKey(id)) && FreshItem(env, s.store, id, x) {
        var all :| FreshList(env, s.store, id, all) && TagOf(env, all, x.etag) && env.archive(all) == Some(x.data);
        ChangeKeepsList(env, s.store, s'.store, at, id, all);
      }
    }
  }

  lemma QueueGrows(env: Env, queue: seq<Cr>, ev: Cr)
    ensures PendingGlobal(env, queue) ==> PendingGlobal(env, queue + [ev])
    ensures forall ns :: PendingNamespace(queue, ns) ==> PendingNamespace(queue + [ev], ns)
    ensures forall key :: PendingKey(env, queue, key) ==> PendingKey(env, queue + [ev], key)
  {
  }

  lemma UpsertKeeps(env: Env, s: Service, cr: Cr)
    requires Coherent(env, s) && Permitted(env, s, Upsert(cr))
    ensures Coherent(env, Next(env, s, Upsert(cr)))
  {
    var key := CacheKey(cr.id);
    OwnEventCoversExactlyWhenWellScoped(env, cr);
    if key in s.store {
      CacheKeyInjective(s.store[key].id, cr.id);
      UpdateEventCoversExactly(env, s.store[key], cr);
    }
    StoreChangeKeeps(env, s, Next(env, s, Upsert(cr)), cr.id, cr);
  }

  lemma DeleteKeeps(env: Env, s: Service, key: string)
    requires Coherent(env, s)
    ensures Coherent(env, Next(env, s, DeleteCr(key)))
  {
    if key in s.store {
      var was := s.store[key];
      OwnEventCoversExactlyWhenWellScoped(env, was);
      StoreChangeKeeps(env, s, Next(env, s, DeleteCr(key)), was.id, was);
    }
  }

  // ---- A delivery ----

  /** What is no longer pending was removed by the event itself. */
  lemma QueueShrinks(env: Env, queue: seq<Cr>)
    requires queue != []
    ensures PendingGlobal(env, queue) ==> KillsGlobal(env, queue[0]) || PendingGlobal(env, queue[1..])
    ensures forall ns :: PendingNamespace(queue, ns) ==> KillsNamespace(queue[0], ns) || PendingNamespace(queue[1..], ns)
    ensures forall key :: PendingKey(env, queue, key) ==> KillsKey(env, queue[0], key) || PendingKey(env, queue[1..], key)
  {
    assert queue == [queue[0]] + queue[1..];
  }

  lemma DeliverKeeps(env: Env, s: Service)
    requires Coherent(env, s) && s.queue != []
    ensures Coherent(env, Next(env, s, DeliverEvent))
  {
    var s', ev := Next(env, s, DeliverEvent), s.queue[0];
    assert s'.queue == s.queue[1..] && s'.store == s.store;
    QueueShrinks(env, s.queue);
    InvalidateRemovesExactly(env, s.(queue := s.queue[1..]), ev);
    forall ns | ns in s'.ns ensures FreshNamespace(s'.store, ns, s'.ns[ns]) || PendingNamespace(s'.queue, ns) {
      assert ns in s.ns && !KillsNamespace(ev, ns);
    }
    forall id | ValidId(id) ensures TagOk(env, s', id) {
      assert TagOk(env, s, id);
      if CacheKey(id) in s'.etag { assert !KillsKey(env, ev, CacheKey(id)); }
    }
    forall id, x | ValidId(id) ensures ItemOk(env, s', id, x) {
      assert ItemOk(env, s, id, x);
      if x in s'.bundles { assert x in s.bundles && !KillsKey(env, ev, x.key); }
    }
  }

  // ---- A request ----

  lemma TiersOk(env: Env, s: Service, id: ClientIdentity, pick: Pick)
    requires GlobalOk(env, s) && NamespacesOk(s)
    ensures FreshGlobal(env, s.store, GlobalTier(env, s, pick)) || PendingGlobal(env, s.queue)
    ensures FreshNamespace(s.store, id.ns, NamespaceTier(s, id.ns, pick)) || PendingNamespace(s.queue, id.ns)
  {
    var gs := Ordered(pick.global, GlobalKeys(env, s.store));
    var ns := Ordered(pick.ns, NamespaceKeys(s.store, id.ns));
    assert Listing(gs, GlobalKeys(env, s.store)) && Listing(ns, NamespaceKeys(s.store, id.ns));
  }

  /** What a build puts under the client's key is fresh, or will be removed. */
  lemma BuiltListOk(env: Env, s: Service, id: ClientIdentity, pick: Pick, c: seq<Policy>)
    requires GlobalOk(env, s) && NamespacesOk(s) && ClientPolicies(s.store, id) == Some(c)
    ensures FreshList(env, s.store, id, Gather(GlobalTier(env, s, pick), NamespaceTier(s, id.ns, pick), c))
            || PendingKey(env, s.queue, CacheKey(id))
  {
    TiersOk(env, s, id, pick);
    if PendingGlobal(env, s.queue) {
      var ev :| ev in s.queue && KillsGlobal(env, ev);
      assert KillsKey(env, ev, CacheKey(id));
    } else if PendingNamespace(s.queue, id.ns) {
      var ev :| ev in s.queue && KillsNamespace(ev, id.ns);
      assert KillsKey(env, ev, CacheKey(id));
    }
  }

  /** Only the entries under the client's own key change, and they are fine. */
  ghost predicate KeyEffect(env: Env, s: Service, s': Service, id: ClientIdentity) {
    && s'.store == s.store && s'.queue == s.queue
    && (forall k :: k in s'.etag && k != CacheKey(id) ==> k in s.etag && s'.etag[k] == s.etag[k])
    && (forall x :: x in s'.bundles && x.key != CacheKey(id) ==> x in s.bundles)
    && TagOk(env, s', id) && (forall x :: ItemOk(env, s', id, x))
  }

  lemma KeyEffectKeeps(env: Env, s: Service, s': Service, id: ClientIdentity)
    requires KeysOk(env, s) && ValidId(id) && KeyEffect(env, s, s', id)
    ensures KeysOk(env, s')
  {
    forall other | ValidId(other) ensures TagOk(env, s', other) {
      CacheKeyInjective(id, other);
      assert TagOk(env, s, other);
    }
    forall other, x | ValidId(other) ensures ItemOk(env, s', other, x) {
      CacheKeyInjective(id, other);
      assert ItemOk(env, s, other, x);
    }
  }

  lemma TagIsSorted(env: Env, all: seq<Policy>, pick: Pick)
    ensures TagOf(env, all, HashOf(env.hash, SortBy(pick.sorted, all)))
  {
    assert SortOf(SortBy(pick.sorted, all), all);
  }

  /** The list `all` is fresh for the client, or its entries will be removed. */
  ghost predicate ListOk(env: Env, s: Service, id: ClientIdentity, all: seq<Policy>) {
    FreshList(env, s.store, id, all) || PendingKey(env, s.queue, CacheKey(id))
  }

  /** The bundle entries after a build: old ones of other keys and the built one. */
  lemma FinishMembers(env: Env, s: Service, key: string, all: seq<Policy>, hash: string, x: Lru.Item)
    requires x in Finish(env, s, key, all, hash).0.bundles
    ensures x in s.bundles || (x.key == key && x.etag == hash && env.archive(all) == Some(x.data))
  {
    if env.archive(all).Some? {
      Lru.PutMember(env.lru, s.bundles, Lru.Item(key, env.archive(all).value, hash, s.now + env.lru.ttl), x);
    }
  }

  lemma FinishItemOk(env: Env, s: Service, id: ClientIdentity, all: seq<Policy>, hash: string, x: Lru.Item)
    requires KeysOk(env, s) && ValidId(id) && ListOk(env, s, id, all) && TagOf(env, all, hash)
    ensures ItemOk(env, Finish(env, s, CacheKey(id), all, hash).0, id, x)
  {
    assert ItemOk(env, s, id, x);
    FinishFrame(env, s, CacheKey(id), all, hash);
    if x in Finish(env, s, CacheKey(id), all, hash).0.bundles {
      FinishMembers(env, s, CacheKey(id), all, hash, x);
    }
  }

  lemma FinishTagOk(env: Env, s: Service, id: ClientIdentity, all: seq<Policy>, hash: string)
    requires ListOk(env, s, id, all) && TagOf(env, all, hash)
    ensures Finish(env, s, CacheKey(id), all, hash).0.etag == s.etag[CacheKey(id) := hash]
    ensures TagOk(env, Finish(env, s, CacheKey(id), all, hash).0, id)
  {
    FinishFrame(env, s, CacheKey(id), all, hash);
  }

  lemma FinishKeepsKeys(env: Env, s: Service, id: ClientIdentity, all: seq<Policy>, hash: string)
    requires KeysOk(env, s) && ValidId(id) && ListOk(env, s, id, all) && TagOf(env, all, hash)
    ensures KeysOk(env, Finish(env, s, CacheKey(id), all, hash).0)
  {
    var key := CacheKey(id);
    var s' := Finish(env, s, key, all, hash).0;
    FinishFrame(env, s, key, all, hash);
    FinishTagOk(env, s, id, all, hash);
    forall x ensures ItemOk(env, s', id, x) { FinishItemOk(env, s, id, all, hash, x); }
    forall x | x in s'.bundles && x.key != key ensures x in s.bundles {
      FinishMembers(env, s, key, all, hash, x);
    }
    KeyEffectKeeps(env, s, s', id);
  }

  lemma FinishFrame(env: Env, s: Service, key: string, all: seq<Policy>, hash: string)
    ensures var s' := Finish(env, s, key, all, hash).0;
            s'.store == s.store && s'.queue == s.queue && s'.global == s.global && s'.ns == s.ns
  {
  }

  /** The state after `getGlobalPolicies` and `getNamespacePolicies`. */
  ghost function WithTiers(env: Env, s: Service, id: ClientIdentity, pick: Pick): Service {
    s.(global := Some(GlobalTier(env, s, pick)), ns := s.ns[id.ns := NamespaceTier(s, id.ns, pick)])
  }

  lemma WithTiersKeeps(env: Env, s: Service, id: ClientIdentity, pick: Pick)
    requires Coherent(env, s)
    ensures Coherent(env, WithTiers(env, s, id, pick))
  {
    var s' := WithTiers(env, s, id, pick);
    TiersOk(env, s, id, pick);
    forall other | ValidId(other) ensures TagOk(env, s', other) { assert TagOk(env, s, other); }
    forall other, x | ValidId(other) ensures ItemOk(env, s', other, x) { assert ItemOk(env, s, other, x); }
  }

  lemma BuildKeeps(env: Env, s: Service, id: ClientIdentity, pick: Pick)
    requires Coherent(env, s) && ValidId(id)
    ensures Coherent(env, Build(env, s, id, pick).0)
  {
    var s' := WithTiers(env, s, id, pick);
    WithTiersKeeps(env, s, id, pick);
    match ClientPolicies(s.store, id)
    case None =>
    case Some(c) =>
      var all := Gather(GlobalTier(env, s, pick), NamespaceTier(s, id.ns, pick), c);
      var hash := HashOf(env.hash, SortBy(pick.sorted, all));
      BuiltListOk(env, s, id, pick, c);
      TagIsSorted(env, all, pick);
      FinishFrame(env, s', CacheKey(id), all, hash);
      FinishKeepsKeys(env, s', id, all, hash);
  }

  lemma RequestKeeps(env: Env, s: Service, id: ClientIdentity, ifNoneMatch: string, pick: Pick)
    requires Coherent(env, s) && ValidId(id)
    ensures Coherent(env, GetBundle(env, s, id, ifNoneMatch, pick).0)
  {
    var key := CacheKey(id);
    if key in s.etag && ifNoneMatch != "" && ifNoneMatch == s.etag[key] {
    } else {
      var (list, hit) := Lru.Get(s.bundles, s.now, key);
      var s1 := s.(bundles := list);
      assert forall x :: x in list ==> x in s.bundles;
      LookupKeeps(env, s, s1);
      match hit
      case None => BuildKeeps(env, s1, id, pick);
      case Some(x) => HitKeeps(env, s1, id, x);
    }
  }

  lemma LookupKeeps(env: Env, s: Service, s1: Service)
    requires Coherent(env, s) && s1 == s.(bundles := s1.bundles) && forall x :: x in s1.bundles ==> x in s.bundles
    ensures Coherent(env, s1)
  {
    forall id | ValidId(id) ensures TagOk(env, s1, id) { assert TagOk(env, s, id); }
    forall id, x | ValidId(id) ensures ItemOk(env, s1, id, x) { assert ItemOk(env, s, id, x); }
  }

  lemma HitKeeps(env: Env, s: Service, id: ClientIdentity, x: Lru.Item)
    requires Coherent(env, s) && ValidId(id) && x in s.bundles && x.key == CacheKey(id)
    ensures Coherent(env, s.(etag := s.etag[CacheKey(id) := x.etag]))
  {
    var s' := s.(etag := s.etag[CacheKey(id) := x.etag]);
    assert ItemOk(env, s, id, x);
    assert TagOk(env, s', id);
    forall y ensures ItemOk(env, s', id, y) { assert ItemOk(env, s, id, y); }
    KeyEffectKeeps(env, s, s', id);
  }

  // ---- Main results ----

  /** Coherence over every run: with well-scoped objects, any policy, ETag or bundle entry
      that is not what a fresh build over the current store gives has an undelivered event
      that will remove it. */
  lemma {:induction false} CoherentRun(env: Env, acts: seq<Action>)
    requires PermittedRun(env, acts)
    ensures Coherent(env, Run(env, acts))
    decreases |acts|
  {
    if acts == [] {
      assert forall id, x :: ItemOk(env, Init(), id, x);
    } else {
      var s, a := Run(env, acts[..|acts| - 1]), acts[|acts| - 1];
      CoherentRun(env, acts[..|acts| - 1]);
      match a
      case Upsert(cr) => UpsertKeeps(env, s, cr);
      case DeleteCr(key) => DeleteKeeps(env, s, key);
      case DeliverEvent => if s.queue != [] { DeliverKeeps(env, s); }
      case Request(id, inm, pick) => RequestKeeps(env, s, id, inm, pick);
      case Advance(d) => AdvanceKeeps(env, s, d);
    }
  }

  lemma AdvanceKeeps(env: Env, s: Service, d: nat)
    requires Coherent(env, s)
    ensures Coherent(env, s.(now := s.now + d))
  {
    var s' := s.(now := s.now + d);
    forall id | ValidId(id) ensures TagOk(env, s', id) { assert TagOk(env, s, id); }
    forall id, x | ValidId(id) ensures ItemOk(env, s', id, x) { assert ItemOk(env, s, id, x); }
  }

  /** With the event queue drained every cache entry is what a fresh build gives. */
  lemma DrainedMeansFresh(env: Env, acts: seq<Action>)
    requires PermittedRun(env, acts) && Run(env, acts).queue == []
    ensures var s := Run(env, acts);
            && (s.global.Some? ==> FreshGlobal(env, s.store, s.global.value))
            && (forall ns :: ns in s.ns ==> FreshNamespace(s.store, ns, s.ns[ns]))
            && (forall id :: ValidId(id) && CacheKey(id) in s.etag ==> FreshTag(env, s.store, id, s.etag[CacheKey(id)]))
            && (forall id, x :: ValidId(id) && x in s.bundles && x.key == CacheKey(id) ==> FreshItem(env, s.store, id, x))
  {
    CoherentRun(env, acts);
    var s := Run(env, acts);
    forall id | ValidId(id) && CacheKey(id) in s.etag ensures FreshTag(env, s.store, id, s.etag[CacheKey(id)]) {
      assert TagOk(env, s, id);
    }
    forall id, x | ValidId(id) && x in s.bundles && x.key == CacheKey(id) ensures FreshItem(env, s.store, id, x) {
      assert ItemOk(env, s, id, x);
    }
  }

  // ---- Fresh builds agree with each other ----

  lemma {:induction false} ExtractPermutes(store: map<string, Cr>, a: seq<string>, b: seq<string>, keys: set<string>)
    requires Listing(a, keys) && Listing(b, keys)
    ensures multiset(Extract(store, a)) == multiset(Extract(store, b))
    decreases |a|
  {
    ListingCount(a, keys);
    ListingCount(b, keys);
    if a != [] {
      assert a[0] in a && a[0] in b;
      var k :| 0 <= k < |b| && b[k] == a[0];
      var rest := b[..k] + b[k + 1..];
      ListingTail(a, keys);
      ListingWithout(b, k, keys);
      ExtractPermutes(store, a[1..], rest, keys - {a[0]});
      ExtractOut(store, b, k);
    }
  }

  lemma ExtractOut(store: map<string, Cr>, b: seq<string>, k: nat)
    requires k < |b|
    ensures multiset(Extract(store, b)) == multiset(PoliciesOf(store, b[k])) + multiset(Extract(store, b[..k] + b[k + 1..]))
  {
    ExtractAppend(store, b[..k], b[k..]);
    ExtractAppend(store, b[..k], b[k + 1..]);
    assert b == b[..k] + b[k..] && b[k..][1..] == b[k + 1..];
  }

  lemma {:induction false} ListingCount(a: seq<string>, keys: set<string>)
    requires Listing(a, keys)
    ensures |a| == |keys|
    decreases |a|
  {
    if a == [] {
      assert keys == {};
    } else {
      ListingTail(a, keys);
      ListingCount(a[1..], keys - {a[0]});
      assert a[0] in a;
    }
  }

  lemma ListingTail(a: seq<string>, keys: set<string>)
    requires Listing(a, keys) && a != []
    ensures Listing(a[1..], keys - {a[0]})
  {
    forall k ensures k in a[1..] <==> k in keys - {a[0]} {
      if k in keys - {a[0]} {
        var i :| 0 <= i < |a| && a[i] == k;
        assert a[1..][i - 1] == k;
      }
      if k in a[1..] {
        var i :| 0 <= i < |a[1..]| && a[1..][i] == k;
        assert a[i + 1] == k;
      }
    }
  }

  lemma ListingWithout(b: seq<string>, n: nat, keys: set<string>)
    requires Listing(b, keys) && n < |b|
    ensures Listing(b[..n] + b[n + 1..], keys - {b[n]})
  {
    var rest := b[..n] + b[n + 1..];
    assert forall i :: 0 <= i < |rest| ==> rest[i] == if i < n then b[i] else b[i + 1];
    forall k ensures k in rest <==> k in keys - {b[n]} {
      if k in keys - {b[n]} {
        var i :| 0 <= i < |b| && b[i] == k;
        assert rest[if i < n then i else i - 1] == k;
      }
      if k in rest {
        var i :| 0 <= i < |rest| && rest[i] == k;
        assert b[if i < n then i else i + 1] == k;
      }
    }
  }

  /** Two fresh builds over one store hold the same policies, whatever order the index
      yields the objects in. */
  lemma FreshListsAgree(env: Env, store: map<string, Cr>, id: ClientIdentity, all: seq<Policy>, all': seq<Policy>)
    requires FreshList(env, store, id, all) && FreshList(env, store, id, all')
    ensures multiset(all) == multiset(all')
  {
    var g, n, c :| FreshGlobal(env, store, g) && FreshNamespace(store, id.ns, n)
                   && ClientPolicies(store, id) == Some(c) && all == Gather(g, n, c);
    var g', n', c' :| FreshGlobal(env, store, g') && FreshNamespace(store, id.ns, n')
                      && ClientPolicies(store, id) == Some(c') && all' == Gather(g', n', c');
    FreshGlobalsAgree(env, store, g, g');
    FreshNamespacesAgree(store, id.ns, n, n');
    GatherPermutes(g, n, c, g', n', c');
  }

  lemma FreshGlobalsAgree(env: Env, store: map<string, Cr>, g: seq<Policy>, g': seq<Policy>)
    requires FreshGlobal(env, store, g) && FreshGlobal(env, store, g')
    ensures multiset(g) == multiset(g')
  {
    var keys := GlobalKeys(env, store);
    var a :| Listing(a, keys) && g == Extract(store, a);
    var b :| Listing(b, keys) && g' == Extract(store, b);
    ExtractPermutes(store, a, b, keys);
  }

  lemma FreshNamespacesAgree(store: map<string, Cr>, ns: string, n: seq<Policy>, n': seq<Policy>)
    requires FreshNamespace(store, ns, n) && FreshNamespace(store, ns, n')
    ensures multiset(n) == multiset(n')
  {
    var keys := NamespaceKeys(store, ns);
    var a :| Listing(a, keys) && n == Extract(store, a);
    var b :| Listing(b, keys) && n' == Extract(store, b);
    ExtractPermutes(store, a, b, keys);
  }

  /** A 304 means the client is up to date. With the queue drained, a collision-free hash
      and policies without NUL bytes: if a request is answered
      "not modified", then whatever list the client's tag was computed from holds exactly
      the policies a fresh build gives now. */
  lemma NotModifiedMeansUpToDate(env: Env, acts: seq<Action>, id: ClientIdentity, tag: string, pick: Pick,
                                 held: seq<Policy>, fresh_: seq<Policy>)
    requires PermittedRun(env, acts) && Run(env, acts).queue == [] && ValidId(id) && CollisionFree(env.hash)
    requires GetBundle(env, Run(env, acts), id, tag, pick).1.NotModified?
    requires TagOf(env, held, tag) && NulFree(held)
    requires FreshList(env, Run(env, acts).store, id, fresh_) && NulFree(fresh_)
    ensures multiset(held) == multiset(fresh_)
  {
    NotModifiedTag(env, Run(env, acts), id, tag, pick);
    DrainedMeansFresh(env, acts);
    SameTagSamePolicies(env, Run(env, acts).store, id, tag, held, fresh_);
  }

  lemma NotModifiedTag(env: Env, s: Service, id: ClientIdentity, tag: string, pick: Pick)
    requires GetBundle(env, s, id, tag, pick).1.NotModified?
    ensures CacheKey(id) in s.etag && s.etag[CacheKey(id)] == tag
  {
    var (list, hit) := Lru.Get(s.bundles, s.now, CacheKey(id));
    if hit.None? { BuildNeverSaysNotModified(env, s.(bundles := list), id, pick); }
  }

  lemma BuildNeverSaysNotModified(env: Env, s: Service, id: ClientIdentity, pick: Pick)
    ensures !Build(env, s, id, pick).1.NotModified?
  {
  }

  lemma SameTagSamePolicies(env: Env, store: map<string, Cr>, id: ClientIdentity, tag: string, held: seq<Policy>, fresh_: seq<Policy>)
    requires FreshTag(env, store, id, tag) && CollisionFree(env.hash)
    requires TagOf(env, held, tag) && NulFree(held)
    requires FreshList(env, store, id, fresh_) && NulFree(fresh_)
    ensures multiset(held) == multiset(fresh_)
  {
    var all :| FreshList(env, store, id, all) && TagOf(env, all, tag);
    FreshListsAgree(env, store, id, all, fresh_);
    var sh :| SortOf(sh, held) && tag == HashOf(env.hash, sh);
    var sa :| SortOf(sa, all) && tag == HashOf(env.hash, sa);
    HashIsInjective(env.hash, sh, sa);
    NulFreeIsInvariant(fresh_, all);
    SameBytesSamePolicies(all, held, sa, sh);
  }
}
