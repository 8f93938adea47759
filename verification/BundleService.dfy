/** The bundle service as a step system: AuthorizationPolicy objects change in the
    informer store, their events are delivered later and invalidate the caches, and
    requests build bundles through those caches in between. A build is one step. */
module BundleService {
  import opened Strings
  import opened Identity
  import opened Policies
  import Lru = BundleLru

  /** An AuthorizationPolicy object; `policies` is None when it cannot be converted. */
  datatype Cr = Cr(id: ClientIdentity, scope: string, policies: Option<seq<Policy>>)

  /** What the service is configured with: its hash, its archive builder (None when the
      build fails or the bundle is too large), its namespace and its bundle cache. */
  datatype Env = Env(hash: Hash, archive: seq<Policy> -> Option<string>, serviceNs: string, lru: Lru.Config)

  datatype Service = Service(
    now: int,
    store: map<string, Cr>,            // the informer's store, by ns/name
    queue: seq<Cr>,                    // events not delivered yet, oldest first
    global: Option<seq<Policy>>,       // policy cache
    ns: map<string, seq<Policy>>,
    etag: map<string, string>,
    bundles: seq<Lru.Item>)

  /** Orders the libraries are free to choose: of the indexer's results and of the sort. */
  datatype Pick = Pick(global: seq<string>, ns: seq<string>, sorted: seq<Policy>)

  datatype Action =
    | Upsert(cr: Cr)
    | DeleteCr(key: string)
    | DeliverEvent
    | Request(id: ClientIdentity, ifNoneMatch: string, pick: Pick)
    | Advance(d: nat)

  datatype Reply = NotModified(etag: string) | Bundle(data: string, etag: string) | Error

  // ---- Lookups in the store ----

  function Scope(cr: Cr): string {
    if cr.scope == "" then "client" else cr.scope
  }

  predicate IsGlobal(env: Env, cr: Cr) {
    Scope(cr) == "global" && cr.id.ns == env.serviceNs
  }

  predicate IsNamespace(cr: Cr, ns: string) {
    Scope(cr) == "namespace" && cr.id.ns == ns
  }

  ghost function GlobalKeys(env: Env, store: map<string, Cr>): set<string> {
    set k | k in store && IsGlobal(env, store[k])
  }

  ghost function NamespaceKeys(store: map<string, Cr>, ns: string): set<string> {
    set k | k in store && IsNamespace(store[k], ns)
  }

  function PoliciesOf(store: map<string, Cr>, key: string): seq<Policy> {
    if key in store && store[key].policies.Some? then store[key].policies.value else []
  }

  /** `extractPolicies` over objects in a given order. */
  function Extract(store: map<string, Cr>, order: seq<string>): seq<Policy> {
    if order == [] then [] else PoliciesOf(store, order[0]) + Extract(store, order[1..])
  }

  lemma {:induction false} ExtractAppend(store: map<string, Cr>, a: seq<string>, b: seq<string>)
    ensures Extract(store, a + b) == Extract(store, a) + Extract(store, b)
    decreases |a|
  {
    if a == [] {
      assert a + b == b;
    } else {
      assert (a + b)[1..] == a[1..] + b;
      ExtractAppend(store, a[1..], b);
    }
  }

  ghost predicate Listing(order: seq<string>, keys: set<string>) {
    (forall i, j :: 0 <= i < j < |order| ==> order[i] != order[j]) && forall k :: k in order <==> k in keys
  }

  ghost function Ordered(order: seq<string>, keys: set<string>): (r: seq<string>)
    ensures Listing(r, keys)
  {
    if Listing(order, keys) then order
    else
      var r := SortedKeys(keys);
      assert forall i, j :: 0 <= i < j < |r| ==> r[i] != r[j] by {
        forall i, j | 0 <= i < j < |r| ensures r[i] != r[j] { LessTrichotomy(r[i], r[j]); }
      }
      r
  }

  /** `getClientPolicies`: whatever object is stored under the client's own key; None when
      it cannot be converted. */
  function ClientPolicies(store: map<string, Cr>, id: ClientIdentity): Option<seq<Policy>> {
    if CacheKey(id) in store then store[CacheKey(id)].policies else Some([])
  }

  // ---- Requests ----

  /** `getGlobalPolicies`: cached, or extracted and cached. */
  ghost function GlobalTier(env: Env, s: Service, pick: Pick): seq<Policy> {
    if s.global.Some? then s.global.value else Extract(s.store, Ordered(pick.global, GlobalKeys(env, s.store)))
  }

  ghost function NamespaceTier(s: Service, ns: string, pick: Pick): seq<Policy> {
    if ns in s.ns then s.ns[ns] else Extract(s.store, Ordered(pick.ns, NamespaceKeys(s.store, ns)))
  }

  ghost function SortBy(sorted: seq<Policy>, all: seq<Policy>): (r: seq<Policy>)
    ensures SortOf(r, all)
  {
    if SortOf(sorted, all) then sorted else Sort(all)
  }

  /** Sets the ETag, archives the gathered list and caches the bundle. */
  function Finish(env: Env, s: Service, key: string, all: seq<Policy>, hash: string): (Service, Reply) {
    var s' := s.(etag := s.etag[key := hash]);
    match env.archive(all)
    case None => (s', Error)
    case Some(data) =>
      (s'.(bundles := Lru.Set(env.lru, s'.bundles, s'.now, key, data, hash)), Bundle(data, hash))
  }

  ghost function Build(env: Env, s: Service, id: ClientIdentity, pick: Pick): (Service, Reply) {
    var g := GlobalTier(env, s, pick);
    var n := NamespaceTier(s, id.ns, pick);
    var s' := s.(global := Some(g), ns := s.ns[id.ns := n]);
    match ClientPolicies(s.store, id)
    case None => (s', Error)
    case Some(c) =>
      var all := Gather(g, n, c);
      Finish(env, s', CacheKey(id), all, HashOf(env.hash, SortBy(pick.sorted, all)))
  }

  ghost function GetBundle(env: Env, s: Service, id: ClientIdentity, ifNoneMatch: string, pick: Pick): (Service, Reply) {
    var key := CacheKey(id);
    if key in s.etag && ifNoneMatch != "" && ifNoneMatch == s.etag[key] then (s, NotModified(s.etag[key]))
    else
      var (list, hit) := Lru.Get(s.bundles, s.now, key);
      var s1 := s.(bundles := list);
      match hit
      case Some(x) => (s1.(etag := s1.etag[key := x.etag]), Bundle(x.data, x.etag))
      case None => Build(env, s1, id, pick)
  }

  // ---- Events ----

  predicate KillsGlobal(env: Env, ev: Cr) {
    IsGlobal(env, ev)
  }

  predicate KillsNamespace(ev: Cr, ns: string) {
    IsNamespace(ev, ns)
  }

  /** Does delivering this event remove the ETag and bundle stored under `key`? */
  predicate KillsKey(env: Env, ev: Cr, key: string) {
    IsGlobal(env, ev) || Scope(ev) == "namespace" || (Scope(ev) == "client" && CacheKey(ev.id) == key)
  }

  /** `Watcher.invalidate`. */
  function Invalidate(env: Env, s: Service, ev: Cr): Service {
    if Scope(ev) == "global" then
      if ev.id.ns != env.serviceNs then s else s.(global := None, etag := map[], bundles := [])
    else if Scope(ev) == "namespace" then s.(ns := s.ns - {ev.id.ns}, etag := map[], bundles := [])
    else if Scope(ev) == "client" then
      s.(etag := s.etag - {CacheKey(ev.id)}, bundles := Lru.Remove(s.bundles, CacheKey(ev.id)))
    else s
  }

  /** Delivering an event removes exactly the entries it kills and changes nothing else. */
  lemma InvalidateRemovesExactly(env: Env, s: Service, ev: Cr)
    ensures var r := Invalidate(env, s, ev);
            && r.store == s.store && r.queue == s.queue && r.now == s.now
            && r.global == (if KillsGlobal(env, ev) then None else s.global)
            && (forall ns :: ns in r.ns <==> ns in s.ns && !KillsNamespace(ev, ns))
            && (forall ns :: ns in r.ns ==> r.ns[ns] == s.ns[ns])
            && (forall key :: key in r.etag <==> key in s.etag && !KillsKey(env, ev, key))
            && (forall key :: key in r.etag ==> r.etag[key] == s.etag[key])
            && (forall x :: x in r.bundles <==> x in s.bundles && !KillsKey(env, ev, x.key))
  {
    if Scope(ev) == "client" {
      Lru.RemoveKeepsOthers(s.bundles, CacheKey(ev.id));
    }
  }

  ghost function Next(env: Env, s: Service, a: Action): Service {
    match a
    case Upsert(cr) => s.(store := s.store[CacheKey(cr.id) := cr], queue := s.queue + [cr])
    case DeleteCr(key) =>
      if key in s.store then s.(store := s.store - {key}, queue := s.queue + [s.store[key]]) else s
    case DeliverEvent => if s.queue == [] then s else Invalidate(env, s.(queue := s.queue[1..]), s.queue[0])
    case Request(id, ifNoneMatch, pick) => GetBundle(env, s, id, ifNoneMatch, pick).0
    case Advance(d) => s.(now := s.now + d)
  }

  function Init(): Service {
    Service(0, map[], [], None, map[], map[], [])
  }

  ghost function Run(env: Env, acts: seq<Action>): Service {
    if acts == [] then Init() else Next(env, Run(env, acts[..|acts| - 1]), acts[|acts| - 1])
  }

  // ---- What invalidation reaches ----

  /** The object influences builds for this client: through its tier, or because it is
      stored under the client's own key. */
  predicate Affects(env: Env, cr: Cr, id: ClientIdentity) {
    IsGlobal(env, cr) || IsNamespace(cr, id.ns) || cr.id == id
  }

  /** Delivering `ev` removes every cache entry that `cr` influences. */
  ghost predicate Covers(env: Env, ev: Cr, cr: Cr) {
    && (IsGlobal(env, cr) ==> KillsGlobal(env, ev))
    && (forall ns :: IsNamespace(cr, ns) ==> KillsNamespace(ev, ns))
    && (forall id :: ValidId(id) && Affects(env, cr, id) ==> KillsKey(env, ev, CacheKey(id)))
  }

  /** A scope the watcher knows, and a global object only in the service namespace. */
  predicate WellScoped(env: Env, cr: Cr) {
    Scope(cr) == "client" || Scope(cr) == "namespace" || IsGlobal(env, cr)
  }

  /** An object's own event removes everything it influences exactly when it is well
      scoped: a global object outside the service namespace, or one with a scope the
      watcher does not know, is still served to the client of the same name. */
  lemma OwnEventCoversExactlyWhenWellScoped(env: Env, cr: Cr)
    requires ValidId(cr.id)
    ensures Covers(env, cr, cr) <==> WellScoped(env, cr)
  {
    if Covers(env, cr, cr) {
      assert Affects(env, cr, cr.id);
    }
    if WellScoped(env, cr) {
      forall id | ValidId(id) && Affects(env, cr, id) ensures KillsKey(env, cr, CacheKey(id)) {}
    }
  }

  /** An update's event, which carries the new object only, removes everything the old
      object influenced exactly when the scope is kept or the old one was a client object. */
  lemma UpdateEventCoversExactly(env: Env, old_: Cr, new_: Cr)
    requires ValidId(old_.id) && new_.id == old_.id && WellScoped(env, old_) && WellScoped(env, new_)
    ensures Covers(env, new_, old_) <==> Scope(old_) == "client" || Scope(new_) == Scope(old_)
  {
    if Covers(env, new_, old_) {
      assert Scope(old_) == "namespace" ==> IsNamespace(old_, old_.id.ns);
      assert IsNamespace(old_, old_.id.ns) ==> KillsNamespace(new_, old_.id.ns);
    }
    if Scope(old_) == "client" || Scope(new_) == Scope(old_) {
      forall id | ValidId(id) && Affects(env, old_, id) ensures KillsKey(env, new_, CacheKey(id)) {}
    }
  }
}
