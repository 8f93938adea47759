/** The session table as a value: what each `SessionManager` operation does to the
    session map, the per-user index, the idle timers and the `Done` channels, and
    what every run of operations keeps.

    Session objects are numbered in the order they are allocated, so `created[i]`
    is the i-th object ever made, even after its key has left the table. */
module SessionStore {
  import opened Strings

  datatype Session = Session(key: string, user: string)

  /** An idle timer in the `timers` map; `armedFor` is the object that was live
      under the key when the timer was started. */
  datatype Timer = Timer(armedFor: nat, fired: bool)

  datatype Store = Store(
    maxPerUser: int,
    created: seq<Session>,
    sessions: map<string, nat>,
    userSessions: map<string, seq<string>>,
    timers: map<string, Timer>,
    closed: seq<nat>,               // Done channels closed so far, in order
    callbacks: seq<(string, nat)>,  // timer callbacks started but not yet run, in any order
    shutdown: bool)

  datatype Op =
    | Create(key: string, user: string)
    | End(key: string)
    | ResetTimer(key: string)
    | StartTimer(key: string)
    | Fire(key: string)             // an armed timer expires and its callback starts
    | RunCallback(n: nat)           // one of the started callbacks takes the lock
    | Shutdown(order: seq<string>)  // `order` is the map iteration order

  function Empty(maxPerUser: int): Store {
    Store(maxPerUser, [], map[], map[], map[], [], [], false)
  }

  // ---- Operations ----

  function Slots(st: Store, user: string): seq<string> {
    if user in st.userSessions then st.userSessions[user] else []
  }

  /** The cap is tested only when the user already has a list. */
  predicate Rejected(st: Store, user: string) {
    user in st.userSessions && |st.userSessions[user]| >= st.maxPerUser
  }

  function DoCreate(st: Store, key: string, user: string): Store {
    if Rejected(st, user) then st
    else st.(created := st.created + [Session(key, user)],
             sessions := st.sessions[key := |st.created|],
             userSessions := st.userSessions[user := Slots(st, user) + [key]])
  }

  function Without(list: seq<string>, key: string): (r: seq<string>)
    ensures forall k :: k in r <==> k in list && k != key
    ensures |r| <= |list|
    ensures NoDup(list) ==> NoDup(r)
  {
    if list == [] then []
    else
      assert list == [list[0]] + list[1..];
      assert NoDup(list) ==> NoDup(list[1..]) && list[0] !in list[1..];
      (if list[0] != key then [list[0]] else []) + Without(list[1..], key)
  }

  ghost predicate NoDup<T>(s: seq<T>) {
    forall i, j :: 0 <= i < j < |s| ==> s[i] != s[j]
  }

  function Unlist(userSessions: map<string, seq<string>>, user: string, key: string): map<string, seq<string>> {
    if user !in userSessions then userSessions
    else
      var kept := Without(userSessions[user], key);
      if |kept| > 0 then userSessions[user := kept] else userSessions - {user}
  }

  function Cleanup(st: Store, key: string): Store
    requires key in st.sessions && st.sessions[key] < |st.created|
  {
    var id := st.sessions[key];
    st.(timers := st.timers - {key},
        closed := st.closed + [id],
        userSessions := Unlist(st.userSessions, st.created[id].user, key),
        sessions := st.sessions - {key})
  }

  /** `EndSession` and `ExpireSession`; an unknown key changes nothing. */
  function DoEnd(st: Store, key: string): Store {
    if key in st.sessions && st.sessions[key] < |st.created| then Cleanup(st, key) else st
  }

  function DoStartTimer(st: Store, key: string): Store {
    if key in st.sessions then st.(timers := st.timers[key := Timer(st.sessions[key], false)]) else st
  }

  function DoResetTimer(st: Store, key: string): Store {
    if key in st.sessions then st.(timers := st.timers - {key}) else st
  }

  function DoFire(st: Store, key: string): Store {
    if key in st.timers && !st.timers[key].fired
    then st.(timers := st.timers[key := st.timers[key].(fired := true)],
             callbacks := st.callbacks + [(key, st.timers[key].armedFor)])
    else st
  }

  /** The table once callback `n` is no longer waiting for the lock. */
  function Popped(st: Store, n: nat): Store
    requires n < |st.callbacks|
  {
    st.(callbacks := st.callbacks[..n] + st.callbacks[n + 1..])
  }

  function DoRunCallback(st: Store, n: nat): Store {
    if n >= |st.callbacks| then st else DoEnd(Popped(st, n), st.callbacks[n].0)
  }

  function CleanupAll(st: Store, order: seq<string>): Store
    decreases |order|
  {
    if order == [] then st else CleanupAll(DoEnd(st, order[0]), order[1..])
  }

  ghost predicate Lists(order: seq<string>, keys: set<string>) {
    NoDup(order) && forall k :: k in order <==> k in keys
  }

  ghost function DoShutdown(st: Store, order: seq<string>): Store {
    if Lists(order, st.sessions.Keys)
    then CleanupAll(st.(timers := map[], shutdown := true), order)
    else st
  }

  ghost function Apply(st: Store, op: Op): Store {
    match op
    case Create(key, user) => DoCreate(st, key, user)
    case End(key) => DoEnd(st, key)
    case ResetTimer(key) => DoResetTimer(st, key)
    case StartTimer(key) => DoStartTimer(st, key)
    case Fire(key) => DoFire(st, key)
    case RunCallback(n) => DoRunCallback(st, n)
    case Shutdown(order) => DoShutdown(st, order)
  }

  ghost function Run(st: Store, ops: seq<Op>): Store {
    if ops == [] then st else Apply(Run(st, ops[..|ops| - 1]), ops[|ops| - 1])
  }

  // ---- What every run keeps ----

  /** `sessions` points each key at an object made for it, whose `Done` is still
      open; no `Done` was closed twice; every timer key is live. */
  ghost predicate Safe(st: Store) {
    && (forall k :: k in st.sessions ==>
          st.sessions[k] < |st.created| && st.created[st.sessions[k]].key == k && st.sessions[k] !in st.closed)
    && NoDup(st.closed)
    && (forall id :: id in st.closed ==> id < |st.created|)
    && st.timers.Keys <= st.sessions.Keys
  }

  /** Every live session is listed under its owner and no list is longer than the cap. */
  ghost predicate Capped(st: Store) {
    && (forall k :: k in st.sessions && st.sessions[k] < |st.created| ==>
          k in Slots(st, st.created[st.sessions[k]].user))
    && (forall u :: u in st.userSessions ==> 1 <= |st.userSessions[u]| <= st.maxPerUser)
  }

  lemma EndKeeps(st: Store, key: string)
    requires Safe(st)
    ensures var r := DoEnd(st, key);
            Safe(r) && r.created == st.created && r.maxPerUser == st.maxPerUser && r.shutdown == st.shutdown
    ensures DoEnd(st, key).sessions == st.sessions - {key}
    ensures DoEnd(st, key).closed == st.closed + if key in st.sessions then [st.sessions[key]] else []
  {
  }

  lemma EndKeepsCap(st: Store, key: string)
    requires Safe(st) && Capped(st)
    ensures Capped(DoEnd(st, key))
  {
    var r := DoEnd(st, key);
    EndKeeps(st, key);
    if key in st.sessions {
      forall k | k in r.sessions ensures k in Slots(r, r.created[r.sessions[k]].user) {
        assert k in st.sessions && r.sessions[k] == st.sessions[k];
        EndSlots(st, key, r.created[r.sessions[k]].user, k);
      }
    }
  }

  lemma {:induction false} CleanupAllKeeps(st: Store, order: seq<string>)
    requires Safe(st)
    ensures var r := CleanupAll(st, order);
            Safe(r) && r.created == st.created && r.maxPerUser == st.maxPerUser && r.shutdown == st.shutdown
    ensures forall k :: k in CleanupAll(st, order).sessions <==> k in st.sessions && k !in order
    decreases |order|
  {
    if order != [] {
      EndKeeps(st, order[0]);
      CleanupAllKeeps(DoEnd(st, order[0]), order[1..]);
      assert order == [order[0]] + order[1..];
    }
  }

  lemma {:induction false} CleanupAllKeepsCap(st: Store, order: seq<string>)
    requires Safe(st) && Capped(st)
    ensures Capped(CleanupAll(st, order))
    decreases |order|
  {
    if order != [] {
      EndKeeps(st, order[0]);
      EndKeepsCap(st, order[0]);
      CleanupAllKeepsCap(DoEnd(st, order[0]), order[1..]);
    }
  }

  lemma {:induction false} CleanupAllCloses(st: Store, order: seq<string>)
    requires Safe(st)
    ensures forall id :: id in st.closed ==> id in CleanupAll(st, order).closed
    ensures forall k :: k in order && k in st.sessions ==> st.sessions[k] in CleanupAll(st, order).closed
    decreases |order|
  {
    if order != [] {
      EndKeeps(st, order[0]);
      CleanupAllCloses(DoEnd(st, order[0]), order[1..]);
      assert order == [order[0]] + order[1..];
    }
  }

  lemma StepKeeps(st: Store, op: Op)
    requires Safe(st)
    ensures Safe(Apply(st, op)) && Apply(st, op).maxPerUser == st.maxPerUser
  {
    match op
    case Create(key, user) => CreateKeeps(st, key, user);
    case End(key) => EndKeeps(st, key);
    case RunCallback(n) => if n < |st.callbacks| { EndKeeps(Popped(st, n), st.callbacks[n].0); }
    case Shutdown(order) => CleanupAllKeeps(st.(timers := map[], shutdown := true), order);
    case _ =>
  }

  lemma CreateKeeps(st: Store, key: string, user: string)
    requires Safe(st)
    ensures Safe(DoCreate(st, key, user))
    ensures st.maxPerUser >= 1 && Capped(st) ==> Capped(DoCreate(st, key, user))
  {
  }

  lemma StepKeepsCap(st: Store, op: Op)
    requires Safe(st) && Capped(st) && st.maxPerUser >= 1
    ensures Capped(Apply(st, op))
  {
    match op
    case Create(key, user) => CreateKeeps(st, key, user);
    case End(key) => EndKeepsCap(st, key);
    case RunCallback(n) => if n < |st.callbacks| { EndKeepsCap(Popped(st, n), st.callbacks[n].0); }
    case Shutdown(order) => CleanupAllKeepsCap(st.(timers := map[], shutdown := true), order);
    case _ =>
  }

  /** Teardown safety: in every run, from the empty table and whatever keys are
      reused, no `Done` is closed twice, a session in the table is open, and every
      timer key is in the table. */
  lemma {:induction false} TeardownSafety(maxPerUser: int, ops: seq<Op>)
    ensures Safe(Run(Empty(maxPerUser), ops))
    ensures Run(Empty(maxPerUser), ops).maxPerUser == maxPerUser
    ensures maxPerUser >= 1 ==> Capped(Run(Empty(maxPerUser), ops))
    decreases |ops|
  {
    if ops != [] {
      TeardownSafety(maxPerUser, ops[..|ops| - 1]);
      var st := Run(Empty(maxPerUser), ops[..|ops| - 1]);
      StepKeeps(st, ops[|ops| - 1]);
      if maxPerUser >= 1 { StepKeepsCap(st, ops[|ops| - 1]); }
    }
  }

  /** After `Shutdown` the session and timer maps are empty and every session it
      found has been closed. */
  lemma ShutdownEmptiesEverything(st: Store, order: seq<string>)
    requires Safe(st) && Lists(order, st.sessions.Keys)
    ensures var r := Apply(st, Shutdown(order));
            && r.sessions == map[] && r.timers == map[] && r.shutdown
            && forall k :: k in st.sessions ==> st.sessions[k] in r.closed
  {
    var st' := st.(timers := map[], shutdown := true);
    CleanupAllKeeps(st', order);
    CleanupAllCloses(st', order);
    var r := Apply(st, Shutdown(order));
    assert r.sessions.Keys == {};
    assert r.timers.Keys == {};
  }

  // ---- The per-user cap ----

  ghost function LiveOf(st: Store, user: string): set<string> {
    set k | k in st.sessions && st.sessions[k] < |st.created| && st.created[st.sessions[k]].user == user
  }

  lemma ElementsBound<T>(s: seq<T>)
    ensures |set x | x in s| <= |s|
    ensures NoDup(s) ==> |set x | x in s| == |s|
  {
    if s != [] {
      var t := s[..|s| - 1];
      ElementsBound(t);
      assert (set x | x in s) == (set x | x in t) + {s[|s| - 1]};
      if NoDup(s) { assert s[|s| - 1] !in t; }
    }
  }

  lemma SubsetBound<T>(a: set<T>, b: set<T>)
    requires a <= b
    ensures |a| <= |b|
  {
    assert b == a + (b - a);
  }

  /** With a positive cap no run, even one that reuses keys, gives a user more live
      sessions than the cap; with a cap of zero or less the first `CreateSession`
      already breaks it. */
  lemma CapHoldsExactlyWhenPositive(maxPerUser: int)
    ensures (forall ops, user :: |LiveOf(Run(Empty(maxPerUser), ops), user)| <= maxPerUser) <==> maxPerUser >= 1
  {
    if maxPerUser >= 1 {
      forall ops: seq<Op>, user ensures |LiveOf(Run(Empty(maxPerUser), ops), user)| <= maxPerUser {
        var st := Run(Empty(maxPerUser), ops);
        TeardownSafety(maxPerUser, ops);
        var slots := Slots(st, user);
        SubsetBound(LiveOf(st, user), set x | x in slots);
        ElementsBound(slots);
      }
    } else {
      var ops := [Create("k", "u")];
      var st := Run(Empty(maxPerUser), ops);
      assert Run(Empty(maxPerUser), []) == Empty(maxPerUser);
      assert ops[..0] == [];
      assert st == DoCreate(Empty(maxPerUser), "k", "u");
      assert LiveOf(st, "u") == {"k"};
      assert |LiveOf(Run(Empty(maxPerUser), ops), "u")| == 1;
    }
  }

  // ---- The inverse index ----

  /** `userSessions` is exactly the inverse of `sessions`: no empty list, no
      duplicate, and a key is listed under a user precisely when it is live and belongs to that user. */
  ghost predicate Inverse(st: Store) {
    && (forall u :: u in st.userSessions ==> |st.userSessions[u]| >= 1 && NoDup(st.userSessions[u]))
    && (forall u, k :: k in Slots(st, u) <==> k in LiveOf(st, u))
  }

  ghost predicate Exact(st: Store) {
    Safe(st) && Inverse(st)
  }

  lemma EndKeepsInverse(st: Store, key: string)
    requires Exact(st)
    ensures Exact(DoEnd(st, key))
  {
    EndKeeps(st, key);
    var r := DoEnd(st, key);
    if key in st.sessions {
      var owner := st.created[st.sessions[key]].user;
      assert key in LiveOf(st, owner);
      forall u, k ensures k in Slots(r, u) <==> k in LiveOf(r, u) {
        EndSlots(st, key, u, k);
        EndLive(st, key, u, k);
        assert k in Slots(st, u) <==> k in LiveOf(st, u);
        assert key in LiveOf(st, u) ==> u == owner;
      }
    }
  }

  lemma EndSlots(st: Store, key: string, u: string, k: string)
    requires Safe(st) && key in st.sessions
    ensures k in Slots(DoEnd(st, key), u)
            <==> k in Slots(st, u) && !(u == st.created[st.sessions[key]].user && k == key)
  {
  }

  lemma EndLive(st: Store, key: string, u: string, k: string)
    requires Safe(st)
    ensures k in LiveOf(DoEnd(st, key), u) <==> k in LiveOf(st, u) && k != key
  {
  }

  lemma {:induction false} CleanupAllKeepsInverse(st: Store, order: seq<string>)
    requires Exact(st)
    ensures Exact(CleanupAll(st, order))
    decreases |order|
  {
    if order != [] {
      EndKeepsInverse(st, order[0]);
      CleanupAllKeepsInverse(DoEnd(st, order[0]), order[1..]);
    }
  }

  /** A successful creation keeps the index exact if and only if its key was not live. */
  lemma CreateKeepsInverseExactlyOnFreshKey(st: Store, key: string, user: string)
    requires Exact(st) && !Rejected(st, user)
    ensures Inverse(DoCreate(st, key, user)) <==> key !in st.sessions
  {
    var r := DoCreate(st, key, user);
    if key !in st.sessions {
      forall u, k ensures k in Slots(r, u) <==> k in LiveOf(r, u) {
        assert k in Slots(st, u) <==> k in LiveOf(st, u);
      }
      assert key !in LiveOf(st, user);
      assert key !in Slots(st, user);
    } else {
      var owner := st.created[st.sessions[key]].user;
      assert key in LiveOf(st, owner);
      assert key in Slots(st, owner);
      if owner == user {
        var list := st.userSessions[user];
        var i :| 0 <= i < |list| && list[i] == key;
        assert r.userSessions[user][i] == r.userSessions[user][|list|];
      } else {
        assert key in Slots(r, owner);
        assert key !in LiveOf(r, owner);
      }
    }
  }

  /** Does this operation create a session under a key that is live? */
  ghost predicate Reuses(st: Store, op: Op) {
    op.Create? && !Rejected(st, op.user) && op.key in st.sessions
  }

  lemma SameTablesSameIndex(st: Store, r: Store)
    requires Exact(st) && Safe(r)
    requires r.sessions == st.sessions && r.created == st.created && r.userSessions == st.userSessions
    ensures Exact(r)
  {
    assert forall u :: LiveOf(r, u) == LiveOf(st, u);
    assert forall u :: Slots(r, u) == Slots(st, u);
  }

  lemma CallbackKeepsInverse(st: Store, n: nat)
    requires Exact(st)
    ensures Exact(Apply(st, RunCallback(n)))
  {
    if n < |st.callbacks| {
      SameTablesSameIndex(st, Popped(st, n));
      EndKeepsInverse(Popped(st, n), st.callbacks[n].0);
    }
  }

  lemma ShutdownKeepsInverse(st: Store, order: seq<string>)
    requires Exact(st)
    ensures Exact(Apply(st, Shutdown(order)))
  {
    var st' := st.(timers := map[], shutdown := true);
    SameTablesSameIndex(st, st');
    CleanupAllKeepsInverse(st', order);
  }

  lemma StepKeepsInverse(st: Store, op: Op)
    requires Exact(st)
    ensures Exact(Apply(st, op)) <==> !Reuses(st, op)
  {
    StepKeeps(st, op);
    match op
    case Create(key, user) =>
      if !Rejected(st, user) { CreateKeepsInverseExactlyOnFreshKey(st, key, user); }
    case End(key) => EndKeepsInverse(st, key);
    case RunCallback(n) => CallbackKeepsInverse(st, n);
    case Shutdown(order) => ShutdownKeepsInverse(st, order);
    case ResetTimer(key) => SameTablesSameIndex(st, Apply(st, op));
    case StartTimer(key) => SameTablesSameIndex(st, Apply(st, op));
    case Fire(key) => SameTablesSameIndex(st, Apply(st, op));
  }

  ghost predicate ExactSoFar(maxPerUser: int, ops: seq<Op>) {
    if ops == [] then Exact(Empty(maxPerUser))
    else ExactSoFar(maxPerUser, ops[..|ops| - 1]) && Exact(Run(Empty(maxPerUser), ops))
  }

  ghost predicate ReuseFree(maxPerUser: int, ops: seq<Op>) {
    ops == [] ||
    var before := ops[..|ops| - 1];
    ReuseFree(maxPerUser, before) && !Reuses(Run(Empty(maxPerUser), before), ops[|ops| - 1])
  }

  /** The index is exact at every point of a run if and only if no creation in it
      hit a live key. */
  lemma {:induction false} IndexExactExactlyWithoutReuse(maxPerUser: int, ops: seq<Op>)
    ensures ExactSoFar(maxPerUser, ops) <==> ReuseFree(maxPerUser, ops)
    ensures ExactSoFar(maxPerUser, ops) ==> Exact(Run(Empty(maxPerUser), ops))
    decreases |ops|
  {
    if ops != [] {
      var before := ops[..|ops| - 1];
      IndexExactExactlyWithoutReuse(maxPerUser, before);
      var st := Run(Empty(maxPerUser), before);
      if Exact(st) { StepKeepsInverse(st, ops[|ops| - 1]); }
    }
  }

  /** Total length of all the per-user lists. */
  ghost function TotalSlots(userSessions: map<string, seq<string>>): nat {
    if userSessions == map[] then 0
    else var u :| u in userSessions; |userSessions[u]| + TotalSlots(userSessions - {u})
  }

  lemma {:induction false} TotalSlotsIsKeyCount(us: map<string, seq<string>>, keys: set<string>)
    requires forall u :: u in us ==> NoDup(us[u])
    requires forall u, v, k :: u in us && v in us && k in us[u] && k in us[v] ==> u == v
    requires forall k :: k in keys <==> exists u :: u in us && k in us[u]
    ensures TotalSlots(us) == |keys|
    decreases |us|
  {
    if us == map[] {
      assert keys == {};
    } else {
      var u :| u in us && TotalSlots(us) == |us[u]| + TotalSlots(us - {u});
      var mine := set k | k in us[u];
      var rest := us - {u};
      ElementsBound(us[u]);
      forall k ensures k in keys - mine <==> exists v :: v in rest && k in rest[v] {
        if k in keys - mine {
          var v :| v in us && k in us[v];
          assert v in rest && k in rest[v];
        }
      }
      TotalSlotsIsKeyCount(rest, keys - mine);
      forall k | k in mine ensures k in keys { assert u in us && k in us[u]; }
      assert |keys - mine| == |keys| - |mine|;
    }
  }

  /** When the index is exact its list lengths add up to the number of sessions. */
  lemma ListLengthsAddUp(st: Store)
    requires Exact(st)
    ensures TotalSlots(st.userSessions) == |st.sessions|
  {
    forall u, v, k | u in st.userSessions && v in st.userSessions && k in st.userSessions[u] && k in st.userSessions[v]
      ensures u == v
    {
      assert k in Slots(st, u) && k in Slots(st, v);
      assert k in LiveOf(st, u) && k in LiveOf(st, v);
    }
    forall k ensures k in st.sessions.Keys <==> exists u :: u in st.userSessions && k in st.userSessions[u] {
      if k in st.sessions {
        var u := st.created[st.sessions[k]].user;
        assert k in LiveOf(st, u);
        assert k in Slots(st, u);
      }
      if u :| u in st.userSessions && k in st.userSessions[u] {
        assert k in Slots(st, u);
        assert k in LiveOf(st, u);
      }
    }
    TotalSlotsIsKeyCount(st.userSessions, st.sessions.Keys);
  }

  // ---- Late timer callbacks ----

  /** The key was never given to two objects. */
  ghost predicate NeverReused(st: Store, key: string) {
    forall i, j :: 0 <= i < j < |st.created| && st.created[i].key == key ==> st.created[j].key != key
  }

  /** Timers and started callbacks name an object that was created under their key. */
  ghost predicate TimersNameTheirKey(st: Store) {
    && (forall k :: k in st.timers ==> st.timers[k].armedFor < |st.created| && st.created[st.timers[k].armedFor].key == k)
    && (forall c :: c in st.callbacks ==> c.1 < |st.created| && st.created[c.1].key == c.0)
  }

  lemma EndOnlyDropsTimers(st: Store, key: string)
    ensures DoEnd(st, key).timers.Keys <= st.timers.Keys && DoEnd(st, key).callbacks == st.callbacks
    ensures forall k :: k in DoEnd(st, key).timers ==> DoEnd(st, key).timers[k] == st.timers[k]
    ensures DoEnd(st, key).created == st.created
  {
  }

  lemma {:induction false} CleanupAllOnlyDropsTimers(st: Store, order: seq<string>)
    ensures var r := CleanupAll(st, order);
            r.timers.Keys <= st.timers.Keys && r.callbacks == st.callbacks && r.created == st.created
    ensures var r := CleanupAll(st, order); forall k :: k in r.timers ==> r.timers[k] == st.timers[k]
    decreases |order|
  {
    if order != [] {
      EndOnlyDropsTimers(st, order[0]);
      CleanupAllOnlyDropsTimers(DoEnd(st, order[0]), order[1..]);
    }
  }

  lemma StepKeepsTimersNamed(st: Store, op: Op)
    requires Safe(st) && TimersNameTheirKey(st)
    ensures TimersNameTheirKey(Apply(st, op))
  {
    match op
    case End(key) => EndOnlyDropsTimers(st, key);
    case RunCallback(n) =>
      if n < |st.callbacks| { EndOnlyDropsTimers(Popped(st, n), st.callbacks[n].0); }
    case Shutdown(order) =>
      CleanupAllOnlyDropsTimers(st.(timers := map[], shutdown := true), order);
    case Create(key, user) =>
    case StartTimer(key) =>
    case Fire(key) =>
    case ResetTimer(key) =>
  }

  lemma {:induction false} RunKeepsTimersNamed(maxPerUser: int, ops: seq<Op>)
    ensures TimersNameTheirKey(Run(Empty(maxPerUser), ops))
    decreases |ops|
  {
    if ops != [] {
      RunKeepsTimersNamed(maxPerUser, ops[..|ops| - 1]);
      TeardownSafety(maxPerUser, ops[..|ops| - 1]);
      StepKeepsTimersNamed(Run(Empty(maxPerUser), ops[..|ops| - 1]), ops[|ops| - 1]);
    }
  }

  /** `sessions` points each key at the newest object made for it. */
  ghost predicate Newest(st: Store) {
    forall k, j :: k in st.sessions && st.sessions[k] < j < |st.created| ==> st.created[j].key != k
  }

  lemma StepKeepsNewest(st: Store, op: Op)
    requires Safe(st) && Newest(st)
    ensures Newest(Apply(st, op))
  {
    match op
    case End(key) => EndKeeps(st, key);
    case RunCallback(n) => if n < |st.callbacks| { EndKeeps(Popped(st, n), st.callbacks[n].0); }
    case Shutdown(order) =>
      if Lists(order, st.sessions.Keys) { CleanupAllKeeps(st.(timers := map[], shutdown := true), order); }
    case _ =>
  }

  lemma {:induction false} RunKeepsNewest(maxPerUser: int, ops: seq<Op>)
    ensures Newest(Run(Empty(maxPerUser), ops))
    decreases |ops|
  {
    if ops != [] {
      RunKeepsNewest(maxPerUser, ops[..|ops| - 1]);
      TeardownSafety(maxPerUser, ops[..|ops| - 1]);
      StepKeepsNewest(Run(Empty(maxPerUser), ops[..|ops| - 1]), ops[|ops| - 1]);
    }
  }

  /** No session was created under `key` after object `id`. */
  ghost predicate NoSuccessor(st: Store, key: string, id: nat) {
    forall j :: id < j < |st.created| ==> st.created[j].key != key
  }

  /** In every run and for every started timer callback: when its key is no longer in
      the table it changes nothing but the callback queue; when the key is live it ends
      the session under it, which is the session its timer was armed for if and only if
      no session was created under that key since. */
  lemma CallbackEndsItsOwnExactly(maxPerUser: int, ops: seq<Op>, n: nat)
    requires n < |Run(Empty(maxPerUser), ops).callbacks|
    ensures var st := Run(Empty(maxPerUser), ops);
            var (key, armedFor) := st.callbacks[n];
            if key in st.sessions
            then Apply(st, RunCallback(n)) == DoEnd(Popped(st, n), key)
                 && (st.sessions[key] == armedFor <==> NoSuccessor(st, key, armedFor))
            else Apply(st, RunCallback(n)) == Popped(st, n)
  {
    var st := Run(Empty(maxPerUser), ops);
    RunKeepsTimersNamed(maxPerUser, ops);
    RunKeepsNewest(maxPerUser, ops);
    TeardownSafety(maxPerUser, ops);
    assert st.callbacks[n] in st.callbacks;
  }

  function ReuseRun(): seq<Op> {
    [Create("k", "u"), StartTimer("k"), Fire("k"), End("k"), Create("k", "u")]
  }

  /** With a reused key the property fails: the old session's callback ends the new
      session, which it was not armed for. */
  lemma ReusedKeyLetsOldTimerEndNewSession()
    ensures var st := Run(Empty(1), ReuseRun());
            && st.callbacks == [("k", 0)] && "k" in st.sessions && st.sessions["k"] == 1
            && Apply(st, RunCallback(0)).closed == [0, 1]
  {
    var ops := ReuseRun();
    assert ops[..4][..3][..2][..1][..0] == [];
    var s0 := Empty(1);
    var s1 := Apply(s0, ops[0]);
    var s2 := Apply(s1, ops[1]);
    var s3 := Apply(s2, ops[2]);
    var s4 := Apply(s3, ops[3]);
    assert Without(["k"], "k") == [];
    assert Run(s0, ops[..1]) == s1 by { assert ops[..1][..0] == []; }
    assert Run(s0, ops[..2]) == s2 by { assert ops[..2][..1] == ops[..1]; }
    assert Run(s0, ops[..3]) == s3 by { assert ops[..3][..2] == ops[..2]; }
    assert Run(s0, ops[..4]) == s4 by { assert ops[..4][..3] == ops[..3]; }
    assert s4.userSessions == map[];
    assert Run(s0, ops) == Apply(s4, ops[4]);
  }
}
