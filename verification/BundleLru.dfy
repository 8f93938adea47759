/** The bundle cache: at most `maxEntries` bundles, least recently used first out, each
    valid for `ttl`. The recency list is the value; its front is the most recent. */
module BundleLru {
  import opened Strings

  datatype Item = Item(key: string, data: string, etag: string, expires: int)

  datatype Config = Config(maxEntries: nat, ttl: int)

  const DEFAULT_MAX_ENTRIES := 100
  const DEFAULT_TTL := 60_000_000_000

  /** `NewBundleCache` replaces settings that are not positive. */
  function NewConfig(maxEntries: int, ttl: int): (c: Config)
    ensures c.maxEntries >= 1 && c.ttl >= 1
  {
    Config(if maxEntries <= 0 then DEFAULT_MAX_ENTRIES else maxEntries, if ttl <= 0 then DEFAULT_TTL else ttl)
  }

  ghost predicate Distinct(s: seq<Item>) {
    forall i, j :: 0 <= i < j < |s| ==> s[i].key != s[j].key
  }

  predicate Holds(s: seq<Item>, key: string) {
    exists i :: 0 <= i < |s| && s[i].key == key
  }

  function Find(s: seq<Item>, key: string): (r: Option<Item>)
    ensures r.Some? <==> Holds(s, key)
    ensures r.Some? ==> r.value in s && r.value.key == key
  {
    if s == [] then None
    else if s[0].key == key then Some(s[0])
    else
      assert s == [s[0]] + s[1..];
      HoldsTail(s, key);
      Find(s[1..], key)
  }

  lemma HoldsTail(s: seq<Item>, key: string)
    requires s != [] && s[0].key != key
    ensures Holds(s[1..], key) <==> Holds(s, key)
  {
    if i :| 0 <= i < |s| && s[i].key == key { assert s[1..][i - 1].key == key; }
    if i :| 0 <= i < |s[1..]| && s[1..][i].key == key { assert s[i + 1].key == key; }
  }

  lemma DistinctTail(s: seq<Item>)
    requires s != [] && Distinct(s)
    ensures Distinct(s[1..]) && !Holds(s[1..], s[0].key)
  {
    assert s == [s[0]] + s[1..];
  }

  lemma DistinctCons(s: seq<Item>, rest: seq<Item>)
    requires s != [] && Distinct(s) && Distinct(rest) && forall x :: x in rest ==> x in s[1..]
    ensures Distinct([s[0]] + rest)
  {
    DistinctTail(s);
    forall j | 0 <= j < |rest| ensures rest[j].key != s[0].key {
      assert rest[j] in s[1..];
    }
  }

  function Remove(s: seq<Item>, key: string): (r: seq<Item>)
    ensures |r| <= |s|
    ensures forall x :: x in r ==> x in s && x.key != key
    ensures Distinct(s) ==> Distinct(r)
    ensures Distinct(s) && Holds(s, key) ==> |r| == |s| - 1
    ensures !Holds(s, key) ==> r == s
  {
    if s == [] then []
    else
      assert s == [s[0]] + s[1..];
      if s[0].key == key then
        assert Holds(s, key);
        assert Distinct(s) ==> Distinct(s[1..]) && !Holds(s[1..], key) by { if Distinct(s) { DistinctTail(s); } }
        Remove(s[1..], key)
      else
        HoldsTail(s, key);
        var rest := Remove(s[1..], key);
        assert Distinct(s) ==> Distinct([s[0]] + rest) by { if Distinct(s) { DistinctTail(s); DistinctCons(s, rest); } }
        [s[0]] + rest
  }

  // ---- Operations ----

  predicate Expired(x: Item, now: int) {
    now > x.expires
  }

  /** `Get`: a hit moves the entry to the front, an expired entry is dropped. */
  function Get(s: seq<Item>, now: int, key: string): (seq<Item>, Option<Item>) {
    match Find(s, key)
    case None => (s, None)
    case Some(x) =>
      if Expired(x, now) then (Remove(s, key), None) else ([x] + Remove(s, key), Some(x))
  }

  /** Room is made at the end of the list. */
  function Evict(c: Config, t: seq<Item>): seq<Item> {
    if |t| > c.maxEntries then t[..|t| - 1] else t
  }

  /** `Set`: updates in place at the front, or inserts and evicts the last entry. */
  function Set(c: Config, s: seq<Item>, now: int, key: string, data: string, etag: string): seq<Item> {
    Put(c, s, Item(key, data, etag, now + c.ttl))
  }

  /** The entry in front, in place of an older one of its key. */
  function Put(c: Config, s: seq<Item>, x: Item): seq<Item> {
    if Find(s, x.key).Some? then [x] + Remove(s, x.key) else Evict(c, [x] + s)
  }

  datatype Op =
    | GetOp(key: string)
    | SetOp(key: string, data: string, etag: string)
    | Invalidate(key: string)
    | InvalidateAll
    | Wait(d: nat)

  function Apply(c: Config, s: seq<Item>, now: int, op: Op): seq<Item> {
    match op
    case GetOp(key) => Get(s, now, key).0
    case SetOp(key, data, etag) => Set(c, s, now, key, data, etag)
    case Invalidate(key) => Remove(s, key)
    case InvalidateAll => []
    case Wait(_) => s
  }

  function Clock(now: int, op: Op): int {
    if op.Wait? then now + op.d else now
  }

  function Run(c: Config, s: seq<Item>, now: int, ops: seq<Op>): seq<Item>
    decreases |ops|
  {
    if ops == [] then s else Run(c, Apply(c, s, now, ops[0]), Clock(now, ops[0]), ops[1..])
  }

  // ---- Well-formed in every run ----

  ghost predicate Valid(c: Config, s: seq<Item>) {
    Distinct(s) && |s| <= c.maxEntries
  }

  lemma FrontKeepsDistinct(x: Item, s: seq<Item>)
    requires Distinct(s) && !Holds(s, x.key)
    ensures Distinct([x] + s)
  {
  }

  lemma RemovedIsGone(s: seq<Item>, key: string)
    ensures !Holds(Remove(s, key), key)
  {
    forall i | 0 <= i < |Remove(s, key)| ensures Remove(s, key)[i].key != key {
      assert Remove(s, key)[i] in Remove(s, key);
    }
  }

  lemma ApplyKeeps(c: Config, s: seq<Item>, now: int, op: Op)
    requires Valid(c, s) && c.maxEntries >= 1
    ensures Valid(c, Apply(c, s, now, op))
  {
    match op
    case GetOp(key) => if Find(s, key).Some? { MoveKeeps(c, s, Find(s, key).value); }
    case SetOp(key, data, etag) => PutKeeps(c, s, Item(key, data, etag, now + c.ttl));
    case _ =>
  }

  lemma MoveKeeps(c: Config, s: seq<Item>, x: Item)
    requires Valid(c, s) && Holds(s, x.key)
    ensures Valid(c, [x] + Remove(s, x.key))
  {
    RemovedIsGone(s, x.key);
    FrontKeepsDistinct(x, Remove(s, x.key));
  }

  lemma PutKeeps(c: Config, s: seq<Item>, x: Item)
    requires Valid(c, s) && c.maxEntries >= 1
    ensures Valid(c, Put(c, s, x))
  {
    if Find(s, x.key).Some? { MoveKeeps(c, s, x); } else { FrontKeepsDistinct(x, s); }
  }

  /** In every run the recency list holds distinct keys and at most `maxEntries` of them. */
  lemma {:induction false} RunKeeps(c: Config, s: seq<Item>, now: int, ops: seq<Op>)
    requires Valid(c, s) && c.maxEntries >= 1
    ensures Valid(c, Run(c, s, now, ops))
    decreases |ops|
  {
    if ops != [] {
      ApplyKeeps(c, s, now, ops[0]);
      RunKeeps(c, Apply(c, s, now, ops[0]), Clock(now, ops[0]), ops[1..]);
    }
  }

  // ---- Where an entry stands ----

  ghost function KeySet(s: seq<Item>): set<string> {
    set x | x in s :: x.key
  }

  lemma {:induction false} KeyCount(s: seq<Item>)
    requires Distinct(s)
    ensures |KeySet(s)| == |s|
    decreases |s|
  {
    if s != [] {
      assert s == [s[0]] + s[1..];
      KeyCount(s[1..]);
      assert KeySet(s) == {s[0].key} + KeySet(s[1..]);
      assert forall x :: x in s[1..] ==> x.key != s[0].key;
    }
  }

  lemma {:induction false} RemoveAppend(a: seq<Item>, b: seq<Item>, key: string)
    ensures Remove(a + b, key) == Remove(a, key) + Remove(b, key)
    decreases |a|
  {
    if a == [] {
      assert a + b == b;
    } else {
      assert (a + b)[1..] == a[1..] + b;
      RemoveAppend(a[1..], b, key);
    }
  }

  lemma RemoveKeySet(s: seq<Item>, key: string)
    ensures KeySet(Remove(s, key)) == KeySet(s) - {key}
  {
    RemovedIsGone(s, key);
    RemoveKeepsOthers(s, key);
  }

  lemma {:induction false} RemoveKeepsOthers(s: seq<Item>, key: string)
    ensures forall x :: x in s && x.key != key ==> x in Remove(s, key)
    decreases |s|
  {
    if s != [] {
      assert s == [s[0]] + s[1..];
      RemoveKeepsOthers(s[1..], key);
    }
  }

  /** The key an operation makes the most recent one, if it does. */
  function Touches(s: seq<Item>, now: int, op: Op): set<string> {
    match op
    case GetOp(key) => if Get(s, now, key).1.Some? then {key} else {}
    case SetOp(key, _, _) => {key}
    case _ => {}
  }

  /** The operation leaves `key` alone. */
  predicate Spares(op: Op, key: string) {
    match op
    case GetOp(k) => k != key
    case SetOp(k, _, _) => k != key
    case Invalidate(k) => k != key
    case InvalidateAll => false
    case Wait(_) => true
  }

  /** It takes no entry out, except by eviction. */
  predicate RemovesNothing(s: seq<Item>, now: int, op: Op) {
    match op
    case GetOp(key) => Find(s, key).Some? ==> !Expired(Find(s, key).value, now)
    case SetOp(_, _, _) => true
    case Wait(_) => true
    case _ => false
  }

  lemma FindSkips(a: seq<Item>, x: Item, b: seq<Item>, key: string)
    requires key != x.key
    ensures Remove(a + [x] + b, key) == Remove(a, key) + [x] + Remove(b, key)
  {
    RemoveAppend(a + [x], b, key);
    RemoveAppend(a, [x], key);
    assert [x][1..] == [];
  }

  /** `s` is the entries `a`, then `x`, then `b`, and the keys before `x` are within
      `most`; when the operation removes nothing they are exactly `most`. */
  ghost predicate Placed(s: seq<Item>, a: seq<Item>, x: Item, b: seq<Item>, most: set<string>, exact: bool) {
    s == a + [x] + b && KeySet(a) <= most && (exact ==> KeySet(a) == most)
  }

  lemma FrontKeySet(f: Item, r: seq<Item>)
    ensures KeySet([f] + r) == {f.key} + KeySet(r)
  {
    assert forall y :: y in [f] + r <==> y == f || y in r;
    assert f in [f] + r;
  }

  lemma MoveToFront(a: seq<Item>, x: Item, b: seq<Item>, f: Item)
    requires f.key != x.key
    ensures Placed([f] + Remove(a + [x] + b, f.key), [f] + Remove(a, f.key), x, Remove(b, f.key), KeySet(a) + {f.key}, true)
  {
    FindSkips(a, x, b, f.key);
    RemoveKeySet(a, f.key);
    FrontKeySet(f, Remove(a, f.key));
    Reassociate(f, Remove(a, f.key), x, Remove(b, f.key));
    assert {f.key} + (KeySet(a) - {f.key}) == KeySet(a) + {f.key};
  }

  lemma Reassociate(f: Item, r: seq<Item>, x: Item, t: seq<Item>)
    ensures [f] + (r + [x] + t) == ([f] + r) + [x] + t
  {
  }

  lemma TakeOut(a: seq<Item>, x: Item, b: seq<Item>, key: string)
    requires key != x.key
    ensures Placed(Remove(a + [x] + b, key), Remove(a, key), x, Remove(b, key), KeySet(a), false)
  {
    FindSkips(a, x, b, key);
    RemoveKeySet(a, key);
  }

  lemma Insert(c: Config, a: seq<Item>, x: Item, b: seq<Item>, y: Item) returns (b': seq<Item>)
    requires c.maxEntries >= 1 && |a| + 2 <= c.maxEntries && |a + [x] + b| <= c.maxEntries
    ensures Placed(Evict(c, [y] + (a + [x] + b)), [y] + a, x, b', KeySet(a) + {y.key}, true)
  {
    FrontKeySet(y, a);
    var t := [y] + (a + [x] + b);
    assert t == ([y] + a) + [x] + b;
    if |t| > c.maxEntries {
      b' := b[..|b| - 1];
      assert t[..|t| - 1] == ([y] + a) + [x] + b';
    } else {
      b' := b;
    }
  }

  lemma Before(a: seq<Item>, x: Item, b: seq<Item>, key: string)
    requires Distinct(a + [x] + b)
    ensures |KeySet(a)| == |a|
    ensures !Holds(a + [x] + b, key) ==> key !in KeySet(a)
  {
    var s := a + [x] + b;
    assert forall i :: 0 <= i < |a| ==> s[i] == a[i];
    KeyCount(a);
  }

  /** One operation that spares `x.key` keeps the entry, with only touched keys moved
      before it, as long as fewer than `maxEntries` others are before it then. */
  lemma EntryStep(c: Config, a: seq<Item>, x: Item, b: seq<Item>, now: int, op: Op) returns (a': seq<Item>, b': seq<Item>)
    requires Valid(c, a + [x] + b) && c.maxEntries >= 1 && Spares(op, x.key)
    requires |KeySet(a) + Touches(a + [x] + b, now, op)| < c.maxEntries
    ensures Stepped(c, a, x, b, now, op, a', b')
  {
    match op
    case Wait(d) => a', b' := WaitStep(c, a, x, b, now, d);
    case Invalidate(key) => a', b' := InvalidateStep(c, a, x, b, now, key);
    case GetOp(key) => a', b' := GetStep(c, a, x, b, now, key);
    case SetOp(key, data, etag) => a', b' := PutStep(c, a, x, b, now, key, data, etag);
  }

  ghost predicate Stepped(c: Config, a: seq<Item>, x: Item, b: seq<Item>, now: int, op: Op, a': seq<Item>, b': seq<Item>) {
    var s := a + [x] + b;
    Placed(Apply(c, s, now, op), a', x, b', KeySet(a) + Touches(s, now, op), RemovesNothing(s, now, op))
  }

  lemma WaitStep(c: Config, a: seq<Item>, x: Item, b: seq<Item>, now: int, d: nat) returns (a': seq<Item>, b': seq<Item>)
    ensures Stepped(c, a, x, b, now, Wait(d), a', b')
  {
    a', b' := a, b;
    assert KeySet(a) + {} == KeySet(a);
  }

  lemma InvalidateStep(c: Config, a: seq<Item>, x: Item, b: seq<Item>, now: int, key: string) returns (a': seq<Item>, b': seq<Item>)
    requires key != x.key
    ensures Stepped(c, a, x, b, now, Invalidate(key), a', b')
  {
    a', b' := Remove(a, key), Remove(b, key);
    TakeOut(a, x, b, key);
    assert KeySet(a) + {} == KeySet(a);
  }

  lemma PutStep(c: Config, a: seq<Item>, x: Item, b: seq<Item>, now: int, key: string, data: string, etag: string)
    returns (a': seq<Item>, b': seq<Item>)
    requires Valid(c, a + [x] + b) && c.maxEntries >= 1 && key != x.key && |KeySet(a) + {key}| < c.maxEntries
    ensures Stepped(c, a, x, b, now, SetOp(key, data, etag), a', b')
  {
    a', b' := SetStep(c, a, x, b, Item(key, data, etag, now + c.ttl));
  }

  lemma SetStep(c: Config, a: seq<Item>, x: Item, b: seq<Item>, y: Item) returns (a': seq<Item>, b': seq<Item>)
    requires Valid(c, a + [x] + b) && c.maxEntries >= 1 && y.key != x.key && |KeySet(a) + {y.key}| < c.maxEntries
    ensures Placed(Put(c, a + [x] + b, y), a', x, b', KeySet(a) + {y.key}, true)
  {
    if Find(a + [x] + b, y.key).Some? {
      MoveToFront(a, x, b, y);
      a', b' := [y] + Remove(a, y.key), Remove(b, y.key);
    } else {
      Before(a, x, b, y.key);
      assert |KeySet(a) + {y.key}| == |a| + 1;
      b' := Insert(c, a, x, b, y);
      a' := [y] + a;
    }
  }

  lemma GetStep(c: Config, a: seq<Item>, x: Item, b: seq<Item>, now: int, key: string) returns (a': seq<Item>, b': seq<Item>)
    requires key != x.key
    ensures Stepped(c, a, x, b, now, GetOp(key), a', b')
  {
    assert KeySet(a) + {} == KeySet(a);
    match Find(a + [x] + b, key)
    case None =>
      a', b' := a, b;
    case Some(f) =>
      if Expired(f, now) {
        TakeOut(a, x, b, key);
        a', b' := Remove(a, key), Remove(b, key);
      } else {
        MoveToFront(a, x, b, f);
        a', b' := [f] + Remove(a, key), Remove(b, key);
      }
  }

  // ---- Main results ----

  /** The operation neither stores nor removes `key`; it may read it. */
  predicate Keeps(op: Op, key: string) { op == GetOp(key) || Spares(op, key) }

  /** At every point of the run fewer than `maxEntries` distinct other keys were touched
      since `x.key` was; `seen` are those touched before it. A read of `x.key` before `x`
      expires counts as a touch and starts afresh. */
  ghost predicate Recent(c: Config, s: seq<Item>, now: int, ops: seq<Op>, x: Item, seen: set<string>)
    decreases |ops|
  {
    && |seen| < c.maxEntries
    && (ops == [] ||
        var s', now' := Apply(c, s, now, ops[0]), Clock(now, ops[0]);
        if ops[0] == GetOp(x.key) then !Expired(x, now) && Recent(c, s', now', ops[1..], x, {})
        else Recent(c, s', now', ops[1..], x, seen + Touches(s, now, ops[0])))
  }

  /** Reading the entry moves it to the front. */
  lemma OwnRead(c: Config, a: seq<Item>, x: Item, b: seq<Item>, now: int)
    requires Distinct(a + [x] + b) && !Expired(x, now)
    ensures Apply(c, a + [x] + b, now, GetOp(x.key)) == [] + [x] + Remove(a + [x] + b, x.key)
    ensures KeySet([]) == {}
  {
    var s := a + [x] + b;
    assert s[|a|] == x;
    FindMember(s, x);
    assert [x] + Remove(s, x.key) == [] + [x] + Remove(s, x.key);
  }

  lemma {:induction false} EntryRun(c: Config, a: seq<Item>, x: Item, b: seq<Item>, now: int, ops: seq<Op>, seen: set<string>)
    requires Valid(c, a + [x] + b) && c.maxEntries >= 1 && (forall op :: op in ops ==> Keeps(op, x.key))
    requires KeySet(a) <= seen && Recent(c, a + [x] + b, now, ops, x, seen)
    ensures x in Run(c, a + [x] + b, now, ops)
    decreases |ops|
  {
    if ops != [] {
      var s, op := a + [x] + b, ops[0];
      assert op in ops && Keeps(op, x.key);
      ApplyKeeps(c, s, now, op);
      if op == GetOp(x.key) {
        OwnRead(c, a, x, b, now);
        EntryRun(c, [], x, Remove(s, x.key), Clock(now, op), ops[1..], {});
      } else {
        Monotone(KeySet(a) + Touches(s, now, op), seen + Touches(s, now, op));
        var a', b' := EntryStep(c, a, x, b, now, op);
        EntryRun(c, a', x, b', Clock(now, op), ops[1..], seen + Touches(s, now, op));
      }
    }
  }

  lemma Monotone(a: set<string>, b: set<string>)
    requires a <= b
    ensures |a| <= |b|
  {
    assert b == a + (b - a);
  }

  /** LRU guarantee: an entry at the front is still cached, unchanged, after any
      operations that neither store nor remove its key, reads of it included, while fewer
      than `maxEntries` distinct other keys are touched since its last touch. */
  lemma TouchedEntryStaysCached(c: Config, s: seq<Item>, now: int, ops: seq<Op>)
    requires Valid(c, s) && c.maxEntries >= 1 && s != []
    requires (forall op :: op in ops ==> Keeps(op, s[0].key)) && Recent(c, s, now, ops, s[0], {})
    ensures s[0] in Run(c, s, now, ops)
  {
    assert s == [] + [s[0]] + s[1..];
    assert KeySet([]) == {};
    EntryRun(c, [], s[0], s[1..], now, ops, {});
  }

  function ClockAfter(now: int, ops: seq<Op>): int
    decreases |ops|
  {
    if ops == [] then now else ClockAfter(Clock(now, ops[0]), ops[1..])
  }

  lemma FindMember(s: seq<Item>, x: Item)
    requires Distinct(s) && x in s
    ensures Find(s, x.key) == Some(x)
  {
    var f := Find(s, x.key);
    var i :| 0 <= i < |s| && s[i] == x;
    assert f.Some?;
    var j :| 0 <= j < |s| && s[j] == f.value;
  }

  lemma SetPutsInFront(c: Config, s: seq<Item>, now: int, key: string, data: string, etag: string)
    requires Valid(c, s) && c.maxEntries >= 1
    ensures var t := Set(c, s, now, key, data, etag);
            Valid(c, t) && t != [] && t[0] == Item(key, data, etag, now + c.ttl)
  {
    ApplyKeeps(c, s, now, SetOp(key, data, etag));
    assert Set(c, s, now, key, data, etag) == Apply(c, s, now, SetOp(key, data, etag));
  }

  /** What `Set` stored, `Get` returns: after any operations that neither store nor remove
      the key, reads of it included, while it is recent and has not expired. */
  lemma GetReturnsLastSet(c: Config, s: seq<Item>, now: int, key: string, data: string, etag: string, ops: seq<Op>)
    requires Valid(c, s) && c.maxEntries >= 1 && forall op :: op in ops ==> Keeps(op, key)
    requires Recent(c, Set(c, s, now, key, data, etag), now, ops, Item(key, data, etag, now + c.ttl), {})
    requires ClockAfter(now, ops) <= now + c.ttl
    ensures Get(Run(c, Set(c, s, now, key, data, etag), now, ops), ClockAfter(now, ops), key).1
         == Some(Item(key, data, etag, now + c.ttl))
  {
    var t := Set(c, s, now, key, data, etag);
    SetPutsInFront(c, s, now, key, data, etag);
    TouchedEntryStaysCached(c, t, now, ops);
    RunKeeps(c, t, now, ops);
    FindMember(Run(c, t, now, ops), t[0]);
  }

  // ---- A hit is always the last Set ----

  /** The entry the last `Set` of `key` stored; None when it was invalidated since. */
  function LastSet(c: Config, now: int, ops: seq<Op>, key: string, last: Option<Item>): Option<Item>
    decreases |ops|
  {
    if ops == [] then last
    else LastSet(c, Clock(now, ops[0]), ops[1..], key, match ops[0]
      case SetOp(k, data, etag) => if k == key then Some(Item(key, data, etag, now + c.ttl)) else last
      case Invalidate(k) => if k == key then None else last
      case InvalidateAll => None
      case _ => last)
  }

  lemma PutMember(c: Config, s: seq<Item>, x: Item, y: Item)
    requires y in Put(c, s, x)
    ensures y == x || (y in s && y.key != x.key)
  {
    if !Find(s, x.key).Some? && y in s {
      var i :| 0 <= i < |s| && s[i] == y;
    }
  }

  lemma MemberAfter(c: Config, s: seq<Item>, now: int, op: Op, y: Item)
    requires y in Apply(c, s, now, op)
    ensures y in s || (op.SetOp? && y == Item(op.key, op.data, op.etag, now + c.ttl))
    ensures op.SetOp? && y.key == op.key ==> y == Item(op.key, op.data, op.etag, now + c.ttl)
    ensures op.Invalidate? ==> y.key != op.key
    ensures !op.InvalidateAll?
  {
    match op
    case SetOp(key, data, etag) => PutMember(c, s, Item(key, data, etag, now + c.ttl), y);
    case _ =>
  }

  /** Every entry of `key` is `last`. */
  ghost predicate Only(s: seq<Item>, key: string, last: Option<Item>) {
    forall y :: y in s && y.key == key ==> last == Some(y)
  }

  lemma {:induction false} RunKeepsLastSet(c: Config, s: seq<Item>, now: int, ops: seq<Op>, key: string, last: Option<Item>)
    requires Only(s, key, last)
    ensures Only(Run(c, s, now, ops), key, LastSet(c, now, ops, key, last))
    decreases |ops|
  {
    if ops != [] {
      var op := ops[0];
      var next := match op
        case SetOp(k, data, etag) => if k == key then Some(Item(key, data, etag, now + c.ttl)) else last
        case Invalidate(k) => if k == key then None else last
        case InvalidateAll => None
        case _ => last;
      forall y | y in Apply(c, s, now, op) && y.key == key ensures next == Some(y) {
        MemberAfter(c, s, now, op, y);
      }
      RunKeepsLastSet(c, Apply(c, s, now, op), Clock(now, op), ops[1..], key, next);
    }
  }

  /** In every run from the empty cache, whatever is stored, read, evicted, expired or
      invalidated, a hit returns what the last `Set` of its key stored, unexpired and not
      invalidated since. */
  lemma HitIsLastSet(c: Config, now: int, ops: seq<Op>, key: string)
    ensures var hit := Get(Run(c, [], now, ops), ClockAfter(now, ops), key).1;
            hit.Some? ==> LastSet(c, now, ops, key, None) == hit && ClockAfter(now, ops) <= hit.value.expires
  {
    RunKeepsLastSet(c, [], now, ops, key, None);
    var f := Find(Run(c, [], now, ops), key);
    if f.Some? { assert f.value in Run(c, [], now, ops); }
  }

  /** The run never removes an entry except by eviction. */
  ghost predicate RemovalFree(c: Config, s: seq<Item>, now: int, ops: seq<Op>)
    decreases |ops|
  {
    ops == [] ||
    (RemovesNothing(s, now, ops[0]) && RemovalFree(c, Apply(c, s, now, ops[0]), Clock(now, ops[0]), ops[1..]))
  }

  lemma GoneStaysGone(c: Config, s: seq<Item>, now: int, op: Op, key: string)
    requires Valid(c, s) && !Holds(s, key) && Keeps(op, key)
    ensures !Holds(Apply(c, s, now, op), key)
  {
    var t := Apply(c, s, now, op);
    match op
    case GetOp(k) =>
      forall i | 0 <= i < |t| ensures t[i].key != key { MemberComesFromBefore(s, t, i, key); }
    case Invalidate(k) =>
      forall i | 0 <= i < |t| ensures t[i].key != key { MemberComesFromBefore(s, t, i, key); }
    case SetOp(k, _, _) =>
      forall i | 0 <= i < |t| ensures t[i].key != key {
        if i > 0 {
          assert t[i] in s by { if Find(s, k).Some? { assert t[i] == Remove(s, k)[i - 1]; } else { assert t[i] == s[i - 1]; } }
          MemberComesFromBefore(s, t, i, key);
        }
      }
    case _ =>
  }

  lemma MemberComesFromBefore(s: seq<Item>, t: seq<Item>, i: nat, key: string)
    requires !Holds(s, key) && i < |t| && t[i] in s
    ensures t[i].key != key
  {
    var j :| 0 <= j < |s| && s[j] == t[i];
  }

  lemma {:induction false} GoneForGood(c: Config, s: seq<Item>, now: int, ops: seq<Op>, key: string)
    requires Valid(c, s) && c.maxEntries >= 1 && !Holds(s, key) && forall op :: op in ops ==> Keeps(op, key)
    ensures !Holds(Run(c, s, now, ops), key)
    decreases |ops|
  {
    if ops != [] {
      GoneStaysGone(c, s, now, ops[0], key);
      ApplyKeeps(c, s, now, ops[0]);
      GoneForGood(c, Apply(c, s, now, ops[0]), Clock(now, ops[0]), ops[1..], key);
    }
  }

  /** The operation that touches one key too many evicts the entry. */
  lemma EvictStep(c: Config, a: seq<Item>, x: Item, b: seq<Item>, now: int, op: Op)
    requires Valid(c, a + [x] + b) && c.maxEntries >= 1 && Spares(op, x.key) && RemovesNothing(a + [x] + b, now, op)
    requires |KeySet(a) + Touches(a + [x] + b, now, op)| >= c.maxEntries
    ensures !Holds(Apply(c, a + [x] + b, now, op), x.key)
  {
    var s := a + [x] + b;
    var key := OnlyNewKeyFits(c, a, x, b, Touches(s, now, op));
    if op.SetOp? {
      PushedOut(c, a, x, Item(key, op.data, op.etag, now + c.ttl));
    }
  }

  /** Reaching the limit takes a full list, `x` at its end and a key it does not hold. */
  lemma OnlyNewKeyFits(c: Config, a: seq<Item>, x: Item, b: seq<Item>, touched: set<string>) returns (key: string)
    requires Valid(c, a + [x] + b) && |touched| <= 1 && x.key !in touched
    requires |KeySet(a) + touched| >= c.maxEntries
    ensures b == [] && |a| == c.maxEntries - 1 && touched == {key} && !Holds(a + [x] + b, key)
  {
    var s := a + [x] + b;
    Before(a, x, b, x.key);
    UnionBound(KeySet(a), touched);
    key :| key in touched;
    assert |touched - {key}| == 0;
    assert key in KeySet(a) ==> KeySet(a) + touched == KeySet(a);
    forall i | 0 <= i < |s| ensures s[i].key != key {
      if i < |a| { assert s[i] == a[i] && a[i].key in KeySet(a); }
    }
  }

  lemma PushedOut(c: Config, a: seq<Item>, x: Item, y: Item)
    requires Valid(c, a + [x] + []) && |a| == c.maxEntries - 1 && y.key != x.key
    ensures !Holds(Evict(c, [y] + (a + [x] + [])), x.key)
  {
    var s := a + [x] + [];
    var t := Evict(c, [y] + s);
    assert s[|a|] == x;
    forall i | 0 <= i < |t| ensures t[i].key != x.key {
      if i > 0 { assert t[i] == s[i - 1]; }
    }
  }

  lemma UnionBound(a: set<string>, b: set<string>)
    ensures |a + b| <= |a| + |b|
  {
    assert a + b == a + (b - a);
    Monotone(b - a, b);
  }

  /** What is not recent later was seen now, or is not recent in the rest of the run. */
  lemma NotRecentLater(c: Config, s: seq<Item>, now: int, ops: seq<Op>, x: Item, seen: set<string>)
    requires ops != [] && |seen| < c.maxEntries && !Recent(c, s, now, ops, x, seen)
    ensures ops[0] == GetOp(x.key) && !Expired(x, now) ==>
              !Recent(c, Apply(c, s, now, ops[0]), Clock(now, ops[0]), ops[1..], x, {})
    ensures ops[0] != GetOp(x.key) ==>
              !Recent(c, Apply(c, s, now, ops[0]), Clock(now, ops[0]), ops[1..], x, seen + Touches(s, now, ops[0]))
  {
  }

  /** The step of `EvictRun` when another key is operated on. */
  lemma EvictOther(c: Config, a: seq<Item>, x: Item, b: seq<Item>, now: int, op: Op) returns (gone: bool, a': seq<Item>, b': seq<Item>)
    requires Valid(c, a + [x] + b) && c.maxEntries >= 1 && Spares(op, x.key) && RemovesNothing(a + [x] + b, now, op)
    ensures gone ==> !Holds(Apply(c, a + [x] + b, now, op), x.key)
    ensures !gone ==> Apply(c, a + [x] + b, now, op) == a' + [x] + b' && KeySet(a') == KeySet(a) + Touches(a + [x] + b, now, op)
  {
    gone, a', b' := |KeySet(a) + Touches(a + [x] + b, now, op)| >= c.maxEntries, [], [];
    if gone {
      EvictStep(c, a, x, b, now, op);
    } else {
      a', b' := EntryStep(c, a, x, b, now, op);
    }
  }

  lemma {:induction false} EvictRun(c: Config, a: seq<Item>, x: Item, b: seq<Item>, now: int, ops: seq<Op>)
    requires Valid(c, a + [x] + b) && c.maxEntries >= 1 && (forall op :: op in ops ==> Keeps(op, x.key))
    requires RemovalFree(c, a + [x] + b, now, ops) && !Recent(c, a + [x] + b, now, ops, x, KeySet(a))
    ensures !Holds(Run(c, a + [x] + b, now, ops), x.key)
    decreases |ops|
  {
    var s := a + [x] + b;
    Before(a, x, b, x.key);
    if ops != [] {
      var op, now' := ops[0], Clock(now, ops[0]);
      assert op in ops && Keeps(op, x.key);
      ApplyKeeps(c, s, now, op);
      NotRecentLater(c, s, now, ops, x, KeySet(a));
      if op == GetOp(x.key) {
        OwnReadInTime(c, a, x, b, now, ops);
        OwnRead(c, a, x, b, now);
        EvictRun(c, [], x, Remove(s, x.key), now', ops[1..]);
      } else {
        var gone, a', b' := EvictOther(c, a, x, b, now, op);
        if gone {
          GoneForGood(c, Apply(c, s, now, op), now', ops[1..], x.key);
        } else {
          EvictRun(c, a', x, b', now', ops[1..]);
        }
      }
    }
  }

  lemma OwnReadInTime(c: Config, a: seq<Item>, x: Item, b: seq<Item>, now: int, ops: seq<Op>)
    requires Distinct(a + [x] + b) && ops != [] && ops[0] == GetOp(x.key) && RemovalFree(c, a + [x] + b, now, ops)
    ensures !Expired(x, now)
  {
    assert (a + [x] + b)[|a|] == x;
    FindMember(a + [x] + b, x);
  }

  /** Exactly least recently used: in a run that removes nothing by hand or by expiry, an
      entry that was just touched survives if and only if, at every point, fewer than
      `maxEntries` distinct other keys were touched since its last touch. */
  lemma SurvivesExactlyWhileRecent(c: Config, s: seq<Item>, now: int, ops: seq<Op>)
    requires Valid(c, s) && c.maxEntries >= 1 && s != []
    requires (forall op :: op in ops ==> Keeps(op, s[0].key)) && RemovalFree(c, s, now, ops)
    ensures Holds(Run(c, s, now, ops), s[0].key) <==> Recent(c, s, now, ops, s[0], {})
  {
    if Recent(c, s, now, ops, s[0], {}) {
      TouchedEntryStaysCached(c, s, now, ops);
      var t := Run(c, s, now, ops);
      var i :| 0 <= i < |t| && t[i] == s[0];
    } else {
      assert s == [] + [s[0]] + s[1..];
      assert KeySet([]) == {};
      EvictRun(c, [], s[0], s[1..], now, ops);
    }
  }
}
