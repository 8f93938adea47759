/** The bytes the bundle's content hash is computed from, and the three-tier policy list
    they encode. */
module Policies {
  import opened Strings

  datatype Policy = Policy(path: string, content: string)

  const NUL := '\0'

  // ---- The sorted copy ----

  ghost predicate ByPath(ps: seq<Policy>) {
    forall i, j :: 0 <= i < j < |ps| ==> !Less(ps[j].path, ps[i].path)
  }

  /** No path carries two different contents. */
  ghost predicate Unambiguous(ps: seq<Policy>) {
    forall i, j :: 0 <= i < |ps| && 0 <= j < |ps| && ps[i].path == ps[j].path ==> ps[i] == ps[j]
  }

  /** What `sort.Slice` by path may leave in the copied slice. */
  ghost predicate SortOf(sorted: seq<Policy>, ps: seq<Policy>) {
    ByPath(sorted) && multiset(sorted) == multiset(ps)
  }

  function Insert(p: Policy, sorted: seq<Policy>): (r: seq<Policy>)
    ensures multiset(r) == multiset(sorted) + multiset{p}
    ensures ByPath(sorted) ==> ByPath(r)
  {
    if sorted == [] then [p]
    else
      assert sorted == [sorted[0]] + sorted[1..];
      if Less(sorted[0].path, p.path) then
        var rest := Insert(p, sorted[1..]);
        InsertBehind(p, sorted[0], sorted[1..], rest);
        [sorted[0]] + rest
      else
        PutInFront(p, sorted);
        [p] + sorted
  }

  lemma InsertBehind(p: Policy, first: Policy, tail: seq<Policy>, rest: seq<Policy>)
    requires multiset(rest) == multiset(tail) + multiset{p} && Less(first.path, p.path)
    ensures ByPath([first] + tail) && ByPath(rest) ==> ByPath([first] + rest)
  {
    if ByPath([first] + tail) && ByPath(rest) {
      forall k | 0 <= k < |rest| ensures !Less(rest[k].path, first.path) {
        LessTrichotomy(first.path, p.path);
        assert rest[k] in multiset(rest);
        if rest[k] != p {
          assert rest[k] in tail;
          var n :| 0 <= n < |tail| && tail[n] == rest[k];
          assert ([first] + tail)[n + 1] == rest[k] && ([first] + tail)[0] == first;
        }
      }
    }
  }

  lemma PutInFront(p: Policy, sorted: seq<Policy>)
    requires sorted != [] && !Less(sorted[0].path, p.path)
    ensures ByPath(sorted) ==> ByPath([p] + sorted)
  {
    if ByPath(sorted) {
      forall k | 0 <= k < |sorted| ensures !Less(sorted[k].path, p.path) {
        LessTrichotomy(sorted[0].path, p.path);
        LessTrichotomy(sorted[k].path, sorted[0].path);
        if Less(sorted[k].path, p.path) && Less(p.path, sorted[0].path) {
          LessTransitive(sorted[k].path, p.path, sorted[0].path);
        }
      }
    }
  }

  function Sort(ps: seq<Policy>): (r: seq<Policy>)
    ensures SortOf(r, ps)
  {
    if ps == [] then []
    else
      assert ps == [ps[0]] + ps[1..];
      Insert(ps[0], Sort(ps[1..]))
  }

  lemma FirstOfSorted(a: seq<Policy>, p: Policy)
    requires ByPath(a) && p in a
    ensures !Less(p.path, a[0].path)
  {
    var k :| 0 <= k < |a| && a[k] == p;
    LessTrichotomy(p.path, p.path);
  }

  lemma SamePathSamePolicy(a: seq<Policy>, p: Policy, q: Policy)
    requires Unambiguous(a) && p in a && q in a && p.path == q.path
    ensures p == q
  {
    var i :| 0 <= i < |a| && a[i] == p;
    var j :| 0 <= j < |a| && a[j] == q;
  }

  /** When no path carries two contents there is only one way to sort. */
  lemma {:induction false} SortIsUnique(a: seq<Policy>, b: seq<Policy>)
    requires ByPath(a) && ByPath(b) && multiset(a) == multiset(b) && Unambiguous(a)
    ensures a == b
    decreases |a|
  {
    assert |a| == |multiset(a)| && |b| == |multiset(b)|;
    if a != [] {
      SameHead(a, b);
      SortedTail(a);
      SortedTail(b);
      DropHead(a);
      DropHead(b);
      SortIsUnique(a[1..], b[1..]);
    }
  }

  lemma SameHead(a: seq<Policy>, b: seq<Policy>)
    requires ByPath(a) && ByPath(b) && multiset(a) == multiset(b) && Unambiguous(a) && a != [] && b != []
    ensures a[0] == b[0]
  {
    assert a[0] in multiset(b) && b[0] in multiset(a);
    FirstOfSorted(a, b[0]);
    FirstOfSorted(b, a[0]);
    LessTrichotomy(a[0].path, b[0].path);
    SamePathSamePolicy(a, a[0], b[0]);
  }

  lemma SortedTail(a: seq<Policy>)
    requires a != [] && ByPath(a)
    ensures ByPath(a[1..]) && (Unambiguous(a) ==> Unambiguous(a[1..]))
  {
    assert forall k :: 0 <= k < |a[1..]| ==> a[1..][k] == a[k + 1];
  }

  lemma UnambiguousIsInvariant(a: seq<Policy>, b: seq<Policy>)
    requires multiset(a) == multiset(b) && Unambiguous(a)
    ensures Unambiguous(b)
  {
    forall i, j | 0 <= i < |b| && 0 <= j < |b| && b[i].path == b[j].path ensures b[i] == b[j] {
      assert b[i] in multiset(a) && b[j] in multiset(a);
      SamePathSamePolicy(a, b[i], b[j]);
    }
  }

  /** Two policies of one path can change places in a sorted list. */
  lemma SwapKeepsSorted(s: seq<Policy>, i: nat, j: nat)
    requires i < j < |s| && s[i].path == s[j].path && ByPath(s)
    ensures SortOf(s[i := s[j]][j := s[i]], s)
  {
    var t := s[i := s[j]][j := s[i]];
    assert forall k :: 0 <= k < |s| ==> t[k].path == s[k].path;
    assert s == s[..i] + [s[i]] + s[i + 1..j] + [s[j]] + s[j + 1..];
    assert t == s[..i] + [s[j]] + s[i + 1..j] + [s[i]] + s[j + 1..];
  }

  lemma DropHead(a: seq<Policy>)
    requires a != []
    ensures multiset(a[1..]) == multiset(a) - multiset{a[0]} && a == [a[0]] + a[1..]
  {
    assert a == [a[0]] + a[1..];
  }

  // ---- The hash input ----

  function EncodeOne(p: Policy): string {
    p.path + [NUL] + p.content + [NUL]
  }

  function Encode(ps: seq<Policy>): string {
    if ps == [] then [] else EncodeOne(ps[0]) + Encode(ps[1..])
  }

  lemma {:induction false} EncodeSnoc(ps: seq<Policy>, p: Policy)
    ensures Encode(ps + [p]) == Encode(ps) + EncodeOne(p)
    decreases |ps|
  {
    if ps == [] {
      assert [p][1..] == [];
    } else {
      assert (ps + [p])[1..] == ps[1..] + [p];
      EncodeSnoc(ps[1..], p);
    }
  }

  ghost predicate NulFree(ps: seq<Policy>) {
    forall p :: p in ps ==> NUL !in p.path && NUL !in p.content
  }

  lemma SplitAtNul(a: string, x: string, b: string, y: string)
    requires NUL !in a && NUL !in b && a + [NUL] + x == b + [NUL] + y
    ensures a == b && x == y
  {
    IndexOfFirst(a, NUL, x);
    IndexOfFirst(b, NUL, y);
    assert (a + [NUL] + x)[..|a|] == a && (b + [NUL] + y)[..|b|] == b;
    assert (a + [NUL] + x)[|a| + 1..] == x && (b + [NUL] + y)[|b| + 1..] == y;
  }

  /** Without NUL bytes the encoding can be read back. */
  lemma {:induction false} EncodeInjective(a: seq<Policy>, b: seq<Policy>)
    requires NulFree(a) && NulFree(b) && Encode(a) == Encode(b)
    ensures a == b
    decreases |a|
  {
    if a != [] && b != [] {
      var x, y := Encode(a[1..]), Encode(b[1..]);
      assert Encode(a) == a[0].path + [NUL] + (a[0].content + [NUL] + x);
      assert Encode(b) == b[0].path + [NUL] + (b[0].content + [NUL] + y);
      SplitAtNul(a[0].path, a[0].content + [NUL] + x, b[0].path, b[0].content + [NUL] + y);
      SplitAtNul(a[0].content, x, b[0].content, y);
      EncodeInjective(a[1..], b[1..]);
      assert a == [a[0]] + a[1..] && b == [b[0]] + b[1..];
    }
  }

  /** With a NUL in a content two different lists are hashed from the same bytes. */
  lemma NulBreaksEncoding()
    ensures Encode([Policy("a", "b" + [NUL] + "c" + [NUL] + "d")]) == Encode([Policy("a", "b"), Policy("c", "d")])
  {
    var one, two := [Policy("a", "b" + [NUL] + "c" + [NUL] + "d")], [Policy("a", "b"), Policy("c", "d")];
    assert one[1..] == [] && two[1..] == [Policy("c", "d")] && two[1..][1..] == [];
    assert Encode(two[1..]) == "c" + [NUL] + "d" + [NUL];
  }

  /** The policies of a list that cannot be told apart from the list by its bytes. */
  ghost predicate Collides(sp: seq<Policy>, sq: seq<Policy>) {
    ByPath(sq) && Encode(sq) == Encode(sp) && multiset(sq) != multiset(sp)
  }

  lemma EncodeSingle(p: Policy)
    ensures Encode([p]) == EncodeOne(p) && ByPath([p])
  {
    assert [p][1..] == [];
  }

  lemma EncodeEndsWithNul(ps: seq<Policy>)
    requires ps != []
    ensures Encode(ps) != [] && Encode(ps)[|Encode(ps)| - 1] == NUL
  {
    EncodeSnoc(ps[..|ps| - 1], ps[|ps| - 1]);
    assert ps == ps[..|ps| - 1] + [ps[|ps| - 1]];
  }

  lemma SingleCollides(p: Policy, q: Policy)
    requires p != q && EncodeOne(p) == EncodeOne(q)
    ensures Collides([p], [q])
  {
    EncodeSingle(p);
    EncodeSingle(q);
    assert p in multiset([p]) && p !in multiset([q]);
  }

  /** Several policies read as the bytes of one. */
  lemma ManyCollide(sp: seq<Policy>)
    requires |sp| > 1
    ensures exists sq :: Collides(sp, sq)
  {
    var p, rest := sp[0], Encode(sp[1..]);
    EncodeEndsWithNul(sp[1..]);
    var q := Policy(p.path, p.content + [NUL] + rest[..|rest| - 1]);
    EncodeSingle(q);
    assert EncodeOne(q) == EncodeOne(p) + rest by { assert rest == rest[..|rest| - 1] + [NUL]; }
    assert |multiset([q])| == 1 && |multiset(sp)| == |sp|;
    assert Collides(sp, [q]);
  }

  lemma NulInPathCollides(p: Policy)
    requires NUL in p.path
    ensures exists sq :: Collides([p], sq)
  {
    var i := IndexOf(p.path, NUL);
    var a, b := p.path[..i], p.path[i + 1..];
    CutAt(p.path, i);
    assert EncodeOne(Policy(a, b + [NUL] + p.content)) == a + [NUL] + b + [NUL] + p.content + [NUL];
    SingleCollides(p, Policy(a, b + [NUL] + p.content));
  }

  lemma NulInContentCollides(p: Policy)
    requires NUL in p.content
    ensures exists sq :: Collides([p], sq)
  {
    var i := IndexOf(p.content, NUL);
    var a, b := p.content[..i], p.content[i + 1..];
    CutAt(p.content, i);
    assert EncodeOne(Policy(p.path + [NUL] + a, b)) == p.path + [NUL] + (a + [NUL] + b) + [NUL];
    SingleCollides(p, Policy(p.path + [NUL] + a, b));
  }

  /** Every list with a NUL byte shares its bytes with a list of other policies. */
  lemma NulAlwaysCollides(sp: seq<Policy>)
    requires !NulFree(sp)
    ensures exists sq :: Collides(sp, sq)
  {
    if |sp| > 1 {
      ManyCollide(sp);
    } else {
      assert sp == [sp[0]];
      if NUL in sp[0].path { NulInPathCollides(sp[0]); } else { NulInContentCollides(sp[0]); }
    }
  }

  /** Without NUL bytes the hashed bytes determine the policies, also when paths repeat. */
  lemma SameBytesSamePolicies(ps: seq<Policy>, qs: seq<Policy>, sp: seq<Policy>, sq: seq<Policy>)
    requires NulFree(ps) && NulFree(qs) && SortOf(sp, ps) && SortOf(sq, qs) && Encode(sp) == Encode(sq)
    ensures multiset(ps) == multiset(qs)
  {
    NulFreeIsInvariant(ps, sp);
    NulFreeIsInvariant(qs, sq);
    EncodeInjective(sp, sq);
  }

  /** ETag canonicity: for lists without NUL bytes whose paths carry one content each,
      whatever order they come in, the hashed bytes are the same if and only if the lists
      hold the same policies. */
  lemma BytesAreCanonical(ps: seq<Policy>, qs: seq<Policy>, sp: seq<Policy>, sq: seq<Policy>)
    requires Unambiguous(ps) && NulFree(ps) && NulFree(qs) && SortOf(sp, ps) && SortOf(sq, qs)
    ensures Encode(sp) == Encode(sq) <==> multiset(ps) == multiset(qs)
  {
    if multiset(ps) == multiset(qs) {
      UnambiguousIsInvariant(ps, sp);
      SortIsUnique(sp, sq);
    }
    if Encode(sp) == Encode(sq) { SameBytesSamePolicies(ps, qs, sp, sq); }
  }

  lemma SwapChangesBytes(s: seq<Policy>, i: nat, j: nat)
    requires i < j < |s| && s[i].path == s[j].path && s[i] != s[j] && ByPath(s) && NulFree(s)
    ensures exists t :: SortOf(t, s) && Encode(t) != Encode(s)
  {
    var t := s[i := s[j]][j := s[i]];
    SwapKeepsSorted(s, i, j);
    NulFreeIsInvariant(s, t);
    assert t[i] != s[i];
    if Encode(s) == Encode(t) { EncodeInjective(s, t); }
    assert SortOf(t, s) && Encode(t) != Encode(s);
  }

  lemma AmbiguousHasTwoTags(ps: seq<Policy>)
    requires NulFree(ps) && !Unambiguous(ps)
    ensures exists sp, sq :: SortOf(sp, ps) && SortOf(sq, ps) && Encode(sp) != Encode(sq)
  {
    var s := Sort(ps);
    NulFreeIsInvariant(ps, s);
    if Unambiguous(s) { UnambiguousIsInvariant(s, ps); }
    var i, j :| 0 <= i < |s| && 0 <= j < |s| && s[i].path == s[j].path && s[i] != s[j];
    SwapChangesBytes(s, if i < j then i else j, if i < j then j else i);
    var t :| SortOf(t, s) && Encode(t) != Encode(s);
    assert SortOf(t, ps) && SortOf(s, ps);
  }

  /** However the sort orders equal paths the bytes are the same, exactly when no path
      carries two contents. */
  lemma OneTagExactlyWhenUnambiguous(ps: seq<Policy>)
    requires NulFree(ps)
    ensures (forall sp, sq | SortOf(sp, ps) && SortOf(sq, ps) :: Encode(sp) == Encode(sq)) <==> Unambiguous(ps)
  {
    if Unambiguous(ps) {
      forall sp, sq | SortOf(sp, ps) && SortOf(sq, ps) ensures Encode(sp) == Encode(sq) {
        BytesAreCanonical(ps, ps, sp, sq);
      }
    } else {
      AmbiguousHasTwoTags(ps);
    }
  }

  lemma NulFreeIsInvariant(a: seq<Policy>, b: seq<Policy>)
    requires multiset(a) == multiset(b) && NulFree(a)
    ensures NulFree(b)
  {
    forall p | p in b ensures NUL !in p.path && NUL !in p.content {
      assert p in multiset(a);
    }
  }

  // ---- The hash ----

  /** SHA-256 in hexadecimal. */
  type Hash = string -> string

  ghost predicate CollisionFree(h: Hash) {
    (forall x, y :: h(x) == h(y) ==> x == y) && forall x :: h(x) != "empty"
  }

  function HashOf(h: Hash, sorted: seq<Policy>): string {
    if sorted == [] then "sha256:empty" else "sha256:" + h(Encode(sorted))
  }

  /** The loop that feeds the hasher. */
  method WriteAll(sorted: seq<Policy>) returns (written: string)
    ensures written == Encode(sorted)
  {
    written := [];
    for i := 0 to |sorted|
      invariant written == Encode(sorted[..i])
    {
      var p := sorted[i];
      EncodeSnoc(sorted[..i], p);
      assert sorted[..i + 1] == sorted[..i] + [p];
      ghost var before := written;
      written := written + p.path;
      written := written + [NUL];
      written := written + p.content;
      written := written + [NUL];
      assert written == before + EncodeOne(p);
    }
    assert sorted[..|sorted|] == sorted;
  }

  /** `ContentHash`: copies and sorts, then hashes what the loop wrote. */
  method ContentHash(h: Hash, policies: seq<Policy>) returns (hash: string)
    ensures hash == HashOf(h, Sort(policies))
  {
    if |policies| == 0 { return "sha256:empty"; }
    var sorted := Sort(policies);
    assert policies[0] in multiset(sorted);
    var written := WriteAll(sorted);
    return "sha256:" + h(written);
  }

  lemma HashIsInjective(h: Hash, a: seq<Policy>, b: seq<Policy>)
    requires CollisionFree(h) && HashOf(h, a) == HashOf(h, b)
    ensures a == [] <==> b == []
    ensures Encode(a) == Encode(b)
  {
    var empty := "sha256:empty";
    assert empty[7..] == "empty";
    assert forall x: string :: ("sha256:" + x)[7..] == x;
    if a != [] { assert HashOf(h, a)[7..] == h(Encode(a)); }
    if b != [] { assert HashOf(h, b)[7..] == h(Encode(b)); }
  }

  // ---- The tiers ----

  datatype Tier = Global | Namespace | Client

  function Prefix(t: Tier): string {
    match t
    case Global => "authbridge/global/"
    case Namespace => "authbridge/ns/"
    case Client => "authbridge/client/"
  }

  /** The policies of a tier with the tier's directory put before their paths. */
  function Under(prefix: string, ps: seq<Policy>): (r: seq<Policy>)
    ensures |r| == |ps|
    ensures forall i :: 0 <= i < |ps| ==> r[i] == Policy(prefix + ps[i].path, ps[i].content)
  {
    if ps == [] then [] else [Policy(prefix + ps[0].path, ps[0].content)] + Under(prefix, ps[1..])
  }

  /** The list `buildBundle` gathers. */
  function Gather(global: seq<Policy>, ns: seq<Policy>, client: seq<Policy>): seq<Policy> {
    Under(Prefix(Global), global) + Under(Prefix(Namespace), ns) + Under(Prefix(Client), client)
  }

  lemma CountCons(head: Policy, tail: seq<Policy>, q: Policy)
    ensures multiset([head] + tail)[q] == multiset(tail)[q] + if head == q then 1 else 0
  {
  }

  lemma {:induction false} UnderCount(prefix: string, ps: seq<Policy>, q: Policy)
    ensures multiset(Under(prefix, ps))[q] ==
            if prefix <= q.path then multiset(ps)[Policy(q.path[|prefix|..], q.content)] else 0
    decreases |ps|
  {
    if ps != [] {
      var head := Policy(prefix + ps[0].path, ps[0].content);
      assert head.path[|prefix|..] == ps[0].path;
      assert prefix <= q.path ==> q.path == prefix + q.path[|prefix|..];
      UnderCount(prefix, ps[1..], q);
      DropHead(ps);
      CountCons(head, Under(prefix, ps[1..]), q);
      if prefix <= q.path { CountCons(ps[0], ps[1..], Policy(q.path[|prefix|..], q.content)); }
    }
  }

  lemma UnderPermutes(prefix: string, a: seq<Policy>, b: seq<Policy>)
    requires multiset(a) == multiset(b)
    ensures multiset(Under(prefix, a)) == multiset(Under(prefix, b))
  {
    forall q ensures multiset(Under(prefix, a))[q] == multiset(Under(prefix, b))[q] {
      UnderCount(prefix, a, q);
      UnderCount(prefix, b, q);
    }
  }

  /** A path in one tier is in no other. */
  lemma TiersApart(t: Tier, u: Tier, path: string)
    ensures Prefix(t) <= Prefix(u) + path <==> t == u
  {
    assert (Prefix(u) + path)[11] == Prefix(u)[11];
    assert t == u ==> (Prefix(u) + path)[..|Prefix(u)|] == Prefix(u);
  }

  lemma GatherCount(g: seq<Policy>, n: seq<Policy>, c: seq<Policy>, t: Tier, p: Policy)
    ensures multiset(Gather(g, n, c))[Policy(Prefix(t) + p.path, p.content)] ==
            multiset(match t case Global => g case Namespace => n case Client => c)[p]
  {
    var q := Policy(Prefix(t) + p.path, p.content);
    assert q.path[|Prefix(t)|..] == p.path;
    TiersApart(Global, t, p.path);
    TiersApart(Namespace, t, p.path);
    TiersApart(Client, t, p.path);
    UnderCount(Prefix(Global), g, q);
    UnderCount(Prefix(Namespace), n, q);
    UnderCount(Prefix(Client), c, q);
  }

  /** The gathered list determines each tier's policies: nothing is mixed up between
      tiers, not even equal paths. */
  lemma GatherKeepsTiersApart(g: seq<Policy>, n: seq<Policy>, c: seq<Policy>, g': seq<Policy>, n': seq<Policy>, c': seq<Policy>)
    ensures multiset(Gather(g, n, c)) == multiset(Gather(g', n', c')) <==>
            multiset(g) == multiset(g') && multiset(n) == multiset(n') && multiset(c) == multiset(c')
  {
    if multiset(Gather(g, n, c)) == multiset(Gather(g', n', c')) {
      forall p ensures multiset(g)[p] == multiset(g')[p] { GatherCount(g, n, c, Global, p); GatherCount(g', n', c', Global, p); }
      forall p ensures multiset(n)[p] == multiset(n')[p] { GatherCount(g, n, c, Namespace, p); GatherCount(g', n', c', Namespace, p); }
      forall p ensures multiset(c)[p] == multiset(c')[p] { GatherCount(g, n, c, Client, p); GatherCount(g', n', c', Client, p); }
    }
    if multiset(g) == multiset(g') && multiset(n) == multiset(n') && multiset(c) == multiset(c') {
      GatherPermutes(g, n, c, g', n', c');
    }
  }

  lemma GatherPermutes(g: seq<Policy>, n: seq<Policy>, c: seq<Policy>, g': seq<Policy>, n': seq<Policy>, c': seq<Policy>)
    requires multiset(g) == multiset(g') && multiset(n) == multiset(n') && multiset(c) == multiset(c')
    ensures multiset(Gather(g, n, c)) == multiset(Gather(g', n', c'))
  {
    UnderPermutes(Prefix(Global), g, g');
    UnderPermutes(Prefix(Namespace), n, n');
    UnderPermutes(Prefix(Client), c, c');
  }
}
