/** The token cache: a session key maps to the tokens of that session's resource
    servers. Times are nanoseconds on one clock. */
module TokenCache {
  import opened Strings

  const SECOND := 1_000_000_000
  const FIVE_MINUTES := 300 * SECOND

  datatype Entry = Entry(token: string, expiresAt: int, createdAt: int)

  type Tokens = map<string, map<string, Entry>>

  /** Expired, or less than five minutes from it. */
  predicate IsTokenExpired(expiresAt: int, now: int)
    ensures IsTokenExpired(expiresAt, now) <==> expiresAt < now + FIVE_MINUTES
  {
    if now > expiresAt then true else expiresAt - now < FIVE_MINUTES
  }

  // ---- Operations ----

  function Find(m: Tokens, key: string, res: string): Option<Entry> {
    if key in m && res in m[key] then Some(m[key][res]) else None
  }

  function Get(m: Tokens, now: int, key: string, res: string): Option<string> {
    match Find(m, key, res)
    case Some(e) => if IsTokenExpired(e.expiresAt, now) then None else Some(e.token)
    case None => None
  }

  function Put(m: Tokens, key: string, res: string, e: Entry): (r: Tokens)
    ensures Find(r, key, res) == Some(e)
    ensures forall k, u :: (k, u) != (key, res) ==> Find(r, k, u) == Find(m, k, u)
    ensures NoEmptyInner(m) ==> NoEmptyInner(r)
  {
    m[key := (if key in m then m[key] else map[])[res := e]]
  }

  function Delete(m: Tokens, key: string, res: string): (r: Tokens)
    ensures Find(r, key, res) == None
    ensures forall k, u :: (k, u) != (key, res) ==> Find(r, k, u) == Find(m, k, u)
    ensures NoEmptyInner(m) ==> NoEmptyInner(r)
  {
    if key !in m then m
    else
      var inner := m[key] - {res};
      assert forall u :: u in m[key] && u != res ==> u in inner;
      if inner == map[] then m - {key} else m[key := inner]
  }

  function LiveInner(inner: map<string, Entry>, now: int): map<string, Entry> {
    map u | u in inner && !IsTokenExpired(inner[u].expiresAt, now) :: inner[u]
  }

  /** What `CleanupExpiredTokens` leaves behind. */
  function Cleanup(m: Tokens, now: int): (r: Tokens)
    ensures NoEmptyInner(r)
    ensures forall k, u :: Find(r, k, u) ==
              (match Find(m, k, u)
               case Some(e) => if IsTokenExpired(e.expiresAt, now) then None else Some(e)
               case None => None)
  {
    var r := map k | k in m && LiveInner(m[k], now) != map[] :: LiveInner(m[k], now);
    assert forall k, u :: k in m && u in m[k] && !IsTokenExpired(m[k][u].expiresAt, now) ==> u in LiveInner(m[k], now);
    r
  }

  ghost predicate NoEmptyInner(m: Tokens) {
    forall k :: k in m ==> m[k] != map[]
  }

  /** Every (session, resource) pair that holds a token, expired or not. */
  ghost function Pairs(m: Tokens): set<(string, string)> {
    set k, u | k in m && u in m[k] :: (k, u)
  }

  // ---- Cleanup cannot be observed ----

  datatype Op =
    | GetOp(key: string, res: string)
    | PutOp(key: string, res: string, token: string, expiresAt: int)
    | DeleteOp(key: string, res: string)
    | CleanupOp
    | Wait(d: nat)

  function After(m: Tokens, now: int, op: Op): Tokens {
    match op
    case PutOp(key, res, token, expiresAt) => Put(m, key, res, Entry(token, expiresAt, now))
    case DeleteOp(key, res) => Delete(m, key, res)
    case CleanupOp => Cleanup(m, now)
    case _ => m
  }

  /** The answers the `GetToken` calls of a run receive, in order. */
  function Answers(m: Tokens, now: int, ops: seq<Op>): seq<Option<string>>
    decreases |ops|
  {
    if ops == [] then []
    else
      Answer(m, now, ops[0]) + Answers(After(m, now, ops[0]), Later(now, ops[0]), ops[1..])
  }

  function Answer(m: Tokens, now: int, op: Op): seq<Option<string>> {
    if op.GetOp? then [Get(m, now, op.key, op.res)] else []
  }

  function Later(now: int, op: Op): int { if op.Wait? then now + op.d else now }

  /** Same unexpired entries. */
  ghost predicate SameLive(a: Tokens, b: Tokens, now: int) {
    forall k, u :: Live(Find(a, k, u), now) == Live(Find(b, k, u), now)
  }

  /** What is left of an entry once expired ones are ignored. */
  function Live(e: Option<Entry>, now: int): Option<Entry> {
    if e.Some? && IsTokenExpired(e.value.expiresAt, now) then None else e
  }

  lemma SameLiveSameAnswer(a: Tokens, b: Tokens, now: int, key: string, res: string)
    requires SameLive(a, b, now)
    ensures Get(a, now, key, res) == Get(b, now, key, res)
  {
    assert Live(Find(a, key, res), now) == Live(Find(b, key, res), now);
  }

  lemma SameLiveStep(a: Tokens, b: Tokens, now: int, op: Op)
    requires SameLive(a, b, now)
    ensures SameLive(After(a, now, op), After(b, now, op), Later(now, op))
  {
    forall k, u ensures Live(Find(After(a, now, op), k, u), Later(now, op)) == Live(Find(After(b, now, op), k, u), Later(now, op)) {
      FindAfter(a, now, op, k, u);
      FindAfter(b, now, op, k, u);
      assert Live(Find(a, k, u), now) == Live(Find(b, k, u), now);
    }
  }

  /** What one operation does to one entry. */
  lemma FindAfter(m: Tokens, now: int, op: Op, k: string, u: string)
    ensures Find(After(m, now, op), k, u) ==
      if op.PutOp? && (k, u) == (op.key, op.res) then Some(Entry(op.token, op.expiresAt, now))
      else if op.DeleteOp? && (k, u) == (op.key, op.res) then None
      else if op.CleanupOp? then Live(Find(m, k, u), now)
      else Find(m, k, u)
  {
  }

  lemma {:induction false} SameLiveSameRun(a: Tokens, b: Tokens, now: int, ops: seq<Op>)
    requires SameLive(a, b, now)
    ensures Answers(a, now, ops) == Answers(b, now, ops)
    decreases |ops|
  {
    if ops != [] {
      var op := ops[0];
      if op.GetOp? { SameLiveSameAnswer(a, b, now, op.key, op.res); }
      SameLiveStep(a, b, now, op);
      SameLiveSameRun(After(a, now, op), After(b, now, op), Later(now, op), ops[1..]);
    }
  }

  /** Cleanup is invisible: whatever is stored, deleted, cleaned or waited for
      afterwards, every later `GetToken` answers as if the cleanup had not run. */
  lemma CleanupIsInvisible(m: Tokens, now: int, ops: seq<Op>)
    ensures Answers(Cleanup(m, now), now, ops) == Answers(m, now, ops)
  {
    forall k, u ensures Live(Find(Cleanup(m, now), k, u), now) == Live(Find(m, k, u), now) {
    }
    SameLiveSameRun(Cleanup(m, now), m, now, ops);
  }

  // ---- The mutable cache ----

  class TokenCache {
    var tokens: Tokens

    constructor ()
      ensures tokens == map[]
    {
      tokens := map[];
    }

    method GetToken(now: int, key: string, res: string) returns (token: string, found: bool)
      ensures found <==> Get(tokens, now, key, res).Some?
      ensures found ==> token == Get(tokens, now, key, res).value
    {
      if key !in tokens { return "", false; }
      var sessionTokens := tokens[key];
      if res !in sessionTokens { return "", false; }
      var entry := sessionTokens[res];
      if IsTokenExpired(entry.expiresAt, now) { return "", false; }
      return entry.token, true;
    }

    method SetToken(now: int, key: string, res: string, token: string, expiresAt: int)
      modifies this
      ensures tokens == Put(old(tokens), key, res, Entry(token, expiresAt, now))
    {
      if key !in tokens { tokens := tokens[key := map[]]; }
      tokens := tokens[key := tokens[key][res := Entry(token, expiresAt, now)]];
    }

    method DeleteToken(key: string, res: string)
      modifies this
      ensures tokens == Delete(old(tokens), key, res)
    {
      if key in tokens {
        var sessionTokens := tokens[key] - {res};
        tokens := tokens[key := sessionTokens];
        if sessionTokens == map[] { tokens := tokens - {key}; }
      }
    }

    method GetCacheSize() returns (count: nat)
      ensures count == |Pairs(tokens)|
    {
      count := 0;
      var todo := tokens.Keys;
      ghost var done: set<(string, string)> := {};
      while todo != {}
        invariant todo <= tokens.Keys
        invariant done == set k, u | k in tokens && u in tokens[k] && k !in todo :: (k, u)
        invariant count == |done|
        decreases |todo|
      {
        var k :| k in todo;
        ghost var mine := PairsOf(k, tokens[k]);
        PairCount(k, tokens[k]);
        assert done !! mine;
        count := count + |tokens[k]|;
        todo := todo - {k};
        done := done + mine;
      }
      assert done == Pairs(tokens);
    }

    /** Two nested deletion loops over the map while it is iterated. */
    method CleanupExpiredTokens(now: int) returns (removed: nat)
      modifies this
      ensures tokens == Cleanup(old(tokens), now)
      ensures removed + |Pairs(tokens)| == |Pairs(old(tokens))|
    {
      removed := 0;
      var todo := tokens.Keys;
      ghost var was := tokens;
      assert Cleaned(was, now, {}) == tokens;
      while todo != {}
        invariant todo <= was.Keys
        invariant tokens == Cleaned(was, now, was.Keys - todo)
        invariant removed + |Pairs(tokens)| == |Pairs(was)|
        decreases |todo|
      {
        var key :| key in todo;
        var inner, dropped := CleanupInner(now, tokens[key]);
        removed := removed + dropped;
        ShrinkCount(tokens, key, inner);
        ShrinkIsCleaned(was, now, was.Keys - todo, key);
        assert was.Keys - todo + {key} == was.Keys - (todo - {key});
        if inner == map[] {
          tokens := tokens - {key};
        } else {
          tokens := tokens[key := inner];
        }
        todo := todo - {key};
      }
      assert tokens == Cleanup(was, now);
    }

    method CleanupInner(now: int, sessionTokens: map<string, Entry>) returns (kept: map<string, Entry>, dropped: nat)
      ensures kept == LiveInner(sessionTokens, now)
      ensures dropped + |kept| == |sessionTokens|
    {
      kept, dropped := sessionTokens, 0;
      var todo := sessionTokens.Keys;
      while todo != {}
        invariant todo <= kept.Keys <= sessionTokens.Keys
        invariant forall u :: u in kept <==> u in sessionTokens && (u in todo || !IsTokenExpired(sessionTokens[u].expiresAt, now))
        invariant forall u :: u in kept ==> kept[u] == sessionTokens[u]
        invariant dropped + |kept| == |sessionTokens|
        decreases |todo|
      {
        var res :| res in todo;
        if IsTokenExpired(kept[res].expiresAt, now) {
          assert |(kept - {res}).Keys| == |kept.Keys| - 1 by { assert (kept - {res}).Keys == kept.Keys - {res}; }
          kept := kept - {res};
          dropped := dropped + 1;
        }
        todo := todo - {res};
      }
    }
  }

  /** The cache once the sessions in `done` have been cleaned. */
  ghost function Cleaned(m: Tokens, now: int, done: set<string>): Tokens {
    map k | k in m && (k in done ==> LiveInner(m[k], now) != map[]) :: if k in done then LiveInner(m[k], now) else m[k]
  }

  ghost function PairsOf(k: string, inner: map<string, Entry>): set<(string, string)> {
    set u | u in inner :: (k, u)
  }

  lemma {:induction false} PairCount(k: string, inner: map<string, Entry>)
    ensures |PairsOf(k, inner)| == |inner|
    decreases |inner|
  {
    if inner != map[] {
      var u :| u in inner;
      var rest := inner - {u};
      assert rest.Keys == inner.Keys - {u};
      PairCount(k, rest);
      assert PairsOf(k, inner) == PairsOf(k, rest) + {(k, u)};
    } else {
      assert PairsOf(k, inner) == {};
    }
  }

  lemma PairsSplit(m: Tokens, key: string)
    requires key in m
    ensures |Pairs(m)| == |Pairs(m - {key})| + |m[key]|
  {
    PairCount(key, m[key]);
    assert Pairs(m) == Pairs(m - {key}) + PairsOf(key, m[key]);
    assert Pairs(m - {key}) !! PairsOf(key, m[key]);
  }

  /** `tokens[key]` shrinks to `inner`, and goes away when that is empty. */
  function Shrink(m: Tokens, key: string, inner: map<string, Entry>): Tokens {
    if inner == map[] then m - {key} else m[key := inner]
  }

  lemma ShrinkCount(m: Tokens, key: string, inner: map<string, Entry>)
    requires key in m
    ensures |Pairs(Shrink(m, key, inner))| == |Pairs(m)| - |m[key]| + |inner|
  {
    PairsSplit(m, key);
    if inner != map[] {
      assert m[key := inner] - {key} == m - {key};
      PairsSplit(m[key := inner], key);
    }
  }

  lemma ShrinkIsCleaned(m: Tokens, now: int, done: set<string>, key: string)
    requires key in m && key !in done
    ensures Shrink(Cleaned(m, now, done), key, LiveInner(m[key], now)) == Cleaned(m, now, done + {key})
  {
  }
}
