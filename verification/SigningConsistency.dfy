/** The assumptions about the cryptographic library are consistent: a library that
    satisfies all of them, and under which every accepted key signs every card. */
module SigningConsistency {
  import opened Strings
  import opened Json
  import opened CanonicalCard
  import opened Ecdsa
  import opened Signing
  import X5c

  // ---------- a text encoding without dots ----------

  function Undot(t: string): (s: string)
    ensures '.' !in s
  {
    if t == [] then []
    else (if t[0] == '.' then "~d" else if t[0] == '~' then "~t" else [t[0]]) + Undot(t[1..])
  }

  function Redot(s: string): Option<string> {
    if s == [] then Some([])
    else if s[0] != '~' then Prepend(s[0], Redot(s[1..]))
    else if |s| == 1 then None
    else Prepend(if s[1] == 'd' then '.' else '~', Redot(s[2..]))
  }

  function Prepend(c: char, t: Option<string>): Option<string> {
    if t.Some? then Some([c] + t.value) else None
  }

  lemma {:induction false} RedotUndot(t: string)
    ensures Redot(Undot(t)) == Some(t)
  {
    if t != [] {
      RedotUndot(t[1..]);
      var s := Undot(t);
      assert t[0] == '.' || t[0] == '~' ==> s[2..] == Undot(t[1..]);
      assert t[0] != '.' && t[0] != '~' ==> s[1..] == Undot(t[1..]);
      assert t == [t[0]] + t[1..];
    }
  }

  // ---------- bytes as characters ----------

  function Chars(b: seq<byte>): string { if b == [] then [] else [b[0] as char] + Chars(b[1..]) }

  function Codes(s: string): Option<seq<byte>> {
    if s == [] then Some([])
    else if s[0] as int >= 256 || Codes(s[1..]) == None then None
    else Some([s[0] as int] + Codes(s[1..]).value)
  }

  lemma {:induction false} CodesOfChars(b: seq<byte>)
    ensures Codes(Chars(b)) == Some(b)
  {
    if b != [] {
      CodesOfChars(b[1..]);
      assert Chars(b)[1..] == Chars(b[1..]) && b == [b[0]] + b[1..];
    }
  }

  // ---------- keys as tallies ----------

  function Tally(c: char, n: nat): string { if n == 0 then [] else [c] + Tally(c, n - 1) }

  lemma {:induction false} TallyCount(c: char, n: nat, d: char)
    ensures multiset(Tally(c, n))[d] == if c == d then n else 0
  {
    if n > 0 { TallyCount(c, n - 1, d); }
  }

  function Count(t: string, c: char): int { multiset(t)[c] }

  lemma CountSum(a: string, b: string, c: char)
    ensures Count(a + b, c) == Count(a, c) + Count(b, c)
  {
  }

  lemma CountId(id: int, c: char)
    ensures Count(IdText(id), c) == if c == 'p' && id >= 0 then id else if c == 'm' && id < 0 then -id else 0
  {
    if id >= 0 { TallyCount('p', id, c); } else { TallyCount('m', -id, c); }
  }

  function KeyText(k: PublicKey): string {
    match k
    case Rsa(bits, id) => Tally('r', bits) + IdText(id)
    case Ec(curve, id) => [if curve.P256? then '2' else if curve.P384? then '3' else '5'] + IdText(id)
    case OtherKey(id) => []
  }

  function IdText(id: int): string { if id >= 0 then Tally('p', id) else Tally('m', -id) }

  function TextKey(t: string): PublicKey {
    var id := Count(t, 'p') - Count(t, 'm');
    if Count(t, '2') > 0 then Ec(P256, id)
    else if Count(t, '3') > 0 then Ec(P384, id)
    else if Count(t, '5') > 0 then Ec(P521, id)
    else Rsa(multiset(t)['r'], id)
  }

  lemma RsaCount(bits: nat, id: int, c: char)
    ensures Count(KeyText(Rsa(bits, id)), c) == (if c == 'r' then bits else 0) + Count(IdText(id), c)
  {
    TallyCount('r', bits, c);
    CountSum(Tally('r', bits), IdText(id), c);
  }

  lemma EcCount(curve: Curve, id: int, c: char)
    ensures Count(KeyText(Ec(curve, id)), c)
         == (if c == (if curve.P256? then '2' else if curve.P384? then '3' else '5') then 1 else 0) + Count(IdText(id), c)
  {
    CountSum([if curve.P256? then '2' else if curve.P384? then '3' else '5'], IdText(id), c);
  }

  lemma RsaText(bits: nat, id: int, c: char)
    ensures Count(KeyText(Rsa(bits, id)), c)
         == (if c == 'r' then bits else 0) + if c == 'p' && id >= 0 then id else if c == 'm' && id < 0 then -id else 0
  {
    RsaCount(bits, id, c);
    CountId(id, c);
  }

  lemma RsaReadsBack(bits: nat, id: int)
    ensures TextKey(KeyText(Rsa(bits, id))) == Rsa(bits, id)
  {
    RsaText(bits, id, 'r');
    RsaText(bits, id, 'p');
    RsaText(bits, id, 'm');
    RsaText(bits, id, '2');
    RsaText(bits, id, '3');
    RsaText(bits, id, '5');
    assert multiset(KeyText(Rsa(bits, id)))['r'] == Count(KeyText(Rsa(bits, id)), 'r');
  }

  lemma EcText(curve: Curve, id: int, c: char)
    ensures Count(KeyText(Ec(curve, id)), c)
         == (if c == (if curve.P256? then '2' else if curve.P384? then '3' else '5') then 1 else 0)
            + if c == 'p' && id >= 0 then id else if c == 'm' && id < 0 then -id else 0
  {
    EcCount(curve, id, c);
    CountId(id, c);
  }

  lemma EcReadsBack(curve: Curve, id: int)
    requires !curve.OtherCurve?
    ensures TextKey(KeyText(Ec(curve, id))) == Ec(curve, id)
  {
    EcText(curve, id, 'p');
    EcText(curve, id, 'm');
    EcText(curve, id, '2');
    EcText(curve, id, '3');
    EcText(curve, id, '5');
  }

  lemma KeyReadsBack(k: PublicKey)
    requires AlgorithmForKey(k).Some?
    ensures TextKey(KeyText(k)) == k
  {
    match k
    case Rsa(bits, id) => RsaReadsBack(bits, id);
    case Ec(curve, id) => EcReadsBack(curve, id);
  }

  // ---------- the library ----------

  /** The header a text parses to, if it parses to one. */
  ghost function ReadHeader(t: string): Option<Header> {
    if exists h :: ParseValue(t) == Done(Obj(HeaderFields(h)), [])
    then var h :| ParseValue(t) == Done(Obj(HeaderFields(h)), []); Some(h)
    else None
  }

  ghost function Library(): Crypto {
    Crypto(
      (h, t) => [], (s, h, d, n) => Some([]), (k, h, d, b) => true, (k, h, d, b) => true,
      (s, d, n) => Some((0, 0)), (k, d, x, y) => true, (k, d, b) => true,
      t => Undot(t), t => Redot(t), b => Chars(b), t => Codes(t),
      t => ReadHeader(t), h => HeaderText(h), k => Some(KeyText(k)), t => Some(TextKey(t)), t => t, t => t)
  }

  lemma LibraryIsCorrect()
    ensures Correct(Library())
  {
    var c := Library();
    forall t ensures c.ofBase64(c.toBase64(t)) == Some(t) && '.' !in c.toBase64(t) { RedotUndot(t); }
    forall b ensures c.bytesOfBase64(c.bytesToBase64(b)) == Some(b) { CodesOfChars(b); }
    forall t, h | ParseValue(t) == Done(Obj(HeaderFields(h)), []) ensures c.header(t) == Some(h) {
      var g :| ParseValue(t) == Done(Obj(HeaderFields(g)), []) && c.header(t) == Some(g);
      HeaderFieldsInjective(g, h);
    }
    forall k | AlgorithmForKey(k).Some? ensures c.toPem(k).Some? && c.ofPem(c.toPem(k).value) == Some(k) { KeyReadsBack(k); }
  }

  /** Every accepted key held in memory signs every card with the library. */
  lemma LibrarySigns(body: map<string, Value>, signer: Signer, certs: seq<Cert>, nonce: int)
    requires AlgorithmForKey(signer.public).Some? && signer.native && certs != []
    ensures Sign(Library(), body, signer, certs, nonce).Some?
  {
    var c := Library();
    LibraryIsCorrect();
    var a := AlgorithmForKey(signer.public).value;
    var d := c.digest(HashFor(a), SigningInput(c, c.toBase64(c.headerText(HeaderOf(c, a, certs))), body));
    SignFailsExactly(c, signer, a, d, nonce);
  }

  /** Every assumption of `SignThenVerify` can be met, for every accepted key, card
      and certificate chain. */
  lemma AssumptionsAreConsistent(body: map<string, Value>, signer: Signer, certs: seq<Cert>, nonce: int)
    requires AlgorithmForKey(signer.public).Some? && signer.native && certs != []
    ensures exists c :: Correct(c) && Sign(c, body, signer, certs, nonce).Some?
  {
    LibraryIsCorrect();
    LibrarySigns(body, signer, certs, nonce);
  }

  // ---------- a refused list ----------

  function Leaf(raw: string): Cert { Cert(raw, Ec(P256, 0), [Uri("spiffe", "spiffe://d/a")], 0) }

  /** Certificates named by their text, of which one is trusted. */
  ghost predicate TrustsOnly(env: X5c.Env, raw: string) {
    && env.crypto == Library()
    && (forall t :: env.cert(t) == Some(Leaf(t)))
    && (forall roots, t :: env.chain(roots, Leaf(t), []) <==> t == raw)
    && (forall t :: env.host(t) == Some("d"))
  }

  lemma TrustingEnvironment(raw: string)
    ensures exists env :: TrustsOnly(env, raw)
  {
    var env := X5c.Env(Library(), t => Some(Leaf(t)), (roots: X5c.Pool, leaf: Cert, more: seq<Cert>) => leaf.raw == raw,
                       t => Some("d"), t => Some({}), t => t);
    assert TrustsOnly(env, raw);
  }

  function PartyOf(raw: string): X5c.Party { X5c.Party(Signer(Ec(P256, 0), true, 0), [Leaf(raw)], 0) }

  lemma LibraryKeepsRaw(t: string)
    ensures Library().rawToBase64(t) == t
  {
  }

  lemma PartyCanSign(env: X5c.Env, body: map<string, Value>, good: string, raw: string)
    requires TrustsOnly(env, good)
    ensures X5c.CanSign(env, body, PartyOf(raw))
  {
    var p := PartyOf(raw);
    LibrarySigns(body, p.signer, p.certs, p.nonce);
    LibraryKeepsRaw(raw);
  }

  lemma LeafIsTrusted(env: X5c.Env, roots: X5c.Pool, raw: string)
    requires TrustsOnly(env, raw)
    ensures X5c.Trusted(env, roots, PartyOf(raw))
  {
    assert [Leaf(raw)][1..] == [];
    assert X5c.OnlySpiffe(Leaf(raw).uris, 0);
    assert X5c.IsSpiffeId(env, Leaf(raw), "spiffe://d/a");
  }

  /** The signature of a party on a card. */
  ghost function SignatureOf(env: X5c.Env, body: map<string, Value>, p: X5c.Party): Signature
    requires X5c.CanSign(env, body, p)
  {
    Sign(env.crypto, body, p.signer, p.certs, p.nonce).value
  }

  ghost predicate RefusedThough(env: X5c.Env, roots: X5c.Pool, body: map<string, Value>, x: Signature, y: Signature) {
    && Correct(env.crypto) && X5c.FullyVerifies(env, roots, CardMap(body, [x, y]), y)
    && !X5c.Verified(env, roots, CardMap(body, [x, y]), [x, y])
  }

  lemma LeafIsUntrusted(env: X5c.Env, roots: X5c.Pool, good: string, raw: string)
    requires TrustsOnly(env, good) && raw != good
    ensures !env.chain(roots, PartyOf(raw).certs[0], PartyOf(raw).certs[1..])
  {
    assert PartyOf(raw).certs[1..] == [];
  }

  lemma RefusedBetween(env: X5c.Env, body: map<string, Value>, p: X5c.Party, q: X5c.Party)
    requires Correct(env.crypto) && X5c.CanSign(env, body, p) && X5c.CanSign(env, body, q) && X5c.Trusted(env, {}, q)
    requires !env.chain({}, p.certs[0], p.certs[1..])
    ensures exists x, y :: RefusedThough(env, {}, body, x, y)
  {
    X5c.GoodSignatureRefused(env, {}, body, p, q);
    assert RefusedThough(env, {}, body, SignatureOf(env, body, p), SignatureOf(env, body, q));
  }

  lemma RefusedByTrusting(env: X5c.Env, body: map<string, Value>, good: string, bad: string)
    requires good != bad && TrustsOnly(env, good)
    ensures exists x, y :: RefusedThough(env, {}, body, x, y)
  {
    LibraryIsCorrect();
    PartyCanSign(env, body, good, good);
    PartyCanSign(env, body, good, bad);
    LeafIsTrusted(env, {}, good);
    LeafIsUntrusted(env, {}, good, bad);
    RefusedBetween(env, body, PartyOf(bad), PartyOf(good));
  }

  /** The lists `X5c.GoodSignatureRefused` is about exist, for every card. */
  lemma RefusedListExists(body: map<string, Value>)
    ensures exists env, roots, x, y :: RefusedThough(env, roots, body, x, y)
  {
    var good, bad := "good", "bad";
    TrustingEnvironment(good);
    var env :| TrustsOnly(env, good);
    assert |good| != |bad|;
    RefusedByTrusting(env, body, good, bad);
  }
}
