/** Verification of a signature list through x5c certificate chains (section
    4.1.6 of RFC 7515) against a cached trust bundle. */
module X5c {
  import opened Strings
  import opened Json
  import opened CanonicalCard
  import opened Signing

  /** Root certificates, by number. */
  type Pool = set<int>

  /** Certificate decoding, chain building and URL parsing. `chain` is the x509
      check pinned to just after the leaf's start; `host` is None for a malformed
      URL; `load` parses a bundle document and is None on an error or when it
      holds no certificate. */
  datatype Env = Env(
    crypto: Crypto,
    cert: string -> Option<Cert>,
    chain: (Pool, Cert, seq<Cert>) -> bool,
    host: string -> Option<string>,
    load: string -> Option<Pool>,
    hash: string -> string)

  // ---------- one certificate ----------

  ghost predicate OnlySpiffe(uris: seq<Uri>, i: int) {
    0 <= i < |uris| && forall j :: 0 <= j < |uris| ==> (uris[j].scheme == "spiffe" <==> j == i)
  }

  /** The one spiffe URI of the leaf, if it names a trust domain. */
  ghost predicate IsSpiffeId(env: Env, leaf: Cert, id: string) {
    && (exists i :: OnlySpiffe(leaf.uris, i) && leaf.uris[i].text == id)
    && env.host(id).Some? && env.host(id).value != ""
  }

  lemma SpiffeIdIsUnique(env: Env, leaf: Cert, a: string, b: string)
    requires IsSpiffeId(env, leaf, a) && IsSpiffeId(env, leaf, b)
    ensures a == b
  {
    var i :| OnlySpiffe(leaf.uris, i) && leaf.uris[i].text == a;
    var j :| OnlySpiffe(leaf.uris, j) && leaf.uris[j].text == b;
  }

  ghost function SpiffeTexts(uris: seq<Uri>): seq<string> {
    if uris == [] then []
    else
      var last := uris[|uris| - 1];
      SpiffeTexts(uris[..|uris| - 1]) + if last.scheme == "spiffe" then [last.text] else []
  }

  lemma {:induction false} NoSpiffe(uris: seq<Uri>)
    ensures SpiffeTexts(uris) == [] <==> forall j :: 0 <= j < |uris| ==> uris[j].scheme != "spiffe"
  {
    if uris != [] { NoSpiffe(uris[..|uris| - 1]); }
  }

  lemma {:induction false} OneSpiffe(uris: seq<Uri>)
    ensures |SpiffeTexts(uris)| == 1 <==> exists i :: OnlySpiffe(uris, i)
    ensures forall i | OnlySpiffe(uris, i) :: SpiffeTexts(uris) == [uris[i].text]
  {
    if uris != [] {
      var n := |uris| - 1;
      var most := uris[..n];
      OneSpiffe(most);
      NoSpiffe(most);
      if uris[n].scheme == "spiffe" {
        if SpiffeTexts(most) == [] { assert OnlySpiffe(uris, n); }
        forall i | OnlySpiffe(uris, i) ensures SpiffeTexts(uris) == [uris[i].text] { assert i == n; }
      } else {
        forall i ensures OnlySpiffe(uris, i) <==> OnlySpiffe(most, i) { OnlySpiffeShrinks(uris, i); }
        if |SpiffeTexts(most)| == 1 {
          var i :| OnlySpiffe(most, i);
          assert OnlySpiffe(uris, i);
        }
        forall i | OnlySpiffe(uris, i) ensures SpiffeTexts(uris) == [uris[i].text] { assert OnlySpiffe(most, i); }
      }
    }
  }

  lemma OnlySpiffeShrinks(uris: seq<Uri>, i: int)
    requires uris != [] && uris[|uris| - 1].scheme != "spiffe"
    ensures OnlySpiffe(uris, i) <==> OnlySpiffe(uris[..|uris| - 1], i)
  {
    var most := uris[..|uris| - 1];
    assert forall j :: 0 <= j < |most| ==> most[j] == uris[j];
    if OnlySpiffe(most, i) {
      assert most[i] == uris[i];
    }
  }

  method ExtractSpiffeId(env: Env, leaf: Cert) returns (id: Option<string>)
    ensures id.Some? <==> exists t :: IsSpiffeId(env, leaf, t)
    ensures id.Some? ==> IsSpiffeId(env, leaf, id.value)
  {
    var ids: seq<string> := [];
    for i := 0 to |leaf.uris|
      invariant ids == SpiffeTexts(leaf.uris[..i])
    {
      assert leaf.uris[..i + 1][..i] == leaf.uris[..i];
      if leaf.uris[i].scheme == "spiffe" { ids := ids + [leaf.uris[i].text]; }
    }
    assert leaf.uris[..|leaf.uris|] == leaf.uris;
    OneSpiffe(leaf.uris);
    if |ids| != 1 { return None; }
    var host := env.host(ids[0]);
    ghost var i :| OnlySpiffe(leaf.uris, i);
    if host == None || host.value == "" {
      forall t ensures !IsSpiffeId(env, leaf, t) {
        if exists j :: OnlySpiffe(leaf.uris, j) && leaf.uris[j].text == t {
          var j :| OnlySpiffe(leaf.uris, j) && leaf.uris[j].text == t;
          assert ids == [t];
        }
      }
      return None;
    }
    assert leaf.uris[i].text == ids[0];
    assert IsSpiffeId(env, leaf, ids[0]);
    return Some(ids[0]);
  }

  // ---------- one signature ----------

  /** The certificates of an x5c list; None when one does not parse. */
  function Certs(env: Env, x5c: seq<string>): (r: Option<seq<Cert>>)
    ensures r.Some? <==> forall i :: 0 <= i < |x5c| ==> env.cert(x5c[i]).Some?
    ensures r.Some? ==> |r.value| == |x5c| && forall i :: 0 <= i < |x5c| ==> r.value[i] == env.cert(x5c[i]).value
  {
    if x5c == [] then Some([])
    else
      var n := |x5c| - 1;
      var most := Certs(env, x5c[..n]);
      assert forall i :: 0 <= i < n ==> x5c[..n][i] == x5c[i];
      if most.Some? && env.cert(x5c[n]).Some? then Some(most.value + [env.cert(x5c[n]).value]) else None
  }

  /** The parsed chain of a signature, leaf first. */
  function ChainOf(env: Env, sig: Signature): (r: Option<seq<Cert>>)
    ensures r.Some? ==> r.value != []
  {
    match HeaderIn(env.crypto, sig)
    case None => None
    case Some(h) => if h.x5c == [] then None else Certs(env, h.x5c)
  }

  predicate Parseable(env: Env, sig: Signature) { ChainOf(env, sig).Some? }

  /** At most three certificates, and they lead to a trusted root. */
  predicate ChainOk(env: Env, roots: Pool, sig: Signature)
    requires Parseable(env, sig)
  {
    var chain := ChainOf(env, sig).value;
    |chain| <= 3 && env.chain(roots, chain[0], chain[1..])
  }

  ghost predicate SanOk(env: Env, sig: Signature)
    requires Parseable(env, sig)
  {
    exists id :: IsSpiffeId(env, ChainOf(env, sig).value[0], id)
  }

  /** A signature that does not make the loop give up. */
  ghost predicate Harmless(env: Env, roots: Pool, sig: Signature) {
    Parseable(env, sig) ==> ChainOk(env, roots, sig) && SanOk(env, sig)
  }

  ghost predicate FullyVerifies(env: Env, roots: Pool, card: map<string, Value>, sig: Signature) {
    && Parseable(env, sig) && ChainOk(env, roots, sig) && SanOk(env, sig)
    && var pem := env.crypto.toPem(ChainOf(env, sig).value[0].publicKey);
       pem.Some? && Accepts(env.crypto, card, sig, pem.value)
  }

  // ---------- the signature list ----------

  datatype Result = Result(verified: bool, keyId: string, spiffeId: string, notAfter: int)

  /** The first position where `p` holds; |s| when there is none. */
  ghost function FirstWhere<T>(s: seq<T>, p: T -> bool): (i: nat)
    ensures i <= |s|
    ensures i < |s| ==> p(s[i])
    ensures forall j :: 0 <= j < i ==> !p(s[j])
  {
    if s == [] then 0
    else
      var n := |s| - 1;
      var i := FirstWhere(s[..n], p);
      assert forall j :: 0 <= j < n ==> s[..n][j] == s[j];
      if i < n then i else if p(s[n]) then n else n + 1
  }

  /** The first signature that fully verifies; |sigs| when none does. */
  ghost function First(env: Env, roots: Pool, card: map<string, Value>, sigs: seq<Signature>): (i: nat)
    ensures i <= |sigs|
    ensures i < |sigs| ==> FullyVerifies(env, roots, card, sigs[i])
    ensures forall j :: 0 <= j < i ==> !FullyVerifies(env, roots, card, sigs[j])
  {
    FirstWhere(sigs, sig => FullyVerifies(env, roots, card, sig))
  }

  /** Verified: a signature fully verifies and every earlier one is harmless. */
  ghost predicate Verified(env: Env, roots: Pool, card: map<string, Value>, sigs: seq<Signature>) {
    exists i :: 0 <= i < |sigs| && FullyVerifies(env, roots, card, sigs[i])
      && forall j :: 0 <= j < i ==> Harmless(env, roots, sigs[j])
  }

  lemma VerifiedAtFirst(env: Env, roots: Pool, card: map<string, Value>, sigs: seq<Signature>)
    ensures var i := First(env, roots, card, sigs);
            Verified(env, roots, card, sigs) <==> i < |sigs| && forall j :: 0 <= j < i ==> Harmless(env, roots, sigs[j])
  {
    var first := First(env, roots, card, sigs);
    if Verified(env, roots, card, sigs) {
      var i :| 0 <= i < |sigs| && FullyVerifies(env, roots, card, sigs[i])
        && forall j :: 0 <= j < i ==> Harmless(env, roots, sigs[j]);
      assert first <= i;
    }
  }

  /** The provider promises success when at least one signature verifies. The
      code keeps that promise exactly when nothing before it makes it give up. */
  lemma OneGoodSignatureSufficesExactly(env: Env, roots: Pool, card: map<string, Value>, sigs: seq<Signature>)
    requires exists i :: 0 <= i < |sigs| && FullyVerifies(env, roots, card, sigs[i])
    ensures var i := First(env, roots, card, sigs);
            Verified(env, roots, card, sigs) <==> forall j :: 0 <= j < i ==> Harmless(env, roots, sigs[j])
  {
    VerifiedAtFirst(env, roots, card, sigs);
  }

  /** The same two signatures verify in one order and not in the other. */
  lemma OrderDecides(env: Env, roots: Pool, card: map<string, Value>, bad: Signature, good: Signature)
    requires Parseable(env, bad) && !ChainOk(env, roots, bad) && FullyVerifies(env, roots, card, good)
    ensures Verified(env, roots, card, [good, bad]) && !Verified(env, roots, card, [bad, good])
  {
    VerifiedAtFirst(env, roots, card, [bad, good]);
    VerifiedAtFirst(env, roots, card, [good, bad]);
    assert [bad, good][0] == bad && [bad, good][1] == good && [good, bad][0] == good;
    assert First(env, roots, card, [good, bad]) == 0;
    assert First(env, roots, card, [bad, good]) == 1;
  }

  /** What the caller learns from a result. */
  ghost predicate Describes(env: Env, roots: Pool, card: map<string, Value>, sigs: seq<Signature>, r: Result) {
    var i := First(env, roots, card, sigs);
    && i < |sigs|
    && var leaf := ChainOf(env, sigs[i]).value[0];
       IsSpiffeId(env, leaf, r.spiffeId) && r.notAfter == leaf.notAfter && r.keyId == HeaderIn(env.crypto, sigs[i]).value.kid
  }

  datatype Step = Skip | Stop | Accept(result: Result)

  /** One pass through the loop body. */
  method CheckSignature(env: Env, roots: Pool, card: map<string, Value>, sig: Signature) returns (step: Step)
    ensures step.Stop? <==> !Harmless(env, roots, sig)
    ensures step.Accept? <==> FullyVerifies(env, roots, card, sig)
    ensures step.Accept? ==>
      && step.result.verified && step.result.keyId == HeaderIn(env.crypto, sig).value.kid
      && IsSpiffeId(env, ChainOf(env, sig).value[0], step.result.spiffeId)
      && step.result.notAfter == ChainOf(env, sig).value[0].notAfter
  {
    var certs := ChainOf(env, sig);
    if certs == None { return Skip; }
    var leaf, intermediates := certs.value[0], certs.value[1..];
    if |intermediates| + 1 > 3 || !env.chain(roots, leaf, intermediates) { return Stop; }
    var id := ExtractSpiffeId(env, leaf);
    if id == None { return Stop; }
    var pem := env.crypto.toPem(leaf.publicKey);
    if pem == None { return Skip; }
    var v := VerifyJWS(env.crypto, card, Some(sig), pem.value);
    if !v.failed && v.verified { return Accept(Result(true, v.keyId, id.value, leaf.notAfter)); }
    return Skip;
  }

  /** The loop over the signatures. */
  method VerifySignatures(env: Env, roots: Pool, card: map<string, Value>, sigs: seq<Signature>) returns (r: Result)
    ensures r.verified <==> Verified(env, roots, card, sigs)
    ensures r.verified ==> Describes(env, roots, card, sigs, r)
  {
    VerifiedAtFirst(env, roots, card, sigs);
    ghost var first := First(env, roots, card, sigs);
    for i := 0 to |sigs|
      invariant i <= first
      invariant forall j :: 0 <= j < i ==> Harmless(env, roots, sigs[j])
    {
      var step := CheckSignature(env, roots, card, sigs[i]);
      match step {
        case Skip =>
        case Stop => return Result(false, "", "", 0);
        case Accept(result) =>
          assert first == i;
          return result;
      }
    }
    return Result(false, "", "", 0);
  }

  // ---------- the provider ----------

  /** `raw` is the bundle document read from the ConfigMap: None when the object
      or its key is missing. `now` is the time of the age check, `at` of the load. */
  class X5CProvider {
    const env: Env
    const refreshInterval: int
    var trustBundle: Option<Pool>
    var lastBundleLoad: int
    var bundleHash: string

    constructor (env: Env, refreshInterval: int)
      ensures Valid() && trustBundle == None && bundleHash == "" && this.env == env
    {
      this.env := env;
      this.refreshInterval := if refreshInterval == 0 then 300 else refreshInterval;
      trustBundle, lastBundleLoad, bundleHash := None, 0, "";
    }

    ghost predicate FromOneDocument(raw: string)
      reads this
    {
      env.load(raw) == trustBundle && env.hash(raw) == bundleHash
    }

    /** Roots and hash always come from the same document. */
    ghost predicate Valid()
      reads this
    {
      trustBundle.Some? ==> exists raw :: FromOneDocument(raw)
    }

    predicate Usable(raw: Option<string>) { raw.Some? && raw.value != "" && env.load(raw.value).Some? }

    method RefreshTrustBundle(raw: Option<string>, at: int) returns (ok: bool)
      requires Valid()
      modifies this
      ensures Valid() && ok == Usable(raw)
      ensures ok ==> FromOneDocument(raw.value) && lastBundleLoad == at
      ensures !ok ==> trustBundle == old(trustBundle) && lastBundleLoad == old(lastBundleLoad) && bundleHash == old(bundleHash)
    {
      if raw == None || raw.value == "" { return false; }
      var pool := env.load(raw.value);
      if pool == None { return false; }
      trustBundle, lastBundleLoad, bundleHash := pool, at, env.hash(raw.value);
      assert FromOneDocument(raw.value);
      return true;
    }

    method MaybeRefreshTrustBundle(raw: Option<string>, now: int, at: int) returns (ok: bool)
      requires Valid()
      modifies this
      ensures Valid() && ok == trustBundle.Some?
      ensures old(trustBundle).Some? ==> trustBundle.Some?
      ensures Usable(raw) ==> ok && (now - lastBundleLoad < refreshInterval || (FromOneDocument(raw.value) && lastBundleLoad == at))
      ensures !Usable(raw) || (old(trustBundle).Some? && now - old(lastBundleLoad) < refreshInterval)
              ==> trustBundle == old(trustBundle) && bundleHash == old(bundleHash)
    {
      if trustBundle == None {
        ok := RefreshTrustBundle(raw, at);
        return;
      }
      if now - lastBundleLoad < refreshInterval { return true; }
      var _ := RefreshTrustBundle(raw, at);
      return true;
    }

    /** Verifies against the bundle it holds after the refresh; without one
        nothing verifies. */
    method VerifySignature(card: map<string, Value>, sigs: seq<Signature>, raw: Option<string>, now: int, at: int) returns (r: Result)
      requires Valid()
      modifies this
      ensures Valid() && (old(trustBundle).Some? ==> trustBundle.Some?)
      ensures r.verified <==> trustBundle.Some? && Verified(env, trustBundle.value, card, sigs)
      ensures r.verified ==> Describes(env, trustBundle.value, card, sigs, r)
    {
      var ok := MaybeRefreshTrustBundle(raw, now, at);
      if !ok { return Result(false, "", "", 0); }
      r := VerifySignatures(env, trustBundle.value, card, sigs);
    }
  }

  // ---------- signing then verifying through the chain ----------

  /** Certificates read back from the base64 text a signer writes. */
  ghost predicate CorrectCerts(env: Env, certs: seq<Cert>) {
    forall i :: 0 <= i < |certs| ==> env.cert(env.crypto.rawToBase64(certs[i].raw)) == Some(certs[i])
  }

  lemma ChainReadsBack(env: Env, body: map<string, Value>, signer: Signer, certs: seq<Cert>, nonce: int)
    requires Correct(env.crypto) && Sign(env.crypto, body, signer, certs, nonce).Some?
    requires certs[0].publicKey == signer.public && CorrectCerts(env, certs)
    ensures ChainOf(env, Sign(env.crypto, body, signer, certs, nonce).value) == Some(certs)
  {
    SignThenVerify(env.crypto, body, signer, certs, nonce);
    CertsReadBack(env, certs);
  }

  lemma CertsReadBack(env: Env, certs: seq<Cert>)
    requires CorrectCerts(env, certs)
    ensures Certs(env, Signing.X5c(env.crypto, certs)) == Some(certs)
  {
    var x5c := Signing.X5c(env.crypto, certs);
    assert forall i :: 0 <= i < |x5c| ==> x5c[i] == env.crypto.rawToBase64(certs[i].raw);
    assert Certs(env, x5c).value == certs;
  }

  /** A card signed with a trusted leaf that has one SPIFFE ID is verified, and
      the caller learns that ID. */
  lemma SignedCardIsVerified(env: Env, roots: Pool, body: map<string, Value>, signer: Signer, certs: seq<Cert>, nonce: int, id: string)
    requires Correct(env.crypto) && Sign(env.crypto, body, signer, certs, nonce).Some?
    requires certs[0].publicKey == signer.public && CorrectCerts(env, certs)
    requires |certs| <= 3 && env.chain(roots, certs[0], certs[1..]) && IsSpiffeId(env, certs[0], id)
    ensures var sigs := [Sign(env.crypto, body, signer, certs, nonce).value];
            var card := CardMap(body, sigs);
            Verified(env, roots, card, sigs)
            && forall r | Describes(env, roots, card, sigs, r) :: r.spiffeId == id && r.notAfter == certs[0].notAfter
  {
    var sig := Sign(env.crypto, body, signer, certs, nonce).value;
    var card := CardMap(body, [sig]);
    ChainReadsBack(env, body, signer, certs, nonce);
    SignThenVerify(env.crypto, body, signer, certs, nonce);
    assert FullyVerifies(env, roots, card, [sig][0]);
    assert First(env, roots, card, [sig]) == 0;
    forall r | Describes(env, roots, card, [sig], r) ensures r.spiffeId == id {
      SpiffeIdIsUnique(env, certs[0], r.spiffeId, id);
    }
  }

  /** Verification of a signature does not depend on which signatures the card carries. */
  lemma AcceptsAnyCarrier(c: Crypto, body: map<string, Value>, a: seq<Signature>, b: seq<Signature>, sig: Signature, pem: string)
    ensures Accepts(c, CardMap(body, a), sig, pem) <==> Accepts(c, CardMap(body, b), sig, pem)
  {
    CardMapPayload(body, a);
    CardMapPayload(body, b);
  }

  /** A trusted signer's key, chain and randomness. */
  datatype Party = Party(signer: Signer, certs: seq<Cert>, nonce: int)

  /** The party can sign the card with a chain that reads back. */
  ghost predicate CanSign(env: Env, body: map<string, Value>, p: Party) {
    && Sign(env.crypto, body, p.signer, p.certs, p.nonce).Some?
    && p.certs[0].publicKey == p.signer.public && CorrectCerts(env, p.certs)
  }

  ghost predicate Trusted(env: Env, roots: Pool, p: Party) {
    && p.certs != [] && |p.certs| <= 3 && env.chain(roots, p.certs[0], p.certs[1..])
    && exists id :: IsSpiffeId(env, p.certs[0], id)
  }

  lemma TrustedPartyFullyVerifies(env: Env, roots: Pool, body: map<string, Value>, p: Party, sigs: seq<Signature>)
    requires Correct(env.crypto) && CanSign(env, body, p) && Trusted(env, roots, p)
    ensures FullyVerifies(env, roots, CardMap(body, sigs), Sign(env.crypto, body, p.signer, p.certs, p.nonce).value)
  {
    var sig := Sign(env.crypto, body, p.signer, p.certs, p.nonce).value;
    ChainReadsBack(env, body, p.signer, p.certs, p.nonce);
    SignThenVerify(env.crypto, body, p.signer, p.certs, p.nonce);
    AcceptsAnyCarrier(env.crypto, body, [sig], sigs, sig, env.crypto.toPem(p.certs[0].publicKey).value);
  }

  /** Against the documented promise, whatever correct library is used: a card that a
      party with an untrusted chain signed first and a trusted party second is refused,
      although the second signature fully verifies; in the other order it is verified. */
  lemma GoodSignatureRefused(env: Env, roots: Pool, body: map<string, Value>, bad: Party, good: Party)
    requires Correct(env.crypto) && CanSign(env, body, bad) && CanSign(env, body, good)
    requires Trusted(env, roots, good) && !(|bad.certs| <= 3 && env.chain(roots, bad.certs[0], bad.certs[1..]))
    ensures var x := Sign(env.crypto, body, bad.signer, bad.certs, bad.nonce).value;
            var y := Sign(env.crypto, body, good.signer, good.certs, good.nonce).value;
            && FullyVerifies(env, roots, CardMap(body, [x, y]), y)
            && !Verified(env, roots, CardMap(body, [x, y]), [x, y])
            && Verified(env, roots, CardMap(body, [y, x]), [y, x])
  {
    var x := Sign(env.crypto, body, bad.signer, bad.certs, bad.nonce).value;
    var y := Sign(env.crypto, body, good.signer, good.certs, good.nonce).value;
    TrustedPartyFullyVerifies(env, roots, body, good, [x, y]);
    TrustedPartyFullyVerifies(env, roots, body, good, [y, x]);
    ChainReadsBack(env, body, bad.signer, bad.certs, bad.nonce);
    OrderDecides(env, roots, CardMap(body, [x, y]), x, y);
    OrderDecides(env, roots, CardMap(body, [y, x]), x, y);
  }
}
