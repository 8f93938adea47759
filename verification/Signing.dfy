/** Signing an agent card and verifying one signature: the JWS protected header,
    the signing input (section 5 of RFC 7515), the algorithm tables and the key
    checks. Hashing, RSA, ECDSA, base64, PEM and the JSON decoder of the header
    are functions of a `Crypto` record; `Correct` lists what is assumed of them. */
module Signing {
  import opened Strings
  import opened Json
  import opened CanonicalCard
  import opened Ecdsa

  // ---------- keys and algorithms ----------

  datatype Curve = P256 | P384 | P521 | OtherCurve(bits: nat)

  datatype PublicKey = Rsa(modulusBits: nat, id: int) | Ec(curve: Curve, id: int) | OtherKey(id: int)

  /** `native` says that an EC signer is an in-memory `*ecdsa.PrivateKey`. */
  datatype Signer = Signer(public: PublicKey, native: bool, secret: int)

  datatype Alg = RS256 | RS384 | RS512 | PS256 | PS384 | PS512 | ES256 | ES384 | ES512

  datatype Hash = SHA256 | SHA384 | SHA512

  function Name(a: Alg): string {
    match a
    case RS256 => "RS256" case RS384 => "RS384" case RS512 => "RS512"
    case PS256 => "PS256" case PS384 => "PS384" case PS512 => "PS512"
    case ES256 => "ES256" case ES384 => "ES384" case ES512 => "ES512"
  }

  /** The supported algorithm of that name; the empty name and `none` have none. */
  function Known(name: string): Option<Alg> {
    if name == "RS256" then Some(RS256) else if name == "RS384" then Some(RS384)
    else if name == "RS512" then Some(RS512) else if name == "PS256" then Some(PS256)
    else if name == "PS384" then Some(PS384) else if name == "PS512" then Some(PS512)
    else if name == "ES256" then Some(ES256) else if name == "ES384" then Some(ES384)
    else if name == "ES512" then Some(ES512) else None
  }

  function HashFor(a: Alg): Hash {
    match a
    case RS256 | PS256 | ES256 => SHA256
    case RS384 | PS384 | ES384 => SHA384
    case RS512 | PS512 | ES512 => SHA512
  }

  predicate IsRsa(a: Alg) { a.RS256? || a.RS384? || a.RS512? || IsPss(a) }

  predicate IsPss(a: Alg) { a.PS256? || a.PS384? || a.PS512? }

  /** The curve an ECDSA algorithm insists on. */
  function CurveFor(a: Alg): Option<Curve> {
    if a.ES256? then Some(P256) else if a.ES384? then Some(P384) else if a.ES512? then Some(P521) else None
  }

  function BitSize(curve: Curve): nat {
    match curve case P256 => 256 case P384 => 384 case P521 => 521 case OtherCurve(bits) => bits
  }

  /** A verifier takes this algorithm for this key. */
  predicate Fits(a: Alg, key: PublicKey) {
    match key
    case Rsa(bits, _) => bits >= 2048 && IsRsa(a)
    case Ec(curve, _) => CurveFor(a) == Some(curve)
    case OtherKey(_) => false
  }

  /** The algorithm a signer picks: one every verifier check accepts. */
  function AlgorithmForKey(key: PublicKey): (a: Option<Alg>)
    ensures a.Some? ==> Fits(a.value, key) && !IsPss(a.value)
    ensures a.None? <==> forall b | !IsPss(b) :: !Fits(b, key)
  {
    match key
    case Rsa(bits, _) =>
      assert bits >= 2048 ==> Fits(RS256, key);
      if bits < 2048 then None else Some(RS256)
    case Ec(curve, _) =>
      assert curve.P256? ==> Fits(ES256, key);
      assert curve.P384? ==> Fits(ES384, key);
      assert curve.P521? ==> Fits(ES512, key);
      if curve.P256? then Some(ES256) else if curve.P384? then Some(ES384)
      else if curve.P521? then Some(ES512) else None
    case OtherKey(_) => None
  }

  lemma NameIsKnown(a: Alg)
    ensures Known(Name(a)) == Some(a)
  {
    assert |Name(a)| == 5;
    assert Name(a)[0] == (if IsPss(a) then 'P' else if IsRsa(a) then 'R' else 'E');
    assert Name(a)[2] == (match HashFor(a) case SHA256 => '2' case SHA384 => '3' case SHA512 => '5');
  }

  // ---------- protected header ----------

  datatype Header = Header(alg: string, typ: string, kid: string, x5c: seq<string>)

  function Texts(items: seq<string>): (vs: seq<Value>)
    ensures |vs| == |items|
  {
    seq(|items|, i requires 0 <= i < |items| => Str(items[i]))
  }

  /** The header's JSON members in struct order; empty ones are omitted. */
  function HeaderKeys(h: Header): seq<string> {
    ["alg"] + (if h.typ == "" then [] else ["typ"]) + (if h.kid == "" then [] else ["kid"])
    + (if h.x5c == [] then [] else ["x5c"])
  }

  function HeaderFields(h: Header): map<string, Value> {
    map["alg" := Str(h.alg)] + (if h.typ == "" then map[] else map["typ" := Str(h.typ)])
    + (if h.kid == "" then map[] else map["kid" := Str(h.kid)])
    + (if h.x5c == [] then map[] else map["x5c" := Arr(Texts(h.x5c))])
  }

  lemma HeaderKeysAreFields(h: Header)
    ensures forall k :: k in HeaderKeys(h) <==> k in HeaderFields(h)
  {
  }

  /** Omitting empty members loses nothing. */
  lemma HeaderFieldsInjective(g: Header, h: Header)
    requires HeaderFields(g) == HeaderFields(h)
    ensures g == h
  {
    assert HeaderFields(g)["alg"] == Str(g.alg) && HeaderFields(h)["alg"] == Str(h.alg);
    assert "typ" in HeaderFields(g) ==> HeaderFields(g)["typ"] == Str(g.typ) && HeaderFields(h)["typ"] == Str(h.typ);
    assert "kid" in HeaderFields(g) ==> HeaderFields(g)["kid"] == Str(g.kid) && HeaderFields(h)["kid"] == Str(h.kid);
    if "x5c" in HeaderFields(g) {
      assert HeaderFields(g)["x5c"] == Arr(Texts(g.x5c)) && HeaderFields(h)["x5c"] == Arr(Texts(h.x5c));
      forall i | 0 <= i < |g.x5c| ensures g.x5c[i] == h.x5c[i] {
        assert Texts(g.x5c)[i] == Str(g.x5c[i]) && Texts(h.x5c)[i] == Str(h.x5c[i]);
      }
    }
  }

  /** `json.Marshal` of the header struct. */
  ghost function HeaderText(h: Header): string {
    HeaderKeysAreFields(h);
    ['{'] + PrintFields(Obj(HeaderFields(h)), HeaderKeys(h)) + ['}']
  }

  /** The text of a header parses to exactly its members. */
  lemma HeaderTextParses(h: Header)
    ensures ParseValue(HeaderText(h)) == Done(Obj(HeaderFields(h)), [])
  {
    var v := Obj(HeaderFields(h));
    var keys := HeaderKeys(h);
    HeaderKeysAreFields(h);
    ObjectInAnyKeyOrder(v, keys);
  }

  lemma ObjectInAnyKeyOrder(v: Value, keys: seq<string>)
    requires v.Obj? && keys != [] && forall k :: k in keys <==> k in v.fields
    ensures ParseValue(['{'] + PrintFields(v, keys) + ['}']) == Done(v, [])
  {
    forall k | k in v.fields ensures RoundTrips(v.fields[k]) { ParseUndoesPrint(v.fields[k]); }
    ParseFieldsText(v, keys, []);
    FieldsTextIs(v, keys, []);
    FieldsTextStarts(v, keys, []);
    assert Restrict(v.fields, keys) == v.fields;
    BracedFields(FieldsText(v, keys, []), v.fields, []);
    Wrap('{', PrintFields(v, keys), '}', []);
    assert ['{'] + PrintFields(v, keys) + ['}'] + [] == ['{'] + PrintFields(v, keys) + ['}'];
  }

  // ---------- what the code calls ----------

  datatype Uri = Uri(scheme: string, text: string)

  datatype Cert = Cert(raw: string, publicKey: PublicKey, uris: seq<Uri>, notAfter: int)

  datatype Crypto = Crypto(
    digest: (Hash, string) -> seq<byte>,
    rsaSign: (Signer, Hash, seq<byte>, int) -> Option<seq<byte>>,
    rsaVerify: (PublicKey, Hash, seq<byte>, seq<byte>) -> bool,
    pssVerify: (PublicKey, Hash, seq<byte>, seq<byte>) -> bool,
    ecSign: (Signer, seq<byte>, int) -> Option<(nat, nat)>,
    ecVerify: (PublicKey, seq<byte>, nat, nat) -> bool,
    asn1Verify: (PublicKey, seq<byte>, seq<byte>) -> bool,
    toBase64: string -> string,
    ofBase64: string -> Option<string>,
    bytesToBase64: seq<byte> -> string,
    bytesOfBase64: string -> Option<seq<byte>>,
    header: string -> Option<Header>,
    headerText: Header -> string,
    toPem: PublicKey -> Option<string>,
    ofPem: string -> Option<PublicKey>,
    rawToBase64: string -> string,
    fingerprint: string -> string)

  ghost predicate CorrectRsa(c: Crypto) {
    forall s: Signer, h, d, nonce | s.public.Rsa? && c.rsaSign(s, h, d, nonce).Some? ::
      c.rsaVerify(s.public, h, d, c.rsaSign(s, h, d, nonce).value)
  }

  /** A fresh ECDSA signature verifies and is below the group order. */
  ghost predicate CorrectEc(c: Crypto) {
    forall s: Signer, d, nonce | s.public.Ec? && c.ecSign(s, d, nonce).Some? ::
      var (x, y) := c.ecSign(s, d, nonce).value;
      c.ecVerify(s.public, d, x, y) && x < Pow2(BitSize(s.public.curve)) && y < Pow2(BitSize(s.public.curve))
  }

  /** base64url undoes itself and writes no dot. */
  ghost predicate CorrectBase64(c: Crypto) {
    && (forall t :: c.ofBase64(c.toBase64(t)) == Some(t) && '.' !in c.toBase64(t))
    && (forall b :: c.bytesOfBase64(c.bytesToBase64(b)) == Some(b))
  }

  /** The header encoder writes the struct's members, and the decoder reads any
      text that parses to exactly those members. */
  ghost predicate CorrectHeader(c: Crypto) {
    && (forall h :: c.headerText(h) == HeaderText(h))
    && (forall t, h | ParseValue(t) == Done(Obj(HeaderFields(h)), []) :: c.header(t) == Some(h))
  }

  ghost predicate CorrectPem(c: Crypto) {
    forall k | AlgorithmForKey(k).Some? :: c.toPem(k).Some? && c.ofPem(c.toPem(k).value) == Some(k)
  }

  ghost predicate Correct(c: Crypto) {
    CorrectRsa(c) && CorrectEc(c) && CorrectBase64(c) && CorrectHeader(c) && CorrectPem(c)
  }

  // ---------- cards and signatures ----------

  datatype Signature = Signature(protected: string, signature: string)

  function SignatureValue(s: Signature): Value {
    Obj(map["protected" := Str(s.protected), "signature" := Str(s.signature)])
  }

  /** The card's JSON members; an empty signature list is omitted. */
  function CardMap(body: map<string, Value>, sigs: seq<Signature>): map<string, Value> {
    if sigs == [] then body
    else body[SIGNATURES := Arr(seq(|sigs|, i requires 0 <= i < |sigs| => SignatureValue(sigs[i])))]
  }

  lemma CardMapPayload(body: map<string, Value>, sigs: seq<Signature>)
    ensures Payload(CardMap(body, sigs)) == Payload(body)
  {
    if sigs != [] { PayloadIgnoresSignatures(body, CardMap(body, sigs)[SIGNATURES]); }
  }

  ghost function SigningInput(c: Crypto, protected: string, card: map<string, Value>): string {
    protected + ['.'] + c.toBase64(Payload(card))
  }

  /** One signing input belongs to one header text and one cleaned tree. */
  lemma SigningInputUnambiguous(c: Crypto, p: string, a: map<string, Value>, q: string, b: map<string, Value>)
    requires CorrectBase64(c) && '.' !in p && '.' !in q
    ensures SigningInput(c, p, a) == SigningInput(c, q, b) <==> p == q && Signed(a) == Signed(b)
  {
    var s, t := SigningInput(c, p, a), SigningInput(c, q, b);
    IndexOfFirst(p, '.', c.toBase64(Payload(a)));
    IndexOfFirst(q, '.', c.toBase64(Payload(b)));
    if s == t {
      assert s[..|p|] == p && t[..|q|] == q;
      assert s[|p| + 1..] == c.toBase64(Payload(a)) && t[|q| + 1..] == c.toBase64(Payload(b));
      assert c.ofBase64(c.toBase64(Payload(a))) == Some(Payload(a));
      assert c.ofBase64(c.toBase64(Payload(b))) == Some(Payload(b));
      PayloadEqualExactlyWhenTreesEqual(a, b);
    }
  }

  // ---------- signing ----------

  function X5c(c: Crypto, certs: seq<Cert>): (r: seq<string>) {
    seq(|certs|, i requires 0 <= i < |certs| => c.rawToBase64(certs[i].raw))
  }

  function HeaderOf(c: Crypto, a: Alg, certs: seq<Cert>): Header
    requires certs != []
  {
    Header(Name(a), "JOSE", c.fingerprint(certs[0].raw), X5c(c, certs))
  }

  /** `SignInput`: None when the signer fails. */
  function SignDigest(c: Crypto, signer: Signer, a: Alg, d: seq<byte>, nonce: int): Option<seq<byte>> {
    if IsPss(a) then None
    else if IsRsa(a) then c.rsaSign(signer, HashFor(a), d, nonce)
    else if !signer.native || !signer.public.Ec? then None
    else match c.ecSign(signer, d, nonce)
      case None => None
      case Some(p) =>
        var bits := BitSize(signer.public.curve);
        if |Bytes(p.0)| <= ByteSize(bits) && |Bytes(p.1)| <= ByteSize(bits)
        then Some(EncodeRaw(bits, p.0, p.1)) else None
  }

  /** The signature `SignCard` attaches; None on an error. */
  ghost function Sign(c: Crypto, card: map<string, Value>, signer: Signer, certs: seq<Cert>, nonce: int): Option<Signature> {
    if certs == [] then None
    else match AlgorithmForKey(signer.public)
      case None => None
      case Some(a) =>
        var protected := c.toBase64(c.headerText(HeaderOf(c, a, certs)));
        match SignDigest(c, signer, a, c.digest(HashFor(a), SigningInput(c, protected, card)), nonce)
        case None => None
        case Some(bytes) => Some(Signature(protected, c.bytesToBase64(bytes)))
  }

  class AgentCard {
    var body: map<string, Value>
    var signatures: seq<Signature>

    constructor (body: map<string, Value>)
      ensures this.body == body && signatures == []
    {
      this.body := body;
      signatures := [];
    }
  }

  /** Replaces the card's signatures by one new signature; on an error the card
      is left alone. */
  method SignCard(c: Crypto, card: AgentCard?, signer: Signer, certs: seq<Cert>, nonce: int) returns (ok: bool)
    requires CorrectEc(c)
    modifies card
    ensures card == null ==> !ok
    ensures card != null ==>
      && card.body == old(card.body)
      && ok == Sign(c, card.body, signer, certs, nonce).Some?
      && card.signatures == if ok then [Sign(c, card.body, signer, certs, nonce).value] else old(card.signatures)
  {
    if card == null || certs == [] { return false; }
    var alg := AlgorithmForKey(signer.public);
    if alg == None { return false; }
    var a := alg.value;
    var x5c := [];
    for i := 0 to |certs|
      invariant x5c == X5c(c, certs[..i])
    {
      x5c := x5c + [c.rawToBase64(certs[i].raw)];
    }
    assert certs[..|certs|] == certs;
    var protected := c.toBase64(c.headerText(Header(Name(a), "JOSE", c.fingerprint(certs[0].raw), x5c)));
    var payload := CreateCanonicalCardJSON(CardMap(card.body, card.signatures));
    CardMapPayload(card.body, card.signatures);
    var d := c.digest(HashFor(a), protected + ['.'] + c.toBase64(payload));
    var bytes := SignInput(c, signer, a, d, nonce);
    if bytes == None { return false; }
    card.signatures := [Signature(protected, c.bytesToBase64(bytes.value))];
    return true;
  }

  method SignInput(c: Crypto, signer: Signer, a: Alg, d: seq<byte>, nonce: int) returns (r: Option<seq<byte>>)
    requires CorrectEc(c)
    ensures r == SignDigest(c, signer, a, d, nonce)
  {
    if IsPss(a) { return None; }
    if IsRsa(a) { return c.rsaSign(signer, HashFor(a), d, nonce); }
    if !signer.native || !signer.public.Ec? { return None; }
    var p := c.ecSign(signer, d, nonce);
    if p == None { return None; }
    var bits := BitSize(signer.public.curve);
    FitsInByteSize(p.value.0, bits);
    FitsInByteSize(p.value.1, bits);
    var sig := FillSignature(bits, p.value.0, p.value.1);
    return Some(sig[..]);
  }

  // ---------- verifying ----------

  datatype Verdict = Verdict(verified: bool, keyId: string, failed: bool)

  /** Everything about a signature that does not depend on the card: a readable
      header with a supported algorithm, a key of the right kind and decodable bytes. */
  predicate Checked(c: Crypto, sig: Signature, pem: string) {
    && HeaderIn(c, sig).Some?
    && Known(HeaderIn(c, sig).value.alg).Some?
    && c.ofPem(pem).Some?
    && c.bytesOfBase64(sig.signature).Some?
    && Fits(Known(HeaderIn(c, sig).value.alg).value, c.ofPem(pem).value)
  }

  function HeaderIn(c: Crypto, sig: Signature): Option<Header> {
    match c.ofBase64(sig.protected) case None => None case Some(t) => c.header(t)
  }

  /** The key accepts the bytes for the digest: PKCS #1 or PSS for RSA, raw
      R || S or ASN.1 for ECDSA. */
  predicate KeyAccepts(c: Crypto, a: Alg, key: PublicKey, d: seq<byte>, bytes: seq<byte>) {
    match key
    case Rsa(_, _) =>
      if IsPss(a) then c.pssVerify(key, HashFor(a), d, bytes) else c.rsaVerify(key, HashFor(a), d, bytes)
    case Ec(curve, _) =>
      || (match DecodeRaw(BitSize(curve), bytes) case None => false case Some(p) => c.ecVerify(key, d, p.0, p.1))
      || c.asn1Verify(key, d, bytes)
    case OtherKey(_) => false
  }

  /** The signature verifies for the card under the key. */
  ghost predicate Accepts(c: Crypto, card: map<string, Value>, sig: Signature, pem: string) {
    && Checked(c, sig, pem)
    && var a := Known(HeaderIn(c, sig).value.alg).value;
       KeyAccepts(c, a, c.ofPem(pem).value, c.digest(HashFor(a), SigningInput(c, sig.protected, card)),
                  c.bytesOfBase64(sig.signature).value)
  }

  /** `VerifyJWS`. */
  method VerifyJWS(c: Crypto, card: map<string, Value>, sig: Option<Signature>, pem: string) returns (v: Verdict)
    ensures v.failed <==> sig.Some? && !Checked(c, sig.value, pem)
    ensures v.verified <==> sig.Some? && Accepts(c, card, sig.value, pem)
    ensures v.verified ==> v.keyId == HeaderIn(c, sig.value).value.kid
  {
    if sig == None { return Verdict(false, "", false); }
    var header := HeaderIn(c, sig.value);
    if header == None { return Verdict(false, "", true); }
    var alg := Known(header.value.alg);
    if alg == None { return Verdict(false, "", true); }
    var a := alg.value;
    var key := c.ofPem(pem);
    if key == None { return Verdict(false, "", true); }
    if key.value.Rsa? && key.value.modulusBits < 2048 { return Verdict(false, "", true); }
    var payload := CreateCanonicalCardJSON(card);
    var d := c.digest(HashFor(a), sig.value.protected + ['.'] + c.toBase64(payload));
    var bytes := c.bytesOfBase64(sig.value.signature);
    if bytes == None { return Verdict(false, "", true); }
    var verified;
    match key.value {
      case Rsa(_, _) =>
        if !IsRsa(a) { return Verdict(false, "", true); }
        if IsPss(a) {
          verified := c.pssVerify(key.value, HashFor(a), d, bytes.value);
        } else {
          verified := c.rsaVerify(key.value, HashFor(a), d, bytes.value);
        }
      case Ec(curve, _) =>
        if CurveFor(a) != Some(curve) { return Verdict(false, "", true); }
        verified := false;
        var p := DecodeRaw(BitSize(curve), bytes.value);
        if p.Some? { verified := c.ecVerify(key.value, d, p.value.0, p.value.1); }
        if !verified { verified := c.asn1Verify(key.value, d, bytes.value); }
      case OtherKey(_) => return Verdict(false, "", true);
    }
    return Verdict(verified, header.value.kid, false);
  }

  // ---------- signing then verifying ----------

  /** A signer's bytes are accepted by its own public key. */
  lemma SignerIsAccepted(c: Crypto, signer: Signer, a: Alg, d: seq<byte>, nonce: int)
    requires Correct(c) && AlgorithmForKey(signer.public) == Some(a)
    requires SignDigest(c, signer, a, d, nonce).Some?
    ensures KeyAccepts(c, a, signer.public, d, SignDigest(c, signer, a, d, nonce).value)
  {
    if signer.public.Ec? {
      var p := c.ecSign(signer, d, nonce).value;
      RawRoundTrip(BitSize(signer.public.curve), p.0, p.1);
    }
  }

  lemma HeaderReadsBack(c: Crypto, h: Header)
    requires CorrectBase64(c) && CorrectHeader(c)
    ensures c.ofBase64(c.toBase64(c.headerText(h))) == Some(c.headerText(h))
    ensures c.header(c.headerText(h)) == Some(h)
  {
    HeaderTextParses(h);
  }

  /** Completeness: what `SignCard` produced verifies under the leaf's key, on the
      card that now carries the signature. */
  lemma SignThenVerify(c: Crypto, body: map<string, Value>, signer: Signer, certs: seq<Cert>, nonce: int)
    requires Correct(c) && Sign(c, body, signer, certs, nonce).Some?
    requires certs[0].publicKey == signer.public
    ensures var sig := Sign(c, body, signer, certs, nonce).value;
            var pem := c.toPem(certs[0].publicKey);
            && pem.Some?
            && Accepts(c, CardMap(body, [sig]), sig, pem.value)
            && HeaderIn(c, sig) == Some(HeaderOf(c, AlgorithmForKey(signer.public).value, certs))
  {
    var a := AlgorithmForKey(signer.public).value;
    var h := HeaderOf(c, a, certs);
    var protected := c.toBase64(c.headerText(h));
    var d := c.digest(HashFor(a), SigningInput(c, protected, body));
    var bytes := SignDigest(c, signer, a, d, nonce).value;
    var sig := Signature(protected, c.bytesToBase64(bytes));
    HeaderReadsBack(c, h);
    NameIsKnown(a);
    SignerIsAccepted(c, signer, a, d, nonce);
    CardMapPayload(body, [sig]);
    assert c.bytesOfBase64(sig.signature) == Some(bytes);
  }

  /** For an accepted key signing fails only where the key itself does, or when an
      EC key is not held in memory. */
  lemma SignFailsExactly(c: Crypto, signer: Signer, a: Alg, d: seq<byte>, nonce: int)
    requires CorrectEc(c) && AlgorithmForKey(signer.public) == Some(a)
    ensures SignDigest(c, signer, a, d, nonce).None? <==>
      if signer.public.Rsa? then c.rsaSign(signer, HashFor(a), d, nonce).None?
      else !signer.native || c.ecSign(signer, d, nonce).None?
  {
    if signer.public.Ec? && c.ecSign(signer, d, nonce).Some? {
      var p := c.ecSign(signer, d, nonce).value;
      RawRoundTrip(BitSize(signer.public.curve), p.0, p.1);
    }
  }
}
