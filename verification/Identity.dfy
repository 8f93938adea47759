/** Client identities of the bundle service: the SPIFFE path parser and the `ns/name`
    cache key. */
module Identity {
  import opened Strings

  datatype Identity = Identity(trustDomain: string, ns: string, name: string)

  datatype ClientIdentity = ClientIdentity(ns: string, name: string)

  predicate Segment(s: string) {
    s != "" && '/' !in s
  }

  /** Both halves of the key are non-empty path segments. */
  predicate ValidId(id: ClientIdentity) {
    Segment(id.ns) && Segment(id.name)
  }

  // ---- Parsing ----

  function Parse(raw: string): Option<Identity> {
    var slash := IndexOf(raw, '/');
    if slash < 0 then None
    else
      var trustDomain := raw[..slash];
      if trustDomain == "" then None
      else
        var parts := Split(raw[slash + 1..], '/');
        if |parts| != 4 || parts[0] != "ns" || parts[2] != "sa" then None
        else if parts[1] == "" || parts[3] == "" then None
        else Some(Identity(trustDomain, parts[1], parts[3]))
  }

  predicate WellFormed(id: Identity) {
    Segment(id.trustDomain) && Segment(id.ns) && Segment(id.name)
  }

  /** `{trust-domain}/ns/{namespace}/sa/{name}`. */
  function Print(id: Identity): string {
    id.trustDomain + "/" + Join(["ns", id.ns, "sa", id.name], '/')
  }

  lemma PathParts(path: string, parts: seq<string>)
    requires parts == Split(path, '/') && |parts| == 4 && parts[0] == "ns" && parts[2] == "sa"
    ensures path == Join(["ns", parts[1], "sa", parts[3]], '/')
    ensures '/' !in parts[1] && '/' !in parts[3]
  {
    JoinSplit(path, '/');
    assert parts[1] in parts && parts[3] in parts;
    FourParts(parts);
  }

  lemma FourParts(parts: seq<string>)
    requires |parts| == 4 && parts[0] == "ns" && parts[2] == "sa"
    ensures parts == ["ns", parts[1], "sa", parts[3]]
  {
  }

  lemma ParsedIsPrinted(raw: string, id: Identity)
    requires Parse(raw) == Some(id)
    ensures WellFormed(id) && raw == Print(id)
  {
    var slash := IndexOf(raw, '/');
    PathParts(raw[slash + 1..], Split(raw[slash + 1..], '/'));
    CutAt(raw, slash);
  }

  lemma PrintedParses(id: Identity)
    requires WellFormed(id)
    ensures Parse(Print(id)) == Some(id)
  {
    var parts := ["ns", id.ns, "sa", id.name];
    var path := Join(parts, '/');
    SplitJoin(parts, '/');
    IndexOfFirst(id.trustDomain, '/', path);
    assert Print(id)[..|id.trustDomain|] == id.trustDomain;
    assert Print(id)[|id.trustDomain| + 1..] == path;
  }

  /** Parsing and printing are inverse: an identity parses from a string exactly when it
      is well formed and the string is its printed form. */
  lemma ParseExactlyPrinted(raw: string, id: Identity)
    ensures Parse(raw) == Some(id) <==> WellFormed(id) && raw == Print(id)
  {
    if Parse(raw) == Some(id) { ParsedIsPrinted(raw, id); }
    if WellFormed(id) { PrintedParses(id); }
  }

  /** `FromRequest` for the `spiffe` query value. */
  function FromRequest(value: string): (id: Option<ClientIdentity>)
    ensures id.Some? ==> ValidId(id.value)
    ensures id.Some? <==> exists p :: WellFormed(p) && value == Print(p)
    ensures forall p | WellFormed(p) && value == Print(p) :: id == Some(ClientIdentity(p.ns, p.name))
  {
    assert forall p :: Parse(value) == Some(p) <==> WellFormed(p) && value == Print(p) by {
      forall p ensures Parse(value) == Some(p) <==> WellFormed(p) && value == Print(p) { ParseExactlyPrinted(value, p); }
    }
    if value == "" then None
    else
      match Parse(value)
      case None => None
      case Some(p) => Some(ClientIdentity(p.ns, p.name))
  }

  // ---- The cache key ----

  function CacheKey(id: ClientIdentity): string {
    id.ns + "/" + id.name
  }

  /** Distinct identities have distinct keys, and the key determines its namespace. */
  lemma CacheKeyInjective(a: ClientIdentity, b: ClientIdentity)
    requires ValidId(a) && ValidId(b)
    ensures CacheKey(a) == CacheKey(b) <==> a == b
  {
    IndexOfFirst(a.ns, '/', a.name);
    IndexOfFirst(b.ns, '/', b.name);
    if CacheKey(a) == CacheKey(b) {
      assert CacheKey(a)[..|a.ns|] == a.ns && CacheKey(b)[..|b.ns|] == b.ns;
      assert CacheKey(a)[|a.ns| + 1..] == a.name && CacheKey(b)[|b.ns| + 1..] == b.name;
    }
  }
}
