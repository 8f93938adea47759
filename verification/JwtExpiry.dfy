/** How `ParseJWTExpiry` reads the `exp` claim. The decoder and the JSON reader are
    parameters; the padding around them is the code's own. */
module JwtExpiry {
  import opened Strings
  import Base64
  import opened TokenCache

  const YEAR := 365 * 24 * 3600 * SECOND

  /** `decode` is unpadded base64url, `exp` reads the claim (0 when it is missing). */
  datatype Codec = Codec(decode: string -> Option<seq<byte>>, exp: seq<byte> -> Option<int>)

  /** The unpadded decoder refuses the padding character. */
  ghost predicate RefusesPadding(codec: Codec) {
    forall s :: '=' in s ==> codec.decode(s) == None
  }

  function Pad(payload: string): string {
    if |payload| % 4 == 2 then payload + "=="
    else if |payload| % 4 == 3 then payload + "="
    else payload
  }

  /** The claim the code acts on; None when it falls back to a long-lived token. */
  function UsedClaim(codec: Codec, token: string): Option<int> {
    var parts := Split(token, '.');
    if |parts| != 3 then None
    else
      match codec.decode(Pad(parts[1]))
      case None => None
      case Some(decoded) =>
        match codec.exp(decoded)
        case None => None
        case Some(exp) => if exp == 0 then None else Some(exp)
  }

  function ParseJWTExpiry(codec: Codec, token: string, now: int): int {
    match UsedClaim(codec, token)
    case None => now + YEAR
    case Some(exp) => exp * SECOND
  }

  /** The token is a JWT whose payload, decoded as JWTs are encoded, claims `exp`. */
  ghost predicate Claims(codec: Codec, token: string, exp: int) {
    var parts := Split(token, '.');
    && |parts| == 3
    && codec.decode(parts[1]).Some?
    && codec.exp(codec.decode(parts[1]).value) == Some(exp)
    && exp != 0
  }

  /** A JWT's expiry is honoured exactly when its payload needs no padding; the other
      tokens are cached for a year. */
  lemma ExpiryHonouredExactlyWithoutPadding(codec: Codec, token: string, exp: int, now: int)
    requires RefusesPadding(codec) && Claims(codec, token, exp)
    ensures var payload := Split(token, '.')[1];
            if |payload| % 4 < 2
            then UsedClaim(codec, token) == Some(exp) && ParseJWTExpiry(codec, token, now) == exp * SECOND
            else UsedClaim(codec, token) == None && ParseJWTExpiry(codec, token, now) == now + YEAR
  {
    var payload := Split(token, '.')[1];
    if |payload| % 4 == 2 { assert Pad(payload)[|payload|] == '='; }
    if |payload| % 4 == 3 { assert Pad(payload)[|payload|] == '='; }
  }

  /** For every decoder that refuses padding: a JWT whose claim is past, with a payload
      that needs padding, is still taken for good. */
  lemma PaddedJwtOutlivesItsClaim(codec: Codec, token: string, exp: int, now: int)
    requires RefusesPadding(codec) && Claims(codec, token, exp) && |Split(token, '.')[1]| % 4 >= 2
    ensures !IsTokenExpired(ParseJWTExpiry(codec, token, now), now)
  {
    ExpiryHonouredExactlyWithoutPadding(codec, token, exp, now);
  }

  // ---- With the decoder the code uses ----

  /** Go's unpadded base64url decoder and any reader of the claims. */
  function RawUrl(read: seq<byte> -> Option<int>): Codec { Codec(s => Base64.Decode(s), read) }

  /** A signed token around the claims, with three parts. */
  function Token(header: string, claims: seq<byte>, signature: string): string {
    Join([header, Base64.Encode(claims), signature], '.')
  }

  lemma TokenParts(header: string, claims: seq<byte>, signature: string)
    requires '.' !in header && '.' !in signature
    ensures Split(Token(header, claims, signature), '.') == [header, Base64.Encode(claims), signature]
  {
    var parts := [header, Base64.Encode(claims), signature];
    assert forall p :: p in parts ==> p == header || p == Base64.Encode(claims) || p == signature;
    SplitJoin(parts, '.');
  }

  lemma RawUrlRefusesPadding(read: seq<byte> -> Option<int>)
    ensures RefusesPadding(RawUrl(read))
  {
    forall s | '=' in s ensures RawUrl(read).decode(s) == None { Base64.PaddingRefused(s); }
  }

  /** The expiry of a JWT is honoured exactly when its claims, as JSON text, are a whole
      number of three-byte groups long; otherwise the token lives a year. */
  lemma ExpiryHonouredExactlyForWholeGroups(read: seq<byte> -> Option<int>, header: string, claims: seq<byte>,
                                            signature: string, exp: int, now: int)
    requires '.' !in header && '.' !in signature && read(claims) == Some(exp) && exp != 0
    ensures ParseJWTExpiry(RawUrl(read), Token(header, claims, signature), now)
         == if |claims| % 3 == 0 then exp * SECOND else now + YEAR
  {
    TokenParts(header, claims, signature);
    Base64.DecodeUndoesEncode(claims);
    RawUrlRefusesPadding(read);
    assert RawUrl(read).decode(Base64.Encode(claims)) == Some(claims);
    ExpiryHonouredExactlyWithoutPadding(RawUrl(read), Token(header, claims, signature), exp, now);
  }

  function Ascii(s: string): (b: seq<byte>)
    ensures |b| == |s|
  {
    seq(|s|, i requires 0 <= i < |s| => s[i] as int % 256)
  }

  /** A real token: the claims `{"exp":50}` are ten bytes, so fifty seconds past the
      epoch is read as a year from now. */
  lemma ExpiredJwtCachedForAYear(text: string, read: seq<byte> -> Option<int>, header: string, signature: string, now: int)
    requires text == "{\"exp\":50}" && read(Ascii(text)) == Some(50)
    requires '.' !in header && '.' !in signature && now > 50 * SECOND
    ensures IsTokenExpired(50 * SECOND, now)
    ensures !IsTokenExpired(ParseJWTExpiry(RawUrl(read), Token(header, Ascii(text), signature), now), now)
  {
    assert |text| == 10;
    ExpiryHonouredExactlyForWholeGroups(read, header, Ascii(text), signature, 50, now);
  }
}
