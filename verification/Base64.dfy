/** Unpadded base64url (section 5 of RFC 4648), as Go's `base64.RawURLEncoding`
    writes and reads it. */
module Base64 {
  import opened Strings

  /** The character of a six-bit value. */
  function Letter(n: nat): (c: char)
    requires n < 64
    ensures Sextet(c) == n && c != '=' && c != '.' && !LineBreak(c)
  {
    if n < 26 then ('A' as int + n) as char
    else if n < 52 then ('a' as int + n - 26) as char
    else if n < 62 then ('0' as int + n - 52) as char
    else if n == 62 then '-'
    else '_'
  }

  /** The six-bit value of a character; -1 outside the alphabet. */
  function Sextet(c: char): (n: int)
    ensures -1 <= n < 64
  {
    if 'A' <= c <= 'Z' then c as int - 'A' as int
    else if 'a' <= c <= 'z' then c as int - 'a' as int + 26
    else if '0' <= c <= '9' then c as int - '0' as int + 52
    else if c == '-' then 62
    else if c == '_' then 63
    else -1
  }

  /** Skipped by Go's decoder. */
  predicate LineBreak(c: char) { c == '\r' || c == '\n' }

  predicate Plain(s: string) { forall c :: c in s ==> c != '=' && c != '.' && !LineBreak(c) }

  /** A six-bit value. */
  type sextet = n: int | 0 <= n < 64

  // Three bytes as four sextets, and back.
  function First(p: byte): sextet { p / 4 }
  function Second(p: byte, q: byte): sextet { p % 4 * 16 + q / 16 }
  function Third(q: byte, r: byte): sextet { q % 16 * 4 + r / 64 }
  function Fourth(r: byte): sextet { r % 64 }
  function High(v: sextet, w: sextet): byte { v * 4 + w / 16 }
  function Middle(w: sextet, x: sextet): byte { w % 16 * 16 + x / 4 }
  function Low(x: sextet, y: sextet): byte { x % 4 * 64 + y }

  lemma ThreeBytes(p: byte, q: byte, r: byte)
    ensures High(First(p), Second(p, q)) == p
    ensures Middle(Second(p, q), Third(q, r)) == q
    ensures Low(Third(q, r), Fourth(r)) == r
  {
    assert (p % 4 * 16 + q / 16) / 16 == p % 4 && (p % 4 * 16 + q / 16) % 16 == q / 16;
    assert (q % 16 * 4 + r / 64) / 4 == q % 16 && (q % 16 * 4 + r / 64) % 4 == r / 64;
  }

  function Encode(b: seq<byte>): (s: string)
    ensures Plain(s)
    ensures |s| % 4 == if |b| % 3 == 0 then 0 else |b| % 3 + 1
  {
    if |b| == 0 then []
    else if |b| == 1 then [Letter(First(b[0])), Letter(Second(b[0], 0))]
    else if |b| == 2 then [Letter(First(b[0])), Letter(Second(b[0], b[1])), Letter(Third(b[1], 0))]
    else
      [Letter(First(b[0])), Letter(Second(b[0], b[1])), Letter(Third(b[1], b[2])), Letter(Fourth(b[2]))] + Encode(b[3..])
  }

  function Strip(s: string): string {
    if s == [] then [] else (if LineBreak(s[0]) then [] else [s[0]]) + Strip(s[1..])
  }

  predicate InAlphabet(s: string) { forall c :: c in s ==> Sextet(c) >= 0 }

  /** Four characters at a time; a last group has two or three. */
  function DecodeGroups(s: string): seq<byte>
    requires InAlphabet(s)
  {
    if |s| < 2 then []
    else
      var v, w := Sextet(s[0]), Sextet(s[1]);
      if |s| == 2 then [High(v, w)]
      else
        var x := Sextet(s[2]);
        if |s| == 3 then [High(v, w), Middle(w, x)]
        else [High(v, w), Middle(w, x), Low(x, Sextet(s[3]))] + DecodeGroups(s[4..])
  }

  /** `DecodeString`: None for a character outside the alphabet, padding included, and
      for a single last character. */
  function Decode(s: string): Option<seq<byte>> {
    var t := Strip(s);
    if InAlphabet(t) && |t| % 4 != 1 then Some(DecodeGroups(t)) else None
  }

  lemma {:induction false} StripPlain(s: string)
    requires Plain(s)
    ensures Strip(s) == s
  {
    if s != [] {
      assert s == [s[0]] + s[1..];
      assert forall c :: c in s[1..] ==> c in s;
      StripPlain(s[1..]);
    }
  }

  lemma {:induction false} StripKeeps(s: string, c: char)
    requires c in s && !LineBreak(c)
    ensures c in Strip(s)
  {
    if s[0] != c {
      assert s == [s[0]] + s[1..];
      StripKeeps(s[1..], c);
    }
  }

  /** The padding character is never accepted. */
  lemma PaddingRefused(s: string)
    requires '=' in s
    ensures Decode(s) == None
  {
    StripKeeps(s, '=');
    assert Sextet('=') == -1;
  }

  lemma DecodeGroup(v: sextet, w: sextet, x: sextet, y: sextet, rest: string)
    requires InAlphabet(rest)
    ensures var s := [Letter(v), Letter(w), Letter(x), Letter(y)] + rest;
            InAlphabet(s) && DecodeGroups(s) == [High(v, w), Middle(w, x), Low(x, y)] + DecodeGroups(rest)
  {
    var s := [Letter(v), Letter(w), Letter(x), Letter(y)] + rest;
    assert s[4..] == rest;
  }

  lemma DecodeShort(v: sextet, w: sextet, x: sextet)
    ensures InAlphabet([Letter(v), Letter(w)]) && DecodeGroups([Letter(v), Letter(w)]) == [High(v, w)]
    ensures InAlphabet([Letter(v), Letter(w), Letter(x)])
    ensures DecodeGroups([Letter(v), Letter(w), Letter(x)]) == [High(v, w), Middle(w, x)]
  {
  }

  lemma OneLeft(p: byte)
    ensures InAlphabet(Encode([p])) && DecodeGroups(Encode([p])) == [p]
  {
    ByteAlone(p);
    DecodeShort(First(p), Second(p, 0), First(p));
  }

  lemma ByteAlone(p: byte)
    ensures High(First(p), Second(p, 0)) == p
  {
    assert p % 4 * 16 / 16 == p % 4;
  }

  lemma TwoLeft(p: byte, q: byte)
    ensures InAlphabet(Encode([p, q])) && DecodeGroups(Encode([p, q])) == [p, q]
  {
    ThreeBytes(p, q, 0);
    DecodeShort(First(p), Second(p, q), Third(q, 0));
  }

  lemma LastGroup(b: seq<byte>)
    requires |b| <= 2
    ensures InAlphabet(Encode(b)) && DecodeGroups(Encode(b)) == b
  {
    if |b| == 2 {
      TwoLeft(b[0], b[1]);
      assert b == [b[0], b[1]];
    } else if |b| == 1 {
      OneLeft(b[0]);
      assert b == [b[0]];
    }
  }

  lemma EncodeGroup(p: byte, q: byte, r: byte, rest: seq<byte>)
    ensures Encode([p, q, r] + rest) == [Letter(First(p)), Letter(Second(p, q)), Letter(Third(q, r)), Letter(Fourth(r))] + Encode(rest)
  {
    assert ([p, q, r] + rest)[3..] == rest;
  }

  lemma {:induction false} GroupsUndoEncode(b: seq<byte>)
    ensures InAlphabet(Encode(b)) && DecodeGroups(Encode(b)) == b
  {
    if |b| >= 3 {
      var p, q, r, rest := b[0], b[1], b[2], b[3..];
      assert b == [p, q, r] + rest;
      GroupsUndoEncode(rest);
      ThreeBytes(p, q, r);
      EncodeGroup(p, q, r, rest);
      DecodeGroup(First(p), Second(p, q), Third(q, r), Fourth(r), Encode(rest));
    } else {
      LastGroup(b);
    }
  }

  /** Decoding undoes encoding for every byte string. */
  lemma DecodeUndoesEncode(b: seq<byte>)
    ensures Decode(Encode(b)) == Some(b)
  {
    GroupsUndoEncode(b);
    StripPlain(Encode(b));
  }
}
