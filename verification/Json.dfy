/** JSON trees: the sorted-key compact printer of the signing payload and an
    independent parser that undoes it. */
module Json {
  import opened Strings

  predicate NumberChar(c: char) {
    '0' <= c <= '9' || c == '+' || c == '-' || c == '.' || c == 'e' || c == 'E'
  }

  /** A number leaf as `json.Marshal` writes it. */
  type Number = t: string | t != [] && forall c :: c in t ==> NumberChar(c) witness "0"

  /** What `json.Unmarshal` builds for an `interface{}`. */
  datatype Value =
    | Null
    | Bool(flag: bool)
    | Num(token: Number)
    | Str(text: string)
    | Arr(items: seq<Value>)
    | Obj(fields: map<string, Value>)

  /** The value at a path of object keys. */
  function At(v: Value, path: seq<string>): Option<Value>
    decreases |path|
  {
    if path == [] then Some(v)
    else if v.Obj? && path[0] in v.fields then At(v.fields[path[0]], path[1..])
    else None
  }

  // ---------- printing ----------

  function HexDigit(n: nat): (c: char)
    requires n < 16
    ensures HexValue(c) == n
  {
    if n < 10 then ('0' as int + n) as char else ('a' as int + n - 10) as char
  }

  /** -1 when `c` is not a hexadecimal digit. */
  function HexValue(c: char): (n: int)
    ensures -1 <= n < 16
  {
    if '0' <= c <= '9' then c as int - '0' as int
    else if 'a' <= c <= 'f' then c as int - 'a' as int + 10
    else if 'A' <= c <= 'F' then c as int - 'A' as int + 10
    else -1
  }

  function Unicode(n: nat): string
    requires n < 0x10000
  {
    ['\\', 'u', HexDigit(n / 4096), HexDigit(n / 256 % 16), HexDigit(n / 16 % 16), HexDigit(n % 16)]
  }

  /** The letter of a two-character escape; None for a character without one. */
  function ShortEscape(c: char): (e: Option<char>) {
    if c == '"' || c == '\\' then Some(c)
    else if c as int == 8 then Some('b')
    else if c as int == 12 then Some('f')
    else if c == '\n' then Some('n')
    else if c == '\r' then Some('r')
    else if c == '\t' then Some('t')
    else None
  }

  /** Control characters, the HTML characters and U+2028, U+2029. */
  predicate LongEscape(c: char) {
    c as int < 0x20 || c == '<' || c == '>' || c == '&' || c as int == 0x2028 || c as int == 0x2029
  }

  /** One character inside a string literal written by `json.Marshal`. */
  function Escape(c: char): string {
    match ShortEscape(c)
    case Some(e) => ['\\', e]
    case None => if LongEscape(c) then Unicode(c as int) else [c]
  }

  function EscapeAll(s: string): string {
    if s == [] then [] else Escape(s[0]) + EscapeAll(s[1..])
  }

  function Quote(s: string): string { ['"'] + EscapeAll(s) + ['"'] }

  ghost function Print(v: Value): string
    decreases v, 1
  {
    match v
    case Null => "null"
    case Bool(flag) => if flag then "true" else "false"
    case Num(token) => token
    case Str(text) => Quote(text)
    case Arr(items) => if items == [] then "[]" else ['['] + Print(items[0]) + PrintMore(items[1..]) + [']']
    case Obj(fields) => ['{'] + PrintFields(v, SortedKeys(fields.Keys)) + ['}']
  }

  /** The array elements after the first, each behind its comma. */
  ghost function PrintMore(items: seq<Value>): string
    decreases items
  {
    if items == [] then "" else [','] + Print(items[0]) + PrintMore(items[1..])
  }

  ghost function PrintFields(v: Value, keys: seq<string>): string
    requires v.Obj? && forall k :: k in keys ==> k in v.fields
    decreases v, 0, |keys| + 1
  {
    if keys == [] then "" else PrintField(v, keys[0]) + PrintMoreFields(v, keys[1..])
  }

  ghost function PrintMoreFields(v: Value, keys: seq<string>): string
    requires v.Obj? && forall k :: k in keys ==> k in v.fields
    decreases v, 0, |keys| + 1
  {
    if keys == [] then "" else [','] + PrintField(v, keys[0]) + PrintMoreFields(v, keys[1..])
  }

  ghost function PrintField(v: Value, key: string): string
    requires v.Obj? && key in v.fields
    decreases v, 0, 0
  {
    Quote(key) + [':'] + Print(v.fields[key])
  }

  // ---------- parsing ----------

  datatype Parsed<T> = Fail | Done(value: T, rest: string)

  predicate Starts(s: string, c: char) { s != [] && s[0] == c }

  function ParseUnicode(s: string): (r: Parsed<char>)
    ensures r.Done? ==> |r.rest| < |s|
  {
    if |s| < 4 then Fail
    else
      var a, b, c, d := HexValue(s[0]), HexValue(s[1]), HexValue(s[2]), HexValue(s[3]);
      if a < 0 || b < 0 || c < 0 || d < 0 then Fail
      else
        var n := a * 4096 + b * 256 + c * 16 + d;
        if 0xD800 <= n < 0xE000 then Fail else Done(n as char, s[4..])
  }

  function ParseShort(c: char): Option<char> {
    if c == '"' || c == '\\' || c == '/' then Some(c)
    else if c == 'b' then Some(8 as char)
    else if c == 'f' then Some(12 as char)
    else if c == 'n' then Some('\n')
    else if c == 'r' then Some('\r')
    else if c == 't' then Some('\t')
    else None
  }

  function ParseChar(s: string): (r: Parsed<char>)
    ensures r.Done? ==> |r.rest| < |s|
  {
    if s == [] || s[0] == '"' then Fail
    else if s[0] != '\\' then Done(s[0], s[1..])
    else if |s| == 1 then Fail
    else if s[1] == 'u' then ParseUnicode(s[2..])
    else match ParseShort(s[1])
      case None => Fail
      case Some(c) => Done(c, s[2..])
  }

  /** The rest of a string literal whose opening quote has been read. */
  function ParseChars(s: string): (r: Parsed<string>)
    ensures r.Done? ==> |r.rest| < |s|
    decreases |s|
  {
    if Starts(s, '"') then Done("", s[1..])
    else match ParseChar(s)
      case Fail => Fail
      case Done(c, rest) =>
        match ParseChars(rest)
        case Fail => Fail
        case Done(more, rest') => Done([c] + more, rest')
  }

  /** Length of the longest prefix of number characters. */
  function NumberLength(s: string): (n: nat)
    ensures n <= |s|
    ensures forall c :: c in s[..n] ==> NumberChar(c)
  {
    if s == [] || !NumberChar(s[0]) then 0
    else
      var n := NumberLength(s[1..]);
      assert s[..n + 1] == [s[0]] + s[1..][..n];
      n + 1
  }

  function ParseWord(s: string, word: string, v: Value): (r: Parsed<Value>)
    requires word != []
    ensures r.Done? ==> |r.rest| < |s|
  {
    if word <= s then Done(v, s[|word|..]) else Fail
  }

  function ParseNumber(s: string): (r: Parsed<Value>)
    ensures r.Done? ==> |r.rest| < |s|
  {
    var n := NumberLength(s);
    if n == 0 then Fail else Done(Num(s[..n]), s[n..])
  }

  function ParseString(s: string): (r: Parsed<string>)
    ensures r.Done? ==> |r.rest| < |s|
  {
    if Starts(s, '"') then ParseChars(s[1..]) else Fail
  }

  function ParseValue(s: string): (r: Parsed<Value>)
    ensures r.Done? ==> |r.rest| < |s|
    decreases |s|, 1
  {
    if s == [] then Fail
    else if s[0] == 'n' then ParseWord(s, "null", Null)
    else if s[0] == 't' then ParseWord(s, "true", Bool(true))
    else if s[0] == 'f' then ParseWord(s, "false", Bool(false))
    else if s[0] == '"' then
      match ParseString(s) { case Fail => Fail case Done(text, rest) => Done(Str(text), rest) }
    else if s[0] == '[' then
      if Starts(s[1..], ']') then Done(Arr([]), s[2..])
      else match ParseItems(s[1..]) { case Fail => Fail case Done(items, rest) => Done(Arr(items), rest) }
    else if s[0] == '{' then
      if Starts(s[1..], '}') then Done(Obj(map[]), s[2..])
      else match ParseFields(s[1..]) { case Fail => Fail case Done(fields, rest) => Done(Obj(fields), rest) }
    else ParseNumber(s)
  }

  /** One or more values up to the closing bracket. */
  function ParseItems(s: string): (r: Parsed<seq<Value>>)
    ensures r.Done? ==> |r.rest| < |s|
    decreases |s|, 2
  {
    match ParseValue(s)
    case Fail => Fail
    case Done(v, rest) =>
      if Starts(rest, ']') then Done([v], rest[1..])
      else if !Starts(rest, ',') then Fail
      else match ParseItems(rest[1..])
        case Fail => Fail
        case Done(more, rest') => Done([v] + more, rest')
  }

  /** One or more members up to the closing brace. */
  function ParseFields(s: string): (r: Parsed<map<string, Value>>)
    ensures r.Done? ==> |r.rest| < |s|
    decreases |s|, 2
  {
    match ParseString(s)
    case Fail => Fail
    case Done(key, colon) =>
      if !Starts(colon, ':') then Fail
      else match ParseValue(colon[1..])
        case Fail => Fail
        case Done(v, rest) =>
          if Starts(rest, '}') then Done(map[key := v], rest[1..])
          else if !Starts(rest, ',') then Fail
          else match ParseFields(rest[1..])
            case Fail => Fail
            case Done(more, rest') => Done(more[key := v], rest')
  }

  // ---------- the parser undoes the printer ----------

  lemma ParseUnicodeInverse(c: char, rest: string)
    requires c as int < 0x10000
    ensures ParseChar(Unicode(c as int) + rest) == Done(c, rest)
  {
    var n := c as int;
    var digits := [HexDigit(n / 4096), HexDigit(n / 256 % 16), HexDigit(n / 16 % 16), HexDigit(n % 16)];
    HexDigitsAddUp(n);
    ParseDigits(n / 4096, n / 256 % 16, n / 16 % 16, n % 16, c, rest);
    assert (Unicode(n) + rest)[2..] == digits + rest;
  }

  lemma HexDigitsAddUp(n: nat)
    ensures n == n / 4096 * 4096 + n / 256 % 16 * 256 + n / 16 % 16 * 16 + n % 16
  {
    assert n / 256 == n / 4096 * 16 + n / 256 % 16;
    assert n / 16 == n / 256 * 16 + n / 16 % 16;
  }

  lemma ParseDigits(p: nat, q: nat, r: nat, t: nat, c: char, rest: string)
    requires p < 16 && q < 16 && r < 16 && t < 16
    requires c as int == p * 4096 + q * 256 + r * 16 + t
    ensures ParseUnicode([HexDigit(p), HexDigit(q), HexDigit(r), HexDigit(t)] + rest) == Done(c, rest)
  {
    var s := [HexDigit(p), HexDigit(q), HexDigit(r), HexDigit(t)] + rest;
    assert s[4..] == rest;
  }

  lemma ParseEscape(c: char, rest: string)
    ensures ParseChar(Escape(c) + rest) == Done(c, rest)
    ensures Escape(c) != [] && Escape(c)[0] != '"'
  {
    match ShortEscape(c)
    case Some(e) => assert (['\\', e] + rest)[2..] == rest;
    case None =>
      if LongEscape(c) {
        ParseUnicodeInverse(c, rest);
      } else {
        assert ([c] + rest)[1..] == rest;
      }
  }

  lemma {:induction false} ParseEscapeAll(s: string, rest: string)
    ensures ParseChars(EscapeAll(s) + ['"'] + rest) == Done(s, rest)
  {
    var t := EscapeAll(s) + ['"'] + rest;
    if s == [] {
      assert t == ['"'] + rest;
    } else {
      var tail := EscapeAll(s[1..]) + ['"'] + rest;
      assert t == Escape(s[0]) + tail;
      ParseEscape(s[0], tail);
      ParseEscapeAll(s[1..], rest);
      assert s == [s[0]] + s[1..];
    }
  }

  lemma ParseQuote(s: string, rest: string)
    ensures ParseString(Quote(s) + rest) == Done(s, rest)
  {
    ParseEscapeAll(s, rest);
    assert (Quote(s) + rest)[1..] == EscapeAll(s) + ['"'] + rest;
  }

  /** The text after a value: nothing that could extend a number. */
  predicate Delimited(rest: string) { rest == [] || !NumberChar(rest[0]) }

  lemma {:induction false} NumberLengthExact(t: string, rest: string)
    requires Delimited(rest) && forall c :: c in t ==> NumberChar(c)
    ensures NumberLength(t + rest) == |t|
  {
    if t == [] {
      assert t + rest == rest;
    } else {
      NumberLengthExact(t[1..], rest);
      assert (t + rest)[1..] == t[1..] + rest;
    }
  }

  lemma ParseNumberInverse(t: Number, rest: string)
    requires Delimited(rest)
    ensures ParseNumber(t + rest) == Done(Num(t), rest)
  {
    NumberLengthExact(t, rest);
    assert (t + rest)[..|t|] == t && (t + rest)[|t|..] == rest;
  }

  /** A printed value never starts with a closing bracket. */
  lemma PrintStarts(v: Value)
    ensures Print(v) != [] && Print(v)[0] != ']'
  {
  }

  ghost predicate RoundTrips(v: Value) {
    forall rest | Delimited(rest) :: ParseValue(Print(v) + rest) == Done(v, rest)
  }

  lemma LastItem(s: string, v: Value, rest: string)
    requires ParseValue(s) == Done(v, [']'] + rest)
    ensures ParseItems(s) == Done([v], rest)
  {
    assert ([']'] + rest)[1..] == rest;
  }

  lemma NextItem(s: string, v: Value, tail: string, more: seq<Value>, rest: string)
    requires ParseValue(s) == Done(v, [','] + tail)
    requires ParseItems(tail) == Done(more, rest)
    ensures ParseItems(s) == Done([v] + more, rest)
  {
    assert ([','] + tail)[1..] == tail;
  }

  /** The text of a nonempty item list, its closing bracket and what follows. */
  ghost function ItemsText(items: seq<Value>, rest: string): string
    requires items != []
  {
    if |items| == 1 then Print(items[0]) + ([']'] + rest)
    else Print(items[0]) + ([','] + ItemsText(items[1..], rest))
  }

  lemma {:induction false} ItemsTextIs(items: seq<Value>, rest: string)
    requires items != []
    ensures Print(items[0]) + PrintMore(items[1..]) + [']'] + rest == ItemsText(items, rest)
  {
    if |items| > 1 {
      ItemsTextIs(items[1..], rest);
      MoreUnfolds(items);
      Regroup(Print(items[0]), [','], Print(items[1]), PrintMore(items[1..][1..]), [']'], rest);
    } else {
      Regroup(Print(items[0]), [], [], [], [']'], rest);
    }
  }

  lemma MoreUnfolds(items: seq<Value>)
    requires |items| > 1
    ensures PrintMore(items[1..]) == [','] + Print(items[1]) + PrintMore(items[1..][1..])
  {
  }

  lemma Regroup(a: string, b: string, c: string, d: string, e: string, f: string)
    ensures a + (b + c + d) + e + f == a + (b + (c + d + e + f))
  {
  }

  lemma {:induction false} ParseItemsText(items: seq<Value>, rest: string)
    requires items != [] && forall v :: v in items ==> RoundTrips(v)
    ensures ParseItems(ItemsText(items, rest)) == Done(items, rest)
  {
    assert RoundTrips(items[0]);
    assert items == [items[0]] + items[1..];
    if |items| > 1 {
      var tail := ItemsText(items[1..], rest);
      assert Delimited([','] + tail);
      ParseItemsText(items[1..], rest);
      NextItem(ItemsText(items, rest), items[0], tail, items[1..], rest);
    } else {
      assert Delimited([']'] + rest) && items == [items[0]];
      LastItem(ItemsText(items, rest), items[0], rest);
    }
  }

  lemma BracketedItems(body: string, items: seq<Value>, rest: string)
    requires body != [] && body[0] != ']' && ParseItems(body) == Done(items, rest)
    ensures ParseValue(['['] + body) == Done(Arr(items), rest)
  {
    assert (['['] + body)[1..] == body;
  }

  lemma PrintArr(items: seq<Value>, rest: string)
    requires items != []
    ensures Print(Arr(items)) + rest == ['['] + (Print(items[0]) + PrintMore(items[1..]) + [']'] + rest)
  {
    Wrap('[', Print(items[0]) + PrintMore(items[1..]), ']', rest);
    assert ['['] + Print(items[0]) + PrintMore(items[1..]) == ['['] + (Print(items[0]) + PrintMore(items[1..]));
  }

  lemma Wrap(open: char, body: string, close: char, rest: string)
    ensures [open] + body + [close] + rest == [open] + (body + [close] + rest)
  {
  }

  lemma ParseArr(items: seq<Value>, rest: string)
    requires items != [] && forall v :: v in items ==> RoundTrips(v)
    ensures ParseValue(Print(Arr(items)) + rest) == Done(Arr(items), rest)
  {
    ParseItemsText(items, rest);
    ItemsTextIs(items, rest);
    PrintStarts(items[0]);
    BracketedItems(ItemsText(items, rest), items, rest);
    PrintArr(items, rest);
  }

  lemma ParseEmpty(rest: string)
    ensures ParseValue("[]" + rest) == Done(Arr([]), rest)
    ensures ParseValue("{}" + rest) == Done(Obj(map[]), rest)
  {
    var s := "[]" + rest;
    assert s[1..] == [']'] + rest && s[2..] == rest;
    var t := "{}" + rest;
    assert t[1..] == ['}'] + rest && t[2..] == rest;
  }

  ghost function Restrict(m: map<string, Value>, keys: seq<string>): map<string, Value> {
    map k | k in keys && k in m :: m[k]
  }

  /** A member followed by text the parser reads as `after`. */
  lemma ParseMember(key: string, text: string, v: Value, after: string)
    requires ParseValue(text + after) == Done(v, after)
    ensures ParseString(Quote(key) + [':'] + text + after) == Done(key, [':'] + (text + after))
    ensures ([':'] + (text + after))[1..] == text + after
  {
    ParseQuote(key, [':'] + (text + after));
    Associate(Quote(key), [':'], text, after);
  }

  lemma Associate(a: string, b: string, c: string, d: string)
    ensures a + b + c + d == a + (b + (c + d))
  {
  }

  lemma LastField(key: string, text: string, v: Value, rest: string)
    requires ParseValue(text + (['}'] + rest)) == Done(v, ['}'] + rest)
    ensures ParseFields(Quote(key) + [':'] + text + (['}'] + rest)) == Done(map[key := v], rest)
  {
    ParseMember(key, text, v, ['}'] + rest);
    assert (['}'] + rest)[1..] == rest;
  }

  lemma NextField(key: string, text: string, v: Value, tail: string, more: map<string, Value>, rest: string)
    requires ParseValue(text + ([','] + tail)) == Done(v, [','] + tail)
    requires ParseFields(tail) == Done(more, rest)
    ensures ParseFields(Quote(key) + [':'] + text + ([','] + tail)) == Done(more[key := v], rest)
  {
    ParseMember(key, text, v, [','] + tail);
    assert ([','] + tail)[1..] == tail;
  }

  ghost function FieldsText(v: Value, keys: seq<string>, rest: string): string
    requires v.Obj? && keys != [] && forall k :: k in keys ==> k in v.fields
  {
    if |keys| == 1 then PrintField(v, keys[0]) + (['}'] + rest)
    else PrintField(v, keys[0]) + ([','] + FieldsText(v, keys[1..], rest))
  }

  lemma MoreFieldsUnfolds(v: Value, keys: seq<string>)
    requires v.Obj? && |keys| > 1 && forall k :: k in keys ==> k in v.fields
    ensures PrintMoreFields(v, keys[1..]) == [','] + PrintField(v, keys[1]) + PrintMoreFields(v, keys[1..][1..])
  {
  }

  lemma {:induction false} FieldsTextIs(v: Value, keys: seq<string>, rest: string)
    requires v.Obj? && keys != [] && forall k :: k in keys ==> k in v.fields
    ensures PrintFields(v, keys) + ['}'] + rest == FieldsText(v, keys, rest)
    decreases |keys|
  {
    if |keys| > 1 {
      FieldsTextIs(v, keys[1..], rest);
      MoreFieldsUnfolds(v, keys);
      Regroup(PrintField(v, keys[0]), [','], PrintField(v, keys[1]), PrintMoreFields(v, keys[1..][1..]), ['}'], rest);
    } else {
      Regroup(PrintField(v, keys[0]), [], [], [], ['}'], rest);
    }
  }

  lemma RestrictStep(m: map<string, Value>, keys: seq<string>)
    requires keys != [] && keys[0] in m
    ensures Restrict(m, keys) == Restrict(m, keys[1..])[keys[0] := m[keys[0]]]
  {
    assert keys == [keys[0]] + keys[1..];
  }

  lemma RoundTripBefore(v: Value, c: char, rest: string)
    requires RoundTrips(v) && !NumberChar(c)
    ensures ParseValue(Print(v) + ([c] + rest)) == Done(v, [c] + rest)
  {
    assert Delimited([c] + rest);
  }

  lemma {:induction false} ParseFieldsText(v: Value, keys: seq<string>, rest: string)
    requires v.Obj? && keys != [] && forall k :: k in keys ==> k in v.fields && RoundTrips(v.fields[k])
    ensures ParseFields(FieldsText(v, keys, rest)) == Done(Restrict(v.fields, keys), rest)
    decreases |keys|
  {
    var key := keys[0];
    RestrictStep(v.fields, keys);
    if |keys| > 1 {
      var tail := FieldsText(v, keys[1..], rest);
      RoundTripBefore(v.fields[key], ',', tail);
      ParseFieldsText(v, keys[1..], rest);
      NextField(key, Print(v.fields[key]), v.fields[key], tail, Restrict(v.fields, keys[1..]), rest);
    } else {
      RoundTripBefore(v.fields[key], '}', rest);
      LastField(key, Print(v.fields[key]), v.fields[key], rest);
    }
  }

  lemma BracedFields(body: string, fields: map<string, Value>, rest: string)
    requires body != [] && body[0] != '}' && ParseFields(body) == Done(fields, rest)
    ensures ParseValue(['{'] + body) == Done(Obj(fields), rest)
  {
    assert (['{'] + body)[1..] == body;
  }

  lemma FieldsTextStarts(v: Value, keys: seq<string>, rest: string)
    requires v.Obj? && keys != [] && forall k :: k in keys ==> k in v.fields
    ensures FieldsText(v, keys, rest) != [] && FieldsText(v, keys, rest)[0] != '}'
  {
    assert PrintField(v, keys[0])[0] == '"';
  }

  lemma ParseObj(v: Value, rest: string)
    requires v.Obj? && v.fields != map[] && forall k :: k in v.fields ==> RoundTrips(v.fields[k])
    ensures ParseValue(Print(v) + rest) == Done(v, rest)
  {
    var keys := SortedKeys(v.fields.Keys);
    assert Restrict(v.fields, keys) == v.fields;
    ParseFieldsText(v, keys, rest);
    FieldsTextIs(v, keys, rest);
    FieldsTextStarts(v, keys, rest);
    BracedFields(FieldsText(v, keys, rest), v.fields, rest);
    Wrap('{', PrintFields(v, keys), '}', rest);
  }

  lemma PrintEmptyObj()
    ensures Print(Obj(map[])) == "{}"
  {
    var empty: map<string, Value> := map[];
    assert |SortedKeys(empty.Keys)| == 0;
  }

  /** Parsing undoes printing for every tree, whatever follows it. */
  lemma {:induction false} ParseUndoesPrint(v: Value)
    ensures RoundTrips(v)
    decreases v
  {
    forall rest | Delimited(rest) ensures ParseValue(Print(v) + rest) == Done(v, rest) {
      match v
      case Null =>
      case Bool(_) =>
      case Num(token) => ParseNumberInverse(token, rest);
      case Str(text) => ParseQuote(text, rest);
      case Arr(items) =>
        forall x | x in items ensures RoundTrips(x) { ParseUndoesPrint(x); }
        if items == [] { ParseEmpty(rest); } else { ParseArr(items, rest); }
      case Obj(fields) =>
        forall k | k in fields ensures RoundTrips(fields[k]) { ParseUndoesPrint(fields[k]); }
        if fields == map[] { PrintEmptyObj(); ParseEmpty(rest); } else { ParseObj(v, rest); }
    }
  }

  /** Two trees with the same text are the same tree. */
  lemma PrintInjective(v: Value, w: Value)
    requires Print(v) == Print(w)
    ensures v == w
  {
    ParseUndoesPrint(v);
    ParseUndoesPrint(w);
    assert Print(v) + [] == Print(w) + [];
    assert Delimited([]);
  }
}
