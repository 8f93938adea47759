/** The signing payload of an agent card: the card's JSON tree without its
    `signatures` member, stripped of empty fields and printed canonically. */
module CanonicalCard {
  import opened Strings
  import opened Json

  // ---------- removing empty fields ----------

  /** What is left of an object member; None when it is dropped. */
  function CleanField(v: Value): Option<Value>
    decreases v, 1
  {
    match v
    case Null => None
    case Str(text) => if text == "" then None else Some(v)
    case Obj(_) => var c := CleanObj(v); if c.fields == map[] then None else Some(c)
    case Arr(items) => var c := CleanItems(items); if c == [] then None else Some(Arr(c))
    case _ => Some(v)
  }

  function CleanObj(v: Value): (c: Value)
    requires v.Obj?
    ensures c.Obj?
    decreases v, 0
  {
    Obj(map k | k in v.fields && CleanField(v.fields[k]).Some? :: CleanField(v.fields[k]).value)
  }

  /** What is left of an array element: arrays inside arrays are kept as they are. */
  function CleanItem(v: Value): Option<Value>
    decreases v, 1
  {
    match v
    case Null => None
    case Str(text) => if text == "" then None else Some(v)
    case Obj(_) => var c := CleanObj(v); if c.fields == map[] then None else Some(c)
    case _ => Some(v)
  }

  function CleanItems(items: seq<Value>): seq<Value>
    decreases items
  {
    if items == [] then []
    else match CleanItem(items[0])
      case None => CleanItems(items[1..])
      case Some(v) => [v] + CleanItems(items[1..])
  }

  // ---------- what cleaning means ----------

  predicate BlankItem(v: Value)
    decreases v, 1
  {
    match v
    case Null => true
    case Str(text) => text == ""
    case Obj(_) => forall k :: k in v.fields ==> Blank(v.fields[k])
    case _ => false
  }

  /** Holds nothing but nulls, empty strings and empty containers. */
  predicate Blank(v: Value)
    decreases v, 2
  {
    match v
    case Arr(items) => forall x :: x in items ==> BlankItem(x)
    case _ => BlankItem(v)
  }

  predicate Compact(v: Value)
    decreases v, 0
  {
    v.Obj? ==> forall k :: k in v.fields ==> CompactField(v.fields[k])
  }

  predicate CompactItem(v: Value)
    decreases v, 1
  {
    !v.Null? && v != Str("") && v != Obj(map[]) && Compact(v)
  }

  predicate CompactField(v: Value)
    decreases v, 2
  {
    v != Arr([]) && CompactItem(v) && (v.Arr? ==> forall x :: x in v.items ==> CompactItem(x))
  }

  /** Cleaning drops a member exactly when it is blank. */
  lemma {:induction false} DroppedExactlyWhenBlank(v: Value)
    ensures CleanItem(v).None? <==> BlankItem(v)
    ensures CleanField(v).None? <==> Blank(v)
    decreases v, 1
  {
    match v
    case Obj(fields) =>
      forall k | k in fields ensures CleanField(fields[k]).None? <==> Blank(fields[k]) {
        DroppedExactlyWhenBlank(fields[k]);
      }
      EmptyExactlyWhenAllBlank(v);
    case Arr(items) => ItemsDroppedExactlyWhenBlank(items);
    case _ =>
  }

  lemma EmptyExactlyWhenAllBlank(v: Value)
    requires v.Obj? && forall k :: k in v.fields ==> (CleanField(v.fields[k]).None? <==> Blank(v.fields[k]))
    ensures CleanObj(v).fields == map[] <==> forall k :: k in v.fields ==> Blank(v.fields[k])
  {
    if k :| k in v.fields && !Blank(v.fields[k]) {
      assert k in CleanObj(v).fields;
    } else {
      assert CleanObj(v).fields.Keys == {};
    }
  }

  lemma {:induction false} ItemsDroppedExactlyWhenBlank(items: seq<Value>)
    ensures CleanItems(items) == [] <==> forall x :: x in items ==> BlankItem(x)
    decreases items, 0
  {
    if items != [] {
      DroppedExactlyWhenBlank(items[0]);
      ItemsDroppedExactlyWhenBlank(items[1..]);
      assert items == [items[0]] + items[1..];
    }
  }

  /** Every member of a cleaned tree is compact. */
  lemma {:induction false} CleanedIsCompact(v: Value)
    ensures CleanItem(v).Some? ==> CompactItem(CleanItem(v).value)
    ensures CleanField(v).Some? ==> CompactField(CleanField(v).value)
    ensures v.Obj? ==> Compact(CleanObj(v))
    decreases v, 1
  {
    match v
    case Obj(fields) =>
      forall k | k in fields && CleanField(fields[k]).Some? ensures CompactField(CleanField(fields[k]).value) {
        CleanedIsCompact(fields[k]);
      }
    case Arr(items) => ItemsCleanedAreCompact(items);
    case _ =>
  }

  lemma {:induction false} ItemsCleanedAreCompact(items: seq<Value>)
    ensures forall x :: x in CleanItems(items) ==> CompactItem(x)
    decreases items, 0
  {
    if items != [] {
      CleanedIsCompact(items[0]);
      ItemsCleanedAreCompact(items[1..]);
    }
  }

  /** Cleaning leaves compact trees alone. */
  lemma {:induction false} CompactIsClean(v: Value)
    ensures CompactItem(v) ==> CleanItem(v) == Some(v)
    ensures CompactField(v) ==> CleanField(v) == Some(v)
    ensures v.Obj? && Compact(v) ==> CleanObj(v) == v
    decreases v, 1
  {
    match v
    case Obj(fields) =>
      if Compact(v) {
        forall k | k in fields ensures CleanField(fields[k]) == Some(fields[k]) {
          CompactIsClean(fields[k]);
        }
        assert CleanObj(v).fields == fields;
      }
    case Arr(items) => if CompactField(v) { CompactItemsAreClean(items); }
    case _ =>
  }

  lemma {:induction false} CompactItemsAreClean(items: seq<Value>)
    requires forall x :: x in items ==> CompactItem(x)
    ensures CleanItems(items) == items
    decreases items, 0
  {
    if items != [] {
      CompactIsClean(items[0]);
      CompactItemsAreClean(items[1..]);
      assert items == [items[0]] + items[1..];
    }
  }

  /** Cleaning is idempotent, and its fixed points are the compact trees. */
  lemma CleanReachesFixpoint(v: Value)
    requires v.Obj?
    ensures CleanObj(CleanObj(v)) == CleanObj(v)
    ensures CleanObj(v) == v <==> Compact(v)
  {
    CleanedIsCompact(v);
    CompactIsClean(v);
    CompactIsClean(CleanObj(v));
  }

  /** What cleaning leaves of the value at a path. */
  function CleanAt(v: Value, path: seq<string>): Option<Value> {
    match At(v, path) case None => None case Some(u) => CleanField(u)
  }

  /** Cleaning commutes with lookup: at every path of object keys the cleaned tree holds
      exactly the cleaned value, so nothing is lost, moved or invented, arrays included. */
  lemma {:induction false} LookupCommutes(v: Value, path: seq<string>)
    requires v.Obj? && path != []
    ensures At(CleanObj(v), path) == CleanAt(v, path)
    decreases |path|
  {
    var key := path[0];
    if key in v.fields {
      var f := v.fields[key];
      assert key in CleanObj(v).fields <==> CleanField(f).Some?;
      if |path| == 1 {
        assert At(f, path[1..]) == Some(f);
      } else if f.Obj? {
        LookupCommutes(f, path[1..]);
        if CleanObj(f).fields == map[] { assert At(CleanObj(f), path[1..]) == None; }
      } else {
        assert At(f, path[1..]) == None;
        if CleanField(f).Some? { assert At(CleanField(f).value, path[1..]) == None; }
      }
    }
  }

  // ---------- the payload ----------

  const SIGNATURES := "signatures"

  function Signed(card: map<string, Value>): Value { CleanObj(Obj(card - {SIGNATURES})) }

  ghost function Payload(card: map<string, Value>): string { Print(Signed(card)) }

  /** Equal payloads mean equal cleaned signature-free trees, and conversely. */
  lemma PayloadEqualExactlyWhenTreesEqual(a: map<string, Value>, b: map<string, Value>)
    ensures Payload(a) == Payload(b) <==> Signed(a) == Signed(b)
  {
    if Payload(a) == Payload(b) { PrintInjective(Signed(a), Signed(b)); }
  }

  /** Whatever is stored under `signatures` leaves the payload alone. */
  lemma PayloadIgnoresSignatures(card: map<string, Value>, sigs: Value)
    ensures Payload(card[SIGNATURES := sigs]) == Payload(card)
  {
    assert card[SIGNATURES := sigs] - {SIGNATURES} == card - {SIGNATURES};
  }

  lemma SignedAt(card: map<string, Value>, path: seq<string>)
    requires path != [] && path[0] != SIGNATURES
    ensures At(Signed(card), path) == CleanAt(Obj(card), path)
  {
    LookupCommutes(Obj(card - {SIGNATURES}), path);
  }

  /** Two cards have the same payload exactly when, at every path outside `signatures`,
      they hold the same value up to cleaning. */
  lemma PayloadFixesEveryPath(a: map<string, Value>, b: map<string, Value>)
    ensures Payload(a) == Payload(b) <==>
      forall path: seq<string> | path != [] && path[0] != SIGNATURES :: CleanAt(Obj(a), path) == CleanAt(Obj(b), path)
  {
    PayloadEqualExactlyWhenTreesEqual(a, b);
    forall path: seq<string> | path != [] && path[0] != SIGNATURES
      ensures At(Signed(a), path) == CleanAt(Obj(a), path) && At(Signed(b), path) == CleanAt(Obj(b), path)
    {
      SignedAt(a, path);
      SignedAt(b, path);
    }
    if forall path: seq<string> | path != [] && path[0] != SIGNATURES :: CleanAt(Obj(a), path) == CleanAt(Obj(b), path) {
      SameMembers(a, b);
    }
  }

  lemma SameMembers(a: map<string, Value>, b: map<string, Value>)
    requires forall path: seq<string> | path != [] && path[0] != SIGNATURES :: CleanAt(Obj(a), path) == CleanAt(Obj(b), path)
    ensures Signed(a) == Signed(b)
  {
    forall k ensures k in Signed(a).fields <==> k in Signed(b).fields
             ensures k in Signed(a).fields && k in Signed(b).fields ==> Signed(a).fields[k] == Signed(b).fields[k]
    {
      if k != SIGNATURES {
        SignedAt(a, [k]);
        SignedAt(b, [k]);
        assert [k][1..] == [];
        assert CleanAt(Obj(a), [k]) == CleanAt(Obj(b), [k]);
      }
    }
    assert Signed(a).fields == Signed(b).fields;
  }

  // ---------- the loops ----------

  /** `CleanObj` restricted to the members already visited. */
  ghost function CleanPart(v: Value, done: set<string>): map<string, Value>
    requires v.Obj?
  {
    map k | k in v.fields && k in done && CleanField(v.fields[k]).Some? :: CleanField(v.fields[k]).value
  }

  lemma CleanPartStep(v: Value, done: set<string>, k: string)
    requires v.Obj? && k in v.fields && k !in done
    ensures CleanPart(v, done + {k}) == match CleanField(v.fields[k])
              case None => CleanPart(v, done)
              case Some(c) => CleanPart(v, done)[k := c]
  {
  }

  method RemoveEmptyFields(v: Value) returns (result: map<string, Value>)
    requires v.Obj?
    ensures Obj(result) == CleanObj(v)
    decreases v, 0
  {
    result := map[];
    var todo := v.fields.Keys;
    while todo != {}
      invariant todo <= v.fields.Keys
      invariant result == CleanPart(v, v.fields.Keys - todo)
    {
      var k :| k in todo;
      CleanPartStep(v, v.fields.Keys - todo, k);
      assert v.fields.Keys - (todo - {k}) == v.fields.Keys - todo + {k};
      todo := todo - {k};
      var f := v.fields[k];
      match f {
        case Null =>
        case Obj(_) =>
          var cleaned := RemoveEmptyFields(f);
          if cleaned != map[] { result := result[k := Obj(cleaned)]; }
        case Arr(items) =>
          var cleaned := RemoveEmptyItems(items);
          if cleaned != [] { result := result[k := Arr(cleaned)]; }
        case Str(text) => if text != "" { result := result[k := f]; }
        case _ => result := result[k := f];
      }
    }
  }

  lemma {:induction false} CleanItemsSnoc(items: seq<Value>, v: Value)
    ensures CleanItems(items + [v]) == CleanItems(items) + (match CleanItem(v) case None => [] case Some(c) => [c])
  {
    if items == [] {
      assert items + [v] == [v];
    } else {
      CleanItemsSnoc(items[1..], v);
      assert (items + [v])[1..] == items[1..] + [v];
    }
  }

  method RemoveEmptyItems(items: seq<Value>) returns (cleaned: seq<Value>)
    ensures cleaned == CleanItems(items)
    decreases items
  {
    cleaned := [];
    for i := 0 to |items|
      invariant cleaned == CleanItems(items[..i])
    {
      var v := items[i];
      CleanItemsSnoc(items[..i], v);
      assert items[..i + 1] == items[..i] + [v];
      match v {
        case Null =>
        case Obj(_) =>
          var c := RemoveEmptyFields(v);
          if c != map[] { cleaned := cleaned + [Obj(c)]; }
        case Str(text) => if text != "" { cleaned := cleaned + [v]; }
        case _ => cleaned := cleaned + [v];
      }
    }
    assert items[..|items|] == items;
  }

  /** `sort.Strings` on the keys of a map. */
  method SortKeys(keys: set<string>) returns (sorted: seq<string>)
    ensures sorted == SortedKeys(keys)
  {
    sorted := [];
    var todo := keys;
    while todo != {}
      invariant todo <= keys && |sorted| + |todo| == |keys|
      invariant forall k :: k in sorted <==> k in keys - todo
      invariant Increasing(sorted)
      invariant forall a, b :: a in sorted && b in todo ==> Less(a, b)
    {
      var least := SmallestKey(todo);
      todo := todo - {least};
      sorted := sorted + [least];
    }
    IncreasingUnique(sorted, SortedKeys(keys));
  }

  method SmallestKey(keys: set<string>) returns (least: string)
    requires keys != {}
    ensures IsLeast(least, keys)
  {
    least :| least in keys;
    var todo := keys - {least};
    while todo != {}
      invariant todo <= keys && least in keys && least !in todo
      invariant forall k :: k in keys - todo && k != least ==> Less(least, k)
    {
      var k :| k in todo;
      todo := todo - {k};
      LessTrichotomy(k, least);
      if Less(k, least) {
        forall x | x in keys - todo && x != k ensures Less(k, x) {
          if x != least { LessTransitive(k, least, x); }
        }
        least := k;
      }
    }
  }

  lemma {:induction false} PrintMoreSnoc(items: seq<Value>, v: Value)
    ensures PrintMore(items + [v]) == PrintMore(items) + [','] + Print(v)
  {
    if items == [] {
      PrintMoreCons(v, []);
      assert items + [v] == [v] + [];
    } else {
      var head, tail := items[0], items[1..];
      PrintMoreSnoc(tail, v);
      PrintMoreCons(head, tail);
      PrintMoreCons(head, tail + [v]);
      assert items == [head] + tail && items + [v] == [head] + (tail + [v]);
      AppendTwo([','] + Print(head), PrintMore(tail), [','], Print(v));
    }
  }

  lemma PrintMoreCons(head: Value, tail: seq<Value>)
    ensures PrintMore([head] + tail) == [','] + Print(head) + PrintMore(tail)
  {
    assert ([head] + tail)[1..] == tail;
  }

  lemma {:induction false} PrintMoreFieldsSnoc(v: Value, keys: seq<string>, key: string)
    requires v.Obj? && key in v.fields && forall k :: k in keys ==> k in v.fields
    ensures PrintMoreFields(v, keys + [key]) == PrintMoreFields(v, keys) + [','] + PrintField(v, key)
    decreases |keys|
  {
    if keys == [] {
      PrintMoreFieldsCons(v, key, []);
      assert keys + [key] == [key] + [];
    } else {
      var head, tail := keys[0], keys[1..];
      PrintMoreFieldsSnoc(v, tail, key);
      PrintMoreFieldsCons(v, head, tail);
      PrintMoreFieldsCons(v, head, tail + [key]);
      assert keys == [head] + tail && keys + [key] == [head] + (tail + [key]);
      AppendTwo([','] + PrintField(v, head), PrintMoreFields(v, tail), [','], PrintField(v, key));
    }
  }

  lemma PrintMoreFieldsCons(v: Value, head: string, tail: seq<string>)
    requires v.Obj? && head in v.fields && forall k :: k in tail ==> k in v.fields
    ensures PrintMoreFields(v, [head] + tail) == [','] + PrintField(v, head) + PrintMoreFields(v, tail)
  {
    assert ([head] + tail)[1..] == tail;
  }

  method MarshalValue(v: Value) returns (text: string)
    ensures text == Print(v)
    decreases v, 2
  {
    match v {
      case Obj(_) => text := MarshalCanonical(v);
      case Null => text := "null";
      case Bool(flag) => if flag { text := "true"; } else { text := "false"; }
      case Str(s) => text := Quote(s);
      case Num(token) => text := token;
      case Arr(items) => text := MarshalArray(v);
    }
  }

  /** The fields in key order between braces. */
  method MarshalCanonical(v: Value) returns (buf: string)
    requires v.Obj?
    ensures buf == Print(v)
    decreases v, 1
  {
    var keys := SortKeys(v.fields.Keys);
    buf := MarshalFields(v, keys);
    buf := ['{'] + buf + ['}'];
  }

  method MarshalFields(v: Value, keys: seq<string>) returns (buf: string)
    requires v.Obj? && forall k :: k in keys ==> k in v.fields
    ensures buf == PrintFields(v, keys)
    decreases v, 0, 1
  {
    buf := [];
    for i := 0 to |keys|
      invariant buf == PrintFields(v, keys[..i])
    {
      var comma := if i > 0 then [','] else [];
      var field := MarshalField(v, keys[i]);
      FieldsGrow(v, keys, i);
      buf := buf + comma + field;
    }
    assert keys[..|keys|] == keys;
  }

  method MarshalField(v: Value, key: string) returns (field: string)
    requires v.Obj? && key in v.fields
    ensures field == PrintField(v, key)
    decreases v, 0, 0
  {
    var text := MarshalValue(v.fields[key]);
    field := Quote(key) + [':'] + text;
  }

  lemma AppendTwo(a: string, b: string, c: string, d: string)
    ensures a + b + c + d == a + (b + c + d)
  {
  }

  lemma PrefixTail<T>(s: seq<T>, i: nat)
    requires 0 < i < |s|
    ensures s[..i + 1][1..] == s[1..i] + [s[i]] && s[..i][1..] == s[1..i]
  {
  }

  lemma FieldsGrow(v: Value, keys: seq<string>, i: nat)
    requires v.Obj? && i < |keys| && forall k :: k in keys ==> k in v.fields
    ensures PrintFields(v, keys[..i + 1])
         == PrintFields(v, keys[..i]) + (if i > 0 then [','] else []) + PrintField(v, keys[i])
  {
    if i == 0 {
      assert keys[..1] == [keys[0]];
    } else {
      PrefixTail(keys, i);
      PrintMoreFieldsSnoc(v, keys[1..i], keys[i]);
    }
  }

  /** The array elements separated by commas. */
  ghost function PrintItems(items: seq<Value>): string {
    if items == [] then [] else Print(items[0]) + PrintMore(items[1..])
  }

  lemma ItemsGrow(items: seq<Value>, i: nat)
    requires i < |items|
    ensures PrintItems(items[..i + 1]) == PrintItems(items[..i]) + (if i > 0 then [','] else []) + Print(items[i])
  {
    if i == 0 {
      assert items[..1] == [items[0]];
    } else {
      PrefixTail(items, i);
      PrintMoreSnoc(items[1..i], items[i]);
    }
  }

  lemma PrintArrIs(v: Value)
    requires v.Arr?
    ensures Print(v) == ['['] + PrintItems(v.items) + [']']
  {
    if v.items != [] {
      assert ['['] + Print(v.items[0]) + PrintMore(v.items[1..]) == ['['] + (Print(v.items[0]) + PrintMore(v.items[1..]));
    }
  }

  method MarshalArray(v: Value) returns (buf: string)
    requires v.Arr?
    ensures buf == Print(v)
    decreases v, 0
  {
    buf := ['['];
    for i := 0 to |v.items|
      invariant buf == ['['] + PrintItems(v.items[..i])
    {
      var comma := if i > 0 then [','] else [];
      var text := MarshalValue(v.items[i]);
      ItemsGrow(v.items, i);
      AppendTwo(['['], PrintItems(v.items[..i]), comma, text);
      buf := buf + comma + text;
    }
    assert v.items[..|v.items|] == v.items;
    PrintArrIs(v);
    buf := buf + [']'];
  }

  /** `CreateCanonicalCardJSON` from the unmarshalled card on. */
  method CreateCanonicalCardJSON(card: map<string, Value>) returns (payload: string)
    ensures payload == Payload(card)
  {
    var clean := RemoveEmptyFields(Obj(card - {SIGNATURES}));
    payload := MarshalCanonical(Obj(clean));
  }
}
