/** Printing JSON values as Lua literals (jsonToLuaLiteral in internal/builder/lua_export.go) and
    reading them back (exprToJSON and tableToJSON in internal/builder/lua_import.go). The main theorem,
    LiteralRoundTrip, says for every value exactly when the printed text reads back as that value. */
module LuaLiteral {
  import opened Text
  import opened LuaLexer
  import opened LuaParser
  import opened LuaText

  datatype Json =
    | Null
    | Bool(b: bool)
    | Numeric(num: Num)
    | Str(text: string)
    | Arr(items: seq<Json>)
    | Obj(fields: map<string, Json>)

  // ----- Printing -----

  function Literal(v: Json): (r: string)
    decreases v, 1, 0
  {
    match v
    case Null => "nil"
    case Bool(b) => if b then "true" else "false"
    case Numeric(n) => DecimalText(n)
    case Str(s) => Quote(Lua, s)
    case Arr(items) => "{" + Join(Literals(items), ", ") + "}"
    case Obj(fields) => "{" + Join(FieldLiterals(SortedKeys(fields.Keys), v), ", ") + "}"
  }

  function Literals(vs: seq<Json>): (parts: seq<string>)
    ensures |parts| == |vs|
    decreases vs, 0, 0
  {
    if vs == [] then [] else [Literal(vs[0])] + Literals(vs[1..])
  }

  function FieldLiterals(keys: seq<string>, v: Json): (parts: seq<string>)
    requires v.Obj? && forall k :: k in keys ==> k in v.fields
    ensures |parts| == |keys|
    decreases v, 0, |keys|
  {
    if keys == [] then []
    else [LuaKey(keys[0]) + (" = " + Literal(v.fields[keys[0]]))] + FieldLiterals(keys[1..], v)
  }

  // ----- Reading -----

  function KeyName(e: Expr): (r: string) {
    match e
    case IdentE(n) => n
    case StringE(v) => v
    case _ => ""
  }

  /** The key a field is filed under, "" for none. */
  function FieldKey(f: Field): (r: string) {
    match f
    case Positional(_) => ""
    case Keyed(k, _) => KeyName(k)
  }

  /** exprToJSON; the notes it collects are not part of this model. */
  function ExprToJson(e: Expr): (r: Json)
    decreases e, 1, 0
  {
    match e
    case StringE(v) => Str(v)
    case NumberE(t) => NumberOf(false, t)
    case TrueE => Bool(true)
    case FalseE => Bool(false)
    case TableE(fields) => TableToJson(fields)
    case NegE(operand) => if operand.NumberE? then NumberOf(true, operand.text) else Null
    case _ => Null
  }

  function NumberOf(negative: bool, text: string): (r: Json) {
    var d := Decimal(negative && text != "0", text);
    if IsDecimal(d) then Numeric(d) else Str(text)
  }

  /** tableToJSON: all-positional fields make an array, anything else an object. */
  function TableToJson(fields: seq<Field>): (r: Json)
    decreases fields, 2, 0
  {
    if fields == [] then Obj(map[])
    else if forall f :: f in fields ==> f.Positional? then Arr(PositionalValues(fields))
    else Obj(FieldMap(fields))
  }

  function FieldValue(f: Field): (r: Json)
    decreases f, 1, 0
  {
    ExprToJson(f.value)
  }

  function PositionalValues(fields: seq<Field>): (vs: seq<Json>)
    ensures |vs| == |fields|
    decreases fields, 1, |fields|
  {
    if fields == [] then [] else [FieldValue(fields[0])] + PositionalValues(fields[1..])
  }

  /** The object built field by field; a later field overwrites an earlier one with the same key. */
  function FieldMap(fields: seq<Field>): (r: map<string, Json>)
    decreases fields, 1, |fields|
  {
    if fields == [] then map[]
    else
      var n := |fields| - 1;
      var before, f := FieldMap(fields[..n]), fields[n];
      if f.Positional? then before[NatText(n + 1) := FieldValue(f)]
      else if FieldKey(f) == "" then before
      else before[FieldKey(f) := FieldValue(f)]
  }

  /** Reading one literal that is the whole text. */
  function ReadExpr(text: string): (r: Option<Expr>) {
    var ts := Lex(text);
    if ts.None? then None
    else
      var r := ParseExpr(ts.value);
      if r.None? || r.value.1 != [] then None else Some(r.value.0)
  }

  function ReadLiteral(text: string): (r: Option<Json>) {
    var e := ReadExpr(text);
    if e.None? then None else Some(ExprToJson(e.value))
  }

  // ----- What survives the trip -----

  /** No object key anywhere is a reserved word: LuaKey prints those bare, which does not parse. */
  predicate Speakable(v: Json)
    decreases v, 1
  {
    match v
    case Arr(items) => AllSpeakable(items)
    case Obj(fields) => forall k :: k in fields ==> !IsReserved(k) && Speakable(fields[k])
    case _ => true
  }

  predicate AllSpeakable(vs: seq<Json>)
    decreases vs, 0
  {
    vs == [] || (Speakable(vs[0]) && AllSpeakable(vs[1..]))
  }

  /** What a speakable value reads back as: an empty array becomes an empty object, empty keys go. */
  function Normal(v: Json): (r: Json)
    decreases v, 1
  {
    match v
    case Arr(items) => if items == [] then Obj(map[]) else Arr(Normals(items))
    case Obj(fields) => Obj(map k | k in fields && k != "" :: Normal(fields[k]))
    case _ => v
  }

  function Normals(vs: seq<Json>): (ns: seq<Json>)
    ensures |ns| == |vs|
    decreases vs, 0
  {
    if vs == [] then [] else [Normal(vs[0])] + Normals(vs[1..])
  }

  /** No empty array and no empty key anywhere. */
  predicate Solid(v: Json)
    decreases v, 1
  {
    match v
    case Arr(items) => items != [] && AllSolid(items)
    case Obj(fields) => "" !in fields && forall k :: k in fields ==> Solid(fields[k])
    case _ => true
  }

  predicate AllSolid(vs: seq<Json>)
    decreases vs, 0
  {
    vs == [] || (Solid(vs[0]) && AllSolid(vs[1..]))
  }

  // ----- The printed text is literal text -----

  function LitOf(v: Json): (l: Lit)
    decreases v, 1, 0
  {
    match v
    case Null => Nil
    case Bool(b) => Truth(b)
    case Numeric(n) => Number(n)
    case Str(s) => Quoted(Lua, s)
    case Arr(items) => Table(ItemEntries(items), Inline(" = "))
    case Obj(fields) => Table(KeyEntries(SortedKeys(fields.Keys), v), Inline(" = "))
  }

  function ItemEntries(vs: seq<Json>): (es: seq<Entry>)
    ensures |es| == |vs|
    decreases vs, 0, 0
  {
    if vs == [] then [] else [Item(LitOf(vs[0]))] + ItemEntries(vs[1..])
  }

  function KeyEntries(keys: seq<string>, v: Json): (es: seq<Entry>)
    requires v.Obj? && forall k :: k in keys ==> k in v.fields
    ensures |es| == |keys|
    decreases v, 0, |keys|
  {
    if keys == [] then [] else [Pair(keys[0], LitOf(v.fields[keys[0]]))] + KeyEntries(keys[1..], v)
  }

  lemma {:induction false} LiteralIsText(v: Json)
    ensures Literal(v) == LitText(LitOf(v)) && WellLaid(LitOf(v))
    ensures Readable(LitOf(v)) <==> Speakable(v)
    decreases v, 1, 0
  {
    match v
    case Arr(items) => ItemsAreText(items);
    case Obj(fields) =>
      KeysAreText(SortedKeys(fields.Keys), v);
      KeysSpeakableIff(SortedKeys(fields.Keys), v);
      ObjectIsText(v, SortedKeys(fields.Keys));
    case _ =>
  }

  lemma ObjectIsText(v: Json, keys: seq<string>)
    requires v.Obj? && keys == SortedKeys(v.fields.Keys)
    requires FieldLiterals(keys, v) == EntryTexts(KeyEntries(keys, v), " = ") && AllWellLaid(KeyEntries(keys, v))
    requires AllReadable(KeyEntries(keys, v)) <==> forall k :: k in keys ==> !IsReserved(k) && Speakable(v.fields[k])
    ensures Literal(v) == LitText(LitOf(v)) && WellLaid(LitOf(v))
    ensures Readable(LitOf(v)) <==> Speakable(v)
  {
    InlineTable(KeyEntries(keys, v), FieldLiterals(keys, v));
    ObjectLiteral(v, keys);
    SpeakableByKeys(v, keys);
  }

  lemma InlineTable(es: seq<Entry>, texts: seq<string>)
    requires texts == EntryTexts(es, " = ")
    ensures LitText(Table(es, Inline(" = "))) == "{" + Join(texts, ", ") + "}"
    ensures WellLaid(Table(es, Inline(" = "))) <==> AllWellLaid(es)
    ensures Readable(Table(es, Inline(" = "))) <==> AllReadable(es)
  {
  }

  lemma ObjectLiteral(v: Json, keys: seq<string>)
    requires v.Obj? && keys == SortedKeys(v.fields.Keys)
    ensures Literal(v) == "{" + Join(FieldLiterals(keys, v), ", ") + "}"
    ensures LitOf(v) == Table(KeyEntries(keys, v), Inline(" = "))
  {
  }

  lemma SpeakableByKeys(v: Json, keys: seq<string>)
    requires v.Obj? && forall k :: k in keys <==> k in v.fields
    ensures Speakable(v) <==> forall k :: k in keys ==> !IsReserved(k) && Speakable(v.fields[k])
  {
  }

  lemma {:induction false} ItemsAreText(vs: seq<Json>)
    ensures Literals(vs) == EntryTexts(ItemEntries(vs), " = ") && AllWellLaid(ItemEntries(vs))
    ensures AllReadable(ItemEntries(vs)) <==> AllSpeakable(vs)
    decreases vs, 0, 0
  {
    if vs != [] {
      LiteralIsText(vs[0]);
      ItemsAreText(vs[1..]);
      assert ItemEntries(vs)[1..] == ItemEntries(vs[1..]);
    }
  }

  lemma {:induction false} KeysAreText(keys: seq<string>, v: Json)
    requires v.Obj? && forall k :: k in keys ==> k in v.fields
    ensures FieldLiterals(keys, v) == EntryTexts(KeyEntries(keys, v), " = ") && AllWellLaid(KeyEntries(keys, v))
    ensures AllReadable(KeyEntries(keys, v)) <==> KeysSpeakable(keys, v)
    decreases v, 0, |keys|
  {
    if keys != [] {
      LiteralIsText(v.fields[keys[0]]);
      KeysAreText(keys[1..], v);
      assert KeyEntries(keys, v)[1..] == KeyEntries(keys[1..], v);
    }
  }

  predicate KeysSpeakable(keys: seq<string>, v: Json)
    requires v.Obj? && forall k :: k in keys ==> k in v.fields
    decreases v, 0, |keys|
  {
    keys == [] || (!IsReserved(keys[0]) && Speakable(v.fields[keys[0]]) && KeysSpeakable(keys[1..], v))
  }

  lemma {:induction false} KeysSpeakableIff(keys: seq<string>, v: Json)
    requires v.Obj? && forall k :: k in keys ==> k in v.fields
    ensures KeysSpeakable(keys, v) <==> forall k :: k in keys ==> !IsReserved(k) && Speakable(v.fields[k])
    decreases |keys|
  {
    if keys != [] {
      KeysSpeakableIff(keys[1..], v);
      assert keys == [keys[0]] + keys[1..];
    }
  }

  /** Any well laid out literal text reads back as its syntax tree, or not at all. */
  lemma ReadLit(l: Lit)
    requires WellLaid(l)
    ensures ReadExpr(LitText(l)) == if Readable(l) then Some(Ast(l)) else None
  {
    assert LitText(l) + "" == LitText(l);
    LexLit(l, "");
    assert Tokens(l) + [] == Tokens(l);
    ParseTokens(l, []);
  }

  // ----- The syntax tree converts to the normal form -----

  lemma {:induction false} ConvertAst(v: Json)
    ensures ExprToJson(Ast(LitOf(v))) == Normal(v)
    decreases v, 1, 0
  {
    match v
    case Arr(items) =>
      ConvertItems(items);
    case Obj(fields) =>
      ConvertKeyed(SortedKeys(fields.Keys), v);
      ConvertObject(SortedKeys(fields.Keys), v);
      ObjectAst(v);
    case Str(s) => RequotedIsSame(Lua, s);
    case _ =>
  }

  lemma {:induction false} ConvertItems(vs: seq<Json>)
    ensures forall f :: f in Fields(ItemEntries(vs)) ==> f.Positional?
    ensures PositionalValues(Fields(ItemEntries(vs))) == Normals(vs)
    decreases vs, 0, 0
  {
    if vs != [] {
      ConvertAst(vs[0]);
      ConvertItems(vs[1..]);
      assert ItemEntries(vs)[1..] == ItemEntries(vs[1..]);
      assert Fields(ItemEntries(vs))[1..] == Fields(ItemEntries(vs[1..]));
    }
  }

  lemma {:induction false} KeyedFieldsAt(keys: seq<string>, v: Json, i: nat)
    requires v.Obj? && forall k :: k in keys ==> k in v.fields
    requires i < |keys|
    ensures Fields(KeyEntries(keys, v))[i] == Keyed(StringE(keys[i]), Ast(LitOf(v.fields[keys[i]])))
  {
    assert KeyEntries(keys, v)[1..] == KeyEntries(keys[1..], v);
    if i > 0 {
      KeyedFieldsAt(keys[1..], v, i - 1);
    }
  }

  lemma {:induction false} KeyedFieldsPrefix(keys: seq<string>, v: Json)
    requires v.Obj? && forall k :: k in keys ==> k in v.fields
    requires keys != []
    ensures Fields(KeyEntries(keys, v))[..|keys| - 1] == Fields(KeyEntries(keys[..|keys| - 1], v))
  {
    var before := keys[..|keys| - 1];
    forall i | 0 <= i < |before| ensures Fields(KeyEntries(keys, v))[i] == Fields(KeyEntries(before, v))[i] {
      KeyedFieldsAt(keys, v, i);
      KeyedFieldsAt(before, v, i);
    }
  }

  lemma {:induction false} ConvertKeyed(keys: seq<string>, v: Json)
    requires v.Obj? && forall k :: k in keys ==> k in v.fields
    ensures FieldMap(Fields(KeyEntries(keys, v))) == map k | k in v.fields && k in keys && k != "" :: Normal(v.fields[k])
    decreases v, 0, |keys|
  {
    if keys != [] {
      var n := |keys| - 1;
      var before, last := keys[..n], keys[n];
      InitAndLast(keys);
      ConvertKeyed(before, v);
      ConvertAst(v.fields[last]);
      KeyedFieldsAt(keys, v, n);
      KeyedFieldsPrefix(keys, v);
      KeyedLast(Fields(KeyEntries(keys, v)), Fields(KeyEntries(before, v)), Ast(LitOf(v.fields[last])), before, last, v);
    }
  }

  lemma KeyedLast(all: seq<Field>, front: seq<Field>, e: Expr, before: seq<string>, last: string, v: Json)
    requires v.Obj? && last in v.fields && ExprToJson(e) == Normal(v.fields[last])
    requires all != [] && all[..|all| - 1] == front && all[|all| - 1] == Keyed(StringE(last), e)
    requires FieldMap(front) == map k | k in v.fields && k in before && k != "" :: Normal(v.fields[k])
    ensures FieldMap(all) == map k | k in v.fields && k in before + [last] && k != "" :: Normal(v.fields[k])
  {
    assert FieldMap(all) == if last == "" then FieldMap(front) else FieldMap(front)[last := Normal(v.fields[last])];
    assert forall k :: k in before + [last] <==> k in before || k == last;
  }

  lemma ConvertObject(keys: seq<string>, v: Json)
    requires v.Obj? && keys == SortedKeys(v.fields.Keys)
    requires FieldMap(Fields(KeyEntries(keys, v))) ==
      map k | k in v.fields && k in keys && k != "" :: Normal(v.fields[k])
    ensures TableToJson(Fields(KeyEntries(keys, v))) == Normal(v)
  {
    KeyedIsObject(keys, v);
    SameComprehension(keys, v);
  }

  lemma ObjectAst(v: Json)
    requires v.Obj?
    ensures ExprToJson(Ast(LitOf(v))) == TableToJson(Fields(KeyEntries(SortedKeys(v.fields.Keys), v)))
  {
    var es := KeyEntries(SortedKeys(v.fields.Keys), v);
    assert LitOf(v) == Table(es, Inline(" = "));
    TableAst(es);
  }

  lemma TableAst(es: seq<Entry>)
    ensures ExprToJson(Ast(Table(es, Inline(" = ")))) == TableToJson(Fields(es))
  {
  }

  lemma SameComprehension(keys: seq<string>, v: Json)
    requires v.Obj? && forall k :: k in keys <==> k in v.fields
    ensures Obj(map k | k in v.fields && k in keys && k != "" :: Normal(v.fields[k])) == Normal(v)
  {
    assert (map k | k in v.fields && k in keys && k != "" :: Normal(v.fields[k])) ==
      (map k | k in v.fields && k != "" :: Normal(v.fields[k]));
  }

  lemma KeyedIsObject(keys: seq<string>, v: Json)
    requires v.Obj? && forall k :: k in keys ==> k in v.fields
    ensures TableToJson(Fields(KeyEntries(keys, v))) == Obj(FieldMap(Fields(KeyEntries(keys, v))))
  {
    var fs := Fields(KeyEntries(keys, v));
    if keys != [] {
      KeyedFieldsAt(keys, v, 0);
      assert fs[0] in fs && fs[0].Keyed?;
    }
  }

  // ----- The round trip -----

  /** Reading back what the exporter printed: the normal form, unless a reserved word is a key. */
  lemma LiteralReadsBack(v: Json)
    ensures ReadLiteral(Literal(v)) == if Speakable(v) then Some(Normal(v)) else None
  {
    LiteralIsText(v);
    ReadLit(LitOf(v));
    ConvertAst(v);
  }

  lemma {:induction false} NormalKeepsSolid(v: Json)
    ensures Normal(v) == v <==> Solid(v)
    decreases v, 1
  {
    match v
    case Arr(items) => NormalsKeepSolid(items);
    case Obj(fields) =>
      var n := Normal(v);
      forall k | k in fields ensures Normal(fields[k]) == fields[k] <==> Solid(fields[k]) {
        NormalKeepsSolid(fields[k]);
      }
      if Solid(v) {
        assert n.fields == fields;
      }
      if n == v {
        assert forall k :: k in fields ==> k in n.fields && n.fields[k] == fields[k];
      }
    case _ =>
  }

  lemma {:induction false} NormalsKeepSolid(vs: seq<Json>)
    ensures Normals(vs) == vs <==> AllSolid(vs)
    decreases vs, 0
  {
    if vs != [] {
      NormalKeepsSolid(vs[0]);
      NormalsKeepSolid(vs[1..]);
      assert vs == [vs[0]] + vs[1..];
      assert Normals(vs)[1..] == Normals(vs[1..]) && Normals(vs)[0] == Normal(vs[0]);
    }
  }

  /** A printed value reads back as itself exactly when no array in it is empty, no key is empty and
      no key is a reserved word. */
  lemma LiteralRoundTrip(v: Json)
    ensures ReadLiteral(Literal(v)) == Some(v) <==> Speakable(v) && Solid(v)
  {
    LiteralReadsBack(v);
    NormalKeepsSolid(v);
  }
}
