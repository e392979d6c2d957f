/** Exporting a control as a k.ctrl.<type> call (exportControl, itemsLuaLiteral in
    internal/builder/lua_export.go) and importing it (importControl, optsToJSON, itemsToOrdered in
    internal/builder/lua_import.go). ControlRoundTrip says exactly when a control without inline
    functions survives the trip. */
module LuaControls {
  import opened Text
  import opened LuaLexer
  import opened LuaParser
  import opened LuaText
  import opened LuaCall
  import opened LuaKeys
  import opened LuaStatement
  import opened LuaLiteral
  import opened LuaForms
  import opened Document

  // ----- items: an ordered list of {key, display} printed as a map literal -----

  function TextField(v: Json, key: string): (r: string) {
    if v.Obj? && key in v.fields && v.fields[key].Str? then v.fields[key].text else ""
  }

  function ItemKey(item: Json): (r: string) { TextField(item, "key") }

  /** An item without a display shows its key. */
  function ItemDisplay(item: Json): (r: string) { OrElse(TextField(item, "display"), ItemKey(item)) }

  function ItemPairs(items: seq<Json>): (r: seq<Entry>) {
    if items == [] then []
    else
      var before, last := ItemPairs(items[..|items| - 1]), items[|items| - 1];
      if last.Obj? then before + [Pair(ItemKey(last), Quoted(Lua, ItemDisplay(last)))] else before
  }

  function ItemsLit(v: Json): (r: Lit) {
    Table(if v.Arr? then ItemPairs(v.items) else [], Inline(" = "))
  }

  /** itemsLuaLiteral. */
  method ExportItems(v: Json) returns (text: string)
    ensures text == LitText(ItemsLit(v))
  {
    if !v.Arr? { return "{}"; }
    var parts: seq<string> := [];
    for i := 0 to |v.items|
      invariant parts == EntryTexts(ItemPairs(v.items[..i]), " = ")
    {
      var item := v.items[i];
      assert v.items[..i + 1][..i] == v.items[..i];
      if item.Obj? {
        var key, display := TextField(item, "key"), TextField(item, "display");
        if display == "" { display := key; }
        OneEntry(Pair(key, Quoted(Lua, display)), " = ");
        EntryTextsAppend(ItemPairs(v.items[..i]), [Pair(key, Quoted(Lua, display))], " = ");
        parts := parts + [LuaKey(key) + (" = " + Quote(Lua, display))];
      }
    }
    assert v.items[..|v.items|] == v.items;
    text := "{" + Join(parts, ", ") + "}";
  }

  function ItemOf(key: string, display: Json): (r: Json) {
    Obj(map["key" := Str(key), "display" := display])
  }

  function ItemStep(items: seq<Json>, f: Field): (r: seq<Json>) {
    if FieldKey(f) == "" then items else items + [ItemOf(FieldKey(f), ExprToJson(f.value))]
  }

  function ReadItems(fields: seq<Field>): (r: seq<Json>) { Fold(ItemStep, [], fields) }

  /** itemsToOrdered. */
  method ImportItems(fields: seq<Field>) returns (items: seq<Json>)
    ensures items == ReadItems(fields)
  {
    items := [];
    for i := 0 to |fields|
      invariant Fold(ItemStep, items, fields[i..]) == ReadItems(fields)
    {
      var f := fields[i];
      assert fields[i..][0] == f && fields[i..][1..] == fields[i + 1..];
      if FieldKey(f) != "" {
        items := items + [ItemOf(FieldKey(f), ExprToJson(f.value))];
      }
    }
  }

  /** What the items read back as: keyed objects only, with the display filled in. */
  function NormalItems(items: seq<Json>): (r: seq<Json>) {
    if items == [] then []
    else
      var before, last := NormalItems(items[..|items| - 1]), items[|items| - 1];
      if last.Obj? && ItemKey(last) != "" then before + [ItemOf(ItemKey(last), Str(ItemDisplay(last)))] else before
  }

  lemma {:induction false} ItemsRead(items: seq<Json>)
    ensures ReadItems(Fields(ItemPairs(items))) == NormalItems(items)
  {
    if items != [] {
      var before, last := items[..|items| - 1], items[|items| - 1];
      ItemsRead(before);
      if last.Obj? {
        FoldPair(ItemStep, [], ItemPairs(before), true, ItemKey(last), Quoted(Lua, ItemDisplay(last)));
        RequotedIsSame(Lua, ItemDisplay(last));
      }
    }
  }

  predicate ItemsSpeakable(items: seq<Json>) {
    forall x :: x in items ==> !IsReserved(ItemKey(x)) || !x.Obj?
  }

  lemma {:induction false} ItemsSound(items: seq<Json>)
    ensures AllWellLaid(ItemPairs(items))
    ensures AllReadable(ItemPairs(items)) <==> ItemsSpeakable(items)
  {
    if items != [] {
      var before, last := items[..|items| - 1], items[|items| - 1];
      ItemsSound(before);
      assert items == before + [last];
      assert ItemsSpeakable(items) <==> ItemsSpeakable(before) && (!IsReserved(ItemKey(last)) || !last.Obj?);
      if last.Obj? {
        var e := Pair(ItemKey(last), Quoted(Lua, ItemDisplay(last)));
        OneWellRead(e);
        ReadAppend(ItemPairs(before), [e]);
      }
    }
  }

  lemma OneWellRead(e: Entry)
    ensures AllWellLaid([e]) <==> EntryWellLaid(e)
    ensures AllReadable([e]) <==> EntryReadable(e)
  {
    assert [e][1..] == [];
    assert AllWellLaid([e]) <==> EntryWellLaid(e) && AllWellLaid([]);
    assert AllReadable([e]) <==> EntryReadable(e) && AllReadable([]);
  }

  lemma {:induction false} ReadAppend(a: seq<Entry>, b: seq<Entry>)
    ensures AllWellLaid(a + b) <==> AllWellLaid(a) && AllWellLaid(b)
    ensures AllReadable(a + b) <==> AllReadable(a) && AllReadable(b)
  {
    if a == [] {
      assert a + b == b;
    } else {
      assert (a + b)[1..] == a[1..] + b;
      ReadAppend(a[1..], b);
    }
  }

  /** The item is already in the shape the import builds. */
  predicate IsPlainItem(x: Json) {
    && x.Obj? && x.fields.Keys == {"key", "display"}
    && x.fields["key"].Str? && x.fields["key"].text != ""
    && x.fields["display"].Str? && x.fields["display"].text != ""
  }

  lemma PlainItem(x: Json)
    ensures IsPlainItem(x) <==> x.Obj? && ItemKey(x) != "" && ItemOf(ItemKey(x), Str(ItemDisplay(x))) == x
  {
    if x.Obj? && ItemKey(x) != "" {
      var y := ItemOf(ItemKey(x), Str(ItemDisplay(x)));
      assert y.fields.Keys == {"key", "display"};
      if IsPlainItem(x) {
        assert y.fields == x.fields;
      }
      if y == x {
        assert x.fields["display"] == y.fields["display"];
      }
    }
  }

  lemma {:induction false} ItemsKept(items: seq<Json>)
    ensures |NormalItems(items)| <= |items|
    ensures NormalItems(items) == items <==> forall x :: x in items ==> IsPlainItem(x)
  {
    if items != [] {
      var n := |items| - 1;
      var before, last := items[..n], items[n];
      ItemsKept(before);
      PlainItem(last);
      assert items == before + [last];
      assert (forall x :: x in items ==> IsPlainItem(x)) <==>
             (forall x :: x in before ==> IsPlainItem(x)) && IsPlainItem(last);
      var normal := NormalItems(before);
      if last.Obj? && ItemKey(last) != "" && |normal| == n {
        var y := ItemOf(ItemKey(last), Str(ItemDisplay(last)));
        var kept := normal + [y];
        assert kept[..n] == normal && items[..n] == before && kept[n] == y && items[n] == last;
        assert kept == items <==> normal == before && y == last;
      }
    }
  }

  // ----- Options -----

  /** A runtime database handle id, which no script can name. */
  predicate IsRuntimeHandle(v: Json) {
    v.Str? && |v.text| >= 5 && v.text[..5] == "db_0x"
  }

  /** Opaque handles and nil options are not printed; a static db name always is. */
  predicate IsPrinted(k: string, v: Json) {
    if k == "db" then !IsRuntimeHandle(v) else v != Null
  }

  function OptLit(k: string, v: Json): (r: Lit) {
    if k == "items" then ItemsLit(v) else LitOf(v)
  }

  /** `key = value`, the key printed bare whatever it is. */
  function OptText(k: string, v: Json): (r: string) { k + (" = " + LitText(OptLit(k, v))) }

  /** A Go map read: the zero value when the key is missing. */
  function Opt(opts: map<string, Json>, k: string): (r: Json) { if k in opts then opts[k] else Null }

  function Source(inline: map<string, string>, k: string): (r: string) { if k in inline then inline[k] else "" }

  function OptTexts(keys: seq<string>, opts: map<string, Json>): (r: seq<string>) {
    if keys == [] then []
    else
      var before, k := OptTexts(keys[..|keys| - 1], opts), keys[|keys| - 1];
      if IsPrinted(k, Opt(opts, k)) then before + [OptText(k, Opt(opts, k))] else before
  }

  function InlineTexts(keys: seq<string>, inline: map<string, string>): (r: seq<string>) {
    if keys == [] then []
    else
      var before, k := InlineTexts(keys[..|keys| - 1], inline), keys[|keys| - 1];
      before + [k + (" = " + Source(inline, k))]
  }

  /** Every option of a control as text: sorted options first, then sorted inline functions. */
  function ControlTexts(c: Control): (r: seq<string>) {
    OptTexts(SortedKeys(c.opts.Keys), c.opts) + InlineTexts(SortedKeys(c.inline.Keys), c.inline)
  }

  function CtrlHead(form: string, c: Control): (r: string) {
    "k.ctrl." + (c.ctype + ("(" + (Quote(Go, form) + (", " + (Quote(Go, c.name) + ", ")))))
  }

  /** A control that names a database it cannot print gets a comment line. */
  predicate NeedsHint(c: Control) {
    && (c.ctype == "table" || c.ctype == "looper" || ("db" in c.opts && IsRuntimeHandle(Opt(c.opts, "db"))))
    && ("db" in c.opts ==> IsRuntimeHandle(Opt(c.opts, "db")))
  }

  function HintTail(): (r: string) { "{...}) configured" + " with a DB handle" + " (assigned at runtime)" }

  function Hint(form: string, c: Control, indent: string): (r: string) {
    if NeedsHint(c) then
      indent + ("--" + (" " + CtrlHead(form, c) + HintTail()) + "\n")
    else ""
  }

  /** The options between braces, one to a line or all on one. */
  function TableText(opts: seq<string>, lines: bool, indent: string): (r: string) {
    if lines then "{" + ("\n" + OptionLines(opts, indent)) + "}" else "{" + Join(opts, ", ") + "}"
  }

  function OptionTable(c: Control, indent: string): (r: string) {
    TableText(ControlTexts(c), |ControlTexts(c)| > 3 || |c.inline| > 0, indent)
  }

  function ControlText(form: string, c: Control, indent: string): (r: string) {
    Hint(form, c, indent) + (indent + (CtrlHead(form, c) + (OptionTable(c, indent) + ")\n\n")))
  }

  /** The loop of exportControl over the sorted option keys. */
  method ExportOptions(keys: seq<string>, options: map<string, Json>)
    returns (opts: seq<string>, hasDB: bool, dbExported: bool)
    ensures opts == OptTexts(keys, options)
    ensures hasDB <==> "db" in keys && IsRuntimeHandle(Opt(options, "db"))
    ensures dbExported <==> "db" in keys && !IsRuntimeHandle(Opt(options, "db"))
  {
    opts, hasDB, dbExported := [], false, false;
    for i := 0 to |keys|
      invariant opts == OptTexts(keys[..i], options)
      invariant hasDB <==> "db" in keys[..i] && IsRuntimeHandle(Opt(options, "db"))
      invariant dbExported <==> "db" in keys[..i] && !IsRuntimeHandle(Opt(options, "db"))
    {
      var k, v := keys[i], Opt(options, keys[i]);
      assert keys[..i + 1][..i] == keys[..i] && keys[..i + 1] == keys[..i] + [k];
      if k == "db" {
        if IsRuntimeHandle(v) { hasDB := true; } else { dbExported := true; }
      }
      if IsPrinted(k, v) {
        var text := OptionValue(k, v);
        opts := opts + [k + (" = " + text)];
      }
    }
    assert keys[..|keys|] == keys;
  }

  method OptionValue(k: string, v: Json) returns (text: string)
    ensures text == LitText(OptLit(k, v))
  {
    LiteralIsText(v);
    if k == "items" {
      text := ExportItems(v);
    } else {
      text := Literal(v);
    }
  }

  method ExportInline(keys: seq<string>, inline: map<string, string>) returns (opts: seq<string>)
    ensures opts == InlineTexts(keys, inline)
  {
    opts := [];
    for i := 0 to |keys|
      invariant opts == InlineTexts(keys[..i], inline)
    {
      assert keys[..i + 1][..i] == keys[..i];
      opts := opts + [keys[i] + (" = " + Source(inline, keys[i]))];
    }
    assert keys[..|keys|] == keys;
  }

  method WriteLines(texts: seq<string>, indent: string) returns (lines: string)
    ensures lines == OptionLines(texts, indent)
  {
    lines := "";
    for i := 0 to |texts|
      invariant lines + OptionLines(texts[i..], indent) == OptionLines(texts, indent)
    {
      var line := (indent + "  ") + (texts[i] + ",\n");
      var rest := OptionLines(texts[i + 1..], indent);
      assert texts[i..][0] == texts[i] && texts[i..][1..] == texts[i + 1..];
      OneLine(indent + "  ", texts[i], rest);
      assert lines + (line + rest) == (lines + line) + rest;
      lines := lines + line;
    }
    lines := lines + indent;
  }

  lemma OneLine(pad: string, text: string, rest: string)
    ensures pad + (text + (",\n" + rest)) == (pad + (text + ",\n")) + rest
  {
  }

  /** The options on one line, or one to a line. */
  method WriteTable(opts: seq<string>, inline: bool, indent: string) returns (table: string)
    ensures table == TableText(opts, |opts| > 3 || inline, indent)
  {
    if |opts| > 3 || inline {
      var lines := WriteLines(opts, indent);
      return "{" + ("\n" + lines) + "}";
    }
    return "{" + Join(opts, ", ") + "}";
  }

  /** exportControl. */
  method ExportControl(form: string, c: Control, indent: string) returns (text: string)
    ensures text == ControlText(form, c, indent)
  {
    var keys := SortedKeys(c.opts.Keys);
    var opts, hasDB, dbExported := ExportOptions(keys, c.opts);
    var inline := ExportInline(SortedKeys(c.inline.Keys), c.inline);
    assert "db" in keys <==> "db" in c.opts;
    opts := opts + inline;
    if c.ctype == "table" || c.ctype == "looper" { hasDB := true; }
    var head := CtrlHead(form, c);
    var hint := "";
    if hasDB && !dbExported {
      hint := indent + ("--" + (" " + head + HintTail()) + "\n");
    }
    assert hint == Hint(form, c, indent);
    var table := WriteTable(opts, |c.inline| > 0, indent);
    text := hint + (indent + (head + (table + ")\n\n")));
  }

  // ----- Importing -----

  function OptStep(opts: map<string, Json>, f: Field): (r: map<string, Json>) {
    var k := FieldKey(f);
    if k == "" then opts
    else if k == "items" && f.value.TableE? then opts[k := Arr(ReadItems(f.value.fields))]
    else opts[k := ExprToJson(f.value)]
  }

  function ReadOpts(fields: seq<Field>): (r: map<string, Json>) { Fold(OptStep, map[], fields) }

  /** optsToJSON on a table without function values. */
  method ImportOptions(fields: seq<Field>) returns (opts: map<string, Json>)
    ensures opts == ReadOpts(fields)
  {
    opts := map[];
    for i := 0 to |fields|
      invariant Fold(OptStep, opts, fields[i..]) == ReadOpts(fields)
    {
      var f := fields[i];
      assert fields[i..][0] == f && fields[i..][1..] == fields[i + 1..];
      var k := FieldKey(f);
      if k == "" { continue; }
      if k == "items" && f.value.TableE? {
        var items := ImportItems(f.value.fields);
        opts := opts[k := Arr(items)];
        continue;
      }
      opts := opts[k := ExprToJson(f.value)];
    }
  }

  /** A label written with the option "label" is filed under "text". */
  function Canonical(ctype: string, opts: map<string, Json>): (r: map<string, Json>) {
    if ctype == "label" && "text" !in opts && "label" in opts then opts["text" := opts["label"]] - {"label"}
    else opts
  }

  datatype Imported = Imported(form: string, name: string, ctype: string, opts: map<string, Json>)

  /** importControl on a form that is already imported. */
  function ImportControl(call: Call): (r: Option<Imported>) {
    if |call.path| != 3 || call.path[0] != "k" || call.path[1] != "ctrl" || call.path[2] !in TYPES then None
    else if |call.args| < 2 || ExprName(call.args[0]) == "" || ExprName(call.args[1]) == "" then None
    else
      var opts := if |call.args| >= 3 && call.args[2].TableE? then ReadOpts(call.args[2].fields) else map[];
      Some(Imported(ExprName(call.args[0]), ExprName(call.args[1]), call.path[2], Canonical(call.path[2], opts)))
  }

  function ReadControl(text: string): (r: Option<Imported>) {
    var call := ReadCall(text);
    if call.None? then None else ImportControl(call.value)
  }

  // ----- The options as literal entries -----

  function OptEntries(keys: seq<string>, opts: map<string, Json>): (r: seq<Entry>) {
    if keys == [] then []
    else
      var before, k := OptEntries(keys[..|keys| - 1], opts), keys[|keys| - 1];
      if IsPrinted(k, Opt(opts, k)) then before + [Pair(k, OptLit(k, Opt(opts, k)))] else before
  }

  predicate OptSpeakable(k: string, v: Json) {
    if k == "items" then v.Arr? ==> ItemsSpeakable(v.items) else Speakable(v)
  }

  /** A printed option reads back unless its key, or a key inside it, is a reserved word. */
  predicate OptReads(k: string, v: Json) {
    IsPrinted(k, v) ==> !IsReserved(k) && OptSpeakable(k, v)
  }

  function OptNormal(k: string, v: Json): (r: Json) {
    if k == "items" then Arr(if v.Arr? then NormalItems(v.items) else []) else Normal(v)
  }

  lemma OptLitSound(k: string, v: Json)
    ensures WellLaid(OptLit(k, v))
    ensures Readable(OptLit(k, v)) <==> OptSpeakable(k, v)
  {
    if k == "items" {
      if v.Arr? { ItemsSound(v.items); }
    } else {
      LiteralIsText(v);
    }
  }

  lemma OptLitReads(k: string, v: Json, opts: map<string, Json>)
    requires k != ""
    ensures OptStep(opts, Keyed(StringE(k), Ast(OptLit(k, v)))) == opts[k := OptNormal(k, v)]
  {
    if k == "items" {
      var es := if v.Arr? then ItemPairs(v.items) else [];
      if v.Arr? { ItemsRead(v.items); }
      assert Ast(ItemsLit(v)) == TableE(Fields(es));
      assert ReadItems([]) == [];
    } else {
      ConvertAst(v);
    }
  }

  /** The options printed under bare identifier keys. */
  predicate BareKeys(keys: seq<string>, opts: map<string, Json>) {
    forall k :: k in keys && IsPrinted(k, Opt(opts, k)) ==> IsIdent(k)
  }

  lemma {:induction false} OptionsAreEntries(keys: seq<string>, opts: map<string, Json>)
    requires BareKeys(keys, opts)
    ensures OptTexts(keys, opts) == EntryTexts(OptEntries(keys, opts), " = ")
    ensures AllWellLaid(OptEntries(keys, opts))
    ensures AllReadable(OptEntries(keys, opts)) <==> forall k :: k in keys ==> OptReads(k, Opt(opts, k))
  {
    if keys != [] {
      var before, k := keys[..|keys| - 1], keys[|keys| - 1];
      var v := Opt(opts, k);
      OptionsAreEntries(before, opts);
      assert keys == before + [k];
      assert (forall x :: x in keys ==> OptReads(x, Opt(opts, x))) <==>
             (forall x :: x in before ==> OptReads(x, Opt(opts, x))) && OptReads(k, v);
      if IsPrinted(k, v) {
        var e := Pair(k, OptLit(k, v));
        assert k in keys && IsIdent(k);
        OptLitSound(k, v);
        OneEntry(e, " = ");
        EntryTextsAppend(OptEntries(before, opts), [e], " = ");
        OneWellRead(e);
        ReadAppend(OptEntries(before, opts), [e]);
      }
    }
  }

  function NormalOpts(keys: seq<string>, opts: map<string, Json>): (r: map<string, Json>) {
    map k | k in opts && k in keys && IsPrinted(k, opts[k]) :: OptNormal(k, opts[k])
  }

  lemma {:induction false} OptionsRead(keys: seq<string>, opts: map<string, Json>)
    requires BareKeys(keys, opts) && forall k :: k in keys ==> k in opts
    ensures ReadOpts(Fields(OptEntries(keys, opts))) == NormalOpts(keys, opts)
  {
    if keys != [] {
      var before, k := keys[..|keys| - 1], keys[|keys| - 1];
      var v := Opt(opts, k);
      OptionsRead(before, opts);
      assert keys == before + [k];
      if IsPrinted(k, v) {
        assert k in keys && IsIdent(k);
        FoldPair(OptStep, map[], OptEntries(before, opts), true, k, OptLit(k, v));
        OptLitReads(k, v, NormalOpts(before, opts));
      }
      NormalOptsStep(before, k, opts);
    }
  }

  lemma NormalOptsStep(before: seq<string>, k: string, opts: map<string, Json>)
    requires k in opts
    ensures NormalOpts(before + [k], opts) ==
      if IsPrinted(k, opts[k]) then NormalOpts(before, opts)[k := OptNormal(k, opts[k])] else NormalOpts(before, opts)
  {
  }

  // ----- The statement is a call -----

  function TableLit(es: seq<Entry>, indent: string): (r: Lit) { Table(es, if |es| > 3 then Lines(indent) else Inline(" = ")) }

  function ControlLit(c: Control, indent: string): (r: Lit) { TableLit(OptEntries(SortedKeys(c.opts.Keys), c.opts), indent) }

  function ControlArgs(form: string, c: Control, indent: string): (r: seq<Lit>) {
    [Quoted(Go, form), Quoted(Go, c.name), ControlLit(c, indent)]
  }

  lemma {:induction false} LinesAreText(es: seq<Entry>, indent: string)
    ensures OptionLines(EntryTexts(es, " = "), indent) == LineTexts(es, indent)
  {
    if es != [] {
      LinesAreText(es[1..], indent);
      assert EntryTexts(es, " = ")[1..] == EntryTexts(es[1..], " = ");
    }
  }

  lemma TableIsText(c: Control, indent: string)
    requires c.inline == map[] && BareKeys(SortedKeys(c.opts.Keys), c.opts)
    ensures OptionTable(c, indent) == LitText(ControlLit(c, indent))
  {
    var keys := SortedKeys(c.opts.Keys);
    OptionsAreEntries(keys, c.opts);
    NoInline(c);
    TableLitText(OptEntries(keys, c.opts), ControlTexts(c), indent);
  }

  lemma TableLitText(es: seq<Entry>, texts: seq<string>, indent: string)
    requires texts == EntryTexts(es, " = ")
    ensures TableText(texts, |texts| > 3, indent) == LitText(TableLit(es, indent))
  {
    LinesAreText(es, indent);
  }

  lemma TableLitReads(es: seq<Entry>, indent: string)
    requires IsBlanks(indent) && AllWellLaid(es)
    ensures WellLaid(TableLit(es, indent)) && (Readable(TableLit(es, indent)) <==> AllReadable(es))
    ensures Ast(TableLit(es, indent)) == TableE(Fields(es))
  {
  }

  lemma NoInline(c: Control)
    requires c.inline == map[]
    ensures ControlTexts(c) == OptTexts(SortedKeys(c.opts.Keys), c.opts)
  {
    assert SortedKeys(c.inline.Keys) == [];
    assert InlineTexts([], c.inline) == [];
  }

  lemma ThreeArgs(a: Lit, b: Lit, t: Lit)
    ensures Join(ArgTexts([a, b, t]), ", ") == LitText(a) + (", " + (LitText(b) + (", " + LitText(t))))
    ensures ArgsWellLaid([a, b, t]) <==> WellLaid(a) && WellLaid(b) && WellLaid(t)
    ensures ArgsReadable([a, b, t]) <==> Readable(a) && Readable(b) && Readable(t)
    ensures Asts([a, b, t]) == [Ast(a), Ast(b), Ast(t)]
  {
    assert [a, b, t][1..] == [b, t] && [b, t][1..] == [t];
    TwoAsts(b, t);
    ThreeTexts(a, b, t);
    JoinThree(LitText(a), LitText(b), LitText(t));
  }

  lemma ThreeTexts(a: Lit, b: Lit, t: Lit)
    ensures ArgTexts([a, b, t]) == [LitText(a), LitText(b), LitText(t)]
  {
    assert [a, b, t][1..] == [b, t] && [b, t][1..] == [t];
    assert ArgTexts([t]) == [LitText(t)];
    assert ArgTexts([b, t]) == [LitText(b)] + [LitText(t)];
    assert [LitText(a)] + ([LitText(b)] + [LitText(t)]) == [LitText(a), LitText(b), LitText(t)];
  }

  lemma JoinThree(a: string, b: string, t: string)
    ensures Join([a, b, t], ", ") == a + (", " + (b + (", " + t)))
  {
    assert [a, b, t][1..] == [b] + [t];
    JoinTwo(b, t);
    Assoc(a, ", ", Join([b] + [t], ", "));
  }

  lemma HeadIsCall(ctype: string, a: string, b: string, t: string, end: string)
    ensures "k.ctrl." + (ctype + ("(" + (a + (", " + (b + ", "))))) + (t + end) ==
      (("k.ctrl." + ctype) + ("(" + ((a + (", " + (b + (", " + t)))) + end)))
  {
  }

  function ControlPath(ctype: string): (r: seq<string>) { ["k", "ctrl", ctype] }

  lemma ControlPathText(ctype: string)
    ensures Join(ControlPath(ctype), ".") == "k.ctrl." + ctype
  {
    assert ControlPath(ctype)[1..] == ["ctrl", ctype] && ["ctrl", ctype][1..] == [ctype];
    assert Join(["ctrl", ctype], ".") == "ctrl." + ctype;
  }

  lemma StatementIsCall(form: string, c: Control, indent: string)
    requires c.inline == map[] && BareKeys(SortedKeys(c.opts.Keys), c.opts)
    ensures indent + (CtrlHead(form, c) + (OptionTable(c, indent) + ")\n\n")) ==
      CallText(indent, ControlPath(c.ctype), ControlArgs(form, c, indent))
  {
    TableIsText(c, indent);
    var t := ControlLit(c, indent);
    ThreeArgs(Quoted(Go, form), Quoted(Go, c.name), t);
    ControlPathText(c.ctype);
    HeadIsCall(c.ctype, Quote(Go, form), Quote(Go, c.name), LitText(t), ")\n\n");
  }

  // ----- The hint is a comment -----

  predicate NoNewline(s: string) { forall c :: c in s ==> c != '\n' && c != '\r' }

  lemma {:induction false} QuoteOnOneLine(s: string)
    ensures NoNewline(QuoteChars(Go, s))
  {
    if s != [] {
      QuoteOnOneLine(s[1..]);
      var q := QuoteChar(Go, s[0]);
      assert NoNewline(q);
    }
  }

  lemma OneLineTogether(a: string, b: string)
    requires NoNewline(a) && NoNewline(b)
    ensures NoNewline(a + b)
  {
  }

  lemma HeadOnOneLine(form: string, c: Control)
    requires NoNewline(c.ctype)
    ensures NoNewline(CtrlHead(form, c))
  {
    QuoteOnOneLine(form);
    QuoteOnOneLine(c.name);
    OneLineTogether(Quote(Go, c.name), ", ");
    OneLineTogether(", ", Quote(Go, c.name) + ", ");
    OneLineTogether(Quote(Go, form), ", " + (Quote(Go, c.name) + ", "));
    OneLineTogether("(", Quote(Go, form) + (", " + (Quote(Go, c.name) + ", ")));
    OneLineTogether(c.ctype, "(" + (Quote(Go, form) + (", " + (Quote(Go, c.name) + ", "))));
  }

  lemma CommentLine(indent: string, comment: string, rest: string)
    requires IsBlanks(indent) && NoNewline(comment)
    ensures Lex(indent + ("--" + (" " + comment) + "\n") + rest) == Lex(rest)
  {
    var line := "--" + (" " + comment) + "\n";
    LexComment(" " + comment, rest);
    LexBlanks(indent, line + rest);
    assert indent + line + rest == indent + (line + rest);
  }

  lemma TailOnOneLine()
    ensures NoNewline(HintTail())
  {
    assert NoNewline("{...}) configured");
    assert NoNewline(" with a DB handle");
    assert NoNewline(" (assigned at runtime)");
    OneLineTogether("{...}) configured", " with a DB handle");
    OneLineTogether("{...}) configured" + " with a DB handle", " (assigned at runtime)");
  }

  lemma HintIsComment(form: string, c: Control, indent: string, rest: string)
    requires IsBlanks(indent) && NoNewline(c.ctype)
    ensures Lex(Hint(form, c, indent) + rest) == Lex(rest)
  {
    if NeedsHint(c) {
      var tail := HintTail();
      HeadOnOneLine(form, c);
      TailOnOneLine();
      OneLineTogether(CtrlHead(form, c), tail);
      CommentLine(indent, CtrlHead(form, c) + tail, rest);
      assert " " + CtrlHead(form, c) + tail == " " + (CtrlHead(form, c) + tail);
    } else {
      assert "" + rest == rest;
    }
  }

  // ----- The round trip -----

  lemma TypesAreWords(ctype: string)
    requires ctype in TYPES
    ensures IsIdent(ctype) && NoNewline(ctype) && IsPath(ControlPath(ctype))
  {
    TypesAreFree(ctype);
    TypesAreIdents(ctype);
    assert IsIdent("k") && IsIdent("ctrl") && !IsReserved("k") && !IsReserved("ctrl");
  }

  lemma TypesAreFree(ctype: string)
    requires ctype in TYPES
    ensures !IsReserved(ctype)
  {
  }

  lemma TypesAreIdents(ctype: string)
    requires ctype in TYPES
    ensures IsIdent(ctype)
  {
  }

  /** Every option that is printed has an identifier for a key. */
  predicate HasBareKeys(c: Control) {
    forall k :: k in c.opts && IsPrinted(k, c.opts[k]) ==> IsIdent(k)
  }

  /** No key that is printed holds a character with which a field, a value or a comment begins or ends. */
  predicate HasPlainKeys(c: Control) {
    forall k :: k in c.opts && IsPrinted(k, c.opts[k]) ==> IsPlainKey(k)
  }

  predicate OptionsReadable(c: Control) {
    forall k :: k in c.opts ==> OptReads(k, c.opts[k])
  }

  function ReadableOptions(c: Control): (r: map<string, Json>) {
    map k | k in c.opts && IsPrinted(k, c.opts[k]) :: OptNormal(k, c.opts[k])
  }

  lemma ControlLitReads(c: Control, indent: string)
    requires HasBareKeys(c) && IsBlanks(indent)
    ensures BareKeys(SortedKeys(c.opts.Keys), c.opts)
    ensures WellLaid(ControlLit(c, indent))
    ensures Readable(ControlLit(c, indent)) <==> OptionsReadable(c)
    ensures Ast(ControlLit(c, indent)).TableE? && ReadOpts(Ast(ControlLit(c, indent)).fields) == ReadableOptions(c)
  {
    var keys := SortedKeys(c.opts.Keys);
    assert forall k :: k in keys <==> k in c.opts;
    EntriesRead(keys, c, indent);
    TableLitReads(OptEntries(keys, c.opts), indent);
  }

  lemma EntriesRead(keys: seq<string>, c: Control, indent: string)
    requires HasBareKeys(c) && IsBlanks(indent)
    requires forall k :: k in keys <==> k in c.opts
    ensures BareKeys(keys, c.opts)
    ensures AllWellLaid(OptEntries(keys, c.opts))
    ensures AllReadable(OptEntries(keys, c.opts)) <==> OptionsReadable(c)
    ensures ReadOpts(Fields(OptEntries(keys, c.opts))) == ReadableOptions(c)
  {
    OptionsAreEntries(keys, c.opts);
    OptionsRead(keys, c.opts);
  }

  function ControlStatement(form: string, c: Control, indent: string): (s: Statement) {
    Statement(ControlPath(c.ctype), ControlArgs(form, c, indent))
  }

  lemma ControlIsStatement(form: string, c: Control, indent: string)
    requires IsBlanks(indent) && c.ctype in TYPES && HasBareKeys(c)
    ensures IsStatement(ControlStatement(form, c, indent))
    ensures ArgsReadable(ControlArgs(form, c, indent)) <==> OptionsReadable(c)
    ensures Asts(ControlArgs(form, c, indent)) ==
      [StringE(Requoted(Go, form)), StringE(Requoted(Go, c.name)), Ast(ControlLit(c, indent))]
  {
    ControlLitReads(c, indent);
    TypesAreWords(c.ctype);
    ThreeArgs(Quoted(Go, form), Quoted(Go, c.name), ControlLit(c, indent));
  }

  // ----- Keys that are no identifiers -----

  lemma {:induction false} BareMore(es: seq<Entry>, e: Entry)
    requires AllPairs(es) && e.Pair?
    ensures AllPairs(es + [e]) && BareTexts(es + [e]) == BareTexts(es) + [BareText(e)]
  {
    if es == [] {
      assert es + [e] == [e] && [e][1..] == [];
    } else {
      assert (es + [e])[1..] == es[1..] + [e];
      BareMore(es[1..], e);
      Assoc([BareText(es[0])], BareTexts(es[1..]), [BareText(e)]);
    }
  }

  lemma {:induction false} OptionsAreBare(keys: seq<string>, opts: map<string, Json>)
    ensures AllPairs(OptEntries(keys, opts)) && OptTexts(keys, opts) == BareTexts(OptEntries(keys, opts))
  {
    if keys != [] {
      var before, k := keys[..|keys| - 1], keys[|keys| - 1];
      OptionsAreBare(before, opts);
      if IsPrinted(k, Opt(opts, k)) { BareMore(OptEntries(before, opts), Pair(k, OptLit(k, Opt(opts, k)))); }
    }
  }

  lemma {:induction false} PlainOptions(keys: seq<string>, opts: map<string, Json>)
    requires forall k :: k in keys && IsPrinted(k, Opt(opts, k)) ==> IsPlainKey(k)
    ensures PlainEntries(OptEntries(keys, opts))
    ensures BareEntries(OptEntries(keys, opts)) <==> BareKeys(keys, opts)
  {
    if keys != [] {
      var before, k := keys[..|keys| - 1], keys[|keys| - 1];
      InitAndLast(keys);
      PlainOptions(before, opts);
      OptLitSound(k, Opt(opts, k));
      assert BareKeys(keys, opts) <==> BareKeys(before, opts) && (IsPrinted(k, Opt(opts, k)) ==> IsIdent(k)) by {
        assert forall x :: x in keys <==> x in before || x == k;
      }
      if IsPrinted(k, Opt(opts, k)) { OneEntryMore(OptEntries(before, opts), Pair(k, OptLit(k, Opt(opts, k)))); }
    }
  }

  lemma OneEntryMore(es: seq<Entry>, e: Entry)
    requires e.Pair? && WellLaid(e.value) && IsPlainKey(e.key) && PlainEntries(es)
    ensures PlainEntries(es + [e]) && (BareEntries(es + [e]) <==> BareEntries(es) && IsIdent(e.key))
  {
    assert (es + [e])[|es|] == e;
    assert forall i :: 0 <= i < |es| ==> (es + [e])[i] == es[i];
  }

  /** The text has no tokens, or tokens no argument list goes on with. */
  predicate NoTail(text: string) { Lex(text).Some? ==> ParseTail(Lex(text).value) == None }

  lemma BadTable(body: string)
    requires NoTable(body)
    ensures NoTail("{" + body)
  {
    LexSymbol('{', body);
    assert ['{'] + body == "{" + body;
    if Lex(body).Some? {
      var ts := [Symbol("{")] + Lex(body).value;
      assert ts[1..] == Lex(body).value;
    }
  }

  lemma QuotedThenNone(s: string, tail: string)
    requires NoTail(tail)
    ensures NoTail(Quote(Go, s) + (", " + tail))
  {
    LexQuoted(Go, s, ", " + tail);
    LexCommaBlank(' ', tail);
    assert [',', ' '] + tail == ", " + tail;
    if Lex(tail).Some? {
      var ts := [StrTok(Requoted(Go, s))] + ([Symbol(",")] + Lex(tail).value);
      assert ts[1..] == [Symbol(",")] + Lex(tail).value && ts[1..][1..] == Lex(tail).value;
    }
  }

  lemma BracesAfter(body: string, rest: string)
    ensures "{" + body + "}" + rest == "{" + (body + ("}" + rest))
  {
  }

  lemma BadTableText(es: seq<Entry>, lines: bool, indent: string, rest: string)
    requires PlainEntries(es) && AllPairs(es) && !BareEntries(es) && IsBlanks(indent)
    ensures NoTail(TableText(BareTexts(es), lines, indent) + rest)
  {
    if lines {
      var text := OptionLines(BareTexts(es), indent);
      BadLines(es, indent, "}" + rest);
      LexBlank('\n', text + ("}" + rest));
      assert ['\n'] + (text + ("}" + rest)) == "\n" + text + ("}" + rest);
      BadTable("\n" + text + ("}" + rest));
      BracesAfter("\n" + text, rest);
    } else {
      var text := Join(BareTexts(es), ", ");
      BadJoin(es, "}" + rest);
      BadTable(text + ("}" + rest));
      BracesAfter(text, rest);
    }
  }

  lemma OpensCall(indent: string, ctype: string, a: string, b: string, table: string, rest: string)
    ensures indent + ("k.ctrl." + (ctype + ("(" + (a + (", " + (b + ", "))))) + (table + ")\n\n")) + rest ==
      OpenText(indent, ControlPath(ctype), a + (", " + (b + (", " + (table + (")\n\n" + rest))))))
  {
    ControlPathText(ctype);
    HeadIsCall(ctype, a, b, table, ")\n\n");
    var inner := a + (", " + (b + (", " + table)));
    assert inner + ")\n\n" + rest == a + (", " + (b + (", " + (table + (")\n\n" + rest)))));
    OpenTextMore(indent, "k.ctrl." + ctype, inner + ")\n\n", rest);
  }

  lemma OpenTextMore(indent: string, path: string, inside: string, rest: string)
    ensures indent + (path + ("(" + inside)) + rest == indent + (path + ("(" + (inside + rest)))
  {
    Assoc(indent, path + ("(" + inside), rest);
    Assoc(path, "(" + inside, rest);
    Assoc("(", inside, rest);
  }

  lemma BadOptionTexts(keys: seq<string>, opts: map<string, Json>, lines: bool, indent: string, rest: string)
    requires IsBlanks(indent) && !BareKeys(keys, opts)
    requires forall k :: k in keys && IsPrinted(k, Opt(opts, k)) ==> IsPlainKey(k)
    ensures NoTail(TableText(OptTexts(keys, opts), lines, indent) + rest)
  {
    OptionsAreBare(keys, opts);
    PlainOptions(keys, opts);
    BadTableText(OptEntries(keys, opts), lines, indent, rest);
  }

  lemma TableOfOptions(c: Control, indent: string)
    requires c.inline == map[]
    ensures var texts := OptTexts(SortedKeys(c.opts.Keys), c.opts);
      OptionTable(c, indent) == TableText(texts, |texts| > 3, indent)
  {
    NoInline(c);
  }

  lemma PrintedKeys(c: Control, keys: seq<string>)
    requires forall k :: k in keys <==> k in c.opts
    ensures HasPlainKeys(c) ==> forall k :: k in keys && IsPrinted(k, Opt(c.opts, k)) ==> IsPlainKey(k)
    ensures BareKeys(keys, c.opts) ==> HasBareKeys(c)
  {
  }

  lemma BadOptions(c: Control, indent: string, rest: string)
    requires IsBlanks(indent) && c.inline == map[] && HasPlainKeys(c) && !HasBareKeys(c)
    ensures NoTail(OptionTable(c, indent) + rest)
  {
    var keys := SortedKeys(c.opts.Keys);
    PrintedKeys(c, keys);
    TableOfOptions(c, indent);
    BadOptionTexts(keys, c.opts, |OptTexts(keys, c.opts)| > 3, indent, rest);
  }

  lemma BadArguments(path: seq<string>, form: string, name: string, tail: string, indent: string)
    requires IsBlanks(indent) && IsPath(path) && NoTail(tail)
    ensures ReadScript(OpenText(indent, path, Quote(Go, form) + (", " + (Quote(Go, name) + (", " + tail))))) == None
  {
    QuotedThenNone(name, tail);
    QuotedThenNone(form, Quote(Go, name) + (", " + tail));
    OpenReads(indent, path, Quote(Go, form) + (", " + (Quote(Go, name) + (", " + tail))));
  }

  /** A control with such a key is a statement nothing is read past. */
  lemma BadControl(form: string, c: Control, indent: string, rest: string)
    requires IsBlanks(indent) && c.ctype in TYPES && c.inline == map[] && HasPlainKeys(c) && !HasBareKeys(c)
    ensures ReadScript(indent + (CtrlHead(form, c) + (OptionTable(c, indent) + ")\n\n")) + rest) == None
  {
    TypesAreWords(c.ctype);
    BadOptions(c, indent, ")\n\n" + rest);
    BadArguments(ControlPath(c.ctype), form, c.name, OptionTable(c, indent) + (")\n\n" + rest), indent);
    OpensCall(indent, c.ctype, Quote(Go, form), Quote(Go, c.name), OptionTable(c, indent), rest);
  }

  /** An exported control is read as its statement before what follows it, or nothing is read, if a key is no
      identifier or an option is unreadable. */
  lemma ControlReads(form: string, c: Control, indent: string, rest: string)
    requires IsBlanks(indent) && c.ctype in TYPES && c.inline == map[] && HasPlainKeys(c)
    ensures ReadScript(ControlText(form, c, indent) + rest) ==
      if HasBareKeys(c) && OptionsReadable(c) then Before([Spoken(ControlStatement(form, c, indent), false)], ReadScript(rest))
      else None
  {
    var statement := indent + (CtrlHead(form, c) + (OptionTable(c, indent) + ")\n\n"));
    TypesAreWords(c.ctype);
    Assoc(Hint(form, c, indent), statement, rest);
    HintIsComment(form, c, indent, statement + rest);
    if HasBareKeys(c) {
      ControlLitReads(c, indent);
      StatementIsCall(form, c, indent);
      ControlIsStatement(form, c, indent);
      CallTextReads(indent, ControlStatement(form, c, indent), rest);
    } else {
      BadControl(form, c, indent, rest);
    }
  }

  /** What importing an exported control gives. */
  lemma ControlReadsBack(form: string, c: Control, indent: string)
    requires IsBlanks(indent) && c.ctype in TYPES && c.inline == map[] && HasPlainKeys(c)
    ensures ReadControl(ControlText(form, c, indent)) ==
      if !HasBareKeys(c) || !OptionsReadable(c) || form == "" || c.name == "" then None
      else Some(Imported(Requoted(Go, form), Requoted(Go, c.name), c.ctype, Canonical(c.ctype, ReadableOptions(c))))
  {
    var text := ControlText(form, c, indent);
    assert text + "" == text;
    ControlReads(form, c, indent, "");
    if HasBareKeys(c) {
      NothingMore(Spoken(ControlStatement(form, c, indent), false));
      ControlLitReads(c, indent);
      ControlIsStatement(form, c, indent);
      ImportsCall(Requoted(Go, form), Requoted(Go, c.name), c.ctype, Ast(ControlLit(c, indent)));
    }
  }

  lemma ImportsCall(form: string, name: string, ctype: string, t: Expr)
    requires ctype in TYPES && t.TableE?
    ensures ImportControl(Call(ControlPath(ctype), [StringE(form), StringE(name), t])) ==
      if form == "" || name == "" then None
      else Some(Imported(form, name, ctype, Canonical(ctype, ReadOpts(t.fields))))
  {
  }

  /** Every option is printed and is the value its text reads back as. */
  predicate OptSolid(k: string, v: Json) {
    IsPrinted(k, v) &&
    if k == "items" then v.Arr? && forall x :: x in v.items ==> IsPlainItem(x) else Solid(v)
  }

  predicate ControlSurvives(form: string, c: Control) {
    && form != "" && IsQuotable(Go, form) && c.name != "" && IsQuotable(Go, c.name)
    && HasBareKeys(c) && OptionsReadable(c)
    && (forall k :: k in c.opts ==> OptSolid(k, c.opts[k]))
    && (c.ctype == "label" && "label" in c.opts ==> "text" in c.opts)
  }

  lemma OptKept(k: string, v: Json)
    ensures OptNormal(k, v) == v <==> (if k == "items" then v.Arr? && forall x :: x in v.items ==> IsPlainItem(x) else Solid(v))
  {
    if k == "items" {
      if v.Arr? { ItemsKept(v.items); }
    } else {
      NormalKeepsSolid(v);
    }
  }

  lemma OptionsKept(c: Control)
    ensures ReadableOptions(c) == c.opts <==> forall k :: k in c.opts ==> OptSolid(k, c.opts[k])
  {
    var r := ReadableOptions(c);
    forall k | k in c.opts ensures OptSolid(k, c.opts[k]) <==> k in r && r[k] == c.opts[k] {
      OptKept(k, c.opts[k]);
    }
    if forall k :: k in c.opts ==> OptSolid(k, c.opts[k]) {
      assert r.Keys == c.opts.Keys;
    }
  }

  /** An exported control imports as itself exactly when every option is printed and solid, every key an
      identifier and no reserved word, the names are set and quotable, and a label is stored as "text". */
  lemma ControlRoundTrip(form: string, c: Control, indent: string)
    requires IsBlanks(indent) && c.ctype in TYPES && c.inline == map[] && HasPlainKeys(c)
    ensures ReadControl(ControlText(form, c, indent)) == Some(Imported(form, c.name, c.ctype, c.opts))
      <==> ControlSurvives(form, c)
  {
    ControlReadsBack(form, c, indent);
    CanonicalKept(c);
    RequotedIsSame(Go, form);
    RequotedIsSame(Go, c.name);
  }

  lemma CanonicalKept(c: Control)
    ensures Canonical(c.ctype, ReadableOptions(c)) == c.opts <==>
      (forall k :: k in c.opts ==> OptSolid(k, c.opts[k])) && (c.ctype == "label" && "label" in c.opts ==> "text" in c.opts)
  {
    OptionsKept(c);
    var r := ReadableOptions(c);
    if Canonical(c.ctype, r) == c.opts {
      assert "label" in r ==> "label" in c.opts;
      assert "text" in Canonical(c.ctype, r) ==> "text" in c.opts;
    }
  }
}
