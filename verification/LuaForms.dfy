/** Exporting a form's scaffold as a call statement (exportFormNew, exportCells in
    internal/builder/lua_export.go) and importing that statement (importFormNew, formOptsToJSON,
    cellsToList, cellToDef in internal/builder/lua_import.go). The loops are methods; FormRoundTrip says
    exactly when a form's scaffold survives the trip. */
module LuaForms {
  import opened Text
  import opened LuaLexer
  import opened LuaParser
  import opened LuaText
  import opened LuaCall
  import opened LuaStatement
  import opened LuaLiteral
  import opened Document

  // ----- Integers -----

  function IntDecimal(n: int): (d: Num)
    ensures DecimalText(d) == IntText(n)
  {
    var m := if n < 0 then -n else n;
    NatTextIsMagnitude(m);
    NatTextNotZero(m);
    Decimal(n < 0, NatText(m))
  }

  lemma NatTextIsMagnitude(n: nat)
    ensures IsMagnitude(NatText(n))
  {
    DigitRunAll(NatText(n));
  }

  lemma NatTextNotZero(n: nat)
    ensures n > 0 ==> NatText(n) != "0"
  {
    NatValueOfText(n);
    assert "0"[..0] == [];
    assert NatValue("0") == 0;
  }

  function ExprNumber(e: Expr): (r: Option<int>) {
    match e
    case NumberE(t) => Atoi(t)
    case NegE(NumberE(t)) => if Atoi(t).None? then None else Some(-Atoi(t).value)
    case _ => None
  }

  function IntLit(n: int): (r: Lit) { Number(IntDecimal(n)) }

  lemma ReadInt(n: int)
    ensures ExprNumber(Ast(IntLit(n))) == Some(n)
  {
    AtoiOfText(if n < 0 then -n else n);
  }

  function ExprString(e: Expr): (r: string) { if e.StringE? then e.value else "" }

  // ----- Cells -----

  function Optional(present: bool, key: string, value: Lit): (r: seq<Entry>) {
    if present then [Pair(key, value)] else []
  }

  function BorderLit(b: Border): (r: Lit) {
    Table(Optional(b.width > 0, "width", IntLit(b.width)) + Optional(b.color != "", "color", Quoted(Go, b.color)),
          Inline("="))
  }

  function CellEntries(c: CellDef): (r: seq<Entry>) {
    [Pair("id", Quoted(Go, c.id))]
    + Optional(c.width > 0, "width", IntLit(c.width))
    + Optional(c.bg != "", "bg", Quoted(Go, c.bg))
    + Optional(c.align != "", "align", Quoted(Go, c.align))
    + Optional(c.border.Some?, "border", if c.border.Some? then BorderLit(c.border.value) else Nil)
  }

  function CellLit(c: CellDef): (r: Lit) { Table(CellEntries(c), Inline("=")) }

  function HasId(c: Option<CellDef>): (r: bool) { c.Some? && c.value.id != "" }

  function CellItems(cells: seq<Option<CellDef>>): (r: seq<Entry>) {
    if cells == [] then []
    else
      var before, last := CellItems(cells[..|cells| - 1]), cells[|cells| - 1];
      if HasId(last) then before + [Item(CellLit(last.value))] else before
  }

  function CellsLit(cells: seq<Option<CellDef>>): (r: Lit) { Table(CellItems(cells), Inline("=")) }

  lemma {:induction false} EntryTextsAppend(a: seq<Entry>, b: seq<Entry>, sep: string)
    ensures EntryTexts(a + b, sep) == EntryTexts(a, sep) + EntryTexts(b, sep)
  {
    if a == [] {
      assert a + b == b;
    } else {
      assert (a + b)[1..] == a[1..] + b;
      EntryTextsAppend(a[1..], b, sep);
    }
  }

  lemma OneEntry(e: Entry, sep: string)
    ensures EntryTexts([e], sep) == [EntryText(e, sep)]
  {
    assert [e][1..] == [];
  }

  lemma FirstOptional(present: bool, key: string, v: Lit, sep: string)
    requires IsIdent(key)
    ensures EntryTexts(Optional(present, key, v), sep) == if present then [key + (sep + LitText(v))] else []
  {
    if present {
      OneEntry(Pair(key, v), sep);
    }
  }

  /** One `if ... { opts = append(opts, ...) }` of the exporter. */
  method AddPair(opts: seq<string>, ghost es: seq<Entry>, present: bool, key: string, text: string, ghost v: Lit)
    returns (more: seq<string>)
    requires opts == EntryTexts(es, "=") && IsIdent(key)
    requires present ==> text == LitText(v)
    ensures more == EntryTexts(es + Optional(present, key, v), "=")
  {
    EntryTextsAppend(es, Optional(present, key, v), "=");
    FirstOptional(present, key, v, "=");
    more := if present then opts + [key + ("=" + text)] else opts;
  }

  /** The option names the exporter writes itself are identifiers, so they are printed bare. */
  lemma FixedKeys()
    ensures IsIdent("id") && IsIdent("width") && IsIdent("bg") && IsIdent("align") && IsIdent("border")
    ensures IsIdent("color") && IsIdent("title") && IsIdent("layout") && IsIdent("gap") && IsIdent("cells")
    ensures IsIdent("items") && IsIdent("db")
  {
  }

  method ExportBorder(b: Border) returns (text: string)
    ensures text == LitText(BorderLit(b))
  {
    FixedKeys();
    var parts := AddPair([], [], b.width > 0, "width", IntText(b.width), IntLit(b.width));
    ghost var es := Optional(b.width > 0, "width", IntLit(b.width));
    assert [] + es == es;
    parts := AddPair(parts, es, b.color != "", "color", Quote(Go, b.color), Quoted(Go, b.color));
    text := "{" + Join(parts, ", ") + "}";
  }

  method ExportCell(c: CellDef) returns (text: string)
    ensures text == LitText(CellLit(c))
  {
    FixedKeys();
    ghost var es := [Pair("id", Quoted(Go, c.id))];
    OneEntry(es[0], "=");
    var f := ["id" + ("=" + Quote(Go, c.id))];
    f := AddPair(f, es, c.width > 0, "width", IntText(c.width), IntLit(c.width));
    es := es + Optional(c.width > 0, "width", IntLit(c.width));
    f := AddPair(f, es, c.bg != "", "bg", Quote(Go, c.bg), Quoted(Go, c.bg));
    es := es + Optional(c.bg != "", "bg", Quoted(Go, c.bg));
    f := AddPair(f, es, c.align != "", "align", Quote(Go, c.align), Quoted(Go, c.align));
    es := es + Optional(c.align != "", "align", Quoted(Go, c.align));
    var border := "";
    if c.border.Some? { border := ExportBorder(c.border.value); }
    f := AddPair(f, es, c.border.Some?, "border", border, if c.border.Some? then BorderLit(c.border.value) else Nil);
    text := "{" + Join(f, ", ") + "}";
  }

  /** exportCells: cells without an id are skipped. */
  method ExportCells(cells: seq<Option<CellDef>>) returns (text: string)
    ensures text == LitText(CellsLit(cells))
  {
    var parts: seq<string> := [];
    for i := 0 to |cells|
      invariant parts == EntryTexts(CellItems(cells[..i]), "=")
    {
      assert cells[..i + 1][..i] == cells[..i];
      if HasId(cells[i]) {
        var cell := ExportCell(cells[i].value);
        OneEntry(Item(CellLit(cells[i].value)), "=");
        EntryTextsAppend(CellItems(cells[..i]), [Item(CellLit(cells[i].value))], "=");
        parts := parts + [cell];
      }
    }
    assert cells[..|cells|] == cells;
    text := "{" + Join(parts, ", ") + "}";
  }

  // ----- The scaffold -----

  /** What k.form.new's option table carries. */
  datatype Scaffold = Scaffold(title: string, layout: string, align: string, gap: Option<int>, cells: seq<CellDef>)

  function OrElse(s: string, default: string): (r: string) { if s == "" then default else s }

  function FormEntries(f: Form): (r: seq<Entry>) {
    Optional(f.title != "", "title", Quoted(Lua, f.title))
    + [Pair("layout", Quoted(Go, OrElse(f.layout, "vertical")))]
    + [Pair("align", Quoted(Go, OrElse(f.align, "left")))]
    + Optional(f.gap.Some?, "gap", if f.gap.Some? then IntLit(f.gap.value) else Nil)
    + Optional(f.cells != [], "cells", CellsLit(f.cells))
  }

  function FormLit(f: Form): (r: Lit) { Table(FormEntries(f), Inline("=")) }

  method FormOptions(f: Form) returns (opts: seq<string>)
    ensures opts == EntryTexts(FormEntries(f), "=")
  {
    FixedKeys();
    var layout, align := OrElse(f.layout, "vertical"), OrElse(f.align, "left");
    opts := AddPair([], [], f.title != "", "title", Quote(Lua, f.title), Quoted(Lua, f.title));
    ghost var es := Optional(f.title != "", "title", Quoted(Lua, f.title));
    assert [] + es == es;
    opts := AddPair(opts, es, true, "layout", Quote(Go, layout), Quoted(Go, layout));
    es := es + [Pair("layout", Quoted(Go, layout))];
    opts := AddPair(opts, es, true, "align", Quote(Go, align), Quoted(Go, align));
    es := es + [Pair("align", Quoted(Go, align))];
    ghost var gap := if f.gap.Some? then IntLit(f.gap.value) else Nil;
    opts := AddPair(opts, es, f.gap.Some?, "gap", if f.gap.Some? then IntText(f.gap.value) else "", gap);
    es := es + Optional(f.gap.Some?, "gap", gap);
    var cells := "";
    if |f.cells| > 0 { cells := ExportCells(f.cells); }
    opts := AddPair(opts, es, f.cells != [], "cells", cells, CellsLit(f.cells));
  }

  /** exportFormNew: one k.form.new statement at the given indentation. */
  method ExportFormNew(f: Form, indent: string) returns (text: string)
    ensures text == CallText(indent, FORM_NEW, [Quoted(Go, f.name), FormLit(f)])
  {
    var opts := FormOptions(f);
    TwoArgCall(indent, FORM_NEW, Quoted(Go, f.name), FormLit(f));
    FormNewPath();
    text := indent + ("k.form.new" + ("(" + (Quote(Go, f.name) + (", " + ("{" + Join(opts, ", ") + "}")) + ")\n\n")));
  }

  const FORM_NEW := ["k", "form", "new"]

  lemma FormNewPath()
    ensures Join(FORM_NEW, ".") == "k.form.new"
  {
    assert FORM_NEW[1..] == ["form", "new"] && ["form", "new"][1..] == ["new"];
    assert Join(["form", "new"], ".") == "form.new";
  }

  lemma TwoArgCall(indent: string, path: seq<string>, a: Lit, b: Lit)
    ensures CallText(indent, path, [a, b]) ==
      indent + (Join(path, ".") + ("(" + (LitText(a) + (", " + LitText(b)) + ")\n\n")))
  {
    assert [a, b][1..] == [b] && [b][1..] == [];
    assert ArgTexts([b]) == [LitText(b)];
    JoinTwo(LitText(a), LitText(b));
  }

  lemma JoinTwo(a: string, b: string)
    ensures Join([a] + [b], ", ") == a + (", " + b)
  {
    assert ([a] + [b])[1..] == [b];
    assert a + ", " + b == a + (", " + b);
  }

  // ----- Importing: loops over the fields of a table -----

  /** A loop that updates s once per field. */
  function Fold<S>(step: (S, Field) -> S, s: S, fields: seq<Field>): (r: S) {
    if fields == [] then s else Fold(step, step(s, fields[0]), fields[1..])
  }

  lemma {:induction false} FoldAppend<S>(step: (S, Field) -> S, s: S, a: seq<Field>, b: seq<Field>)
    ensures Fold(step, s, a + b) == Fold(step, Fold(step, s, a), b)
  {
    if a == [] {
      assert a + b == b;
    } else {
      assert (a + b)[1..] == a[1..] + b;
      FoldAppend(step, step(s, a[0]), a[1..], b);
    }
  }

  lemma {:induction false} FieldsAppend(a: seq<Entry>, b: seq<Entry>)
    ensures Fields(a + b) == Fields(a) + Fields(b)
  {
    if a == [] {
      assert a + b == b;
    } else {
      assert (a + b)[1..] == a[1..] + b;
      FieldsAppend(a[1..], b);
    }
  }

  function IfPresent<S>(step: (S, Field) -> S, s: S, present: bool, key: string, v: Lit): (r: S) {
    if present then step(s, Keyed(StringE(key), Ast(v))) else s
  }

  /** Folding over one more optional pair. */
  lemma FoldPair<S>(step: (S, Field) -> S, s: S, es: seq<Entry>, present: bool, key: string, v: Lit)
    ensures Fold(step, s, Fields(es + Optional(present, key, v))) ==
      IfPresent(step, Fold(step, s, Fields(es)), present, key, v)
  {
    var last := Optional(present, key, v);
    FieldsAppend(es, last);
    FoldAppend(step, s, Fields(es), Fields(last));
    if present {
      assert last[1..] == [] && Fields(last) == [Keyed(StringE(key), Ast(v))];
      assert Fields(last)[1..] == [];
    }
  }

  function BorderStep(b: Border, f: Field): (r: Border) {
    if FieldKey(f) == "width" then
      if ExprNumber(f.value).Some? then b.(width := ExprNumber(f.value).value) else b
    else if FieldKey(f) == "color" then b.(color := ExprString(f.value))
    else b
  }

  function ReadBorder(fields: seq<Field>): (r: Border) { Fold(BorderStep, Border(0, ""), fields) }

  function CellStep(c: CellDef, f: Field): (r: CellDef) {
    var k := FieldKey(f);
    if k == "width" then
      if ExprNumber(f.value).Some? then c.(width := ExprNumber(f.value).value) else c
    else if k == "bg" || k == "background" then c.(bg := ExprString(f.value))
    else if k == "align" then c.(align := ExprString(f.value))
    else if k == "border" && f.value.TableE? then c.(border := Some(ReadBorder(f.value.fields)))
    else c
  }

  const NO_CELL := CellDef("", 0, "", None, "")

  function ReadCell(id: string, fields: seq<Field>): (r: CellDef) {
    Fold(CellStep, NO_CELL, fields).(id := id)
  }

  /** cellToDef, with the id its caller then sets. */
  method ImportCell(id: string, fields: seq<Field>) returns (c: CellDef)
    ensures c == ReadCell(id, fields)
  {
    c := NO_CELL;
    for i := 0 to |fields|
      invariant Fold(CellStep, c, fields[i..]) == Fold(CellStep, NO_CELL, fields)
    {
      var f := fields[i];
      assert fields[i..][0] == f && fields[i..][1..] == fields[i + 1..];
      var k := FieldKey(f);
      if k == "width" {
        var n := ExprNumber(f.value);
        if n.Some? { c := c.(width := n.value); }
      } else if k == "bg" || k == "background" {
        c := c.(bg := ExprString(f.value));
      } else if k == "align" {
        c := c.(align := ExprString(f.value));
      } else if k == "border" && f.value.TableE? {
        var border := ImportBorder(f.value.fields);
        c := c.(border := Some(border));
      }
    }
    c := c.(id := id);
  }

  method ImportBorder(fields: seq<Field>) returns (b: Border)
    ensures b == ReadBorder(fields)
  {
    b := Border(0, "");
    for i := 0 to |fields|
      invariant Fold(BorderStep, b, fields[i..]) == ReadBorder(fields)
    {
      var f := fields[i];
      assert fields[i..][0] == f && fields[i..][1..] == fields[i + 1..];
      if FieldKey(f) == "width" {
        var n := ExprNumber(f.value);
        if n.Some? { b := b.(width := n.value); }
      } else if FieldKey(f) == "color" {
        b := b.(color := ExprString(f.value));
      }
    }
  }

  /** The first id field of a cell entry. */
  function CellId(fields: seq<Field>): (r: string) {
    if fields == [] then ""
    else if FieldKey(fields[0]) == "id" then ExprString(fields[0].value)
    else CellId(fields[1..])
  }

  function CellsStep(cells: seq<CellDef>, f: Field): (r: seq<CellDef>) {
    if !f.value.TableE? then cells
    else
      var id := if f.Keyed? then KeyName(f.key) else CellId(f.value.fields);
      if id == "" then cells else cells + [ReadCell(id, f.value.fields)]
  }

  function ReadCells(fields: seq<Field>): (r: seq<CellDef>) { Fold(CellsStep, [], fields) }

  /** cellsToList: both the array and the map form. */
  method ImportCells(fields: seq<Field>) returns (cells: seq<CellDef>)
    ensures cells == ReadCells(fields)
  {
    cells := [];
    for i := 0 to |fields|
      invariant Fold(CellsStep, cells, fields[i..]) == ReadCells(fields)
    {
      var f := fields[i];
      assert fields[i..][0] == f && fields[i..][1..] == fields[i + 1..];
      if f.value.TableE? {
        var id := if f.Keyed? then KeyName(f.key) else CellId(f.value.fields);
        if id != "" {
          var c := ImportCell(id, f.value.fields);
          cells := cells + [c];
        }
      }
    }
  }

  function ScaffoldStep(s: Scaffold, f: Field): (r: Scaffold) {
    var k := FieldKey(f);
    if k == "title" then s.(title := ExprString(f.value))
    else if k == "layout" then s.(layout := OrElse(ExprString(f.value), "vertical"))
    else if k == "align" then s.(align := OrElse(ExprString(f.value), "left"))
    else if k == "gap" then if ExprNumber(f.value).Some? then s.(gap := ExprNumber(f.value)) else s
    else if k == "cells" && f.value.TableE? then s.(cells := ReadCells(f.value.fields))
    else s
  }

  const NO_SCAFFOLD := Scaffold("", "vertical", "left", None, [])

  function ReadScaffold(fields: seq<Field>): (r: Scaffold) { Fold(ScaffoldStep, NO_SCAFFOLD, fields) }

  /** formOptsToJSON. */
  method ImportScaffold(fields: seq<Field>) returns (s: Scaffold)
    ensures s == ReadScaffold(fields)
  {
    s := NO_SCAFFOLD;
    for i := 0 to |fields|
      invariant Fold(ScaffoldStep, s, fields[i..]) == ReadScaffold(fields)
    {
      var f := fields[i];
      assert fields[i..][0] == f && fields[i..][1..] == fields[i + 1..];
      match FieldKey(f) {
        case "title" => s := s.(title := ExprString(f.value));
        case "layout" => s := s.(layout := OrElse(ExprString(f.value), "vertical"));
        case "align" => s := s.(align := OrElse(ExprString(f.value), "left"));
        case "gap" => if ExprNumber(f.value).Some? { s := s.(gap := ExprNumber(f.value)); }
        case "cells" =>
          if f.value.TableE? {
            var cells := ImportCells(f.value.fields);
            s := s.(cells := cells);
          }
        case _ =>
      }
    }
  }

  /** exprName: a literal or a bare name. */
  function ExprName(e: Expr): (r: string) {
    match e
    case StringE(v) => v
    case IdentE(n) => n
    case _ => ""
  }

  /** importFormNew on the first k.form.new of a name: the name and the scaffold. */
  function ImportFormNew(call: Call): (r: Option<(string, Scaffold)>) {
    if call.path != FORM_NEW || call.args == [] || ExprName(call.args[0]) == "" then None
    else if |call.args| >= 2 && call.args[1].TableE? then
      Some((ExprName(call.args[0]), ReadScaffold(call.args[1].fields)))
    else Some((ExprName(call.args[0]), NO_SCAFFOLD))
  }

  function ReadForm(text: string): (r: Option<(string, Scaffold)>) {
    var call := ReadCall(text);
    if call.None? then None else ImportFormNew(call.value)
  }

  // ----- What survives -----

  function NormalBorder(b: Border): (r: Border) {
    Border(if b.width > 0 then b.width else 0, Requoted(Go, b.color))
  }

  function NormalCell(c: CellDef): (r: CellDef) {
    CellDef(Requoted(Go, c.id), if c.width > 0 then c.width else 0, Requoted(Go, c.bg),
            if c.border.Some? then Some(NormalBorder(c.border.value)) else None, Requoted(Go, c.align))
  }

  function NormalCells(cells: seq<Option<CellDef>>): (r: seq<CellDef>) {
    if cells == [] then []
    else
      var before, last := NormalCells(cells[..|cells| - 1]), cells[|cells| - 1];
      if HasId(last) then before + [NormalCell(last.value)] else before
  }

  function NormalScaffold(f: Form): (r: Scaffold) {
    Scaffold(f.title, Requoted(Go, OrElse(f.layout, "vertical")), Requoted(Go, OrElse(f.align, "left")),
             f.gap, NormalCells(f.cells))
  }

  lemma BorderReads(b: Border)
    ensures ReadBorder(Fields(BorderLit(b).entries)) == NormalBorder(b)
  {
    ReadInt(b.width);
    var es := Optional(b.width > 0, "width", IntLit(b.width));
    FoldPair(BorderStep, Border(0, ""), [], b.width > 0, "width", IntLit(b.width));
    assert [] + es == es;
    FoldPair(BorderStep, Border(0, ""), es, b.color != "", "color", Quoted(Go, b.color));
  }

  lemma StepId(t: CellDef, id: string)
    ensures IfPresent(CellStep, t, true, "id", Quoted(Go, id)) == t
  {
  }

  lemma StepWidth(t: CellDef, n: int)
    requires t.width == 0
    ensures IfPresent(CellStep, t, n > 0, "width", IntLit(n)) == t.(width := if n > 0 then n else 0)
  {
    ReadInt(n);
  }

  lemma StepBg(t: CellDef, bg: string)
    requires t.bg == ""
    ensures IfPresent(CellStep, t, bg != "", "bg", Quoted(Go, bg)) == t.(bg := Requoted(Go, bg))
  {
  }

  lemma StepCellAlign(t: CellDef, align: string)
    requires t.align == ""
    ensures IfPresent(CellStep, t, align != "", "align", Quoted(Go, align)) == t.(align := Requoted(Go, align))
  {
  }

  lemma StepBorder(t: CellDef, b: Option<Border>)
    requires t.border == None
    ensures IfPresent(CellStep, t, b.Some?, "border", if b.Some? then BorderLit(b.value) else Nil) ==
      t.(border := if b.Some? then Some(NormalBorder(b.value)) else None)
  {
    if b.Some? { BorderReads(b.value); }
  }

  lemma CellReads(c: CellDef)
    ensures ReadCell(Requoted(Go, c.id), Fields(CellEntries(c))) == NormalCell(c)
  {
    var es := Optional(true, "id", Quoted(Go, c.id));
    FoldPair(CellStep, NO_CELL, [], true, "id", Quoted(Go, c.id));
    assert [] + es == es;
    StepId(NO_CELL, c.id);
    var s := NO_CELL;
    FoldPair(CellStep, NO_CELL, es, c.width > 0, "width", IntLit(c.width));
    StepWidth(s, c.width);
    es, s := es + Optional(c.width > 0, "width", IntLit(c.width)), s.(width := if c.width > 0 then c.width else 0);
    FoldPair(CellStep, NO_CELL, es, c.bg != "", "bg", Quoted(Go, c.bg));
    StepBg(s, c.bg);
    es, s := es + Optional(c.bg != "", "bg", Quoted(Go, c.bg)), s.(bg := Requoted(Go, c.bg));
    FoldPair(CellStep, NO_CELL, es, c.align != "", "align", Quoted(Go, c.align));
    StepCellAlign(s, c.align);
    es, s := es + Optional(c.align != "", "align", Quoted(Go, c.align)), s.(align := Requoted(Go, c.align));
    FoldPair(CellStep, NO_CELL, es, c.border.Some?, "border", if c.border.Some? then BorderLit(c.border.value) else Nil);
    StepBorder(s, c.border);
  }

  lemma CellItemReads(c: CellDef, cells: seq<CellDef>)
    requires c.id != ""
    ensures CellsStep(cells, Positional(Ast(CellLit(c)))) == cells + [NormalCell(c)]
  {
    CellReads(c);
    var id, rest := Pair("id", Quoted(Go, c.id)), CellEntries(c)[1..];
    assert CellEntries(c) == [id] + rest;
    IdFirst(c.id, rest);
  }

  lemma IdFirst(id: string, rest: seq<Entry>)
    ensures CellId(Fields([Pair("id", Quoted(Go, id))] + rest)) == Requoted(Go, id)
  {
    var first := Pair("id", Quoted(Go, id));
    assert ([first] + rest)[0] == first && ([first] + rest)[1..] == rest;
    assert Fields([first] + rest)[0] == EntryField(first);
    assert FieldKey(EntryField(first)) == "id";
  }

  lemma {:induction false} CellsRead(cells: seq<Option<CellDef>>)
    ensures ReadCells(Fields(CellItems(cells))) == NormalCells(cells)
  {
    if cells != [] {
      var before, last := cells[..|cells| - 1], cells[|cells| - 1];
      CellsRead(before);
      if HasId(last) {
        var item := [Item(CellLit(last.value))];
        FieldsAppend(CellItems(before), item);
        FoldAppend(CellsStep, [], Fields(CellItems(before)), Fields(item));
        assert item[1..] == [] && Fields(item) == [Positional(Ast(CellLit(last.value)))];
        assert Fields(item)[1..] == [];
        CellItemReads(last.value, NormalCells(before));
      }
    }
  }

  lemma StepTitle(title: string)
    ensures IfPresent(ScaffoldStep, NO_SCAFFOLD, title != "", "title", Quoted(Lua, title)) ==
      NO_SCAFFOLD.(title := title)
  {
    RequotedIsSame(Lua, title);
  }

  lemma StepLayout(s: Scaffold, layout: string)
    requires layout != ""
    ensures IfPresent(ScaffoldStep, s, true, "layout", Quoted(Go, layout)) == s.(layout := Requoted(Go, layout))
  {
  }

  lemma StepAlign(s: Scaffold, align: string)
    requires align != ""
    ensures IfPresent(ScaffoldStep, s, true, "align", Quoted(Go, align)) == s.(align := Requoted(Go, align))
  {
  }

  lemma StepGap(s: Scaffold, gap: Option<int>)
    requires s.gap == None
    ensures IfPresent(ScaffoldStep, s, gap.Some?, "gap", if gap.Some? then IntLit(gap.value) else Nil) == s.(gap := gap)
  {
    if gap.Some? { ReadInt(gap.value); }
  }

  lemma StepCells(s: Scaffold, cells: seq<Option<CellDef>>)
    requires s.cells == []
    ensures IfPresent(ScaffoldStep, s, cells != [], "cells", CellsLit(cells)) == s.(cells := NormalCells(cells))
  {
    CellsRead(cells);
  }

  lemma ScaffoldReads(f: Form)
    ensures ReadScaffold(Fields(FormEntries(f))) == NormalScaffold(f)
  {
    var es := Optional(f.title != "", "title", Quoted(Lua, f.title));
    FoldPair(ScaffoldStep, NO_SCAFFOLD, [], f.title != "", "title", Quoted(Lua, f.title));
    assert [] + es == es;
    StepTitle(f.title);
    var s := NO_SCAFFOLD.(title := f.title);
    var layout, align := OrElse(f.layout, "vertical"), OrElse(f.align, "left");
    FoldPair(ScaffoldStep, NO_SCAFFOLD, es, true, "layout", Quoted(Go, layout));
    StepLayout(s, layout);
    es, s := es + [Pair("layout", Quoted(Go, layout))], s.(layout := Requoted(Go, layout));
    FoldPair(ScaffoldStep, NO_SCAFFOLD, es, true, "align", Quoted(Go, align));
    StepAlign(s, align);
    es, s := es + [Pair("align", Quoted(Go, align))], s.(align := Requoted(Go, align));
    var gap := if f.gap.Some? then IntLit(f.gap.value) else Nil;
    FoldPair(ScaffoldStep, NO_SCAFFOLD, es, f.gap.Some?, "gap", gap);
    StepGap(s, f.gap);
    es, s := es + Optional(f.gap.Some?, "gap", gap), s.(gap := f.gap);
    FoldPair(ScaffoldStep, NO_SCAFFOLD, es, f.cells != [], "cells", CellsLit(f.cells));
    StepCells(s, f.cells);
  }

  // ----- The printed scaffold is well formed literal text -----

  /** None of the option names the exporter writes itself is a reserved word. */
  lemma FixedKeysAreFree()
    ensures !IsReserved("id") && !IsReserved("width") && !IsReserved("bg") && !IsReserved("align")
    ensures !IsReserved("border") && !IsReserved("color") && !IsReserved("title") && !IsReserved("layout")
    ensures !IsReserved("gap") && !IsReserved("cells")
  {
  }

  /** Entries that scan and parse as they should. */
  predicate Sound(es: seq<Entry>) { AllWellLaid(es) && AllReadable(es) }

  lemma {:induction false} SoundAppend(a: seq<Entry>, b: seq<Entry>)
    ensures Sound(a) && Sound(b) ==> Sound(a + b)
  {
    if a == [] {
      assert a + b == b;
    } else {
      assert (a + b)[1..] == a[1..] + b;
      SoundAppend(a[1..], b);
    }
  }

  lemma SoundOne(e: Entry)
    ensures Sound([e]) <==> EntryWellLaid(e) && EntryReadable(e)
  {
    assert [e][1..] == [];
    assert AllWellLaid([e]) <==> EntryWellLaid(e) && AllWellLaid([]);
    assert AllReadable([e]) <==> EntryReadable(e) && AllReadable([]);
  }

  lemma SoundPair(es: seq<Entry>, present: bool, key: string, v: Lit)
    requires Sound(es) && !IsReserved(key)
    requires present ==> WellLaid(v) && Readable(v)
    ensures Sound(es + Optional(present, key, v))
  {
    if present { SoundOne(Pair(key, v)); }
    SoundAppend(es, Optional(present, key, v));
  }

  lemma BorderSound(b: Border)
    ensures WellLaid(BorderLit(b)) && Readable(BorderLit(b))
  {
    FixedKeysAreFree();
    var es := Optional(b.width > 0, "width", IntLit(b.width));
    SoundPair([], b.width > 0, "width", IntLit(b.width));
    assert [] + es == es;
    SoundPair(es, b.color != "", "color", Quoted(Go, b.color));
  }

  lemma CellSound(c: CellDef)
    ensures WellLaid(CellLit(c)) && Readable(CellLit(c))
  {
    FixedKeysAreFree();
    if c.border.Some? { BorderSound(c.border.value); }
    var es := Optional(true, "id", Quoted(Go, c.id));
    SoundPair([], true, "id", Quoted(Go, c.id));
    assert [] + es == es;
    SoundPair(es, c.width > 0, "width", IntLit(c.width));
    es := es + Optional(c.width > 0, "width", IntLit(c.width));
    SoundPair(es, c.bg != "", "bg", Quoted(Go, c.bg));
    es := es + Optional(c.bg != "", "bg", Quoted(Go, c.bg));
    SoundPair(es, c.align != "", "align", Quoted(Go, c.align));
    es := es + Optional(c.align != "", "align", Quoted(Go, c.align));
    SoundPair(es, c.border.Some?, "border", if c.border.Some? then BorderLit(c.border.value) else Nil);
  }

  lemma {:induction false} CellsSound(cells: seq<Option<CellDef>>)
    ensures Sound(CellItems(cells))
  {
    if cells != [] {
      var before, last := cells[..|cells| - 1], cells[|cells| - 1];
      CellsSound(before);
      if HasId(last) {
        CellSound(last.value);
        SoundOne(Item(CellLit(last.value)));
        SoundAppend(CellItems(before), [Item(CellLit(last.value))]);
      }
    }
  }

  lemma FormSound(f: Form)
    ensures WellLaid(FormLit(f)) && Readable(FormLit(f))
  {
    FixedKeysAreFree();
    var layout, align := OrElse(f.layout, "vertical"), OrElse(f.align, "left");
    var gap := if f.gap.Some? then IntLit(f.gap.value) else Nil;
    CellsSound(f.cells);
    var es := Optional(f.title != "", "title", Quoted(Lua, f.title));
    SoundPair([], f.title != "", "title", Quoted(Lua, f.title));
    assert [] + es == es;
    SoundPair(es, true, "layout", Quoted(Go, layout));
    es := es + [Pair("layout", Quoted(Go, layout))];
    SoundPair(es, true, "align", Quoted(Go, align));
    es := es + [Pair("align", Quoted(Go, align))];
    SoundPair(es, f.gap.Some?, "gap", gap);
    es := es + Optional(f.gap.Some?, "gap", gap);
    SoundPair(es, f.cells != [], "cells", CellsLit(f.cells));
  }

  lemma FormPath()
    ensures IsPath(FORM_NEW)
  {
    assert !IsReserved("k") && !IsReserved("form") && !IsReserved("new");
    assert IsIdent("k") && IsIdent("form") && IsIdent("new");
  }

  lemma TwoAsts(a: Lit, b: Lit)
    ensures ArgsWellLaid([a, b]) <==> WellLaid(a) && WellLaid(b)
    ensures ArgsReadable([a, b]) <==> Readable(a) && Readable(b)
    ensures Asts([a, b]) == [Ast(a), Ast(b)]
  {
    assert [a, b][1..] == [b] && [b][1..] == [];
    assert ArgsWellLaid([b]) <==> WellLaid(b);
    assert ArgsReadable([b]) <==> Readable(b);
    assert Asts([b]) == [Ast(b)];
  }

  /** The statement a form prints reads back as its name and its normal scaffold. */
  lemma FormReadsBack(f: Form, indent: string)
    requires IsBlanks(indent)
    ensures ReadForm(CallText(indent, FORM_NEW, [Quoted(Go, f.name), FormLit(f)])) ==
      if f.name == "" then None else Some((Requoted(Go, f.name), NormalScaffold(f)))
  {
    var name, l := Quoted(Go, f.name), FormLit(f);
    FormSound(f);
    FormPath();
    TwoAsts(name, l);
    ReadCallText(indent, FORM_NEW, [name, l]);
    ScaffoldReads(f);
    ImportsScaffold(Requoted(Go, f.name), Fields(FormEntries(f)));
  }

  lemma ImportsScaffold(name: string, fields: seq<Field>)
    ensures ImportFormNew(Call(FORM_NEW, [StringE(name), TableE(fields)])) ==
      if name == "" then None else Some((name, ReadScaffold(fields)))
  {
  }

  // ----- When nothing changes -----

  predicate CellSurvives(c: Option<CellDef>) {
    && HasId(c)
    && IsQuotable(Go, c.value.id) && IsQuotable(Go, c.value.bg) && IsQuotable(Go, c.value.align)
    && c.value.width >= 0
    && (c.value.border.Some? ==> c.value.border.value.width >= 0 && IsQuotable(Go, c.value.border.value.color))
  }

  /** The layout and alignment are set, every cell has an id, widths are not negative, and no string
      printed with %q holds a control character that %q writes in hexadecimal. */
  predicate FormSurvives(f: Form) {
    && f.name != "" && f.layout != "" && f.align != ""
    && IsQuotable(Go, f.name) && IsQuotable(Go, f.layout) && IsQuotable(Go, f.align)
    && forall c :: c in f.cells ==> CellSurvives(c)
  }

  function Present(cells: seq<CellDef>): (ps: seq<Option<CellDef>>)
    ensures |ps| == |cells|
  {
    seq(|cells|, i requires 0 <= i < |cells| => Some(cells[i]))
  }

  lemma CellKept(c: CellDef)
    ensures NormalCell(c) == c && c.id != "" <==> CellSurvives(Some(c))
  {
    RequotedIsSame(Go, c.id);
    RequotedIsSame(Go, c.bg);
    RequotedIsSame(Go, c.align);
    if c.border.Some? { RequotedIsSame(Go, c.border.value.color); }
  }

  lemma {:induction false} CellsKept(cells: seq<Option<CellDef>>)
    ensures |NormalCells(cells)| <= |cells|
    ensures Present(NormalCells(cells)) == cells <==> forall c :: c in cells ==> CellSurvives(c)
  {
    if cells != [] {
      var n := |cells| - 1;
      var before, last := cells[..n], cells[n];
      CellsKept(before);
      assert cells == before + [last];
      assert (forall c :: c in cells ==> CellSurvives(c)) <==>
             (forall c :: c in before ==> CellSurvives(c)) && CellSurvives(last);
      var normal := NormalCells(before);
      if HasId(last) {
        CellKept(last.value);
        var kept := Present(normal) + [Some(NormalCell(last.value))];
        assert Present(NormalCells(cells)) == kept;
        if |normal| == n {
          assert kept[..n] == Present(normal) && cells[..n] == before;
          assert kept[n] == Some(NormalCell(last.value)) && cells[n] == last;
          assert kept == cells <==> Present(normal) == before && Some(NormalCell(last.value)) == last;
        }
      }
    }
  }

  /** A form's statement reads back as exactly its name and scaffold when, and only when, it survives. */
  lemma FormRoundTrip(f: Form, indent: string)
    requires IsBlanks(indent)
    ensures ReturnsForm(f, ReadForm(CallText(indent, FORM_NEW, [Quoted(Go, f.name), FormLit(f)]))) <==> FormSurvives(f)
  {
    FormReadsBack(f, indent);
    CellsKept(f.cells);
    RequotedIsSame(Go, f.name);
    RequotedIsSame(Go, f.layout);
    RequotedIsSame(Go, f.align);
  }

  /** The import gave back the form's own name and scaffold. */
  predicate ReturnsForm(f: Form, r: Option<(string, Scaffold)>) {
    && r.Some?
    && r.value.0 == f.name
    && r.value.1 == Scaffold(f.title, f.layout, f.align, f.gap, r.value.1.cells)
    && Present(r.value.1.cells) == f.cells
  }
}
