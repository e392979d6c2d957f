/** MergeDocument (internal/builder/merge.go): laying a generated document over the open one. The loops
    are methods proved against the overlay of module Overlay; the theorems say that merging keeps every
    base name in order, lets generated values win key by key, is associative on valid documents, and
    changes nothing when repeated. */
module Merge {
  import opened Text
  import opened LuaText
  import opened LuaLiteral
  import opened Document
  import opened Overlay

  // ----- Keys and element merges -----

  function FormKey(f: Option<Form>): (r: string) { if f.Some? then f.value.name else "" }

  function ControlKey(c: Option<Control>): (r: string) { if c.Some? then c.value.name else "" }

  function CellKey(c: Option<CellDef>): (r: string) { if c.Some? then c.value.id else "" }

  function Second<T>(x: T, y: T): (r: T) { y }

  function MergedControl(base: Control, gen: Control): (r: Control) {
    Control(gen.name, if gen.ctype == "" then base.ctype else gen.ctype, base.opts + gen.opts, base.inline + gen.inline)
  }

  function MergedControlPtr(base: Option<Control>, gen: Option<Control>): (r: Option<Control>) {
    if base.Some? && gen.Some? then Some(MergedControl(base.value, gen.value)) else gen
  }

  function MergedControls(base: seq<Option<Control>>, gen: seq<Option<Control>>): (r: seq<Option<Control>>) {
    Over(ControlKey, MergedControlPtr, base, gen)
  }

  /** Cells are first collected from the base, so a repeated base id already replaces the earlier one. */
  function MergedCells(base: seq<Option<CellDef>>, gen: seq<Option<CellDef>>): (r: seq<Option<CellDef>>) {
    Over(CellKey, Second, Over(CellKey, Second, [], base), gen)
  }

  function Adopt(base: string, gen: string): (r: string) { if gen != "" then gen else base }

  const MERGE_NOTE := "Merged AI changes into the existing form (no controls removed)."

  /** mergeForm: the show options are not carried over. */
  function MergedForm(base: Form, gen: Form): (r: Form) {
    Form(
      base.name, Adopt(base.title, gen.title), Adopt(base.layout, gen.layout), Adopt(base.align, gen.align),
      if gen.gap.Some? then gen.gap else base.gap,
      MergedCells(base.cells, gen.cells),
      MergedControls(base.controls, gen.controls),
      base.handlers + gen.handlers,
      base.bodies + gen.bodies,
      base.notes + [MERGE_NOTE] + gen.notes,
      false, 0.0, 0.0,
      base.lines, base.indent, base.hasShow, base.orphanKeys)
  }

  function MergedFormPtr(base: Option<Form>, gen: Option<Form>): (r: Option<Form>) {
    if base.Some? && gen.Some? then Some(MergedForm(base.value, gen.value)) else gen
  }

  /** The forms by name: the base's, the last of a repeated name winning, with the generated merged in. */
  function Registry(base: seq<Option<Form>>, gen: seq<Option<Form>>): (r: seq<Option<Form>>) {
    Over(FormKey, MergedFormPtr, Over(FormKey, Second, [], base), gen)
  }

  /** The base's names as listed, then the names only the generated document has. */
  function FormOrder(base: seq<Option<Form>>, gen: seq<Option<Form>>): (r: seq<string>) {
    Named(base) + Fresh(Named(base), Keys(FormKey, gen))
  }

  function Named(forms: seq<Option<Form>>): (r: seq<string>) {
    if forms == [] then []
    else
      var before, last := Named(forms[..|forms| - 1]), FormKey(forms[|forms| - 1]);
      if last == "" then before else before + [last]
  }

  function At(forms: seq<Option<Form>>, name: string): (r: Option<Form>) {
    var f := Lookup(FormKey, forms, name);
    if f.Some? then f.value else None
  }

  function Pick(forms: seq<Option<Form>>, names: seq<string>): (picked: seq<Option<Form>>)
    ensures |picked| == |names|
  {
    seq(|names|, i requires 0 <= i < |names| => At(forms, names[i]))
  }

  function MergedForms(base: seq<Option<Form>>, gen: seq<Option<Form>>): (r: seq<Option<Form>>) {
    Pick(Registry(base, gen), FormOrder(base, gen))
  }

  function FirstName(forms: seq<Option<Form>>): (r: string) { if forms == [] then "" else FormKey(forms[0]) }

  function Notice(name: string): (r: string) { "Added form " + Quote(Go, name) + " from the AI result." }

  function AddedNotes(base: seq<Option<Form>>, gen: seq<Option<Form>>): (r: seq<string>) {
    if gen == [] then []
    else
      var before, name := AddedNotes(base, gen[..|gen| - 1]), FormKey(gen[|gen| - 1]);
      if name == "" || At(base, name).Some? then before
      else before + [Notice(name)]
  }

  /** A nil document gives way to the other one. */
  function Merged(base: Doc, gen: Doc): (r: Doc) {
    var forms := MergedForms(base.forms, gen.forms);
    Doc(DOC_VERSION, forms,
        if base.activeForm == "" then FirstName(forms) else base.activeForm,
        AddedNotes(base.forms, gen.forms))
  }

  // ----- The loops -----

  /** `for k, v := range src { out[k] = v }`, in any iteration order. */
  method CopyInto<V>(out: map<string, V>, src: map<string, V>) returns (all: map<string, V>)
    ensures all == out + src
  {
    all := out;
    var left := src.Keys;
    while left != {}
      invariant left <= src.Keys
      invariant all.Keys == out.Keys + (src.Keys - left)
      invariant forall k :: k in src && k !in left ==> all[k] == src[k]
      invariant forall k :: k in out && (k !in src || k in left) ==> all[k] == out[k]
    {
      var k :| k in left;
      all := all[k := src[k]];
      left := left - {k};
    }
  }

  /** mergeControl. */
  method MergeControl(base: Control, gen: Control) returns (m: Control)
    ensures m == MergedControl(base, gen)
  {
    var opts := CopyInto(map[], base.opts);
    opts := CopyInto(opts, gen.opts);
    var inline := CopyInto(map[], base.inline);
    inline := CopyInto(inline, gen.inline);
    m := Control(gen.name, if gen.ctype == "" then base.ctype else gen.ctype, opts, inline);
  }

  /** index maps each name to the last position holding it. */
  ghost predicate Indexes<T>(key: T -> string, index: map<string, nat>, out: seq<T>) {
    forall n :: n != "" ==>
      (n in index <==> LastIndex(key, out, n) < |out|) && (n in index ==> index[n] == LastIndex(key, out, n))
  }

  lemma {:induction false} LastIndexGrows<T>(key: T -> string, out: seq<T>, c: T, n: string)
    ensures LastIndex(key, out + [c], n) ==
      if key(c) == n then |out| else if LastIndex(key, out, n) == |out| then |out| + 1 else LastIndex(key, out, n)
  {
    assert (out + [c])[..|out|] == out;
  }

  lemma LastIndexKept<T>(key: T -> string, out: seq<T>, i: nat, c: T, n: string)
    requires i < |out| && key(out[i]) == key(c)
    ensures LastIndex(key, out[i := c], n) == LastIndex(key, out, n)
  {
    var j := LastIndex(key, out, n);
    if j < |out| {
      LastIndexIs(key, out[i := c], n, j);
    }
  }

  lemma IndexesGrows<T>(key: T -> string, index: map<string, nat>, out: seq<T>, c: T)
    requires Indexes(key, index, out)
    ensures Indexes(key, index[key(c) := |out|], out + [c])
    ensures key(c) == "" ==> Indexes(key, index, out + [c])
  {
    forall n | n != ""
      ensures LastIndex(key, out + [c], n) ==
        if key(c) == n then |out| else if LastIndex(key, out, n) == |out| then |out| + 1 else LastIndex(key, out, n)
    {
      LastIndexGrows(key, out, c, n);
    }
  }

  lemma IndexesKept<T>(key: T -> string, index: map<string, nat>, out: seq<T>, i: nat, c: T)
    requires Indexes(key, index, out) && i < |out| && key(out[i]) == key(c)
    ensures Indexes(key, index, out[i := c])
  {
    forall n | n != "" ensures LastIndex(key, out[i := c], n) == LastIndex(key, out, n) {
      LastIndexKept(key, out, i, c, n);
    }
  }

  /** The loop of mergeControls over the base. */
  method IndexControls(base: seq<Option<Control>>) returns (out: seq<Option<Control>>, index: map<string, nat>)
    ensures out == base && Indexes(ControlKey, index, out)
  {
    out, index := [], map[];
    for i := 0 to |base|
      invariant out == base[..i] && Indexes(ControlKey, index, out)
    {
      var c := base[i];
      IndexesGrows(ControlKey, index, out, c);
      if c.Some? { index := index[c.value.name := |out|]; }
      out := out + [c];
    }
    assert base[..|base|] == base;
  }

  /** mergeControls. */
  method MergeControls(base: seq<Option<Control>>, gen: seq<Option<Control>>) returns (out: seq<Option<Control>>)
    ensures out == MergedControls(base, gen)
  {
    var index: map<string, nat>;
    out, index := IndexControls(base);
    for i := 0 to |gen|
      invariant out == MergedControls(base, gen[..i]) && Indexes(ControlKey, index, out)
    {
      var c := gen[i];
      assert gen[..i + 1][..i] == gen[..i];
      if c.None? || c.value.name == "" { continue; }
      var name := c.value.name;
      if name in index && out[index[name]].Some? {
        var j := index[name];
        var m := MergeControl(out[j].value, c.value);
        IndexesKept(ControlKey, index, out, j, Some(m));
        out := out[j := Some(m)];
        continue;
      }
      IndexesGrows(ControlKey, index, out, c);
      index := index[name := |out|];
      out := out + [c];
    }
    assert gen[..|gen|] == gen;
  }

  /** One pass of mergeCells over a list of cells, into the ordered ids and the table of cells. */
  method CollectCells(order: seq<string>, byId: map<string, CellDef>, ghost so: seq<Option<CellDef>>, cells: seq<Option<CellDef>>)
    returns (order': seq<string>, byId': map<string, CellDef>)
    requires Tabulates(order, byId, so)
    ensures Tabulates(order', byId', Over(CellKey, Second, so, cells))
  {
    order', byId' := order, byId;
    for i := 0 to |cells|
      invariant Tabulates(order', byId', Over(CellKey, Second, so, cells[..i]))
    {
      var c := cells[i];
      ghost var out := Over(CellKey, Second, so, cells[..i]);
      assert cells[..i + 1][..i] == cells[..i];
      if c.Some? && c.value.id != "" {
        TabulatesStep(order', byId', out, c.value);
        if c.value.id !in byId' { order' := order' + [c.value.id]; }
        byId' := byId'[c.value.id := c.value];
      }
    }
    assert cells[..|cells|] == cells;
  }

  /** order lists the keys of out, and byId holds each cell of it. */
  ghost predicate Tabulates(order: seq<string>, byId: map<string, CellDef>, out: seq<Option<CellDef>>) {
    && order == Keys(CellKey, out) && Distinct(order)
    && (forall id :: id in byId <==> id in order)
    && (forall i :: 0 <= i < |out| ==> out[i].Some? && out[i].value.id in byId && byId[out[i].value.id] == out[i].value)
  }

  lemma TabulatesStep(order: seq<string>, byId: map<string, CellDef>, out: seq<Option<CellDef>>, c: CellDef)
    requires Tabulates(order, byId, out) && c.id != ""
    ensures Tabulates(if c.id in byId then order else order + [c.id], byId[c.id := c], Upsert(CellKey, Second, out, Some(c)))
  {
    InKeys(CellKey, out, c.id);
    var i := LastIndex(CellKey, out, c.id);
    if i < |out| {
      assert Keys(CellKey, out)[i] == c.id;
      assert Keys(CellKey, out[i := Some(c)]) == order;
      forall j | 0 <= j < |out| && j != i ensures out[j].value.id != c.id {
        assert Keys(CellKey, out)[j] != Keys(CellKey, out)[i];
      }
    } else {
      assert Keys(CellKey, out + [Some(c)]) == order + [c.id];
    }
  }

  /** mergeCells. */
  method MergeCells(base: seq<Option<CellDef>>, gen: seq<Option<CellDef>>) returns (out: seq<Option<CellDef>>)
    ensures out == MergedCells(base, gen)
  {
    var order, byId := CollectCells([], map[], [], base);
    order, byId := CollectCells(order, byId, Over(CellKey, Second, [], base), gen);
    ghost var merged := MergedCells(base, gen);
    out := [];
    for i := 0 to |order|
      invariant out == merged[..i]
    {
      assert order[i] == CellKey(merged[i]) && merged[i].Some?;
      out := out + [Some(byId[order[i]])];
    }
  }

  /** mergeForm; mergeStrings and mergeStringSlices copy maps like CopyInto. */
  method MergeForm(base: Form, gen: Form) returns (m: Form)
    ensures m == MergedForm(base, gen)
  {
    var title, layout, align, gap := base.title, base.layout, base.align, base.gap;
    if gen.title != "" { title := gen.title; }
    if gen.layout != "" { layout := gen.layout; }
    if gen.align != "" { align := gen.align; }
    if gen.gap.Some? { gap := gen.gap; }
    var cells := MergeCells(base.cells, gen.cells);
    var controls := MergeControls(base.controls, gen.controls);
    var handlers := MergeMaps(base.handlers, gen.handlers);
    var bodies := MergeMaps(base.bodies, gen.bodies);
    var notes := base.notes + [MERGE_NOTE];
    if |gen.notes| > 0 { notes := notes + gen.notes; }
    m := Form(base.name, title, layout, align, gap, cells, controls, handlers, bodies, notes,
              false, 0.0, 0.0, base.lines, base.indent, base.hasShow, base.orphanKeys);
  }

  method MergeMaps<V>(base: map<string, V>, gen: map<string, V>) returns (m: map<string, V>)
    ensures m == base + gen
  {
    if |gen| == 0 {
      m := base;
    } else if |base| == 0 {
      m := gen;
    } else {
      m := CopyInto(map[], base);
      m := CopyInto(m, gen);
    }
  }

  /** byName holds exactly the forms of reg, under their names. */
  ghost predicate Registers(byName: map<string, Form>, reg: seq<Option<Form>>) {
    && "" !in byName
    && forall n :: n != "" ==> (n in byName <==> At(reg, n).Some?) && (n in byName ==> At(reg, n) == Some(byName[n]))
  }

  function Any<T>(x: T): (r: bool) { true }

  lemma RegistersStep(merge: (Option<Form>, Option<Form>) -> Option<Form>, byName: map<string, Form>, reg: seq<Option<Form>>, g: Form, f: Form)
    requires KeepsKey(FormKey, merge, Any) && Registers(byName, reg) && g.name != ""
    requires if g.name in byName then merge(Some(byName[g.name]), Some(g)) == Some(f) else f == g
    ensures Registers(byName[g.name := f], Upsert(FormKey, merge, reg, Some(g)))
  {
    var up := Upsert(FormKey, merge, reg, Some(g));
    forall n | n != "" ensures At(up, n) == if n == g.name then Some(f) else At(reg, n) {
      UpsertLookup(FormKey, merge, Any, reg, Some(g), n);
      KeyedIsSome(reg, n);
    }
  }

  lemma KeyedIsSome(reg: seq<Option<Form>>, n: string)
    requires n != ""
    ensures Lookup(FormKey, reg, n).Some? ==> Lookup(FormKey, reg, n).value.Some?
  {
  }

  /** The base loop of MergeDocument. */
  method CollectForms(base: seq<Option<Form>>) returns (order: seq<string>, byName: map<string, Form>)
    ensures order == Named(base) && Registers(byName, Over(FormKey, Second, [], base))
  {
    order, byName := [], map[];
    for i := 0 to |base|
      invariant order == Named(base[..i]) && Registers(byName, Over(FormKey, Second, [], base[..i]))
    {
      assert base[..i + 1][..i] == base[..i];
      if base[i].None? || base[i].value.name == "" { continue; }
      var bf := base[i].value;
      RegistersStep(Second, byName, Over(FormKey, Second, [], base[..i]), bf, bf);
      byName := byName[bf.name := bf];
      order := order + [bf.name];
    }
    assert base[..|base|] == base;
  }

  /** One more generated form is appended to the order, unless it has no name or its name is there. */
  lemma OrderStep(base: seq<Option<Form>>, gen: seq<Option<Form>>, g: Option<Form>)
    ensures FormOrder(base, gen + [g]) ==
      if FormKey(g) == "" || FormKey(g) in FormOrder(base, gen) then FormOrder(base, gen) else FormOrder(base, gen) + [FormKey(g)]
  {
    var keys := Keys(FormKey, gen);
    assert (gen + [g])[..|gen|] == gen;
    assert Keys(FormKey, gen + [g]) == keys + [FormKey(g)];
    FreshStep(Named(base), keys, FormKey(g));
    assert Named(base) + (Fresh(Named(base), keys) + [FormKey(g)]) == Named(base) + Fresh(Named(base), keys) + [FormKey(g)];
  }

  /** The body of the generated loop. */
  method LayOverForm(base: seq<Option<Form>>, gen: seq<Option<Form>>, g: Option<Form>, order: seq<string>, byName: map<string, Form>)
    returns (order': seq<string>, byName': map<string, Form>)
    requires order == FormOrder(base, gen) && Registers(byName, Registry(base, gen))
    ensures order' == FormOrder(base, gen + [g]) && Registers(byName', Registry(base, gen + [g]))
  {
    order', byName' := order, byName;
    assert (gen + [g])[..|gen|] == gen;
    OrderStep(base, gen, g);
    if g.None? || g.value.name == "" { return; }
    var gf := g.value;
    RegistryNames(base, gen, gf.name);
    if gf.name in byName {
      var m := MergeForm(byName[gf.name], gf);
      RegistersStep(MergedFormPtr, byName, Registry(base, gen), gf, m);
      byName' := byName[gf.name := m];
      return;
    }
    RegistersStep(MergedFormPtr, byName, Registry(base, gen), gf, gf);
    byName' := byName[gf.name := gf];
    order' := order + [gf.name];
  }

  /** The generated loop: matching names merge, new names are appended. */
  method LayOver(base: seq<Option<Form>>, gen: seq<Option<Form>>, order: seq<string>, byName: map<string, Form>)
    returns (order': seq<string>, byName': map<string, Form>)
    requires order == Named(base) && Registers(byName, Over(FormKey, Second, [], base))
    ensures order' == FormOrder(base, gen) && Registers(byName', Registry(base, gen))
  {
    order', byName' := order, byName;
    assert Keys(FormKey, gen[..0]) == [];
    for i := 0 to |gen|
      invariant order' == FormOrder(base, gen[..i]) && Registers(byName', Registry(base, gen[..i]))
    {
      assert gen[..i + 1][..i] == gen[..i];
      order', byName' := LayOverForm(base, gen[..i], gen[i], order', byName');
      assert gen[..i + 1] == gen[..i] + [gen[i]];
    }
    assert gen[..|gen|] == gen;
  }

  /** The registry's names are the ordered names. */
  lemma RegistryNames(base: seq<Option<Form>>, gen: seq<Option<Form>>, n: string)
    requires n != ""
    ensures At(Registry(base, gen), n).Some? <==> n in FormOrder(base, gen)
  {
    var reg := Over(FormKey, Second, [], base);
    OverKeys(FormKey, Second, Any, [], base);
    OverKeys(FormKey, MergedFormPtr, Any, reg, gen);
    InKeys(FormKey, Registry(base, gen), n);
    KeyedIsSome(Registry(base, gen), n);
    FreshHas([], Keys(FormKey, base), n);
    FreshHas(Keys(FormKey, reg), Keys(FormKey, gen), n);
    FreshHas(Named(base), Keys(FormKey, gen), n);
    NamedHas(base, n);
  }

  lemma {:induction false} NamedHas(forms: seq<Option<Form>>, n: string)
    requires n != ""
    ensures n in Named(forms) <==> n in Keys(FormKey, forms)
  {
    if forms != [] {
      var before := forms[..|forms| - 1];
      NamedHas(before, n);
      assert Keys(FormKey, forms) == Keys(FormKey, before) + [FormKey(forms[|forms| - 1])];
    }
  }

  /** findForm on the base document: some form of that name is there. */
  predicate HasForm(forms: seq<Option<Form>>, name: string) {
    exists f :: f in forms && f.Some? && f.value.name == name
  }

  method ListForms(ghost base: seq<Option<Form>>, ghost gen: seq<Option<Form>>, order: seq<string>, byName: map<string, Form>)
    returns (forms: seq<Option<Form>>)
    requires order == FormOrder(base, gen) && Registers(byName, Registry(base, gen))
    ensures forms == MergedForms(base, gen)
  {
    forms := [];
    for i := 0 to |order|
      invariant forms == Pick(Registry(base, gen), order[..i])
    {
      OrderIsNamed(base, gen, order[i]);
      RegistryNames(base, gen, order[i]);
      forms := forms + [Some(byName[order[i]])];
    }
    assert order[..|order|] == order;
  }

  method NoteAdded(base: seq<Option<Form>>, gen: seq<Option<Form>>) returns (notes: seq<string>)
    ensures notes == AddedNotes(base, gen)
  {
    notes := [];
    for i := 0 to |gen|
      invariant notes == AddedNotes(base, gen[..i])
    {
      assert gen[..i + 1][..i] == gen[..i];
      if gen[i].None? || gen[i].value.name == "" { continue; }
      var name := gen[i].value.name;
      FoundByName(base, name);
      if !HasForm(base, name) {
        notes := notes + [Notice(name)];
      }
    }
    assert gen[..|gen|] == gen;
  }

  /** MergeDocument. */
  method MergeDocument(base: Option<Doc>, gen: Option<Doc>) returns (merged: Option<Doc>)
    ensures base.None? ==> merged == gen
    ensures gen.None? ==> merged == if base.None? then gen else base
    ensures base.Some? && gen.Some? ==> merged == Some(Merged(base.value, gen.value))
  {
    if base.None? { return gen; }
    if gen.None? { return base; }
    var bs, gs := base.value.forms, gen.value.forms;
    var order, byName := CollectForms(bs);
    order, byName := LayOver(bs, gs, order, byName);
    var forms := ListForms(bs, gs, order, byName);
    var notes := NoteAdded(bs, gs);
    var active := base.value.activeForm;
    if active == "" { active := FirstName(forms); }
    merged := Some(Doc(DOC_VERSION, forms, active, notes));
  }

  lemma FoundByName(forms: seq<Option<Form>>, name: string)
    requires name != ""
    ensures HasForm(forms, name) <==> At(forms, name).Some?
  {
    KeyedIsSome(forms, name);
    var i := LastIndex(FormKey, forms, name);
    if i < |forms| {
      assert forms[i] in forms;
    }
  }

  lemma {:induction false} NamesAreSet(forms: seq<Option<Form>>)
    ensures "" !in Named(forms)
  {
    if forms != [] {
      NamesAreSet(forms[..|forms| - 1]);
    }
  }

  lemma OrderIsNamed(base: seq<Option<Form>>, gen: seq<Option<Form>>, n: string)
    requires n in FormOrder(base, gen)
    ensures n != ""
  {
    NamesAreSet(base);
    FreshHas(Named(base), Keys(FormKey, gen), n);
  }

  // ----- Nothing is lost or reordered, on any documents -----

  lemma AnyKeepsKey()
    ensures KeepsKey(ControlKey, MergedControlPtr, Any) && KeepsKey(ControlKey, MergedControlPtr, Live)
    ensures KeepsKey(CellKey, Second, Any)
    ensures KeepsKey(FormKey, Second, Any)
    ensures KeepsKey(FormKey, MergedFormPtr, Any)
  {
  }

  /** The merged document has the base's form names in the base's order, then the new names in the
      generated order; within a merged form the same holds for controls and for cells. */
  lemma MergeKeepsOrder(base: seq<Option<Form>>, gen: seq<Option<Form>>)
    ensures Keys(FormKey, MergedForms(base, gen)) == Named(base) + Fresh(Named(base), Keys(FormKey, gen))
  {
    var order := FormOrder(base, gen);
    forall i | 0 <= i < |order| ensures FormKey(At(Registry(base, gen), order[i])) == order[i] {
      OrderIsNamed(base, gen, order[i]);
      RegistryNames(base, gen, order[i]);
      var reg := Registry(base, gen);
      assert At(reg, order[i]) == reg[LastIndex(FormKey, reg, order[i])];
    }
    assert Keys(FormKey, MergedForms(base, gen)) == order;
  }

  lemma ControlsKeepOrder(base: seq<Option<Control>>, gen: seq<Option<Control>>)
    ensures Keys(ControlKey, MergedControls(base, gen)) ==
      Keys(ControlKey, base) + Fresh(Keys(ControlKey, base), Keys(ControlKey, gen))
  {
    AnyKeepsKey();
    OverKeys(ControlKey, MergedControlPtr, Any, base, gen);
  }

  lemma CellsKeepOrder(base: seq<Option<CellDef>>, gen: seq<Option<CellDef>>)
    ensures Keys(CellKey, MergedCells(base, gen)) ==
      Fresh([], Keys(CellKey, base)) + Fresh(Fresh([], Keys(CellKey, base)), Keys(CellKey, gen))
  {
    AnyKeepsKey();
    OverKeys(CellKey, Second, Any, [], base);
    OverKeys(CellKey, Second, Any, Over(CellKey, Second, [], base), gen);
    assert Keys(CellKey, []) == [];
    assert [] + Fresh([], Keys(CellKey, base)) == Fresh([], Keys(CellKey, base));
  }

  // ----- Valid documents -----

  predicate Live(c: Option<Control>) { c.Some? }

  ghost predicate ValidForm(f: Option<Form>) {
    && f.Some?
    && WellKeyed(ControlKey, Live, f.value.controls)
    && WellKeyed(CellKey, Any, f.value.cells)
  }

  /** Unique, non-empty form, control and cell names. */
  ghost predicate ValidDoc(d: Doc) { WellKeyed(FormKey, ValidForm, d.forms) }

  lemma ValidControls(base: Form, gen: Form)
    requires ValidForm(Some(base)) && ValidForm(Some(gen))
    ensures ValidForm(Some(MergedForm(base, gen)))
    ensures MergedCells(base.cells, gen.cells) == Over(CellKey, Second, base.cells, gen.cells)
  {
    AnyKeepsKey();
    OverWellKeyed(ControlKey, MergedControlPtr, Live, base.controls, gen.controls);
    OverNothing(CellKey, Second, base.cells);
    OverWellKeyed(CellKey, Second, Any, base.cells, gen.cells);
  }

  lemma FormsKeepKey()
    ensures KeepsKey(FormKey, MergedFormPtr, ValidForm)
  {
    forall x, y | ValidForm(x) && ValidForm(y) && FormKey(x) == FormKey(y)
      ensures FormKey(MergedFormPtr(x, y)) == FormKey(y) && ValidForm(MergedFormPtr(x, y))
    {
      ValidControls(x.value, y.value);
    }
  }

  /** On a valid base the registry and the order say one thing: the forms laid over each other. */
  lemma ValidForms(base: seq<Option<Form>>, gen: seq<Option<Form>>)
    requires WellKeyed(FormKey, ValidForm, base) && WellKeyed(FormKey, ValidForm, gen)
    ensures MergedForms(base, gen) == Over(FormKey, MergedFormPtr, base, gen)
    ensures WellKeyed(FormKey, ValidForm, MergedForms(base, gen))
  {
    OverNothing(FormKey, Second, base);
    FormsKeepKey();
    var forms := Over(FormKey, MergedFormPtr, base, gen);
    OverWellKeyed(FormKey, MergedFormPtr, ValidForm, base, gen);
    OverKeys(FormKey, MergedFormPtr, ValidForm, base, gen);
    NamedIsKeys(base);
    PickAll(forms);
  }

  lemma {:induction false} NamedIsKeys(forms: seq<Option<Form>>)
    requires "" !in Keys(FormKey, forms)
    ensures Named(forms) == Keys(FormKey, forms)
  {
    if forms != [] {
      var n := |forms| - 1;
      var ks := Keys(FormKey, forms);
      assert Keys(FormKey, forms[..n]) == ks[..n];
      NamedIsKeys(forms[..n]);
      assert ks[n] in ks;
      assert ks == ks[..n] + [ks[n]];
    }
  }

  lemma PickAll(forms: seq<Option<Form>>)
    requires Distinct(Keys(FormKey, forms))
    ensures Pick(forms, Keys(FormKey, forms)) == forms
  {
    var ks := Keys(FormKey, forms);
    forall i | 0 <= i < |forms| ensures At(forms, ks[i]) == forms[i] {
      forall j | i < j < |forms| ensures FormKey(forms[j]) != ks[i] {
        assert ks[j] != ks[i];
      }
      LastIndexIs(FormKey, forms, ks[i], i);
    }
  }

  // ----- Merging is associative -----

  lemma ControlsAssociate()
    ensures Associates(ControlKey, MergedControlPtr, Live)
  {
    forall x, y, z | Live(x) && Live(y) && Live(z) && ControlKey(x) == ControlKey(y) == ControlKey(z)
      ensures MergedControlPtr(MergedControlPtr(x, y), z) == MergedControlPtr(x, MergedControlPtr(y, z))
    {
      MapsAssociate(x.value.opts, y.value.opts, z.value.opts);
      MapsAssociate(x.value.inline, y.value.inline, z.value.inline);
    }
  }

  lemma MapsAssociate<V>(a: map<string, V>, b: map<string, V>, c: map<string, V>)
    ensures a + b + c == a + (b + c)
  {
  }

  lemma FormsAssociate()
    ensures Associates(FormKey, MergedFormPtr, ValidForm)
  {
    forall x, y, z | ValidForm(x) && ValidForm(y) && ValidForm(z) && FormKey(x) == FormKey(y) == FormKey(z)
      ensures MergedFormPtr(MergedFormPtr(x, y), z) == MergedFormPtr(x, MergedFormPtr(y, z))
    {
      FormAssociates(x.value, y.value, z.value);
    }
  }

  lemma FormAssociates(x: Form, y: Form, z: Form)
    requires ValidForm(Some(x)) && ValidForm(Some(y)) && ValidForm(Some(z))
    ensures MergedForm(MergedForm(x, y), z) == MergedForm(x, MergedForm(y, z))
  {
    AnyKeepsKey();
    ControlsAssociate();
    OverAssociates(ControlKey, MergedControlPtr, Live, x.controls, y.controls, z.controls);
    ValidControls(x, y);
    ValidControls(y, z);
    ValidControls(MergedForm(x, y), z);
    ValidControls(x, MergedForm(y, z));
    OverAssociates(CellKey, Second, Any, x.cells, y.cells, z.cells);
    MapsAssociate(x.handlers, y.handlers, z.handlers);
    MapsAssociate(x.bodies, y.bodies, z.bodies);
    NotesAssociate(x.notes, y.notes, z.notes);
  }

  lemma NotesAssociate(x: seq<string>, y: seq<string>, z: seq<string>)
    ensures (x + [MERGE_NOTE] + y) + [MERGE_NOTE] + z == x + [MERGE_NOTE] + (y + [MERGE_NOTE] + z)
  {
  }

  lemma FirstNameKept(base: seq<Option<Form>>, gen: seq<Option<Form>>)
    requires WellKeyed(FormKey, ValidForm, base) && WellKeyed(FormKey, ValidForm, gen)
    ensures FirstName(MergedForms(base, gen)) == if base == [] then FirstName(gen) else FirstName(base)
  {
    ValidForms(base, gen);
    if base == [] {
      OverNothing(FormKey, MergedFormPtr, gen);
    } else {
      FormsKeepKey();
      OverKeys(FormKey, MergedFormPtr, ValidForm, base, gen);
      assert Keys(FormKey, MergedForms(base, gen))[0] == Keys(FormKey, base)[0];
    }
  }

  /** Merging three valid documents in either grouping gives the same forms, with the same notes in
      each, and the same active form; only the document's own notices differ. */
  lemma MergeAssociates(a: Doc, b: Doc, c: Doc)
    requires ValidDoc(a) && ValidDoc(b) && ValidDoc(c)
    ensures Merged(Merged(a, b), c).(notes := []) == Merged(a, Merged(b, c)).(notes := [])
  {
    ValidForms(a.forms, b.forms);
    ValidForms(b.forms, c.forms);
    ValidForms(Merged(a, b).forms, c.forms);
    ValidForms(a.forms, Merged(b, c).forms);
    FormsKeepKey();
    FormsAssociate();
    OverAssociates(FormKey, MergedFormPtr, ValidForm, a.forms, b.forms, c.forms);
    FirstNameKept(a.forms, b.forms);
    FirstNameKept(b.forms, c.forms);
    FirstNameKept(Merged(a, b).forms, c.forms);
    FirstNameKept(a.forms, Merged(b, c).forms);
    if b.forms == [] && a.forms == [] { OverNothing(FormKey, MergedFormPtr, []); }
  }

  // ----- Merging the same document again changes nothing -----

  /** A form without what merging does not settle: its notes and its show options. */
  function Bare(f: Option<Form>): (r: Option<Form>) {
    if f.None? then None else Some(f.value.(notes := [], modal := false, gapX := 0.0, gapY := 0.0))
  }

  function BareMerge(x: Option<Form>, y: Option<Form>): (r: Option<Form>) { Bare(MergedFormPtr(x, y)) }

  ghost predicate ValidBare(f: Option<Form>) { ValidForm(f) && Bare(f) == f }

  lemma BareForgets()
    ensures Forgets(FormKey, MergedFormPtr, BareMerge, Bare)
  {
  }

  lemma ControlsAbsorb()
    ensures Absorbs(ControlKey, MergedControlPtr, Live)
  {
    forall x, y | Live(x) && Live(y) && ControlKey(x) == ControlKey(y)
      ensures MergedControlPtr(MergedControlPtr(x, y), y) == MergedControlPtr(x, y)
    {
      MapsAbsorb(x.value.opts, y.value.opts);
      MapsAbsorb(x.value.inline, y.value.inline);
    }
    forall y | Live(y) ensures MergedControlPtr(y, y) == y {
      MapsAbsorb(y.value.opts, y.value.opts);
      MapsAbsorb(y.value.inline, y.value.inline);
    }
  }

  lemma MapsAbsorb<V>(a: map<string, V>, b: map<string, V>)
    ensures a + b + b == a + b
    ensures b + b == b
  {
  }

  lemma FormAbsorbs(x: Form, y: Form)
    requires ValidForm(Some(x)) && ValidForm(Some(y))
    ensures Bare(Some(MergedForm(MergedForm(x, y), y))) == Bare(Some(MergedForm(x, y)))
  {
    AnyKeepsKey();
    ControlsAbsorb();
    OverAbsorbs(ControlKey, MergedControlPtr, Live, x.controls, y.controls);
    ValidControls(x, y);
    ValidControls(MergedForm(x, y), y);
    OverAbsorbs(CellKey, Second, Any, x.cells, y.cells);
    MapsAbsorb(x.handlers, y.handlers);
    MapsAbsorb(x.bodies, y.bodies);
  }

  lemma FormOverItself(y: Form)
    requires ValidForm(Some(y))
    ensures Bare(Some(MergedForm(y, y))) == Bare(Some(y))
  {
    AnyKeepsKey();
    ControlsAbsorb();
    OverNothing(ControlKey, MergedControlPtr, y.controls);
    OverAbsorbs(ControlKey, MergedControlPtr, Live, [], y.controls);
    ValidControls(y, y);
    OverNothing(CellKey, Second, y.cells);
    OverAbsorbs(CellKey, Second, Any, [], y.cells);
    MapsAbsorb(y.handlers, y.handlers);
    MapsAbsorb(y.bodies, y.bodies);
  }

  lemma BareFormsAbsorb()
    ensures KeepsKey(FormKey, BareMerge, ValidBare) && Absorbs(FormKey, BareMerge, ValidBare)
  {
    forall x, y | ValidBare(x) && ValidBare(y) && FormKey(x) == FormKey(y)
      ensures FormKey(BareMerge(x, y)) == FormKey(y) && ValidBare(BareMerge(x, y))
      ensures BareMerge(BareMerge(x, y), y) == BareMerge(x, y)
    {
      ValidControls(x.value, y.value);
      FormAbsorbs(x.value, y.value);
      BareTwice(MergedForm(x.value, y.value), y.value);
    }
    forall y | ValidBare(y) ensures BareMerge(y, y) == y {
      FormOverItself(y.value);
    }
  }

  lemma BareTwice(x: Form, y: Form)
    ensures BareMerge(Bare(Some(x)), Some(y)) == BareMerge(Some(x), Some(y))
  {
  }

  lemma BareWellKeyed(forms: seq<Option<Form>>)
    requires WellKeyed(FormKey, ValidForm, forms)
    ensures WellKeyed(FormKey, ValidBare, Map(Bare, forms))
  {
    assert Keys(FormKey, Map(Bare, forms)) == Keys(FormKey, forms);
    forall f | f in Map(Bare, forms) ensures ValidBare(f) {
      var i :| 0 <= i < |forms| && Map(Bare, forms)[i] == f;
      assert forms[i] in forms;
    }
  }

  lemma FirstIsKey(forms: seq<Option<Form>>)
    ensures forms != [] ==> FirstName(forms) in Keys(FormKey, forms)
  {
    if forms != [] {
      assert Keys(FormKey, forms)[0] == FirstName(forms);
    }
  }

  lemma FirstNameEmpty(base: seq<Option<Form>>, gen: seq<Option<Form>>)
    requires MergedForms(base, gen) == []
    requires WellKeyed(FormKey, ValidForm, base) && WellKeyed(FormKey, ValidForm, gen)
    ensures FirstName(gen) == ""
  {
    MergeKeepsOrder(base, gen);
    NamedIsKeys(base);
    FreshHas(Named(base), Keys(FormKey, gen), FirstName(gen));
    assert Named(base) == [];
    FirstIsKey(gen);
  }

  // ----- Each form of a merged document -----

  function FormNamed(d: Doc, form: string): (r: Option<Form>) { At(d.forms, form) }

  function Prefer<V>(gen: Option<V>, base: Option<V>): (r: Option<V>) { if gen.Some? then gen else base }

  lemma FormOfMerge(base: Doc, gen: Doc, form: string)
    requires ValidDoc(base) && ValidDoc(gen) && form != ""
    ensures ValidDoc(Merged(base, gen))
    ensures var b, g := FormNamed(base, form), FormNamed(gen, form);
      && (b.Some? ==> ValidForm(b) && b.value.name == form) && (g.Some? ==> ValidForm(g) && g.value.name == form)
      && FormNamed(Merged(base, gen), form) == if b.Some? && g.Some? then Some(MergedForm(b.value, g.value)) else Prefer(g, b)
  {
    ValidForms(base.forms, gen.forms);
    FormsKeepKey();
    OverLookup(FormKey, MergedFormPtr, ValidForm, base.forms, gen.forms, form);
    LookupValid(FormKey, ValidForm, base.forms, form);
    LookupValid(FormKey, ValidForm, gen.forms, form);
  }

  /** A form merged into once more: another notice, the generated notes again, and no show options. */
  function Again(x: Form, y: Form): (r: Form) {
    x.(notes := x.notes + [MERGE_NOTE] + y.notes, modal := false, gapX := 0.0, gapY := 0.0)
  }

  /** Merging a valid generated document a second time changes no form it does not have, and of each form it
      has only the notes and show options. */
  lemma MergeAgain(a: Doc, g: Doc, form: string)
    requires ValidDoc(a) && ValidDoc(g) && form != ""
    ensures var once, twice, y := FormNamed(Merged(a, g), form), FormNamed(Merged(Merged(a, g), g), form), FormNamed(g, form);
      if y.None? then twice == once else once.Some? && twice == Some(Again(once.value, y.value))
  {
    FormOfMerge(a, g, form);
    FormOfMerge(Merged(a, g), g, form);
    var x, y := FormNamed(a, form), FormNamed(g, form);
    if y.Some? {
      if x.Some? { FormAbsorbs(x.value, y.value); } else { FormOverItself(y.value); }
    }
  }

  function Quiet(f: Option<Form>): (r: Option<Form>) { if f.None? then None else Some(f.value.(notes := [])) }

  /** The forms the generated document adds have default show options. */
  ghost predicate AddsPlain(a: Doc, g: Doc) {
    forall form :: form != "" && FormNamed(a, form).None? && FormNamed(g, form).Some? ==> PlainShow(FormNamed(g, form).value)
  }

  lemma AtOwnKey(forms: seq<Option<Form>>, i: nat)
    requires WellKeyed(FormKey, ValidForm, forms) && i < |forms|
    ensures FormKey(forms[i]) != "" && At(forms, FormKey(forms[i])) == forms[i]
  {
    var ks := Keys(FormKey, forms);
    assert ks[i] in ks;
    PickAll(forms);
    assert Pick(forms, ks)[i] == forms[i];
  }

  lemma SameNames(a: Doc, g: Doc)
    requires ValidDoc(a) && ValidDoc(g)
    ensures ValidDoc(Merged(a, g)) && ValidDoc(Merged(Merged(a, g), g))
    ensures Keys(FormKey, Merged(Merged(a, g), g).forms) == Keys(FormKey, Merged(a, g).forms)
  {
    var once := Merged(a, g).forms;
    ValidForms(a.forms, g.forms);
    ValidForms(once, g.forms);
    MergeKeepsOrder(a.forms, g.forms);
    MergeKeepsOrder(once, g.forms);
    NamedIsKeys(once);
    var more := Fresh(Named(once), Keys(FormKey, g.forms));
    if more != [] {
      FreshHas(Named(once), Keys(FormKey, g.forms), more[0]);
      FreshHas(Named(a.forms), Keys(FormKey, g.forms), more[0]);
    }
    assert Named(once) + [] == Named(once);
  }

  lemma SettledForm(a: Doc, g: Doc, form: string)
    requires ValidDoc(a) && ValidDoc(g) && form != ""
    ensures Quiet(FormNamed(Merged(Merged(a, g), g), form)) == Quiet(FormNamed(Merged(a, g), form)) <==>
      (FormNamed(a, form).None? && FormNamed(g, form).Some? ==> PlainShow(FormNamed(g, form).value))
  {
    MergeAgain(a, g, form);
    FormOfMerge(a, g, form);
  }

  lemma AllSettled(a: Doc, g: Doc)
    requires ValidDoc(a) && ValidDoc(g)
    ensures Map(Quiet, Merged(Merged(a, g), g).forms) == Map(Quiet, Merged(a, g).forms) <==> AddsPlain(a, g)
  {
    var once, twice := Merged(a, g).forms, Merged(Merged(a, g), g).forms;
    SameNames(a, g);
    var ks := Keys(FormKey, once);
    assert |twice| == |Keys(FormKey, twice)| == |once|;
    forall i | 0 <= i < |once|
      ensures ks[i] != "" && At(once, ks[i]) == once[i] && At(twice, ks[i]) == twice[i]
    {
      AtOwnKey(once, i);
      AtOwnKey(twice, i);
      assert FormKey(twice[i]) == Keys(FormKey, twice)[i];
    }
    if AddsPlain(a, g) {
      forall i | 0 <= i < |once| ensures Map(Quiet, twice)[i] == Map(Quiet, once)[i] { SettledForm(a, g, ks[i]); }
    } else {
      var form :| form != "" && FormNamed(a, form).None? && FormNamed(g, form).Some? && !PlainShow(FormNamed(g, form).value);
      SettledForm(a, g, form);
      FormOfMerge(a, g, form);
      var i := LastIndex(FormKey, once, form);
      assert ks[i] == form;
      assert Map(Quiet, twice)[i] != Map(Quiet, once)[i];
    }
  }

  /** Merging a valid generated document a second time keeps the forms in their order, the active form, and
      of every form all but notes and show options; it leaves the show options alone too exactly when every
      form the first merge added had default ones. It adds no form, so it has no notice. */
  lemma MergeTwice(a: Doc, g: Doc)
    requires ValidDoc(a) && ValidDoc(g)
    ensures Keys(FormKey, Merged(Merged(a, g), g).forms) == Keys(FormKey, Merged(a, g).forms)
    ensures Map(Bare, Merged(Merged(a, g), g).forms) == Map(Bare, Merged(a, g).forms)
    ensures Map(Quiet, Merged(Merged(a, g), g).forms) == Map(Quiet, Merged(a, g).forms) <==> AddsPlain(a, g)
    ensures Merged(Merged(a, g), g).activeForm == Merged(a, g).activeForm
    ensures Merged(Merged(a, g), g).notes == []
  {
    SameNames(a, g);
    BareTwiceOver(a, g);
    AllSettled(a, g);
    FirstNameKept(a.forms, g.forms);
    FirstNameKept(Merged(a, g).forms, g.forms);
    if Merged(a, g).forms == [] {
      FirstNameEmpty(a.forms, g.forms);
    }
    if Merged(Merged(a, g), g).notes != [] {
      AddedAre(Merged(a, g).forms, g.forms, Merged(Merged(a, g), g).notes[0]);
      var name :| Adds(Merged(a, g).forms, g.forms, name);
      FormOfMerge(a, g, name);
      InKeys(FormKey, g.forms, name);
      KeyedIsSome(g.forms, name);
    }
  }

  lemma BareTwiceOver(a: Doc, g: Doc)
    requires ValidDoc(a) && ValidDoc(g)
    ensures Map(Bare, Merged(Merged(a, g), g).forms) == Map(Bare, Merged(a, g).forms)
  {
    ValidForms(a.forms, g.forms);
    ValidForms(Merged(a, g).forms, g.forms);
    BareForgets();
    OverForgets(FormKey, MergedFormPtr, BareMerge, Bare, a.forms, g.forms);
    OverForgets(FormKey, MergedFormPtr, BareMerge, Bare, Merged(a, g).forms, g.forms);
    BareFormsAbsorb();
    BareWellKeyed(a.forms);
    BareWellKeyed(g.forms);
    OverAbsorbs(FormKey, BareMerge, ValidBare, Map(Bare, a.forms), Map(Bare, g.forms));
  }

  // ----- What is not carried over -----

  /** The show options of a form. */
  function ShowOf(f: Form): (r: (bool, real, real)) { (f.modal, f.gapX, f.gapY) }

  /** A form of either document keeps its show options exactly when the other document has no form of its
      name, or they are the default ones. */
  lemma ShowOptionsKeptIff(base: Doc, gen: Doc, form: string)
    requires ValidDoc(base) && ValidDoc(gen) && form != ""
    ensures var m, b, g := FormNamed(Merged(base, gen), form), FormNamed(base, form), FormNamed(gen, form);
      && (b.Some? ==> m.Some? && (ShowOf(m.value) == ShowOf(b.value) <==> g.None? || PlainShow(b.value)))
      && (g.Some? ==> m.Some? && (ShowOf(m.value) == ShowOf(g.value) <==> b.None? || PlainShow(g.value)))
  {
    FormOfMerge(base, gen, form);
  }

  /** The generated document adds a form of this name. */
  predicate Adds(base: seq<Option<Form>>, gen: seq<Option<Form>>, name: string) {
    name != "" && name in Keys(FormKey, gen) && At(base, name).None?
  }

  ghost predicate IsNotice(base: seq<Option<Form>>, gen: seq<Option<Form>>, note: string) {
    exists name :: Adds(base, gen, name) && note == Notice(name)
  }

  lemma {:induction false} AddedAre(base: seq<Option<Form>>, gen: seq<Option<Form>>, note: string)
    ensures note in AddedNotes(base, gen) <==> IsNotice(base, gen, note)
  {
    if gen != [] {
      var before, last := gen[..|gen| - 1], FormKey(gen[|gen| - 1]);
      AddedAre(base, before, note);
      assert Keys(FormKey, gen) == Keys(FormKey, before) + [last];
      if IsNotice(base, before, note) {
        var name :| Adds(base, before, name) && note == Notice(name);
        assert Adds(base, gen, name);
      }
      if IsNotice(base, gen, note) && note !in AddedNotes(base, before) {
        var name :| Adds(base, gen, name) && note == Notice(name);
        assert name == last by { assert Adds(base, before, name) || name == last; }
      }
      if last != "" && At(base, last).None? { assert Adds(base, gen, last); }
    }
  }

  /** The document's own notes, the base's and the generated one's alike, are lost but for those that happen
      to be notices of a form added; when none is added the merged document has no notes. */
  lemma DocumentNotesSurviveIff(base: Doc, gen: Doc, note: string)
    ensures note in Merged(base, gen).notes <==> IsNotice(base.forms, gen.forms, note)
    ensures (forall n :: n in base.notes ==> n in Merged(base, gen).notes) <==>
      (forall n :: n in base.notes ==> IsNotice(base.forms, gen.forms, n))
    ensures (forall name :: !Adds(base.forms, gen.forms, name)) ==> Merged(base, gen).notes == []
  {
    AddedAre(base.forms, gen.forms, note);
    forall n ensures n in Merged(base, gen).notes <==> IsNotice(base.forms, gen.forms, n) {
      AddedAre(base.forms, gen.forms, n);
    }
    var notes := Merged(base, gen).notes;
    if notes != [] { assert notes[0] in notes; }
  }

  // ----- Generated values win, base values survive -----

  function ControlNamed(f: Option<Form>, control: string): (r: Option<Control>) {
    if f.None? then None
    else
      var c := Lookup(ControlKey, f.value.controls, control);
      if c.Some? then c.value else None
  }

  function CellNamed(f: Option<Form>, id: string): (r: Option<CellDef>) {
    if f.None? then None
    else
      var c := Lookup(CellKey, f.value.cells, id);
      if c.Some? then c.value else None
  }

  function Get<V>(m: map<string, V>, k: string): (r: Option<V>) { if k in m then Some(m[k]) else None }

  /** The option of a control, its inline handler text, and its type: empty when there is none. */
  function OptionOf(c: Option<Control>, k: string): (r: Option<Json>) { if c.None? then None else Get(c.value.opts, k) }

  function InlineOf(c: Option<Control>, k: string): (r: Option<string>) { if c.None? then None else Get(c.value.inline, k) }

  function TypeOf(c: Option<Control>): (r: string) { if c.None? then "" else c.value.ctype }

  /** The captured handler body of a form, and its list of events for a control. */
  function BodyOf(f: Option<Form>, k: string): (r: Option<string>) { if f.None? then None else Get(f.value.bodies, k) }

  function EventsOf(f: Option<Form>, control: string): (r: Option<seq<string>>) { if f.None? then None else Get(f.value.handlers, control) }

  /** The scaffold of a form: its title, layout, alignment (empty when not set) and gap. */
  function ScaffoldAt(d: Doc, form: string): (r: (string, string, string, Option<int>)) {
    var f := FormNamed(d, form);
    if f.None? then ("", "", "", None) else (f.value.title, f.value.layout, f.value.align, f.value.gap)
  }

  /** In every control of the merged document, option by option and for inline text and type, the generated
      document is followed, and the base where the generated one is silent. */
  lemma GeneratedWins(base: Doc, gen: Doc, form: string, control: string, k: string)
    requires ValidDoc(base) && ValidDoc(gen) && form != "" && control != ""
    ensures var m := ControlNamed(FormNamed(Merged(base, gen), form), control);
      var g, b := ControlNamed(FormNamed(gen, form), control), ControlNamed(FormNamed(base, form), control);
      && OptionOf(m, k) == Prefer(OptionOf(g, k), OptionOf(b, k))
      && InlineOf(m, k) == Prefer(InlineOf(g, k), InlineOf(b, k))
      && TypeOf(m) == Adopt(TypeOf(b), TypeOf(g))
  {
    ControlOfMerge(base, gen, form, control);
    ControlWins(ControlNamed(FormNamed(Merged(base, gen), form), control),
      ControlNamed(FormNamed(gen, form), control), ControlNamed(FormNamed(base, form), control), k);
  }

  lemma ControlWins(m: Option<Control>, g: Option<Control>, b: Option<Control>, k: string)
    requires m == if b.Some? && g.Some? then Some(MergedControl(b.value, g.value)) else Prefer(g, b)
    ensures OptionOf(m, k) == Prefer(OptionOf(g, k), OptionOf(b, k))
    ensures InlineOf(m, k) == Prefer(InlineOf(g, k), InlineOf(b, k))
    ensures TypeOf(m) == Adopt(TypeOf(b), TypeOf(g))
  {
  }

  lemma ControlOfMerge(base: Doc, gen: Doc, form: string, control: string)
    requires ValidDoc(base) && ValidDoc(gen) && form != "" && control != ""
    ensures var b, g := ControlNamed(FormNamed(base, form), control), ControlNamed(FormNamed(gen, form), control);
      ControlNamed(FormNamed(Merged(base, gen), form), control) ==
        if b.Some? && g.Some? then Some(MergedControl(b.value, g.value)) else Prefer(g, b)
  {
    FormOfMerge(base, gen, form);
    var b, g := FormNamed(base, form), FormNamed(gen, form);
    if b.Some? && g.Some? {
      ControlsPrefer(b.value, g.value, control);
    }
  }

  /** The same for the handlers of a form: their bodies by key, their events by control. */
  lemma GeneratedHandlersWin(base: Doc, gen: Doc, form: string, control: string, k: string)
    requires ValidDoc(base) && ValidDoc(gen) && form != ""
    ensures var m, g, b := FormNamed(Merged(base, gen), form), FormNamed(gen, form), FormNamed(base, form);
      && BodyOf(m, k) == Prefer(BodyOf(g, k), BodyOf(b, k))
      && EventsOf(m, control) == Prefer(EventsOf(g, control), EventsOf(b, control))
  {
    FormOfMerge(base, gen, form);
  }

  /** And for its cells by id and its scaffold. */
  lemma GeneratedScaffoldWins(base: Doc, gen: Doc, form: string, cell: string)
    requires ValidDoc(base) && ValidDoc(gen) && form != "" && cell != ""
    ensures CellNamed(FormNamed(Merged(base, gen), form), cell) ==
      Prefer(CellNamed(FormNamed(gen, form), cell), CellNamed(FormNamed(base, form), cell))
    ensures var (m, g, b) := (ScaffoldAt(Merged(base, gen), form), ScaffoldAt(gen, form), ScaffoldAt(base, form));
      && m.0 == Adopt(b.0, g.0) && m.1 == Adopt(b.1, g.1) && m.2 == Adopt(b.2, g.2) && m.3 == Prefer(g.3, b.3)
  {
    FormOfMerge(base, gen, form);
    var b, g := FormNamed(base, form), FormNamed(gen, form);
    if b.Some? && g.Some? {
      ValidControls(b.value, g.value);
      AnyKeepsKey();
      OverLookup(CellKey, Second, Any, b.value.cells, g.value.cells, cell);
    }
  }

  lemma ControlsPrefer(b: Form, g: Form, control: string)
    requires ValidForm(Some(b)) && ValidForm(Some(g)) && control != ""
    ensures ControlNamed(Some(MergedForm(b, g)), control) ==
      var x, y := ControlNamed(Some(b), control), ControlNamed(Some(g), control);
      if x.Some? && y.Some? then Some(MergedControl(x.value, y.value)) else Prefer(y, x)
  {
    AnyKeepsKey();
    OverLookup(ControlKey, MergedControlPtr, Live, b.controls, g.controls, control);
    LookupValid(ControlKey, Live, b.controls, control);
    LookupValid(ControlKey, Live, g.controls, control);
  }
}
