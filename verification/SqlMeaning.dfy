/** What a statement built by the repository means to a database, whichever rows it holds and however it
    compares values: its text is read, and its placeholders bound to its parameters. */
module SqlMeaning {
  import opened Text
  import opened SqlText

  type Row = map<string, Value>

  /** How the database compares a cell with a parameter. */
  type Test = (Value, Op, Value) -> bool

  function Cell(row: Row, col: string): (r: Value) { if col in row then row[col] else Null }

  // ----- Conditions -----

  function Param(params: seq<Value>, at: nat): (r: Option<Value>) {
    if 1 <= at <= |params| then Some(params[at - 1]) else None
  }

  predicate IsOneOf(test: Test, cell: Value, params: seq<Value>, places: seq<nat>) {
    && places != []
    && Param(params, places[0]).Some?
    && (test(cell, Eq, Param(params, places[0]).value) || IsOneOf(test, cell, params, places[1..]))
  }

  predicate CondHolds(test: Test, row: Row, params: seq<Value>, c: Cond) {
    match c
    case Compared(col, op, at) => Param(params, at).Some? && test(Cell(row, col), op, Param(params, at).value)
    case Amongst(col, places) => IsOneOf(test, Cell(row, col), params, places)
    case False => false
  }

  predicate Selects(test: Test, row: Row, params: seq<Value>, conds: seq<Cond>) {
    conds == [] || (CondHolds(test, row, params, conds[0]) && Selects(test, row, params, conds[1..]))
  }

  predicate AnyEqual(test: Test, cell: Value, vs: seq<Value>) {
    vs != [] && (test(cell, Eq, vs[0]) || AnyEqual(test, cell, vs[1..]))
  }

  predicate ClauseHolds(test: Test, row: Row, c: Clause) {
    match c
    case Compare(col, op, v) => test(Cell(row, col), op, v)
    case Among(col, vs) => AnyEqual(test, Cell(row, col), vs)
    case Never => false
  }

  predicate AllHold(test: Test, row: Row, cs: seq<Clause>) {
    cs == [] || (ClauseHolds(test, row, cs[0]) && AllHold(test, row, cs[1..]))
  }

  lemma {:induction false} AmongHolds(test: Test, cell: Value, before: seq<Value>, vs: seq<Value>, after: seq<Value>)
    ensures IsOneOf(test, cell, before + vs + after, Places(|before| + 1, |vs|)) <==> AnyEqual(test, cell, vs)
    decreases |vs|
  {
    if vs != [] {
      var params := before + vs + after;
      assert params[|before|] == vs[0];
      assert (before + [vs[0]]) + vs[1..] + after == params;
      AmongHolds(test, cell, before + [vs[0]], vs[1..], after);
      PlacesFirst(|before| + 1, |vs|);
      assert Places(|before| + 1, |vs|)[1..] == Places(|before| + 2, |vs| - 1);
    }
  }

  lemma NumberedHolds(test: Test, row: Row, before: seq<Value>, c: Clause, after: seq<Value>)
    ensures CondHolds(test, row, before + ClauseValues(c) + after, Numbered(c, |before| + 1)) <==> ClauseHolds(test, row, c)
  {
    match c {
      case Compare(col, op, v) => assert (before + [v] + after)[|before|] == v;
      case Among(col, vs) => AmongHolds(test, Cell(row, col), before, vs, after);
      case Never =>
    }
  }

  /** Each placeholder is bound to its own value, wherever the values stand among the parameters. */
  lemma {:induction false} SelectsIff(test: Test, row: Row, before: seq<Value>, cs: seq<Clause>, after: seq<Value>)
    ensures Selects(test, row, before + AllValues(cs) + after, AllNumbered(cs, |before| + 1)) <==> AllHold(test, row, cs)
    decreases |cs|
  {
    if cs != [] {
      var vs, rest := ClauseValues(cs[0]), AllValues(cs[1..]);
      NumberedHolds(test, row, before, cs[0], rest + after);
      SelectsIff(test, row, before + vs, cs[1..], after);
      Reassociated(before, vs, rest, after);
      FirstNumbered(cs, |before| + 1);
    }
  }

  lemma Reassociated(a: seq<Value>, b: seq<Value>, c: seq<Value>, d: seq<Value>)
    ensures a + (b + c) + d == a + b + (c + d) == (a + b) + c + d
  {
  }

  lemma FirstNumbered(cs: seq<Clause>, n: nat)
    requires cs != []
    ensures AllNumbered(cs, n) == [Numbered(cs[0], n)] + AllNumbered(cs[1..], n + |ClauseValues(cs[0])|)
    ensures AllNumbered(cs, n)[0] == Numbered(cs[0], n) && AllNumbered(cs, n)[1..] == AllNumbered(cs[1..], n + |ClauseValues(cs[0])|)
  {
  }

  function CondPlaces(c: Cond): (r: seq<nat>) {
    match c
    case Compared(_, _, at) => [at]
    case Amongst(_, places) => places
    case False => []
  }

  function AllPlaces(conds: seq<Cond>): (r: seq<nat>) {
    if conds == [] then [] else CondPlaces(conds[0]) + AllPlaces(conds[1..])
  }

  /** The placeholders run from n on, one for each value, without gap or repeat. */
  lemma {:induction false} PlacesRun(cs: seq<Clause>, n: nat)
    ensures AllPlaces(AllNumbered(cs, n)) == Places(n, |AllValues(cs)|)
    decreases |cs|
  {
    if cs != [] {
      var k := |ClauseValues(cs[0])|;
      PlacesRun(cs[1..], n + k);
      FirstNumbered(cs, n);
      assert CondPlaces(Numbered(cs[0], n)) == Places(n, k);
      assert Places(n, k) + Places(n + k, |AllValues(cs[1..])|) == Places(n, |AllValues(cs)|);
    }
  }

  // ----- SET lists -----

  type Sets = seq<(string, Value)>

  function SetTexts(d: Driver, sets: Sets, n: nat): (texts: seq<string>)
    ensures |texts| == |sets|
    decreases |sets|
  {
    if sets == [] then [] else [sets[0].0 + " = " + Placeholder(d, n)] + SetTexts(d, sets[1..], n + 1)
  }

  function SetValues(sets: Sets): (vs: seq<Value>)
    ensures |vs| == |sets| && forall i :: 0 <= i < |sets| ==> vs[i] == sets[i].1
  {
    seq(|sets|, i requires 0 <= i < |sets| => sets[i].1)
  }

  /** The columns assigned, each with the position of its parameter, and the words after the list. */
  function ReadSets(d: Driver, words: seq<string>, next: nat): (r: Option<(seq<(string, nat)>, seq<string>)>)
    ensures r.Some? ==> |r.value.1| < |words|
    decreases |words|
  {
    if |words| < 3 || words[1] != "=" || words[2] == "" then None
    else
      var w, n := words[2], |words[2]| - 1;
      if w[n] != ',' then
        var at := ReadPlaceholder(d, w, next);
        if at.None? then None else Some(([(words[0], at.value)], words[3..]))
      else
        var at, rest := ReadPlaceholder(d, w[..n], next), ReadSets(d, words[3..], next + 1);
        if at.None? || rest.None? then None else Some(([(words[0], at.value)] + rest.value.0, rest.value.1))
  }

  function SetWords(d: Driver, sets: Sets, n: nat): (r: seq<string>) {
    if sets == [] then []
    else if |sets| == 1 then [sets[0].0, "=", Placeholder(d, n)]
    else [sets[0].0, "=", Placeholder(d, n) + ","] + SetWords(d, sets[1..], n + 1)
  }

  predicate AllIdentifiers(sets: Sets) { forall i :: 0 <= i < |sets| ==> IsValidIdentifier(sets[i].0) }

  function NumberedSets(sets: Sets, n: nat): (r: seq<(string, nat)>)
    ensures |r| == |sets| && forall i :: 0 <= i < |sets| ==> r[i] == (sets[i].0, n + i)
  {
    seq(|sets|, i requires 0 <= i < |sets| => (sets[i].0, n + i))
  }

  lemma {:induction false} SetsRead(d: Driver, sets: Sets, n: nat, rest: seq<string>)
    requires sets != []
    ensures ReadSets(d, SetWords(d, sets, n) + rest, n) == Some((NumberedSets(sets, n), rest))
    decreases |sets|
  {
    PlaceholderReads(d, n);
    if |sets| == 1 {
      LastSet(d, sets[0].0, Placeholder(d, n), n, rest);
      assert NumberedSets(sets, n) == [(sets[0].0, n)];
    } else {
      var more := SetWords(d, sets[1..], n + 1);
      SetsRead(d, sets[1..], n + 1, rest);
      AnotherSet(d, sets[0].0, Placeholder(d, n), n, more + rest, NumberedSets(sets[1..], n + 1), rest);
      Assoc([sets[0].0, "=", Placeholder(d, n) + ","], more, rest);
      NumberedSetsFirst(sets, n);
    }
  }

  lemma NumberedSetsFirst(sets: Sets, n: nat)
    requires sets != []
    ensures NumberedSets(sets, n) == [(sets[0].0, n)] + NumberedSets(sets[1..], n + 1)
  {
  }

  lemma LastSet(d: Driver, col: string, ph: string, n: nat, rest: seq<string>)
    requires ph == Placeholder(d, n)
    ensures ReadSets(d, [col, "=", ph] + rest, n) == Some(([(col, n)], rest))
  {
    PlaceholderReads(d, n);
    PlaceholderEnd(d, n);
    var words := [col, "=", ph] + rest;
    assert words[3..] == rest && words[2] == ph;
  }

  lemma PlaceholderEnd(d: Driver, n: nat)
    ensures |Placeholder(d, n)| > 0 && Placeholder(d, n)[|Placeholder(d, n)| - 1] != ','
  {
    var digits := NatText(n);
    assert digits[|digits| - 1] in digits && !IsDigit(',');
  }

  lemma AnotherSet(d: Driver, col: string, ph: string, n: nat, more: seq<string>, sets: seq<(string, nat)>, rest: seq<string>)
    requires ReadPlaceholder(d, ph, n) == Some(n) && ReadSets(d, more, n + 1) == Some((sets, rest))
    ensures ReadSets(d, [col, "=", ph + ","] + more, n) == Some(([(col, n)] + sets, rest))
  {
    var words, w := [col, "=", ph + ","] + more, ph + ",";
    assert w[..|w| - 1] == ph && words[3..] == more && words[2] == w;
  }

  lemma {:induction false} SetsAreWords(d: Driver, sets: Sets, n: nat)
    requires sets != []
    ensures Join(SetTexts(d, sets, n), ", ") == Join(SetWords(d, sets, n), " ")
    decreases |sets|
  {
    var col, ph, texts := sets[0].0, Placeholder(d, n), SetTexts(d, sets[1..], n + 1);
    if |sets| == 1 {
      assert texts == [];
      ThreeWords(col, "=", ph);
      assert col + " = " + ph == col + " " + "=" + " " + ph;
    } else {
      var words := SetWords(d, sets[1..], n + 1);
      SetsAreWords(d, sets[1..], n + 1);
      assert ([col + " = " + ph] + texts)[1..] == texts;
      JoinMore([col, "=", ph + ","], words, " ");
      ThreeWords(col, "=", ph + ",");
      SetComma(col, ph, Join(words, " "));
    }
  }

  lemma SetComma(col: string, ph: string, rest: string)
    ensures col + " = " + ph + ", " + rest == (col + " " + "=" + " " + (ph + ",")) + (" " + rest)
  {
  }

  lemma {:induction false} SetNoSpaces(d: Driver, sets: Sets, n: nat)
    requires AllIdentifiers(sets)
    ensures NoSpaces(SetWords(d, sets, n))
    decreases |sets|
  {
    if sets != [] {
      IdentifierIsWord(sets[0].0);
      PlaceholderReads(d, n);
      SetNoSpaces(d, sets[1..], n + 1);
    }
  }

  /** The assignments as bound. */
  function Assign(row: Row, sets: seq<(string, nat)>, params: seq<Value>): (r: Row) {
    if sets == [] then row
    else
      var before := Assign(row, sets[..|sets| - 1], params);
      var (col, at) := sets[|sets| - 1];
      if Param(params, at).Some? then before[col := Param(params, at).value] else before
  }

  function AssignAll(row: Row, sets: Sets): (r: Row) {
    if sets == [] then row else AssignAll(row, sets[..|sets| - 1])[sets[|sets| - 1].0 := sets[|sets| - 1].1]
  }

  lemma {:induction false} AssignsOwn(row: Row, before: seq<Value>, sets: Sets, after: seq<Value>)
    ensures Assign(row, NumberedSets(sets, |before| + 1), before + SetValues(sets) + after) == AssignAll(row, sets)
    decreases |sets|
  {
    if sets != [] {
      var last := |sets| - 1;
      AssignsOwn(row, before, sets[..last], [sets[last].1] + after);
      assert SetValues(sets) == SetValues(sets[..last]) + [sets[last].1];
      Reassociated(before, SetValues(sets[..last]), [sets[last].1], after);
      assert NumberedSets(sets, |before| + 1)[..last] == NumberedSets(sets[..last], |before| + 1);
      assert (before + SetValues(sets) + after)[|before| + last] == sets[last].1;
    }
  }

  // ----- Whole statements -----

  datatype Statement =
    | Update(table: string, sets: seq<(string, nat)>, conds: seq<Cond>)
    | Delete(table: string, conds: seq<Cond>)
    | Insert(table: string, sets: seq<(string, nat)>)

  /** The end of a statement: a WHERE or nothing. */
  function ReadTail(d: Driver, words: seq<string>, next: nat): (r: Option<seq<Cond>>) {
    var where := ReadWhere(d, words, next);
    if where.None? || where.value.1 != [] then None else Some(where.value.0)
  }

  function ReadUpdate(d: Driver, words: seq<string>): (r: Option<Statement>) {
    if |words| < 3 || words[2] != "SET" then None
    else
      var sets := ReadSets(d, words[3..], 1);
      if sets.None? then None
      else
        var conds := ReadTail(d, sets.value.1, 1 + |sets.value.0|);
        if conds.None? then None else Some(Update(words[1], sets.value.0, conds.value))
  }

  function ReadDelete(d: Driver, words: seq<string>): (r: Option<Statement>) {
    if |words| < 3 || words[1] != "FROM" then None
    else
      var conds := ReadTail(d, words[3..], 1);
      if conds.None? then None else Some(Delete(words[2], conds.value))
  }

  /** A list of names up to its closing parenthesis, and the words after it. */
  function ReadNames(words: seq<string>): (r: Option<(seq<string>, seq<string>)>)
    ensures r.Some? ==> |r.value.1| < |words|
    decreases |words|
  {
    if words == [] || words[0] == "" then None
    else
      var w, n := words[0], |words[0]| - 1;
      if w[n] == ')' then Some(([w[..n]], words[1..]))
      else if w[n] != ',' then None
      else
        var rest := ReadNames(words[1..]);
        if rest.None? then None else Some(([w[..n]] + rest.value.0, rest.value.1))
  }

  function Opened(words: seq<string>): (r: Option<seq<string>>) {
    if words == [] || words[0] == "" || words[0][0] != '(' then None else Some([words[0][1..]] + words[1..])
  }

  function ReadInsert(d: Driver, words: seq<string>): (r: Option<Statement>) {
    if |words| < 3 || words[1] != "INTO" || Opened(words[3..]).None? then None
    else
      var names := ReadNames(Opened(words[3..]).value);
      if names.None? then None
      else
        var rest := names.value.1;
        if rest == [] || rest[0] != "VALUES" || Opened(rest[1..]).None? then None
        else
          var places := ReadList(d, Opened(rest[1..]).value, 1);
          if places.None? || places.value.1 != [] || |places.value.0| != |names.value.0| then None
          else Some(Insert(words[2], Zip(names.value.0, places.value.0)))
  }

  function Zip(names: seq<string>, places: seq<nat>): (r: seq<(string, nat)>)
    requires |names| == |places|
    ensures |r| == |names| && forall i :: 0 <= i < |names| ==> r[i] == (names[i], places[i])
  {
    seq(|names|, i requires 0 <= i < |names| => (names[i], places[i]))
  }

  function ReadStatement(d: Driver, text: string): (r: Option<Statement>) {
    var words := Split(text, ' ');
    if words[0] == "UPDATE" then ReadUpdate(d, words)
    else if words[0] == "DELETE" then ReadDelete(d, words)
    else if words[0] == "INSERT" then ReadInsert(d, words)
    else None
  }

  lemma TailReads(d: Driver, cs: seq<Clause>, n: nat)
    requires AllProper(cs)
    ensures ReadTail(d, WherePart(d, cs, n), n) == Some(AllNumbered(cs, n))
    ensures NoSpaces(WherePart(d, cs, n))
  {
    WhereReads(d, cs, n, []);
    WhereIsPart(d, cs, n);
    assert WherePart(d, cs, n) + [] == WherePart(d, cs, n);
  }

  /** A statement's text up to its WHERE, then the WHERE, as words. */
  lemma TailText(d: Driver, words: seq<string>, cs: seq<Clause>, n: nat)
    requires words != [] && AllProper(cs)
    ensures Join(words, " ") + WhereText(ClauseTexts(d, cs, n)) == Join(words + WherePart(d, cs, n), " ")
  {
    WhereIsPart(d, cs, n);
    if cs == [] {
      assert words + [] == words;
    } else {
      JoinMore(words, WherePart(d, cs, n), " ");
    }
  }

  function UpdateFormat(table: string, sets: string, where: string): (r: string) { "UPDATE " + table + " SET " + sets + where }

  function UpdateText(d: Driver, table: string, sets: Sets, cs: seq<Clause>): (r: string) {
    UpdateFormat(table, Join(SetTexts(d, sets, 1), ", "), WhereText(ClauseTexts(d, cs, 1 + |sets|)))
  }

  function UpdateWords(d: Driver, table: string, sets: Sets, cs: seq<Clause>): (r: seq<string>)
    requires AllProper(cs)
  {
    ["UPDATE", table, "SET"] + SetWords(d, sets, 1) + WherePart(d, cs, 1 + |sets|)
  }

  lemma UpdateSplits(d: Driver, table: string, sets: Sets, cs: seq<Clause>)
    requires IsWord(table) && sets != [] && AllIdentifiers(sets) && AllProper(cs)
    ensures Split(UpdateText(d, table, sets, cs), ' ') == UpdateWords(d, table, sets, cs)
  {
    var head := ["UPDATE", table, "SET"];
    SetNoSpaces(d, sets, 1);
    TailReads(d, cs, 1 + |sets|);
    NoSpacesMore(head, SetWords(d, sets, 1));
    NoSpacesMore(head + SetWords(d, sets, 1), WherePart(d, cs, 1 + |sets|));
    UpdateIsWords(d, table, sets, cs);
    SplitJoin(UpdateWords(d, table, sets, cs));
  }

  lemma UpdateWordsRead(d: Driver, table: string, sets: Sets, cs: seq<Clause>)
    requires sets != [] && AllProper(cs)
    ensures ReadUpdate(d, UpdateWords(d, table, sets, cs)) == Some(Update(table, NumberedSets(sets, 1), AllNumbered(cs, 1 + |sets|)))
  {
    TailReads(d, cs, 1 + |sets|);
    SetsRead(d, sets, 1, WherePart(d, cs, 1 + |sets|));
    UpdateFrom(d, table, SetWords(d, sets, 1), WherePart(d, cs, 1 + |sets|), NumberedSets(sets, 1), AllNumbered(cs, 1 + |sets|));
  }

  /** An UPDATE is read back whole: the numbering runs on from the SET list into the WHERE. */
  lemma UpdateReads(d: Driver, table: string, sets: Sets, cs: seq<Clause>)
    requires IsWord(table) && sets != [] && AllIdentifiers(sets) && AllProper(cs)
    ensures ReadStatement(d, UpdateText(d, table, sets, cs)) ==
      Some(Update(table, NumberedSets(sets, 1), AllNumbered(cs, 1 + |sets|)))
  {
    UpdateSplits(d, table, sets, cs);
    UpdateWordsRead(d, table, sets, cs);
    assert UpdateWords(d, table, sets, cs)[0] == "UPDATE";
  }

  /** An UPDATE without assignments is no statement. */
  lemma EmptyUpdateFails(d: Driver, table: string, cs: seq<Clause>)
    requires IsWord(table) && AllProper(cs)
    ensures ReadStatement(d, UpdateText(d, table, [], cs)) == None
  {
    var tail := WherePart(d, cs, 1);
    EmptyUpdateText(d, table, cs);
    TailReads(d, cs, 1);
    EmptyUpdateSplits(table, tail);
    EmptySets(d, table, tail, cs, ["UPDATE", table, "SET"] + [""] + tail);
  }

  lemma EmptyUpdateText(d: Driver, table: string, cs: seq<Clause>)
    requires AllProper(cs)
    ensures UpdateText(d, table, [], cs) == Join(["UPDATE", table, "SET"] + [""] + WherePart(d, cs, 1), " ")
  {
    UpdateHead(table, [""]);
    TailText(d, ["UPDATE", table, "SET"] + [""], cs, 1);
    assert SetTexts(d, [], 1) == [];
  }

  lemma EmptyUpdateSplits(table: string, tail: seq<string>)
    requires IsWord(table) && NoSpaces(tail)
    ensures Split(Join(["UPDATE", table, "SET"] + [""] + tail, " "), ' ') == ["UPDATE", table, "SET"] + [""] + tail
  {
    assert ' ' !in "UPDATE" && ' ' !in "SET";
    NoSpacesMore(["UPDATE", table, "SET"], [""]);
    NoSpacesMore(["UPDATE", table, "SET"] + [""], tail);
    SplitJoin(["UPDATE", table, "SET"] + [""] + tail);
  }

  lemma EmptySets(d: Driver, table: string, tail: seq<string>, cs: seq<Clause>, words: seq<string>)
    requires AllProper(cs) && tail == WherePart(d, cs, 1) && words == ["UPDATE", table, "SET"] + [""] + tail
    ensures ReadUpdate(d, words) == None && words[0] == "UPDATE"
  {
    assert words[3..] == [""] + tail;
    assert tail != [] ==> tail[0] == "WHERE";
  }

  lemma UpdateFrom(d: Driver, table: string, body: seq<string>, tail: seq<string>, sets: seq<(string, nat)>, conds: seq<Cond>)
    requires ReadSets(d, body + tail, 1) == Some((sets, tail)) && ReadTail(d, tail, 1 + |sets|) == Some(conds)
    ensures ReadUpdate(d, ["UPDATE", table, "SET"] + body + tail) == Some(Update(table, sets, conds))
  {
    var words := ["UPDATE", table, "SET"] + body + tail;
    Assoc(["UPDATE", table, "SET"], body, tail);
    assert words[3..] == body + tail && words[2] == "SET";
  }

  lemma UpdateIsWords(d: Driver, table: string, sets: Sets, cs: seq<Clause>)
    requires sets != [] && AllProper(cs)
    ensures UpdateText(d, table, sets, cs) ==
      Join(UpdateWords(d, table, sets, cs), " ")
  {
    SetsAreWords(d, sets, 1);
    UpdateHead(table, SetWords(d, sets, 1));
    TailText(d, ["UPDATE", table, "SET"] + SetWords(d, sets, 1), cs, 1 + |sets|);
  }

  lemma UpdateHead(table: string, body: seq<string>)
    requires body != []
    ensures Join(["UPDATE", table, "SET"] + body, " ") == "UPDATE " + table + " SET " + Join(body, " ")
  {
    ThreeWords("UPDATE", table, "SET");
    JoinMore(["UPDATE", table, "SET"], body, " ");
    HeadAndBody(table, Join(body, " "));
  }

  lemma HeadAndBody(table: string, body: string)
    ensures "UPDATE" + " " + table + " " + "SET" + (" " + body) == "UPDATE " + table + " SET " + body
  {
  }

  function DeleteText(d: Driver, table: string, cs: seq<Clause>): (r: string) {
    "DELETE FROM " + table + WhereText(ClauseTexts(d, cs, 1))
  }

  lemma DeleteReads(d: Driver, table: string, cs: seq<Clause>)
    requires IsWord(table) && AllProper(cs)
    ensures ReadStatement(d, DeleteText(d, table, cs)) == Some(Delete(table, AllNumbered(cs, 1)))
  {
    var tail := WherePart(d, cs, 1);
    TailReads(d, cs, 1);
    DeleteHead(table);
    TailText(d, ["DELETE", "FROM", table], cs, 1);
    NoSpacesMore(["DELETE", "FROM", table], tail);
    SplitJoin(["DELETE", "FROM", table] + tail);
    DeleteFrom(d, table, tail, AllNumbered(cs, 1));
  }

  lemma DeleteHead(table: string)
    ensures Join(["DELETE", "FROM", table], " ") == "DELETE FROM " + table
  {
    ThreeWords("DELETE", "FROM", table);
  }

  lemma DeleteFrom(d: Driver, table: string, tail: seq<string>, conds: seq<Cond>)
    requires ReadTail(d, tail, 1) == Some(conds)
    ensures ReadDelete(d, ["DELETE", "FROM", table] + tail) == Some(Delete(table, conds))
  {
    var words := ["DELETE", "FROM", table] + tail;
    assert words[3..] == tail && words[1] == "FROM" && words[2] == table;
  }

  function InsertText(d: Driver, table: string, cols: seq<string>): (r: string) {
    "INSERT INTO " + table + " (" + Join(cols, ", ") + ") VALUES (" + Join(Placeholders(d, 1, |cols|), ", ") + ")"
  }

  function NameWords(cols: seq<string>): (words: seq<string>)
    ensures |words| == |cols|
  {
    if cols == [] then [] else if |cols| == 1 then [cols[0] + ")"] else [cols[0] + ","] + NameWords(cols[1..])
  }

  predicate AllNames(cols: seq<string>) { forall i :: 0 <= i < |cols| ==> IsValidIdentifier(cols[i]) }

  lemma {:induction false} NamesRead(cols: seq<string>, rest: seq<string>)
    requires cols != []
    ensures ReadNames(NameWords(cols) + rest) == Some((cols, rest))
  {
    if |cols| == 1 {
      LastName(cols[0], rest);
      assert cols == [cols[0]];
    } else {
      NamesRead(cols[1..], rest);
      AnotherName(cols[0], NameWords(cols[1..]) + rest, cols[1..], rest);
      Assoc([cols[0] + ","], NameWords(cols[1..]), rest);
      assert cols == [cols[0]] + cols[1..];
    }
  }

  lemma LastName(name: string, rest: seq<string>)
    ensures ReadNames([name + ")"] + rest) == Some(([name], rest))
  {
    var w := name + ")";
    assert w[..|w| - 1] == name && ([w] + rest)[1..] == rest;
  }

  lemma AnotherName(name: string, words: seq<string>, names: seq<string>, rest: seq<string>)
    requires ReadNames(words) == Some((names, rest))
    ensures ReadNames([name + ","] + words) == Some(([name] + names, rest))
  {
    var w := name + ",";
    assert w[..|w| - 1] == name && ([w] + words)[1..] == words;
  }

  lemma {:induction false} NamesText(cols: seq<string>)
    requires cols != []
    ensures Join(cols, ", ") + ")" == Join(NameWords(cols), " ")
  {
    if |cols| > 1 {
      NamesText(cols[1..]);
      assert ([cols[0] + ","] + NameWords(cols[1..]))[1..] == NameWords(cols[1..]);
      CommaSpace(cols[0], Join(cols[1..], ", "));
    }
  }

  lemma {:induction false} NamesNoSpaces(cols: seq<string>)
    requires AllNames(cols)
    ensures NoSpaces(NameWords(cols))
  {
    if cols != [] {
      IdentifierIsWord(cols[0]);
      NamesNoSpaces(cols[1..]);
    }
  }

  function InParentheses(words: seq<string>): (r: seq<string>)
    requires words != []
    ensures r != []
  {
    ["(" + words[0]] + words[1..]
  }

  lemma OpenedIs(words: seq<string>, rest: seq<string>)
    requires words != []
    ensures Opened(InParentheses(words) + rest) == Some(words + rest)
  {
    var all := InParentheses(words) + rest;
    assert all[0][1..] == words[0] && all[1..] == words[1..] + rest;
    assert [words[0]] + (words[1..] + rest) == words + rest;
  }

  function InsertWords(d: Driver, table: string, cols: seq<string>): (r: seq<string>)
    requires cols != []
  {
    ["INSERT", "INTO", table] + (InParentheses(NameWords(cols)) + (["VALUES"] + InParentheses(ListWords(d, 1, |cols|))))
  }

  lemma ParenthesesText(words: seq<string>)
    requires words != []
    ensures Join(InParentheses(words), " ") == "(" + Join(words, " ")
  {
    Bracket(words);
  }

  lemma InsertIsWords(d: Driver, table: string, cols: seq<string>)
    requires cols != []
    ensures InsertText(d, table, cols) == Join(InsertWords(d, table, cols), " ")
  {
    var names, places := InParentheses(NameWords(cols)), InParentheses(ListWords(d, 1, |cols|));
    NamesText(cols);
    ListText(d, 1, |cols|);
    ParenthesesText(NameWords(cols));
    ParenthesesText(ListWords(d, 1, |cols|));
    ThreeWords("INSERT", "INTO", table);
    JoinCons("VALUES", places);
    JoinMore(names, ["VALUES"] + places, " ");
    JoinMore(["INSERT", "INTO", table], names + (["VALUES"] + places), " ");
    InsertGlue(table, Join(cols, ", "), Join(Placeholders(d, 1, |cols|), ", "));
  }

  lemma InsertGlue(table: string, cols: string, places: string)
    ensures "INSERT" + " " + "INTO" + " " + table + (" " + (("(" + (cols + ")")) + (" " + ("VALUES" + " " + ("(" + (places + ")"))))))
      == "INSERT INTO " + table + " (" + cols + ") VALUES (" + places + ")"
  {
  }

  lemma ParenthesesNoSpaces(words: seq<string>)
    requires words != [] && NoSpaces(words)
    ensures NoSpaces(InParentheses(words))
  {
  }

  /** An INSERT is read back whole: the k-th column with the k-th placeholder. */
  lemma InsertReads(d: Driver, table: string, cols: seq<string>)
    requires IsWord(table) && cols != [] && AllNames(cols)
    ensures ReadStatement(d, InsertText(d, table, cols)) == Some(Insert(table, Zip(cols, Places(1, |cols|))))
  {
    var names, places := NameWords(cols), ListWords(d, 1, |cols|);
    InsertSplits(d, table, cols);
    NamesRead(cols, ["VALUES"] + InParentheses(places));
    OpenedIs(names, ["VALUES"] + InParentheses(places));
    ListReads(d, 1, |cols|, []);
    OpenedIs(places, []);
    assert places + [] == places && InParentheses(places) + [] == InParentheses(places);
    InsertFrom(d, table, cols, InParentheses(names), InParentheses(places));
  }

  lemma InsertSplits(d: Driver, table: string, cols: seq<string>)
    requires IsWord(table) && cols != [] && AllNames(cols)
    ensures Split(InsertText(d, table, cols), ' ') == InsertWords(d, table, cols)
    ensures InsertWords(d, table, cols)[0] == "INSERT"
  {
    var names, places := InParentheses(NameWords(cols)), InParentheses(ListWords(d, 1, |cols|));
    NamesNoSpaces(cols);
    ListNoSpaces(d, 1, |cols|);
    ParenthesesNoSpaces(NameWords(cols));
    ParenthesesNoSpaces(ListWords(d, 1, |cols|));
    NoSpacesMore(["VALUES"], places);
    NoSpacesMore(names, ["VALUES"] + places);
    NoSpacesMore(["INSERT", "INTO", table], names + (["VALUES"] + places));
    InsertIsWords(d, table, cols);
    SplitJoin(InsertWords(d, table, cols));
  }

  /** An INSERT without columns is no statement, but in MySQL, which takes it for a row of defaults. */
  lemma EmptyInsertFails(d: Driver, table: string)
    requires IsWord(table) && d != Mysql
    ensures ReadStatement(d, InsertText(d, table, [])) == None
  {
    var words := ["INSERT", "INTO", table] + ["()", "VALUES", "()"];
    ThreeWords("INSERT", "INTO", table);
    ThreeWords("()", "VALUES", "()");
    JoinMore(["INSERT", "INTO", table], ["()", "VALUES", "()"], " ");
    EmptyGlue(table);
    SplitJoin(words);
    assert words[3..] == ["()", "VALUES", "()"];
    EmptyLists(d, ["()", "VALUES", "()"]);
  }

  lemma EmptyGlue(table: string)
    ensures "INSERT" + " " + "INTO" + " " + table + (" " + ("()" + " " + "VALUES" + " " + "()")) ==
      "INSERT INTO " + table + " (" + "" + ") VALUES (" + "" + ")"
  {
  }

  lemma EmptyLists(d: Driver, words: seq<string>)
    requires words == ["()", "VALUES", "()"]
    ensures Opened(words) == Some([")"] + words[1..])
    ensures ReadNames(Opened(words).value) == Some(([""], words[1..]))
    ensures Opened(words[2..]) == Some([")"]) && ReadList(d, [")"], 1) == None
  {
    assert words[0][1..] == ")" && words[2..] == ["()"] && "()"[1..] == ")" && ["()"][1..] == [];
    assert [")"] + [] == [")"];
    assert ")"[..0] == "" && ([")"] + words[1..])[1..] == words[1..];
  }

  lemma InsertFrom(d: Driver, table: string, cols: seq<string>, names: seq<string>, places: seq<string>)
    requires Opened(names + (["VALUES"] + places)).Some? && Opened(places).Some?
    requires ReadNames(Opened(names + (["VALUES"] + places)).value) == Some((cols, ["VALUES"] + places))
    requires ReadList(d, Opened(places).value, 1) == Some((Places(1, |cols|), []))
    ensures ReadInsert(d, ["INSERT", "INTO", table] + (names + (["VALUES"] + places))) == Some(Insert(table, Zip(cols, Places(1, |cols|))))
  {
    var words := ["INSERT", "INTO", table] + (names + (["VALUES"] + places));
    assert words[3..] == names + (["VALUES"] + places) && words[1] == "INTO" && words[2] == table;
    assert (["VALUES"] + places)[1..] == places;
  }

  /** What a database does with a statement and its parameters to the rows of the table. */
  function Run(test: Test, rows: seq<Row>, s: Statement, params: seq<Value>): (r: seq<Row>) {
    match s
    case Insert(_, sets) => rows + [Assign(map[], sets, params)]
    case Update(_, sets, conds) =>
      if rows == [] then []
      else
        [if Selects(test, rows[0], params, conds) then Assign(rows[0], sets, params) else rows[0]]
        + Run(test, rows[1..], s, params)
    case Delete(_, conds) =>
      if rows == [] then []
      else (if Selects(test, rows[0], params, conds) then [] else [rows[0]]) + Run(test, rows[1..], s, params)
  }

  // What the builders mean to say.

  function Updated(test: Test, rows: seq<Row>, sets: Sets, cs: seq<Clause>): (r: seq<Row>) {
    if rows == [] then []
    else [if AllHold(test, rows[0], cs) then AssignAll(rows[0], sets) else rows[0]] + Updated(test, rows[1..], sets, cs)
  }

  function Deleted(test: Test, rows: seq<Row>, cs: seq<Clause>): (r: seq<Row>) {
    if rows == [] then []
    else (if AllHold(test, rows[0], cs) then [] else [rows[0]]) + Deleted(test, rows[1..], cs)
  }

  /** The text is a statement on this table that, with these parameters, turns the rows into the others. */
  predicate Does(d: Driver, test: Test, rows: seq<Row>, text: string, table: string, params: seq<Value>, after: seq<Row>) {
    var s := ReadStatement(d, text);
    s.Some? && s.value.table == table && Run(test, rows, s.value, params) == after
  }

  /** An UPDATE's text and parameters do what is meant: every column gets its own value, in the rows its own
      conditions select. */
  lemma UpdateMeans(d: Driver, test: Test, rows: seq<Row>, table: string, sets: Sets, cs: seq<Clause>)
    requires IsWord(table) && sets != [] && AllIdentifiers(sets) && AllProper(cs)
    ensures Does(d, test, rows, UpdateText(d, table, sets, cs), table, SetValues(sets) + AllValues(cs), Updated(test, rows, sets, cs))
  {
    UpdateReads(d, table, sets, cs);
    UpdateRuns(test, rows, table, sets, cs);
  }

  lemma {:induction false} UpdateRuns(test: Test, rows: seq<Row>, table: string, sets: Sets, cs: seq<Clause>)
    ensures Run(test, rows, Update(table, NumberedSets(sets, 1), AllNumbered(cs, 1 + |sets|)), SetValues(sets) + AllValues(cs))
      == Updated(test, rows, sets, cs)
  {
    if rows != [] {
      UpdateRuns(test, rows[1..], table, sets, cs);
      UpdatesRow(test, rows[0], sets, cs);
    }
  }

  lemma UpdatesRow(test: Test, row: Row, sets: Sets, cs: seq<Clause>)
    ensures Selects(test, row, SetValues(sets) + AllValues(cs), AllNumbered(cs, 1 + |sets|)) <==> AllHold(test, row, cs)
    ensures Assign(row, NumberedSets(sets, 1), SetValues(sets) + AllValues(cs)) == AssignAll(row, sets)
  {
    var none: seq<Value> := [];
    AssignsOwn(row, none, sets, AllValues(cs));
    SelectsIff(test, row, SetValues(sets), cs, none);
    Ends(SetValues(sets), AllValues(cs));
    assert |none| + 1 == 1 && |SetValues(sets)| + 1 == 1 + |sets|;
  }

  lemma Ends(a: seq<Value>, b: seq<Value>)
    ensures [] + a + b == a + b && a + b + [] == a + b
  {
  }

  lemma Alone(a: seq<Value>)
    ensures [] + a + [] == a
  {
  }

  lemma DeleteMeans(d: Driver, test: Test, rows: seq<Row>, table: string, cs: seq<Clause>)
    requires IsWord(table) && AllProper(cs)
    ensures Does(d, test, rows, DeleteText(d, table, cs), table, AllValues(cs), Deleted(test, rows, cs))
  {
    DeleteReads(d, table, cs);
    DeleteRuns(test, rows, table, cs);
  }

  lemma {:induction false} DeleteRuns(test: Test, rows: seq<Row>, table: string, cs: seq<Clause>)
    ensures Run(test, rows, Delete(table, AllNumbered(cs, 1)), AllValues(cs)) == Deleted(test, rows, cs)
  {
    if rows != [] {
      DeleteRuns(test, rows[1..], table, cs);
      SelectsIff(test, rows[0], [], cs, []);
      Alone(AllValues(cs));
    }
  }

  function Columns(sets: Sets): (cols: seq<string>)
    ensures |cols| == |sets| && forall i :: 0 <= i < |sets| ==> cols[i] == sets[i].0
  {
    seq(|sets|, i requires 0 <= i < |sets| => sets[i].0)
  }

  lemma InsertMeans(d: Driver, test: Test, rows: seq<Row>, table: string, sets: Sets)
    requires IsWord(table) && sets != [] && AllIdentifiers(sets)
    ensures Does(d, test, rows, InsertText(d, table, Columns(sets)), table, SetValues(sets), rows + [AssignAll(map[], sets)])
  {
    InsertReads(d, table, Columns(sets));
    ZipIs(sets);
    InsertRuns(test, rows, table, sets);
  }

  lemma ZipIs(sets: Sets)
    ensures Zip(Columns(sets), Places(1, |sets|)) == NumberedSets(sets, 1)
  {
  }

  lemma InsertRuns(test: Test, rows: seq<Row>, table: string, sets: Sets)
    ensures Run(test, rows, Insert(table, NumberedSets(sets, 1)), SetValues(sets)) == rows + [AssignAll(map[], sets)]
  {
    assert Assign(map[], NumberedSets(sets, 1), SetValues(sets)) == AssignAll(map[], sets) by {
      var none: seq<Value> := [];
      AssignsOwn(map[], none, sets, []);
      Alone(SetValues(sets));
      assert |none| + 1 == 1;
    }
  }
}
