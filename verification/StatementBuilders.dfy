/** The writers of UPDATE, DELETE and INSERT statements: k.db_update and k.db_delete (internal/bindings/db.go)
    and the grid's (internal/bindings/grid.go). Each returns a text and the parameters to bind; what that
    does to a table is proved by reading the text back. */
module StatementBuilders {
  import opened Text
  import opened SqlText
  import opened SqlMeaning

  /** The pairs of a Lua table, in the order ForEach visits them, that have an identifier for key. */
  function ValidPairs(pairs: Sets): (valid: Sets)
    ensures AllIdentifiers(valid)
  {
    if pairs == [] then []
    else
      var before, last := ValidPairs(pairs[..|pairs| - 1]), pairs[|pairs| - 1];
      if IsValidIdentifier(last.0) then before + [last] else before
  }

  function EqClauses(pairs: Sets): (cs: seq<Clause>)
    ensures |cs| == |pairs|
  {
    if pairs == [] then [] else EqClauses(pairs[..|pairs| - 1]) + [Compare(pairs[|pairs| - 1].0, Eq, pairs[|pairs| - 1].1)]
  }

  lemma {:induction false} ProperMore(cs: seq<Clause>, c: Clause)
    requires AllProper(cs) && IsProper(c)
    ensures AllProper(cs + [c])
  {
    if cs == [] {
      assert cs + [c] == [c] && [c][1..] == [];
    } else {
      assert (cs + [c])[1..] == cs[1..] + [c];
      ProperMore(cs[1..], c);
    }
  }

  lemma {:induction false} EqClausesProper(pairs: Sets)
    requires AllIdentifiers(pairs)
    ensures AllProper(EqClauses(pairs))
  {
    if pairs != [] {
      var n := |pairs| - 1;
      EqClausesProper(pairs[..n]);
      IdentifierIsWord(pairs[n].0);
      ProperMore(EqClauses(pairs[..n]), Compare(pairs[n].0, Eq, pairs[n].1));
    }
  }

  lemma {:induction false} HoldMore(test: Test, row: Row, cs: seq<Clause>, c: Clause)
    ensures AllHold(test, row, cs + [c]) <==> AllHold(test, row, cs) && ClauseHolds(test, row, c)
  {
    if cs == [] {
      assert cs + [c] == [c] && [c][1..] == [];
    } else {
      assert (cs + [c])[1..] == cs[1..] + [c];
      HoldMore(test, row, cs[1..], c);
    }
  }

  /** The row has, in every column named by an identifier, the value asked for. */
  predicate MatchesAll(test: Test, row: Row, pairs: Sets) {
    forall i :: 0 <= i < |pairs| && IsValidIdentifier(pairs[i].0) ==> test(Cell(row, pairs[i].0), Eq, pairs[i].1)
  }

  lemma {:induction false} EqHold(test: Test, row: Row, pairs: Sets)
    ensures AllHold(test, row, EqClauses(ValidPairs(pairs))) <==> MatchesAll(test, row, pairs)
  {
    if pairs != [] {
      var n := |pairs| - 1;
      EqHold(test, row, pairs[..n]);
      var before, last := ValidPairs(pairs[..n]), pairs[n];
      if IsValidIdentifier(last.0) {
        assert (before + [last])[..|before|] == before;
        HoldMore(test, row, EqClauses(before), Compare(last.0, Eq, last.1));
      }
      assert forall i :: 0 <= i < n ==> pairs[..n][i] == pairs[i];
      MatchesMore(test, row, pairs);
    }
  }

  lemma MatchesMore(test: Test, row: Row, pairs: Sets)
    requires pairs != []
    ensures var (col, v) := pairs[|pairs| - 1];
      MatchesAll(test, row, pairs) <==> MatchesAll(test, row, pairs[..|pairs| - 1]) && (IsValidIdentifier(col) ==> test(Cell(row, col), Eq, v))
  {
    var n := |pairs| - 1;
    if MatchesAll(test, row, pairs) {
      forall i | 0 <= i < n && IsValidIdentifier(pairs[..n][i].0) ensures test(Cell(row, pairs[..n][i].0), Eq, pairs[..n][i].1) {
        assert pairs[..n][i] == pairs[i];
      }
    }
    if MatchesAll(test, row, pairs[..n]) {
      forall i | 0 <= i < n && IsValidIdentifier(pairs[i].0) ensures test(Cell(row, pairs[i].0), Eq, pairs[i].1) {
        assert pairs[..n][i] == pairs[i];
      }
    }
  }

  // ----- k.db_update, k.db_delete -----

  /** buildWhereClause. */
  method BuildWhereClause(d: Driver, pairs: Sets, startIdx: nat) returns (text: string, params: seq<Value>)
    ensures text == WhereText(ClauseTexts(d, EqClauses(ValidPairs(pairs)), startIdx))
    ensures params == AllValues(EqClauses(ValidPairs(pairs)))
  {
    var clauses: seq<string> := [];
    params := [];
    var n := startIdx;
    ghost var cs: seq<Clause> := [];
    for i := 0 to |pairs|
      invariant cs == EqClauses(ValidPairs(pairs[..i]))
      invariant clauses == ClauseTexts(d, cs, startIdx)
      invariant params == AllValues(cs) && n == startIdx + |params|
    {
      NextPair(pairs, i);
      var col, v := pairs[i].0, pairs[i].1;
      if !IsValidIdentifier(col) {
        continue;
      }
      EqualWritten(d, cs, col, v, startIdx);
      clauses := clauses + [col + " = " + Placeholder(d, n)];
      params := params + [v];
      n := n + 1;
      cs := cs + [Compare(col, Eq, v)];
    }
    assert pairs[..|pairs|] == pairs;
    if |clauses| == 0 {
      return "", params;
    }
    return " WHERE " + Join(clauses, " AND "), params;
  }

  lemma NextPair(pairs: Sets, i: nat)
    requires i < |pairs|
    ensures EqClauses(ValidPairs(pairs[..i + 1])) ==
      if IsValidIdentifier(pairs[i].0) then EqClauses(ValidPairs(pairs[..i])) + [Compare(pairs[i].0, Eq, pairs[i].1)]
      else EqClauses(ValidPairs(pairs[..i]))
  {
    assert pairs[..i + 1][..i] == pairs[..i];
    AnotherEqual(ValidPairs(pairs[..i]), pairs[i]);
  }

  lemma AnotherEqual(valid: Sets, pair: (string, Value))
    ensures EqClauses(valid + [pair]) == EqClauses(valid) + [Compare(pair.0, Eq, pair.1)]
  {
    assert (valid + [pair])[..|valid|] == valid;
  }

  lemma EqualWritten(d: Driver, cs: seq<Clause>, col: string, v: Value, start: nat)
    ensures ClauseTexts(d, cs + [Compare(col, Eq, v)], start) ==
      ClauseTexts(d, cs, start) + [col + " = " + Placeholder(d, start + |AllValues(cs)|)]
    ensures AllValues(cs + [Compare(col, Eq, v)]) == AllValues(cs) + [v]
  {
    AnotherText(d, cs, Compare(col, Eq, v), start);
    AnotherValues(cs, Compare(col, Eq, v));
    EqualText(d, col, v, start + |AllValues(cs)|);
  }

  lemma EqualText(d: Driver, col: string, v: Value, n: nat)
    ensures ClauseText(d, Compare(col, Eq, v), n) == col + " = " + Placeholder(d, n)
  {
    assert col + " " + "=" + " " + Placeholder(d, n) == col + " = " + Placeholder(d, n);
  }

  /** k.db_update. An empty SET list is written all the same. */
  method DbUpdate(d: Driver, table: string, keyvals: Sets, pairs: Sets) returns (r: Option<(string, seq<Value>)>)
    ensures r.None? <==> !IsValidIdentifier(table)
    ensures r.Some? ==> r.value == (UpdateText(d, table, ValidPairs(keyvals), EqClauses(ValidPairs(pairs))),
      SetValues(ValidPairs(keyvals)) + AllValues(EqClauses(ValidPairs(pairs))))
  {
    if !IsValidIdentifier(table) { return None; }
    var setClauses, params := BuildSets(d, keyvals);
    var whereClause, whereParams := BuildWhereClause(d, pairs, 1 + |params|);
    var text := UpdateFormat(table, Join(setClauses, ", "), whereClause);
    UpdateTextIs(d, table, ValidPairs(keyvals), EqClauses(ValidPairs(pairs)), setClauses, whereClause, 1 + |params|);
    return Some((text, params + whereParams));
  }

  lemma UpdateTextIs(d: Driver, table: string, sets: Sets, cs: seq<Clause>, texts: seq<string>, where: string, n: nat)
    requires texts == SetTexts(d, sets, 1) && n == 1 + |sets| && where == WhereText(ClauseTexts(d, cs, n))
    ensures UpdateFormat(table, Join(texts, ", "), where) == UpdateText(d, table, sets, cs)
  {
  }

  /** The SET list, numbered from 1. */
  method BuildSets(d: Driver, keyvals: Sets) returns (setClauses: seq<string>, params: seq<Value>)
    ensures setClauses == SetTexts(d, ValidPairs(keyvals), 1) && params == SetValues(ValidPairs(keyvals))
  {
    setClauses, params := [], [];
    var idx := 1;
    ghost var sets: Sets := [];
    for i := 0 to |keyvals|
      invariant sets == ValidPairs(keyvals[..i])
      invariant setClauses == SetTexts(d, sets, 1)
      invariant params == SetValues(sets) && idx == 1 + |params|
    {
      assert keyvals[..i + 1][..i] == keyvals[..i];
      var (col, v) := keyvals[i];
      if !IsValidIdentifier(col) {
        continue;
      }
      AnotherSetText(d, sets, col, v);
      setClauses := setClauses + [col + " = " + Placeholder(d, idx)];
      params := params + [v];
      idx := idx + 1;
      sets := sets + [(col, v)];
    }
    assert keyvals[..|keyvals|] == keyvals;
  }

  lemma AnotherSetText(d: Driver, sets: Sets, col: string, v: Value)
    ensures SetTexts(d, sets + [(col, v)], 1) == SetTexts(d, sets, 1) + [col + " = " + Placeholder(d, 1 + |sets|)]
    ensures SetValues(sets + [(col, v)]) == SetValues(sets) + [v]
  {
    SetTextsMore(d, sets, col, v, 1);
  }

  lemma {:induction false} SetTextsMore(d: Driver, sets: Sets, col: string, v: Value, n: nat)
    ensures SetTexts(d, sets + [(col, v)], n) == SetTexts(d, sets, n) + [col + " = " + Placeholder(d, n + |sets|)]
    decreases |sets|
  {
    var one := [(col, v)];
    if sets == [] {
      assert sets + one == one && one[1..] == [];
      assert SetTexts(d, one[1..], n + 1) == [];
    } else {
      assert (sets + one)[1..] == sets[1..] + one;
      SetTextsMore(d, sets[1..], col, v, n + 1);
      Assoc([sets[0].0 + " = " + Placeholder(d, n)], SetTexts(d, sets[1..], n + 1), [col + " = " + Placeholder(d, n + |sets|)]);
    }
  }

  method DbDelete(d: Driver, table: string, pairs: Sets) returns (r: Option<(string, seq<Value>)>)
    ensures r.None? <==> !IsValidIdentifier(table)
    ensures r.Some? ==> r.value == (DeleteText(d, table, EqClauses(ValidPairs(pairs))), AllValues(EqClauses(ValidPairs(pairs))))
  {
    if !IsValidIdentifier(table) { return None; }
    var whereClause, whereParams := BuildWhereClause(d, pairs, 1);
    return Some(("DELETE FROM " + table + whereClause, whereParams));
  }

  /** Each row that matches the where table gets the values of the other table; the rest stay. */
  function RowsUpdated(test: Test, rows: seq<Row>, sets: Sets, pairs: Sets): (r: seq<Row>) {
    if rows == [] then []
    else [if MatchesAll(test, rows[0], pairs) then AssignAll(rows[0], sets) else rows[0]] + RowsUpdated(test, rows[1..], sets, pairs)
  }

  function RowsDeleted(test: Test, rows: seq<Row>, pairs: Sets): (r: seq<Row>) {
    if rows == [] then []
    else (if MatchesAll(test, rows[0], pairs) then [] else [rows[0]]) + RowsDeleted(test, rows[1..], pairs)
  }

  lemma {:induction false} UpdatedIs(test: Test, rows: seq<Row>, sets: Sets, pairs: Sets)
    ensures Updated(test, rows, sets, EqClauses(ValidPairs(pairs))) == RowsUpdated(test, rows, sets, pairs)
  {
    if rows != [] {
      EqHold(test, rows[0], pairs);
      UpdatedIs(test, rows[1..], sets, pairs);
    }
  }

  lemma {:induction false} DeletedIs(test: Test, rows: seq<Row>, pairs: Sets)
    ensures Deleted(test, rows, EqClauses(ValidPairs(pairs))) == RowsDeleted(test, rows, pairs)
  {
    if rows != [] {
      EqHold(test, rows[0], pairs);
      DeletedIs(test, rows[1..], pairs);
    }
  }

  /** Whatever the driver, the statement k.db_update writes sets each identifier column to its own value in
      exactly the rows that match every identifier column of the where table, if there is a column to set;
      if there is none, what it writes and sends is no statement. */
  lemma DbUpdateMeans(d: Driver, test: Test, rows: seq<Row>, table: string, keyvals: Sets, pairs: Sets)
    requires IsValidIdentifier(table)
    ensures Does(d, test, rows, UpdateText(d, table, ValidPairs(keyvals), EqClauses(ValidPairs(pairs))), table,
      SetValues(ValidPairs(keyvals)) + AllValues(EqClauses(ValidPairs(pairs))), RowsUpdated(test, rows, ValidPairs(keyvals), pairs))
      <==> ValidPairs(keyvals) != []
  {
    IdentifierIsWord(table);
    EqClausesProper(ValidPairs(pairs));
    if ValidPairs(keyvals) == [] {
      EmptyUpdateFails(d, table, EqClauses(ValidPairs(pairs)));
      return;
    }
    UpdateMeans(d, test, rows, table, ValidPairs(keyvals), EqClauses(ValidPairs(pairs)));
    UpdatedIs(test, rows, ValidPairs(keyvals), pairs);
  }

  lemma DbDeleteMeans(d: Driver, test: Test, rows: seq<Row>, table: string, pairs: Sets)
    requires IsValidIdentifier(table)
    ensures Does(d, test, rows, DeleteText(d, table, EqClauses(ValidPairs(pairs))), table,
      AllValues(EqClauses(ValidPairs(pairs))), RowsDeleted(test, rows, pairs))
  {
    IdentifierIsWord(table);
    EqClausesProper(ValidPairs(pairs));
    DeleteMeans(d, test, rows, table, EqClauses(ValidPairs(pairs)));
    DeletedIs(test, rows, pairs);
  }

  /** k.db_insert. An empty list of columns is written all the same. */
  method DbInsert(d: Driver, table: string, keyvals: Sets) returns (r: Option<(string, seq<Value>)>)
    ensures r.None? <==> !IsValidIdentifier(table)
    ensures r.Some? ==> r.value == (InsertText(d, table, Columns(ValidPairs(keyvals))), SetValues(ValidPairs(keyvals)))
  {
    if !IsValidIdentifier(table) { return None; }
    var columns: seq<string> := [];
    var places: seq<string> := [];
    var params: seq<Value> := [];
    for i := 0 to |keyvals|
      invariant columns == Columns(ValidPairs(keyvals[..i]))
      invariant params == SetValues(ValidPairs(keyvals[..i]))
      invariant places == Placeholders(d, 1, |columns|)
    {
      assert keyvals[..i + 1][..i] == keyvals[..i];
      var (col, v) := keyvals[i];
      if !IsValidIdentifier(col) {
        continue;
      }
      columns := columns + [col];
      places := places + [Placeholder(d, |columns|)];
      params := params + [v];
    }
    assert keyvals[..|keyvals|] == keyvals;
    return Some(("INSERT INTO " + table + " (" + Join(columns, ", ") + ") VALUES (" + Join(places, ", ") + ")", params));
  }

  /** The statement k.db_insert writes adds one row that has each identifier column with its own value. */
  lemma DbInsertMeans(d: Driver, test: Test, rows: seq<Row>, table: string, keyvals: Sets)
    requires IsValidIdentifier(table)
    ensures ValidPairs(keyvals) != [] ==>
      Does(d, test, rows, InsertText(d, table, Columns(ValidPairs(keyvals))), table, SetValues(ValidPairs(keyvals)),
        rows + [AssignAll(map[], ValidPairs(keyvals))])
    ensures ValidPairs(keyvals) == [] && d != Mysql ==> ReadStatement(d, InsertText(d, table, Columns(ValidPairs(keyvals)))) == None
  {
    IdentifierIsWord(table);
    if ValidPairs(keyvals) != [] {
      InsertMeans(d, test, rows, table, ValidPairs(keyvals));
    } else if d != Mysql {
      EmptyInsertFails(d, table);
    }
  }

  /** A where table of which no key is an identifier selects every row. */
  lemma NoIdentifierSelectsAll(test: Test, row: Row, pairs: Sets)
    ensures ValidPairs(pairs) == [] ==> MatchesAll(test, row, pairs)
  {
    EqHold(test, row, pairs);
  }

  lemma {:induction false} AssignedEach(row: Row, sets: Sets, i: nat)
    requires i < |sets| && forall a, b :: 0 <= a < b < |sets| ==> sets[a].0 != sets[b].0
    ensures sets[i].0 in AssignAll(row, sets) && AssignAll(row, sets)[sets[i].0] == sets[i].1
  {
    if i < |sets| - 1 { AssignedEach(row, sets[..|sets| - 1], i); }
  }

  lemma {:induction false} OthersKept(row: Row, sets: Sets, col: string)
    requires forall a :: 0 <= a < |sets| ==> sets[a].0 != col
    ensures col in AssignAll(row, sets) <==> col in row
    ensures Cell(AssignAll(row, sets), col) == Cell(row, col)
  {
    if sets != [] { OthersKept(row, sets[..|sets| - 1], col); }
  }

  // ----- The grid -----

  type Values = map<string, Value>

  /** The columns GridInsert writes: a blank key is left to the database. */
  function InsertSets(values: Values, pkCol: string, cols: seq<string>): (sets: Sets)
    ensures AllIdentifiers(sets)
  {
    if cols == [] then []
    else
      var before, c := InsertSets(values, pkCol, cols[..|cols| - 1]), cols[|cols| - 1];
      var v := if c in values then values[c] else Null;
      if (c == pkCol && v == Str("")) || !IsValidIdentifier(c) then before else before + [(c, v)]
  }

  method GridInsert(d: Driver, table: string, pkCol: string, values: Values) returns (r: Option<(string, seq<Value>)>)
    ensures r.None? <==> InsertSets(values, pkCol, SortedKeys(values.Keys)) == []
    ensures r.Some? ==> r.value == (InsertText(d, table, Columns(InsertSets(values, pkCol, SortedKeys(values.Keys)))),
      SetValues(InsertSets(values, pkCol, SortedKeys(values.Keys))))
  {
    r := GridInsertColumns(d, table, pkCol, values, SortedKeys(values.Keys));
  }

  method GridInsertColumns(d: Driver, table: string, pkCol: string, values: Values, cols: seq<string>) returns (r: Option<(string, seq<Value>)>)
    ensures r.None? <==> InsertSets(values, pkCol, cols) == []
    ensures r.Some? ==> r.value == (InsertText(d, table, Columns(InsertSets(values, pkCol, cols))), SetValues(InsertSets(values, pkCol, cols)))
  {
    var setCols: seq<string> := [];
    var params: seq<Value> := [];
    for i := 0 to |cols|
      invariant setCols == Columns(InsertSets(values, pkCol, cols[..i]))
      invariant params == SetValues(InsertSets(values, pkCol, cols[..i]))
    {
      assert cols[..i + 1][..i] == cols[..i];
      var c := cols[i];
      var v := if c in values then values[c] else Null;
      if c == pkCol {
        if v == Str("") { continue; }
      }
      if !IsValidIdentifier(c) { continue; }
      setCols := setCols + [c];
      params := params + [v];
    }
    assert cols[..|cols|] == cols;
    if |setCols| == 0 { return None; }
    return Some(("INSERT INTO " + table + " (" + Join(setCols, ", ") + ") VALUES (" + Join(Placeholders(d, 1, |setCols|), ", ") + ")", params));
  }

  function UpdateSets(values: Values, pkCol: string, cols: seq<string>): (sets: Sets)
    ensures AllIdentifiers(sets)
  {
    if cols == [] then []
    else
      var before, c := UpdateSets(values, pkCol, cols[..|cols| - 1]), cols[|cols| - 1];
      if c == pkCol || !IsValidIdentifier(c) then before else before + [(c, if c in values then values[c] else Null)]
  }

  method GridUpdate(d: Driver, table: string, pkCol: string, pk: Value, values: Values) returns (r: Option<(string, seq<Value>)>)
    ensures r.None? <==> UpdateSets(values, pkCol, SortedKeys(values.Keys)) == []
    ensures r.Some? ==> r.value == (UpdateText(d, table, UpdateSets(values, pkCol, SortedKeys(values.Keys)), [Compare(pkCol, Eq, pk)]),
      SetValues(UpdateSets(values, pkCol, SortedKeys(values.Keys))) + [pk])
  {
    r := GridUpdateColumns(d, table, pkCol, pk, values, SortedKeys(values.Keys));
  }

  method GridUpdateColumns(d: Driver, table: string, pkCol: string, pk: Value, values: Values, cols: seq<string>) returns (r: Option<(string, seq<Value>)>)
    ensures r.None? <==> UpdateSets(values, pkCol, cols) == []
    ensures r.Some? ==> r.value == (UpdateText(d, table, UpdateSets(values, pkCol, cols), [Compare(pkCol, Eq, pk)]),
      SetValues(UpdateSets(values, pkCol, cols)) + [pk])
  {
    var setSql, params := GridSets(d, pkCol, values, cols);
    if |setSql| == 0 { return None; }
    UpdateOneText(d, table, UpdateSets(values, pkCol, cols), pkCol, pk);
    var q := "UPDATE " + table + " SET " + Join(setSql, ", ") + " WHERE " + pkCol + " = " + Placeholder(d, 1 + |params|);
    return Some((q, params + [pk]));
  }

  method GridSets(d: Driver, pkCol: string, values: Values, cols: seq<string>) returns (setSql: seq<string>, params: seq<Value>)
    ensures setSql == SetTexts(d, UpdateSets(values, pkCol, cols), 1) && params == SetValues(UpdateSets(values, pkCol, cols))
  {
    setSql, params := [], [];
    var n := 1;
    ghost var sets: Sets := [];
    for i := 0 to |cols|
      invariant sets == UpdateSets(values, pkCol, cols[..i])
      invariant setSql == SetTexts(d, sets, 1)
      invariant params == SetValues(sets) && n == 1 + |params|
    {
      assert cols[..i + 1][..i] == cols[..i];
      var c := cols[i];
      if c == pkCol || !IsValidIdentifier(c) { continue; }
      var v := if c in values then values[c] else Null;
      AnotherSetText(d, sets, c, v);
      setSql := setSql + [c + " = " + Placeholder(d, n)];
      params := params + [v];
      n := n + 1;
      sets := sets + [(c, v)];
    }
    assert cols[..|cols|] == cols;
  }

  lemma UpdateOneText(d: Driver, table: string, sets: Sets, pkCol: string, pk: Value)
    ensures UpdateText(d, table, sets, [Compare(pkCol, Eq, pk)]) ==
      "UPDATE " + table + " SET " + Join(SetTexts(d, sets, 1), ", ") + " WHERE " + pkCol + " = " + Placeholder(d, 1 + |sets|)
  {
    OneEqual(d, pkCol, pk, 1 + |sets|);
    WhereGlue("UPDATE " + table + " SET " + Join(SetTexts(d, sets, 1), ", "), pkCol, Placeholder(d, 1 + |sets|));
  }

  lemma OneEqual(d: Driver, pkCol: string, pk: Value, n: nat)
    ensures WhereText(ClauseTexts(d, [Compare(pkCol, Eq, pk)], n)) == " WHERE " + (pkCol + " = " + Placeholder(d, n))
    ensures AllValues([Compare(pkCol, Eq, pk)]) == [pk]
  {
    LoneText(d, Compare(pkCol, Eq, pk), n);
    EqualText(d, pkCol, pk, n);
    assert [Compare(pkCol, Eq, pk)][1..] == [];
  }

  lemma WhereGlue(head: string, pkCol: string, ph: string)
    ensures head + " WHERE " + pkCol + " = " + ph == head + (" WHERE " + (pkCol + " = " + ph))
  {
  }

  function NotNull(pks: seq<Value>): (r: seq<Value>) {
    if pks == [] then []
    else if pks[|pks| - 1] == Null then NotNull(pks[..|pks| - 1])
    else NotNull(pks[..|pks| - 1]) + [pks[|pks| - 1]]
  }

  /** The condition GridDeleteMany writes. */
  function KeyClause(pkCol: string, pks: seq<Value>): (r: Clause)
    requires pks != []
  {
    if |pks| == 1 then Compare(pkCol, Eq, pks[0]) else Among(pkCol, pks)
  }

  method GridDeleteMany(d: Driver, table: string, pkCol: string, pks: seq<Value>) returns (r: Option<(string, seq<Value>)>)
    ensures r.None? <==> NotNull(pks) == []
    ensures r.Some? ==> r.value == (DeleteText(d, table, [KeyClause(pkCol, NotNull(pks))]), NotNull(pks))
  {
    var clean: seq<Value> := [];
    for i := 0 to |pks|
      invariant clean == NotNull(pks[..i])
    {
      assert pks[..i + 1][..i] == pks[..i];
      if pks[i] == Null { continue; }
      clean := clean + [pks[i]];
    }
    assert pks[..|pks|] == pks;
    if |clean| == 0 { return None; }
    var q;
    if |clean| == 1 {
      q := "DELETE FROM " + table + " WHERE " + pkCol + " = " + Placeholder(d, 1);
      OneEqual(d, pkCol, clean[0], 1);
      WhereGlue("DELETE FROM " + table, pkCol, Placeholder(d, 1));
    } else {
      q := "DELETE FROM " + table + " WHERE " + pkCol + " IN (" + Join(Placeholders(d, 1, |clean|), ", ") + ")";
      LoneText(d, Among(pkCol, clean), 1);
      AmongGlue("DELETE FROM " + table, pkCol, Join(Placeholders(d, 1, |clean|), ", "));
    }
    return Some((q, clean));
  }

  lemma AmongGlue(head: string, pkCol: string, places: string)
    ensures head + " WHERE " + pkCol + " IN (" + places + ")" == head + (" WHERE " + (pkCol + " IN (" + places + ")"))
  {
  }

  function KeyUpdated(test: Test, rows: seq<Row>, sets: Sets, pkCol: string, pk: Value): (r: seq<Row>) {
    if rows == [] then []
    else
      [if test(Cell(rows[0], pkCol), Eq, pk) then AssignAll(rows[0], sets) else rows[0]]
      + KeyUpdated(test, rows[1..], sets, pkCol, pk)
  }

  lemma {:induction false} KeyUpdatedIs(test: Test, rows: seq<Row>, sets: Sets, pkCol: string, pk: Value)
    ensures Updated(test, rows, sets, [Compare(pkCol, Eq, pk)]) == KeyUpdated(test, rows, sets, pkCol, pk)
  {
    if rows != [] {
      var cs := [Compare(pkCol, Eq, pk)];
      assert cs[1..] == [] && AllHold(test, rows[0], cs[1..]);
      assert AllHold(test, rows[0], cs) == ClauseHolds(test, rows[0], cs[0]);
      KeyUpdatedIs(test, rows[1..], sets, pkCol, pk);
    }
  }

  /** GridUpdate changes exactly the rows with that key, the key bound after the columns. Its table and key
      column need not be identifiers: any word is read as what it is. */
  lemma GridUpdateMeans(d: Driver, test: Test, rows: seq<Row>, table: string, pkCol: string, pk: Value, sets: Sets)
    requires IsWord(table) && IsWord(pkCol) && sets != [] && AllIdentifiers(sets)
    ensures Does(d, test, rows, UpdateText(d, table, sets, [Compare(pkCol, Eq, pk)]), table, SetValues(sets) + [pk],
      KeyUpdated(test, rows, sets, pkCol, pk))
  {
    var cs := [Compare(pkCol, Eq, pk)];
    assert cs[1..] == [];
    UpdateMeans(d, test, rows, table, sets, cs);
    OneEqual(d, pkCol, pk, 1);
    KeyUpdatedIs(test, rows, sets, pkCol, pk);
  }

  function KeyDeleted(test: Test, rows: seq<Row>, pkCol: string, pks: seq<Value>): (r: seq<Row>) {
    if rows == [] then []
    else (if AnyEqual(test, Cell(rows[0], pkCol), pks) then [] else [rows[0]]) + KeyDeleted(test, rows[1..], pkCol, pks)
  }

  lemma KeyHolds(test: Test, row: Row, pkCol: string, pks: seq<Value>)
    requires pks != []
    ensures AllHold(test, row, [KeyClause(pkCol, pks)]) <==> AnyEqual(test, Cell(row, pkCol), pks)
  {
    assert [KeyClause(pkCol, pks)][1..] == [];
    assert |pks| == 1 ==> pks[1..] == [];
  }

  lemma {:induction false} KeyDeletedIs(test: Test, rows: seq<Row>, pkCol: string, pks: seq<Value>)
    requires pks != []
    ensures Deleted(test, rows, [KeyClause(pkCol, pks)]) == KeyDeleted(test, rows, pkCol, pks)
  {
    if rows != [] {
      KeyHolds(test, rows[0], pkCol, pks);
      KeyDeletedIs(test, rows[1..], pkCol, pks);
    }
  }

  /** GridDeleteMany deletes exactly the rows whose key equals one of the values that are not NULL. */
  lemma GridDeleteMeans(d: Driver, test: Test, rows: seq<Row>, table: string, pkCol: string, pks: seq<Value>)
    requires IsWord(table) && IsWord(pkCol) && pks != []
    ensures Does(d, test, rows, DeleteText(d, table, [KeyClause(pkCol, pks)]), table, pks, KeyDeleted(test, rows, pkCol, pks))
  {
    var cs := [KeyClause(pkCol, pks)];
    assert cs[1..] == [] && AllValues(cs) == pks + [];
    assert pks + [] == pks;
    assert |pks| == 1 ==> pks == [pks[0]];
    DeleteMeans(d, test, rows, table, cs);
    KeyDeletedIs(test, rows, pkCol, pks);
  }
}
