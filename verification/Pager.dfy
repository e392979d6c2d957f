/** The server-side pager: FetchTablePage (internal/bindings/tabledb.go) and FetchLooperRows
    (internal/bindings/looperdb.go), from a control's database link and a browser's request to rows. */
module Pager {
  import opened Text
  import opened SqlText
  import opened SqlMeaning
  import opened SqlPaging
  import opened SqlQuery

  datatype Link = Link(query: string, pageSize: int, countQuery: string, filter: map<string, Value>, orderBy: string)

  datatype SortSpec = SortSpec(field: string, dir: string)

  datatype FilterSpec = FilterSpec(field: string, op: string, value: string)

  datatype PageReq = PageReq(page: int, size: int, sort: seq<SortSpec>, filter: seq<FilterSpec>)

  // ----- Browser filters -----

  /** strings.ToLower of one character, as far as operator names can tell: besides the capitals, the
      Kelvin sign and the dotted capital I have a lower case in ASCII. */
  function LowerChar(c: char): (r: char) {
    if 'A' <= c <= 'Z' then c + ' ' else if c == '\U{212A}' then 'k' else if c == '\U{130}' then 'i' else c
  }

  function ToLower(s: string): (r: string) { if s == "" then "" else [LowerChar(s[0])] + ToLower(s[1..]) }

  /** strings.ToUpper of one character, as far as ASC and DESC can tell: the long s has a capital in ASCII. */
  function UpperChar(c: char): (r: char) {
    if 'a' <= c <= 'z' then c - ' ' else if c == '\U{17F}' then 'S' else c
  }

  function ToUpper(s: string): (r: string) { if s == "" then "" else [UpperChar(s[0])] + ToUpper(s[1..]) }

  function CleanParts(parts: seq<string>): (clean: seq<string>) {
    if parts == [] then []
    else
      var before, s := CleanParts(parts[..|parts| - 1]), TrimSpace(parts[|parts| - 1]);
      if s != "" then before + [s] else before
  }

  function Strings(parts: seq<string>): (vs: seq<Value>)
    ensures |vs| == |parts| && forall i :: 0 <= i < |parts| ==> vs[i] == Str(parts[i])
  {
    seq(|parts|, i requires 0 <= i < |parts| => Str(parts[i]))
  }

  /** The comparison an operator name asks for, with its operand. */
  function Comparison(op: string, value: string): (r: Option<(Op, Value)>) {
    if op == "=" || op == "equals" then Some((Eq, Str(value)))
    else if op == "!=" || op == "<>" || op == "notequals" then Some((Ne, Str(value)))
    else if op == "<" || op == "less" then Some((Lt, Str(value)))
    else if op == "<=" || op == "lessequal" || op == "lte" then Some((Le, Str(value)))
    else if op == ">" || op == "greater" then Some((Gt, Str(value)))
    else if op == ">=" || op == "greaterequal" || op == "gte" then Some((Ge, Str(value)))
    else if op == "like" || op == "contains" then Some((Like, Str("%" + value + "%")))
    else if op == "starts" then Some((Like, Str(value + "%")))
    else if op == "ends" then Some((Like, Str("%" + value)))
    else None
  }

  /** The clause a filter becomes, unless it is dropped. */
  function Accepted(whitelist: seq<string>, f: FilterSpec): (r: Option<Clause>) {
    if f.field !in whitelist || !IsValidIdentifier(f.field) then None
    else
      var op := ToLower(TrimSpace(f.op));
      if op == "in" then
        var parts := CleanParts(Split(f.value, ','));
        Some(if parts == [] then Never else Among(f.field, Strings(parts)))
      else
        var c := Comparison(op, f.value);
        if c.None? then None else Some(Compare(f.field, c.value.0, c.value.1))
  }

  lemma AcceptedIsProper(whitelist: seq<string>, f: FilterSpec)
    ensures Accepted(whitelist, f).Some? ==> IsProper(Accepted(whitelist, f).value)
  {
  }

  method CleanItems(value: string) returns (clean: seq<string>)
    ensures clean == CleanParts(Split(value, ','))
  {
    var parts := Split(value, ',');
    clean := [];
    for i := 0 to |parts|
      invariant clean == CleanParts(parts[..i])
    {
      assert parts[..i + 1][..i] == parts[..i];
      var s := TrimSpace(parts[i]);
      if s != "" { clean := clean + [s]; }
    }
    assert parts[..|parts|] == parts;
  }

  /** buildFilterClause; next is where it leaves the placeholder counter. */
  method BuildFilterClause(d: Driver, whitelist: seq<string>, f: FilterSpec, idx: nat)
    returns (clause: string, vals: seq<Value>, ok: bool, next: nat)
    ensures ok <==> Accepted(whitelist, f).Some?
    ensures ok ==> clause == ClauseText(d, Accepted(whitelist, f).value, idx) && vals == ClauseValues(Accepted(whitelist, f).value)
    ensures next == if ok then idx + |vals| else idx
  {
    if f.field !in whitelist || !IsValidIdentifier(f.field) {
      return "", [], false, idx;
    }
    var op := ToLower(TrimSpace(f.op));
    if op == "in" {
      clause, vals, next := InClause(d, f.field, f.value, idx);
      return clause, vals, true, next;
    }
    clause, vals, ok := ComparisonClause(d, f.field, op, f.value, idx);
    next := if ok then idx + 1 else idx;
  }

  /** The cases of the switch that bind one value. */
  method ComparisonClause(d: Driver, field: string, op: string, value: string, idx: nat)
    returns (clause: string, vals: seq<Value>, ok: bool)
    ensures ok <==> Comparison(op, value).Some?
    ensures ok ==> vals == [Comparison(op, value).value.1]
    ensures ok ==> clause == ClauseText(d, Compare(field, Comparison(op, value).value.0, vals[0]), idx)
  {
    var ph := Placeholder(d, idx);
    OpTexts(field, ph);
    if op == "=" || op == "equals" { return field + " = " + ph, [Str(value)], true; }
    if op == "!=" || op == "<>" || op == "notequals" { return field + " <> " + ph, [Str(value)], true; }
    if op == "<" || op == "less" { return field + " < " + ph, [Str(value)], true; }
    if op == "<=" || op == "lessequal" || op == "lte" { return field + " <= " + ph, [Str(value)], true; }
    if op == ">" || op == "greater" { return field + " > " + ph, [Str(value)], true; }
    if op == ">=" || op == "greaterequal" || op == "gte" { return field + " >= " + ph, [Str(value)], true; }
    if op == "like" || op == "contains" { return field + " LIKE " + ph, [Str("%" + value + "%")], true; }
    if op == "starts" { return field + " LIKE " + ph, [Str(value + "%")], true; }
    if op == "ends" { return field + " LIKE " + ph, [Str("%" + value)], true; }
    return "", [], false;
  }

  lemma OpTexts(field: string, ph: string)
    ensures field + " " + "=" + " " + ph == field + " = " + ph
    ensures field + " " + "<>" + " " + ph == field + " <> " + ph
    ensures field + " " + "<" + " " + ph == field + " < " + ph
    ensures field + " " + "<=" + " " + ph == field + " <= " + ph
    ensures field + " " + ">" + " " + ph == field + " > " + ph
    ensures field + " " + ">=" + " " + ph == field + " >= " + ph
    ensures field + " " + "LIKE" + " " + ph == field + " LIKE " + ph
  {
  }

  /** The case of the list; an empty one selects nothing. */
  method InClause(d: Driver, field: string, value: string, idx: nat) returns (clause: string, vals: seq<Value>, next: nat)
    ensures var parts := CleanParts(Split(value, ','));
      var c := if parts == [] then Never else Among(field, Strings(parts));
      clause == ClauseText(d, c, idx) && vals == ClauseValues(c) && next == idx + |vals|
  {
    var clean := CleanItems(value);
    if |clean| == 0 {
      return "1 = 0", [], idx;
    }
    var ph;
    ph, vals, next := BindItems(d, clean, idx);
    return field + " IN (" + Join(ph, ", ") + ")", vals, next;
  }

  method BindItems(d: Driver, clean: seq<string>, idx: nat) returns (ph: seq<string>, vals: seq<Value>, next: nat)
    ensures ph == Placeholders(d, idx, |clean|) && vals == Strings(clean) && next == idx + |clean|
  {
    ph, vals, next := [], [], idx;
    for i := 0 to |clean|
      invariant ph == Placeholders(d, idx, i) && next == idx + i
      invariant |vals| == i && forall k :: 0 <= k < i ==> vals[k] == Str(clean[k])
    {
      ph := ph + [Placeholder(d, next)];
      next := next + 1;
      vals := vals + [Str(clean[i])];
    }
  }

  // ----- The WHERE -----

  /** The base filter's clauses, in the order its map is visited. */
  function BaseClauses(whitelist: seq<string>, filter: map<string, Value>, cols: seq<string>): (r: seq<Clause>) {
    if cols == [] then []
    else
      var before, c := BaseClauses(whitelist, filter, cols[..|cols| - 1]), cols[|cols| - 1];
      if c !in filter || c !in whitelist || !IsValidIdentifier(c) then before else before + [Compare(c, Eq, filter[c])]
  }

  function FilterClauses(whitelist: seq<string>, filters: seq<FilterSpec>): (r: seq<Clause>) {
    if filters == [] then []
    else
      var before, c := FilterClauses(whitelist, filters[..|filters| - 1]), Accepted(whitelist, filters[|filters| - 1]);
      if c.None? then before else before + [c.value]
  }

  function Clauses(whitelist: seq<string>, link: Link, cols: seq<string>, req: PageReq): (r: seq<Clause>) {
    BaseClauses(whitelist, link.filter, cols) + FilterClauses(whitelist, req.filter)
  }

  method BuildWhere(d: Driver, whitelist: seq<string>, link: Link, cols: seq<string>, req: PageReq)
    returns (whereSql: string, params: seq<Value>)
    requires forall i :: 0 <= i < |cols| ==> cols[i] in link.filter
    ensures whereSql == WhereText(ClauseTexts(d, Clauses(whitelist, link, cols, req), 1))
    ensures params == AllValues(Clauses(whitelist, link, cols, req))
  {
    var conds: seq<string> := [];
    params := [];
    var idx := 1;
    ghost var cs: seq<Clause> := [];
    for i := 0 to |cols|
      invariant cs == BaseClauses(whitelist, link.filter, cols[..i])
      invariant conds == ClauseTexts(d, cs, 1) && params == AllValues(cs) && idx == 1 + |params|
    {
      assert cols[..i + 1][..i] == cols[..i];
      var col, val := cols[i], link.filter[cols[i]];
      if col !in whitelist || !IsValidIdentifier(col) { continue; }
      ClauseWritten(d, cs, Compare(col, Eq, val));
      OpTexts(col, Placeholder(d, idx));
      conds := conds + [col + " = " + Placeholder(d, idx)];
      params := params + [val];
      idx := idx + 1;
      cs := cs + [Compare(col, Eq, val)];
    }
    assert cols[..|cols|] == cols;
    conds, params := BuildFilters(d, whitelist, req.filter, conds, params, idx, cs);
    if |conds| > 0 {
      return " WHERE " + Join(conds, " AND "), params;
    }
    return "", params;
  }

  lemma ClauseWritten(d: Driver, cs: seq<Clause>, c: Clause)
    ensures ClauseTexts(d, cs + [c], 1) == ClauseTexts(d, cs, 1) + [ClauseText(d, c, 1 + |AllValues(cs)|)]
    ensures AllValues(cs + [c]) == AllValues(cs) + ClauseValues(c)
  {
    AnotherText(d, cs, c, 1);
    AnotherValues(cs, c);
  }

  /** The loop over the browser's filters, going on from the conditions already written. */
  method BuildFilters(d: Driver, whitelist: seq<string>, filters: seq<FilterSpec>, conds0: seq<string>, params0: seq<Value>, idx0: nat, ghost base: seq<Clause>)
    returns (conds: seq<string>, params: seq<Value>)
    requires conds0 == ClauseTexts(d, base, 1) && params0 == AllValues(base) && idx0 == 1 + |params0|
    ensures conds == ClauseTexts(d, base + FilterClauses(whitelist, filters), 1)
    ensures params == AllValues(base + FilterClauses(whitelist, filters))
  {
    conds, params := conds0, params0;
    var idx := idx0;
    ghost var cs := base;
    assert base + FilterClauses(whitelist, filters[..0]) == base;
    for i := 0 to |filters|
      invariant cs == base + FilterClauses(whitelist, filters[..i])
      invariant conds == ClauseTexts(d, cs, 1) && params == AllValues(cs) && idx == 1 + |params|
    {
      assert filters[..i + 1][..i] == filters[..i];
      var clause, vals, ok, next := BuildFilterClause(d, whitelist, filters[i], idx);
      idx := next;
      if !ok { continue; }
      ghost var c := Accepted(whitelist, filters[i]).value;
      ClauseWritten(d, cs, c);
      NextFilter(whitelist, filters, i, base, c);
      conds := conds + [clause];
      params := params + vals;
      cs := cs + [c];
    }
    assert filters[..|filters|] == filters;
  }

  lemma NextFilter(whitelist: seq<string>, filters: seq<FilterSpec>, i: nat, base: seq<Clause>, c: Clause)
    requires i < |filters| && Accepted(whitelist, filters[i]) == Some(c)
    ensures base + FilterClauses(whitelist, filters[..i + 1]) == base + FilterClauses(whitelist, filters[..i]) + [c]
  {
    assert filters[..i + 1][..i] == filters[..i];
  }

  // ----- What the WHERE means -----

  /** A cell against the text a filter gives. */
  predicate CellPasses(test: Test, cell: Value, op: string, value: string) {
    if op == "in" then exists i :: 0 <= i < |CleanParts(Split(value, ','))| && test(cell, Eq, Str(CleanParts(Split(value, ','))[i]))
    else Comparison(op, value).Some? ==> test(cell, Comparison(op, value).value.0, Comparison(op, value).value.1)
  }

  predicate FilterPasses(test: Test, whitelist: seq<string>, f: FilterSpec, row: Row) {
    f.field in whitelist && IsValidIdentifier(f.field) ==> CellPasses(test, Cell(row, f.field), ToLower(TrimSpace(f.op)), f.value)
  }

  /** The rows a request is for: every whitelisted equality of the base filter and every filter that is not
      dropped. */
  ghost predicate Wanted(test: Test, whitelist: seq<string>, filter: map<string, Value>, filters: seq<FilterSpec>, row: Row) {
    && (forall c :: c in filter && c in whitelist && IsValidIdentifier(c) ==> test(Cell(row, c), Eq, filter[c]))
    && (forall f :: f in filters ==> FilterPasses(test, whitelist, f, row))
  }

  /** cols visits each key of the base filter. */
  predicate Visits(cols: seq<string>, filter: map<string, Value>) {
    (forall i :: 0 <= i < |cols| ==> cols[i] in filter) && (forall c :: c in filter ==> c in cols)
  }

  lemma {:induction false} ProperAppend(a: seq<Clause>, b: seq<Clause>)
    ensures AllProper(a + b) <==> AllProper(a) && AllProper(b)
  {
    if a == [] {
      assert a + b == b;
    } else {
      assert (a + b)[1..] == a[1..] + b;
      ProperAppend(a[1..], b);
    }
  }

  lemma {:induction false} HoldAppend(test: Test, row: Row, a: seq<Clause>, b: seq<Clause>)
    ensures AllHold(test, row, a + b) <==> AllHold(test, row, a) && AllHold(test, row, b)
  {
    if a == [] {
      assert a + b == b;
    } else {
      assert (a + b)[1..] == a[1..] + b;
      HoldAppend(test, row, a[1..], b);
    }
  }

  lemma OneClause(test: Test, row: Row, c: Clause)
    ensures AllProper([c]) <==> IsProper(c)
    ensures AllHold(test, row, [c]) <==> ClauseHolds(test, row, c)
  {
    assert [c][1..] == [];
  }

  lemma {:induction false} AnyEqualIff(test: Test, cell: Value, vs: seq<Value>)
    ensures AnyEqual(test, cell, vs) <==> exists i :: 0 <= i < |vs| && test(cell, Eq, vs[i])
  {
    if vs != [] {
      AnyEqualIff(test, cell, vs[1..]);
      assert forall i :: 0 < i < |vs| ==> vs[i] == vs[1..][i - 1];
      if AnyEqual(test, cell, vs[1..]) {
        var i :| 0 <= i < |vs[1..]| && test(cell, Eq, vs[1..][i]);
        assert vs[i + 1] == vs[1..][i];
      }
    }
  }

  lemma AcceptedMeans(test: Test, whitelist: seq<string>, f: FilterSpec, row: Row)
    ensures FilterPasses(test, whitelist, f, row) <==>
      (Accepted(whitelist, f).Some? ==> ClauseHolds(test, row, Accepted(whitelist, f).value))
  {
    var op, cell, parts := ToLower(TrimSpace(f.op)), Cell(row, f.field), CleanParts(Split(f.value, ','));
    if f.field in whitelist && IsValidIdentifier(f.field) && op == "in" {
      AnyEqualIff(test, cell, Strings(parts));
      assert forall i :: 0 <= i < |parts| ==> Strings(parts)[i] == Str(parts[i]);
    }
  }

  lemma {:induction false} BaseMeans(test: Test, whitelist: seq<string>, filter: map<string, Value>, cols: seq<string>, row: Row)
    requires forall i :: 0 <= i < |cols| ==> cols[i] in filter
    ensures AllProper(BaseClauses(whitelist, filter, cols))
    ensures AllHold(test, row, BaseClauses(whitelist, filter, cols)) <==>
      forall c :: c in cols && c in filter && c in whitelist && IsValidIdentifier(c) ==> test(Cell(row, c), Eq, filter[c])
  {
    if cols != [] {
      var n := |cols| - 1;
      var before, c := BaseClauses(whitelist, filter, cols[..n]), cols[n];
      BaseMeans(test, whitelist, filter, cols[..n], row);
      OneMore(test, row, before, Compare(c, Eq, filter[c]));
      assert forall x :: x in cols <==> x in cols[..n] || x == c;
    }
  }

  lemma {:induction false} FiltersMean(test: Test, whitelist: seq<string>, filters: seq<FilterSpec>, row: Row)
    ensures AllProper(FilterClauses(whitelist, filters))
    ensures AllHold(test, row, FilterClauses(whitelist, filters)) <==>
      forall f :: f in filters ==> FilterPasses(test, whitelist, f, row)
  {
    if filters != [] {
      var n := |filters| - 1;
      FiltersMean(test, whitelist, filters[..n], row);
      AcceptedMeans(test, whitelist, filters[n], row);
      AcceptedIsProper(whitelist, filters[n]);
      if Accepted(whitelist, filters[n]).Some? {
        OneMore(test, row, FilterClauses(whitelist, filters[..n]), Accepted(whitelist, filters[n]).value);
      }
      AllPassIff(test, whitelist, filters, row);
    }
  }

  lemma AllPassIff(test: Test, whitelist: seq<string>, filters: seq<FilterSpec>, row: Row)
    requires filters != []
    ensures var n := |filters| - 1;
      (forall f :: f in filters ==> FilterPasses(test, whitelist, f, row)) <==>
      (forall f :: f in filters[..n] ==> FilterPasses(test, whitelist, f, row)) && FilterPasses(test, whitelist, filters[n], row)
  {
    InitAndLast(filters);
    assert forall f :: f in filters <==> f in filters[..|filters| - 1] || f == filters[|filters| - 1];
  }

  lemma OneMore(test: Test, row: Row, cs: seq<Clause>, c: Clause)
    ensures AllProper(cs + [c]) <==> AllProper(cs) && IsProper(c)
    ensures AllHold(test, row, cs + [c]) <==> AllHold(test, row, cs) && ClauseHolds(test, row, c)
  {
    OneClause(test, row, c);
    ProperAppend(cs, [c]);
    HoldAppend(test, row, cs, [c]);
  }

  /** The WHERE selects exactly the rows wanted, in whatever order the base filter is visited. */
  lemma ClausesMean(test: Test, whitelist: seq<string>, link: Link, cols: seq<string>, req: PageReq, row: Row)
    requires Visits(cols, link.filter)
    ensures AllProper(Clauses(whitelist, link, cols, req))
    ensures AllHold(test, row, Clauses(whitelist, link, cols, req)) <==> Wanted(test, whitelist, link.filter, req.filter, row)
  {
    BaseMeans(test, whitelist, link.filter, cols, row);
    FiltersMean(test, whitelist, req.filter, row);
    ProperAppend(BaseClauses(whitelist, link.filter, cols), FilterClauses(whitelist, req.filter));
    HoldAppend(test, row, BaseClauses(whitelist, link.filter, cols), FilterClauses(whitelist, req.filter));
  }

  // ----- The ORDER BY -----

  /** strings.Fields: the runs of characters that are not white space. */
  function Fields(s: string): (r: seq<string>)
    decreases |s|
  {
    if s == "" then []
    else if IsSpace(s[0]) then Fields(s[1..])
    else
      var n := WordLength(s);
      [s[..n]] + Fields(s[n..])
  }

  function WordLength(s: string): (n: nat)
    ensures n <= |s|
    ensures s != "" && !IsSpace(s[0]) ==> n > 0
  {
    if s == "" || IsSpace(s[0]) then 0 else 1 + WordLength(s[1..])
  }

  function DirOf(dir: string): (r: Dir) { if ToUpper(dir) == "DESC" then Desc else Asc }

  /** The keys of the base ordering, part by part. */
  function BaseKeys(parts: seq<string>): (keys: seq<Key>)
    ensures AllColumns(keys)
  {
    if parts == [] then []
    else
      var before, fields := BaseKeys(parts[..|parts| - 1]), Fields(TrimSpace(parts[|parts| - 1]));
      if fields == [] || !IsValidIdentifier(fields[0]) then before
      else before + [Key(fields[0], if |fields| > 1 then DirOf(fields[1]) else Unsaid)]
  }

  function SortKeys(whitelist: seq<string>, sorts: seq<SortSpec>): (keys: seq<Key>)
    ensures AllColumns(keys)
    ensures forall i :: 0 <= i < |keys| ==> keys[i].col in whitelist && keys[i].dir != Unsaid
  {
    if sorts == [] then []
    else
      var before, last := SortKeys(whitelist, sorts[..|sorts| - 1]), sorts[|sorts| - 1];
      if last.field !in whitelist || !IsValidIdentifier(last.field) then before else before + [Key(last.field, DirOf(last.dir))]
  }

  function OrderKeys(whitelist: seq<string>, link: Link, req: PageReq): (keys: seq<Key>)
    ensures AllColumns(keys)
  {
    BaseKeys(Split(link.orderBy, ',')) + SortKeys(whitelist, req.sort)
  }

  method BuildOrder(whitelist: seq<string>, link: Link, req: PageReq) returns (orderSql: string)
    ensures orderSql == OrderText(KeyTexts(OrderKeys(whitelist, link, req)))
  {
    var orders := BaseOrders(link.orderBy);
    orders := SortOrders(whitelist, req.sort, orders, BaseKeys(Split(link.orderBy, ',')));
    if |orders| > 0 {
      return " ORDER BY " + Join(orders, ", ");
    }
    return "";
  }

  method BaseOrders(orderBy: string) returns (orders: seq<string>)
    ensures orders == KeyTexts(BaseKeys(Split(orderBy, ',')))
  {
    orders := [];
    if orderBy == "" {
      NoParts();
      return;
    }
    var parts := Split(orderBy, ',');
    ghost var keys: seq<Key> := [];
    for i := 0 to |parts|
      invariant keys == BaseKeys(parts[..i]) && orders == KeyTexts(keys)
    {
      assert parts[..i + 1][..i] == parts[..i];
      var part := TrimSpace(parts[i]);
      if part == "" { continue; }
      var fields := Fields(part);
      if |fields| == 0 || !IsValidIdentifier(fields[0]) { continue; }
      if |fields| > 1 {
        var dir := ToUpper(fields[1]);
        if dir != "ASC" && dir != "DESC" { dir := "ASC"; }
        AnotherKey(keys, Key(fields[0], DirOf(fields[1])));
        orders := orders + [fields[0] + " " + dir];
        keys := keys + [Key(fields[0], DirOf(fields[1]))];
      } else {
        AnotherKey(keys, Key(fields[0], Unsaid));
        orders := orders + [fields[0]];
        keys := keys + [Key(fields[0], Unsaid)];
      }
    }
    assert parts[..|parts|] == parts;
  }

  lemma NoParts()
    ensures BaseKeys(Split("", ',')) == []
  {
    assert Split("", ',') == [""] && [""][..0] == [];
    assert TrimSpace("") == "";
  }

  lemma AnotherKey(keys: seq<Key>, k: Key)
    ensures KeyTexts(keys + [k]) == KeyTexts(keys) + [KeyText(k)]
  {
    assert (keys + [k])[..|keys|] == keys;
  }

  method SortOrders(whitelist: seq<string>, sorts: seq<SortSpec>, orders0: seq<string>, ghost base: seq<Key>) returns (orders: seq<string>)
    requires orders0 == KeyTexts(base)
    ensures orders == KeyTexts(base + SortKeys(whitelist, sorts))
  {
    orders := orders0;
    ghost var keys := base;
    assert base + SortKeys(whitelist, sorts[..0]) == base;
    for i := 0 to |sorts|
      invariant keys == base + SortKeys(whitelist, sorts[..i]) && orders == KeyTexts(keys)
    {
      NextSort(whitelist, sorts, i, base);
      var s := sorts[i];
      if s.field !in whitelist || !IsValidIdentifier(s.field) { continue; }
      var dir := ToUpper(s.dir);
      if dir != "ASC" && dir != "DESC" { dir := "ASC"; }
      AnotherKey(keys, Key(s.field, DirOf(s.dir)));
      orders := orders + [s.field + " " + dir];
      keys := keys + [Key(s.field, DirOf(s.dir))];
    }
    assert sorts[..|sorts|] == sorts;
  }

  predicate IsOrderPart(part: string) { Fields(TrimSpace(part)) != [] && IsValidIdentifier(Fields(TrimSpace(part))[0]) }

  predicate IsSortable(whitelist: seq<string>, s: SortSpec) { s.field in whitelist && IsValidIdentifier(s.field) }

  ghost predicate HasOrderPart(parts: seq<string>) { exists part :: part in parts && IsOrderPart(part) }

  ghost predicate HasSort(whitelist: seq<string>, sorts: seq<SortSpec>) { exists s :: s in sorts && IsSortable(whitelist, s) }

  lemma {:induction false} BaseKeysIff(parts: seq<string>)
    ensures BaseKeys(parts) != [] <==> HasOrderPart(parts)
  {
    if parts != [] {
      var before, last := parts[..|parts| - 1], parts[|parts| - 1];
      BaseKeysIff(before);
      InitAndLast(parts);
      assert forall part :: part in parts <==> part in before || part == last;
      assert HasOrderPart(parts) <==> HasOrderPart(before) || IsOrderPart(last);
    }
  }

  lemma {:induction false} SortKeysIff(whitelist: seq<string>, sorts: seq<SortSpec>)
    ensures SortKeys(whitelist, sorts) != [] <==> HasSort(whitelist, sorts)
  {
    if sorts != [] {
      var before, last := sorts[..|sorts| - 1], sorts[|sorts| - 1];
      SortKeysIff(whitelist, before);
      InitAndLast(sorts);
      assert forall s :: s in sorts <==> s in before || s == last;
      assert HasSort(whitelist, sorts) <==> HasSort(whitelist, before) || IsSortable(whitelist, last);
    }
  }

  /** There is an ORDER BY exactly when a part of the base ordering begins with an identifier or a sort is
      whitelisted. */
  lemma OrderedIff(whitelist: seq<string>, link: Link, req: PageReq)
    ensures OrderKeys(whitelist, link, req) != [] <==>
      HasOrderPart(Split(link.orderBy, ',')) || HasSort(whitelist, req.sort)
  {
    BaseKeysIff(Split(link.orderBy, ','));
    SortKeysIff(whitelist, req.sort);
  }

  lemma NextSort(whitelist: seq<string>, sorts: seq<SortSpec>, i: nat, base: seq<Key>)
    requires i < |sorts|
    ensures base + SortKeys(whitelist, sorts[..i + 1]) ==
      if IsSortable(whitelist, sorts[i]) then base + SortKeys(whitelist, sorts[..i]) + [Key(sorts[i].field, DirOf(sorts[i].dir))]
      else base + SortKeys(whitelist, sorts[..i])
  {
    assert sorts[..i + 1][..i] == sorts[..i];
  }

  // ----- The database -----

  ghost function WantedRows(test: Test, rows: seq<Row>, whitelist: seq<string>, link: Link, filters: seq<FilterSpec>): (r: seq<Row>) {
    if rows == [] then []
    else
      (if Wanted(test, whitelist, link.filter, filters, rows[0]) then [rows[0]] else [])
      + WantedRows(test, rows[1..], whitelist, link, filters)
  }

  /** The whole result a request is a page of. */
  ghost function Result(db: Database, whitelist: seq<string>, link: Link, req: PageReq): (r: seq<Row>) {
    db.arrange(OrderKeys(whitelist, link, req), WantedRows(db.test, db.rows, whitelist, link, req.filter))
  }

  lemma SelectedAreWanted(test: Test, rows: seq<Row>, whitelist: seq<string>, link: Link, cols: seq<string>, req: PageReq)
    requires Visits(cols, link.filter)
    ensures var cs := Clauses(whitelist, link, cols, req);
      Selected(test, rows, AllValues(cs), AllNumbered(cs, 1)) == WantedRows(test, rows, whitelist, link, req.filter)
  {
    var cs := Clauses(whitelist, link, cols, req);
    forall row ensures Selects(test, row, AllValues(cs), AllNumbered(cs, 1)) <==> Wanted(test, whitelist, link.filter, req.filter, row) {
      SelectsIff(test, row, [], cs, []);
      Alone(AllValues(cs));
      ClausesMean(test, whitelist, link, cols, req, row);
    }
    SameRows(test, rows, AllValues(cs), AllNumbered(cs, 1), whitelist, link, req.filter);
  }

  lemma {:induction false} SameRows(test: Test, rows: seq<Row>, params: seq<Value>, conds: seq<Cond>, whitelist: seq<string>, link: Link, filters: seq<FilterSpec>)
    requires forall row :: Selects(test, row, params, conds) <==> Wanted(test, whitelist, link.filter, filters, row)
    ensures Selected(test, rows, params, conds) == WantedRows(test, rows, whitelist, link, filters)
  {
    if rows != [] { SameRows(test, rows[1..], params, conds, whitelist, link, filters); }
  }

  function PageSize(link: Link, req: PageReq, fallback: nat): (size: nat)
    requires fallback > 0
    ensures size > 0
  {
    if req.size > 0 then req.size else if link.pageSize > 0 then link.pageSize else fallback
  }

  function PageNumber(req: PageReq): (page: nat)
    ensures page > 0
  {
    if req.page < 1 then 1 else req.page
  }

  function RequestText(d: Driver, whitelist: seq<string>, link: Link, cols: seq<string>, req: PageReq, size: nat, page: nat): (r: string)
    requires page > 0
  {
    PageText(d, link.query, Clauses(whitelist, link, cols, req), OrderKeys(whitelist, link, req), size, Offset(page, size))
  }

  /** The database's answer to a request's text is the page asked for; only SQL Server has none, when the
      request orders by nothing or by a column twice. */
  lemma RequestAnswers(db: Database, d: Driver, whitelist: seq<string>, link: Link, cols: seq<string>, req: PageReq, size: nat, page: nat)
    requires Visits(cols, link.filter) && page > 0
    ensures Answer(db, d, link.query, RequestText(d, whitelist, link, cols, req, size, page), AllValues(Clauses(whitelist, link, cols, req))) ==
      if IsAllowed(d, OrderKeys(whitelist, link, req), true) then Some(Page(Result(db, whitelist, link, req), size, page)) else None
  {
    var cs := Clauses(whitelist, link, cols, req);
    ClausesMean(db.test, whitelist, link, cols, req, map[]);
    PageReads(d, link.query, cs, OrderKeys(whitelist, link, req), size, Offset(page, size));
    SelectedAreWanted(db.test, db.rows, whitelist, link, cols, req);
  }

  /** The answer to the derived count is the number of rows wanted, whatever the driver. */
  lemma CountAnswers(db: Database, d: Driver, whitelist: seq<string>, link: Link, cols: seq<string>, req: PageReq)
    requires Visits(cols, link.filter)
    ensures var cs := Clauses(whitelist, link, cols, req);
      Count(db, d, link.query, CountText(d, link.query, cs), AllValues(cs)) ==
      Some(|WantedRows(db.test, db.rows, whitelist, link, req.filter)|)
  {
    ClausesMean(db.test, whitelist, link, cols, req, map[]);
    CountReads(d, link.query, Clauses(whitelist, link, cols, req));
    SelectedAreWanted(db.test, db.rows, whitelist, link, cols, req);
  }

  // ----- The fetches -----

  /** The columns sorts and filters may name: those given, or those discovered. */
  function Whitelist(db: Database, columns: seq<string>): (r: seq<string>) { if columns == [] then db.columns else columns }

  /** The number of rows: what the author's count query gave, if there is one and it did not fail, or else
      the rows wanted. */
  ghost function Total(db: Database, whitelist: seq<string>, link: Link, counted: Option<int>, req: PageReq): (r: Option<int>) {
    if link.countQuery != "" then counted else Some(|WantedRows(db.test, db.rows, whitelist, link, req.filter)|)
  }

  /** When a fetch does not fail. SQL Server must be given the columns and something to order by. */
  predicate CanFetch(db: Database, d: Driver, columns: seq<string>, link: Link, counted: Option<int>, req: PageReq) {
    && Whitelist(db, columns) != []
    && (link.countQuery != "" ==> counted.Some?)
    && (d.SqlServer? ==> columns != [] && OrderKeys(columns, link, req) != [] && NoColumnTwice(OrderKeys(columns, link, req)))
  }

  datatype Fetched = Fetched(text: string, params: seq<Value>, rows: seq<Row>, lastPage: nat)

  /** What a fetch returns: the text sent with its parameters, the page of the whole result, and the number
      of pages; or an error. */
  ghost function Fetch(db: Database, d: Driver, columns: seq<string>, link: Link, cols: seq<string>, counted: Option<int>, req: PageReq, fallback: nat): (r: Option<Fetched>)
    requires fallback > 0
  {
    if !CanFetch(db, d, columns, link, counted, req) then None
    else
      var whitelist, size, page := Whitelist(db, columns), PageSize(link, req, fallback), PageNumber(req);
      Some(Fetched(RequestText(d, whitelist, link, cols, req, size, page), AllValues(Clauses(whitelist, link, cols, req)),
        Page(Result(db, whitelist, link, req), size, page), LastPage(Total(db, whitelist, link, counted, req).value, size)))
  }

  /** The size and number of the page, and the number of pages. */
  method PageBounds(link: Link, req: PageReq, fallback: nat, total: int) returns (size: nat, page: nat, lastPage: nat)
    requires fallback > 0
    ensures size == PageSize(link, req, fallback) && page == PageNumber(req) && lastPage == LastPage(total, size)
  {
    var asked := req.size;
    if asked <= 0 { asked := link.pageSize; }
    if asked <= 0 { asked := fallback; }
    size := asked;
    page := if req.page < 1 then 1 else req.page;
    var pages := (total + size - 1) / size;
    if pages < 1 { pages := 1; }
    lastPage := pages;
  }

  /** The count, derived from the base query and the WHERE unless the author gives a query for it. */
  method CountRows(db: Database, d: Driver, whitelist: seq<string>, link: Link, cols: seq<string>, req: PageReq, counted: Option<int>, whereSql: string, params: seq<Value>)
    returns (total: Option<int>)
    requires Visits(cols, link.filter)
    requires whereSql == WhereText(ClauseTexts(d, Clauses(whitelist, link, cols, req), 1))
    requires params == AllValues(Clauses(whitelist, link, cols, req))
    ensures total == Total(db, whitelist, link, counted, req)
  {
    if link.countQuery != "" {
      return counted;
    }
    CountAnswers(db, d, whitelist, link, cols, req);
    return Count(db, d, link.query, "SELECT COUNT(*) FROM (" + link.query + ") ENV_PAGE" + whereSql, params);
  }

  /** factoryColumns: an error when neither probe is a query, or the answer has no columns. */
  method FactoryColumns(db: Database, d: Driver, query: string) returns (columns: Option<seq<string>>)
    ensures columns == if d.SqlServer? || db.columns == [] then None else Some(db.columns)
  {
    ProbeReads(d, query, 0);
    ProbeReads(d, query, 1);
    assert NatText(0) == "0" && NatText(1) == "1";
    ProbeIs(query);
    var found := ColumnsOf(db, d, query, "SELECT * FROM (" + query + ") ENV_PAGE LIMIT 0");
    if found.None? {
      found := ColumnsOf(db, d, query, "SELECT * FROM (" + query + ") ENV_PAGE LIMIT 1");
      if found.None? { return None; }
    }
    if |found.value| == 0 { return None; }
    return found;
  }

  lemma ProbeIs(query: string)
    ensures ProbeText(query, 0) == "SELECT * FROM (" + query + ") ENV_PAGE LIMIT 0"
    ensures ProbeText(query, 1) == "SELECT * FROM (" + query + ") ENV_PAGE LIMIT 1"
  {
    assert NatText(0) == "0" && NatText(1) == "1";
    assert ") ENV_PAGE" + " LIMIT " + "0" == ") ENV_PAGE LIMIT 0";
    assert ") ENV_PAGE" + " LIMIT " + "1" == ") ENV_PAGE LIMIT 1";
  }

  /** FetchTablePage. cols is the order in which the base filter happens to be visited; counted answers the
      author's own count query. */
  method FetchTablePage(db: Database, d: Driver, columns: seq<string>, link: Link, cols: seq<string>, counted: Option<int>, req: PageReq) returns (r: Option<Fetched>)
    requires Visits(cols, link.filter)
    ensures r == Fetch(db, d, columns, link, cols, counted, req, 25)
  {
    var whitelist := columns;
    if |whitelist| == 0 {
      var found := FactoryColumns(db, d, link.query);
      if found.None? { return None; }
      whitelist := found.value;
    }
    var whereSql, params := BuildWhere(d, whitelist, link, cols, req);
    var orderSql := BuildOrder(whitelist, link, req);
    var total := CountRows(db, d, whitelist, link, cols, req, counted, whereSql, params);
    if total.None? { return None; }
    var size, page, lastPage := PageBounds(link, req, 25, total.value);
    var text := "SELECT * FROM (" + link.query + ") ENV_PAGE" + whereSql + orderSql + LimitClause(d, size, Offset(page, size));
    RequestAnswers(db, d, whitelist, link, cols, req, size, page);
    var rows := Answer(db, d, link.query, text, params);
    if rows.None? { return None; }
    return Some(Fetched(text, params, rows.value, lastPage));
  }

  /** FetchLooperRows: the same, but fifty rows when no size is given. */
  method FetchLooperRows(db: Database, d: Driver, columns: seq<string>, link: Link, cols: seq<string>, counted: Option<int>, req: PageReq) returns (r: Option<Fetched>)
    requires Visits(cols, link.filter)
    ensures r == Fetch(db, d, columns, link, cols, counted, req, 50)
  {
    var whitelist := columns;
    if |whitelist| == 0 {
      var found := FactoryColumns(db, d, link.query);
      if found.None? { return None; }
      whitelist := found.value;
    }
    var whereSql, params := BuildWhere(d, whitelist, link, cols, req);
    var orderSql := BuildOrder(whitelist, link, req);
    var total := CountRows(db, d, whitelist, link, cols, req, counted, whereSql, params);
    if total.None? { return None; }
    var size, page, lastPage := PageBounds(link, req, 50, total.value);
    var text := "SELECT * FROM (" + link.query + ") ENV_PAGE" + whereSql + orderSql + LimitClause(d, size, Offset(page, size));
    RequestAnswers(db, d, whitelist, link, cols, req, size, page);
    var rows := Answer(db, d, link.query, text, params);
    if rows.None? { return None; }
    return Some(Fetched(text, params, rows.value, lastPage));
  }

  /** With SQL Server every fetch fails that gives no columns, orders by nothing, or sorts again by the only
      column it is ordered by. */
  lemma ServerFails(db: Database, link: Link, cols: seq<string>, counted: Option<int>, req: PageReq, columns: seq<string>, dir: string)
    ensures Fetch(db, SqlServer, [], link, cols, counted, req, 25) == None
    ensures link.orderBy == "" && req.sort == [] ==> Fetch(db, SqlServer, columns, link, cols, counted, req, 25) == None
    ensures link.orderBy == "name" && req.sort == [SortSpec("name", dir)] ==>
      Fetch(db, SqlServer, ["name"], link, cols, counted, req, 25) == None
  {
    NoParts();
    if link.orderBy == "name" && req.sort == [SortSpec("name", dir)] { NameTwice(link, req, dir); }
  }

  lemma NameTwice(link: Link, req: PageReq, dir: string)
    requires link.orderBy == "name" && req.sort == [SortSpec("name", dir)]
    ensures !NoColumnTwice(OrderKeys(["name"], link, req))
  {
    NameOrders();
    NameSorts(dir);
    Twice([Key("name", Unsaid)], [Key("name", DirOf(dir))]);
  }

  lemma Twice(a: seq<Key>, b: seq<Key>)
    requires |a| == |b| == 1 && a[0].col == b[0].col
    ensures !NoColumnTwice(a + b)
  {
    assert (a + b)[0].col == (a + b)[1].col;
  }

  lemma NameSorts(dir: string)
    ensures SortKeys(["name"], [SortSpec("name", dir)]) == [Key("name", DirOf(dir))]
  {
    NameIsIdentifier();
    assert [SortSpec("name", dir)][..0] == [];
  }

  lemma LetterIsNoSpace(c: char)
    requires 'a' <= c <= 'z'
    ensures !IsSpace(c)
  {
  }

  lemma NameIsIdentifier()
    ensures IsValidIdentifier("name") && TrimSpace("name") == "name" && Split("name", ',') == ["name"]
    ensures forall i :: 0 <= i < |"name"| ==> !IsSpace("name"[i])
  {
    var name := "name";
    forall i | 0 <= i < |name| ensures !IsSpace(name[i]) { LetterIsNoSpace(name[i]); }
    assert IsTrimmed(name);
  }

  lemma NameOrders()
    ensures BaseKeys(Split("name", ',')) == [Key("name", Unsaid)]
  {
    NameIsIdentifier();
    OneField("name");
    assert ["name"][..0] == [];
  }

  lemma {:induction false} OneField(s: string)
    requires s != "" && forall i :: 0 <= i < |s| ==> !IsSpace(s[i])
    ensures WordLength(s) == |s| && Fields(s) == [s]
  {
    if |s| > 1 { OneField(s[1..]); }
    assert s[..|s|] == s && s[|s|..] == "";
  }

  lemma SameTail(head: string, a: string, b: string)
    requires head + a == head + b
    ensures a == b
  {
    assert (head + a)[|head|..] == a && (head + b)[|head|..] == b;
  }

  /** The two pagers, asked the same, return the same, text, parameters, rows and page count or an error,
      exactly when they fail or a positive size is given somewhere. */
  lemma SameFetchIff(db: Database, d: Driver, columns: seq<string>, link: Link, cols: seq<string>, counted: Option<int>, req: PageReq)
    ensures Fetch(db, d, columns, link, cols, counted, req, 25) == Fetch(db, d, columns, link, cols, counted, req, 50)
      <==> !CanFetch(db, d, columns, link, counted, req) || req.size > 0 || link.pageSize > 0
  {
    var whitelist, page := Whitelist(db, columns), PageNumber(req);
    if req.size <= 0 && link.pageSize <= 0 {
      LimitsDiffer(d, Offset(page, 25), Offset(page, 50));
      var head := RowsHead(link.query) + WhereText(ClauseTexts(d, Clauses(whitelist, link, cols, req), 1))
        + OrderText(KeyTexts(OrderKeys(whitelist, link, req)));
      var a, b := LimitClause(d, 25, Offset(page, 25)), LimitClause(d, 50, Offset(page, 50));
      if head + a == head + b { SameTail(head, a, b); }
    }
  }

  lemma LimitsDiffer(d: Driver, m: nat, n: nat)
    ensures LimitClause(d, 25, m) != LimitClause(d, 50, n)
  {
    LimitReads(d, 25, m);
    LimitReads(d, 50, n);
    SpacedSplits(LimitPart(d, 25, m));
    SpacedSplits(LimitPart(d, 50, n));
    var a, b := Split(LimitClause(d, 25, m), ' '), Split(LimitClause(d, 50, n), ' ');
    assert a[1..] == LimitPart(d, 25, m) && b[1..] == LimitPart(d, 50, n);
  }

  /** Both pagers, asked the same. */
  method FetchBoth(db: Database, d: Driver, columns: seq<string>, link: Link, cols: seq<string>, counted: Option<int>, req: PageReq)
    returns (table: Option<Fetched>, looper: Option<Fetched>)
    requires Visits(cols, link.filter)
    ensures table == looper <==> !CanFetch(db, d, columns, link, counted, req) || req.size > 0 || link.pageSize > 0
  {
    table := FetchTablePage(db, d, columns, link, cols, counted, req);
    looper := FetchLooperRows(db, d, columns, link, cols, counted, req);
    SameFetchIff(db, d, columns, link, cols, counted, req);
  }

  /** The same request for page p fails or not as any other does, and gives page p. */
  lemma PageFetched(db: Database, d: Driver, columns: seq<string>, link: Link, cols: seq<string>, counted: Option<int>, req: PageReq, p: nat)
    requires p > 0
    ensures var r := Fetch(db, d, columns, link, cols, counted, req.(page := p), 25);
      && (r.Some? <==> CanFetch(db, d, columns, link, counted, req))
      && (r.Some? ==> r.value.rows == Page(Result(db, Whitelist(db, columns), link, req), PageSize(link, req, 25), p))
      && (r.Some? ==> r.value.lastPage == LastPage(Total(db, Whitelist(db, columns), link, counted, req).value, PageSize(link, req, 25)))
  {
  }

  /** Asking for page after page up to the last gives the whole result, each row once; as far as the
      author's count goes, if there is one. */
  method FetchAllPages(db: Database, d: Driver, columns: seq<string>, link: Link, cols: seq<string>, counted: Option<int>, req: PageReq) returns (all: Option<seq<Row>>)
    requires Visits(cols, link.filter) && Arranges(db)
    ensures all.Some? <==> CanFetch(db, d, columns, link, counted, req)
    ensures all.Some? ==>
      all.value == FirstPages(Result(db, Whitelist(db, columns), link, req), Total(db, Whitelist(db, columns), link, counted, req).value, PageSize(link, req, 25))
    ensures all.Some? && link.countQuery == "" ==> all.value == Result(db, Whitelist(db, columns), link, req)
  {
    ghost var full, size := Result(db, Whitelist(db, columns), link, req), PageSize(link, req, 25);
    ghost var total := Total(db, Whitelist(db, columns), link, counted, req);
    PageFetched(db, d, columns, link, cols, counted, req, 1);
    var first := FetchTablePage(db, d, columns, link, cols, counted, req.(page := 1));
    if first.None? { return None; }
    var last := first.value.lastPage;
    var rows: seq<Row> := [];
    for p := 1 to last + 1
      invariant rows == Pages(full, size, p - 1)
    {
      PageFetched(db, d, columns, link, cols, counted, req, p);
      var page := FetchTablePage(db, d, columns, link, cols, counted, req.(page := p));
      rows := rows + page.value.rows;
    }
    PagesFirst(full, total.value, size);
    return Some(rows);
  }

  /** The rows up to the last page of a total, which may be less or more than there are. */
  function FirstPages(rows: seq<Row>, total: int, size: nat): (r: seq<Row>)
    requires size > 0
  {
    var n := LastPage(total, size) * size;
    if n >= |rows| then rows else rows[..n]
  }

  lemma PagesFirst(rows: seq<Row>, total: int, size: nat)
    requires size > 0
    ensures Pages(rows, size, LastPage(total, size)) == FirstPages(rows, total, size)
    ensures total == |rows| ==> FirstPages(rows, total, size) == rows
  {
    PagesTake(rows, size, LastPage(total, size));
    if total == |rows| { PagesPartition(rows, size); }
  }
}
