/** The pager's whole queries (internal/bindings/tabledb.go): a SELECT over the author's base query, its
    count, and the probe for its columns, read as each driver's database reads them. */
module SqlQuery {
  import opened Text
  import opened SqlText
  import opened SqlMeaning
  import opened SqlPaging

  /** The rows selected by conditions, in an order, perhaps so many of them after so many; or how many rows. */
  datatype Query =
    | Rows(conds: seq<Cond>, keys: seq<Key>, limit: Option<(nat, nat)>)
    | HowMany(counted: seq<Cond>)

  function RowsHead(base: string): (r: string) { "SELECT * FROM (" + base + ") ENV_PAGE" }

  function CountHead(base: string): (r: string) { "SELECT COUNT(*) FROM (" + base + ") ENV_PAGE" }

  predicate NoColumnTwice(keys: seq<Key>) {
    forall i, j :: 0 <= i < j < |keys| ==> keys[i].col != keys[j].col
  }

  /** In SQL Server OFFSET is part of an ORDER BY, and an ORDER BY names no column twice. */
  predicate IsAllowed(d: Driver, keys: seq<Key>, paged: bool) {
    d.SqlServer? ==> NoColumnTwice(keys) && (paged ==> keys != [])
  }

  /** What follows the base query: WHERE, ORDER BY and paging, each of which may be missing. */
  function ReadParts(d: Driver, words: seq<string>): (r: Option<Query>) {
    var where := ReadWhere(d, words, 1);
    if where.None? then None
    else
      var order := ReadOrder(where.value.1);
      if order.None? || !IsAllowed(d, order.value.0, order.value.1 != []) then None
      else if order.value.1 == [] then Some(Rows(where.value.0, order.value.0, None))
      else
        var limit := ReadLimit(d, order.value.1);
        if limit.None? then None else Some(Rows(where.value.0, order.value.0, limit))
  }

  /** The words of a text that is empty or begins with a space. */
  function PartWords(text: string): (r: Option<seq<string>>) {
    if text == "" then Some([]) else if Split(text, ' ')[0] != "" then None else Some(Split(text, ' ')[1..])
  }

  predicate Begins(text: string, head: string) { |head| <= |text| && text[..|head|] == head }

  function ReadQuery(d: Driver, base: string, text: string): (r: Option<Query>) {
    if Begins(text, RowsHead(base)) then
      var words := PartWords(text[|RowsHead(base)|..]);
      if words.None? then None else ReadParts(d, words.value)
    else if Begins(text, CountHead(base)) then
      var words := PartWords(text[|CountHead(base)|..]);
      var conds := if words.None? then None else ReadTail(d, words.value, 1);
      if conds.None? then None else Some(HowMany(conds.value))
    else None
  }

  // ----- The pager's own texts -----

  lemma PartRead(words: seq<string>)
    requires NoSpaces(words)
    ensures PartWords(SpacedText(words)) == Some(words)
  {
    SpacedSplits(words);
    assert ([""] + words)[1..] == words;
  }

  lemma HeadThen(head: string, tail: string)
    ensures Begins(head + tail, head) && (head + tail)[|head|..] == tail
  {
  }

  lemma CountIsNoRows(base: string, tail: string)
    ensures !Begins(CountHead(base) + tail, RowsHead(base))
  {
    assert RowsHead(base)[7] == '*' && (CountHead(base) + tail)[7] == 'C';
  }

  lemma LimitEnds(d: Driver, size: nat, offset: nat)
    ensures EndsKeys(LimitPart(d, size, offset)) && EndsConds(LimitPart(d, size, offset))
    ensures LimitPart(d, size, offset) != [] && LimitPart(d, size, offset)[0] != "WHERE"
  {
  }

  lemma OrderEnds(keys: seq<Key>, rest: seq<string>)
    requires EndsConds(rest) && (rest == [] || rest[0] != "WHERE")
    ensures EndsConds(OrderPart(keys) + rest) && (OrderPart(keys) + rest == [] || (OrderPart(keys) + rest)[0] != "WHERE")
  {
    if keys == [] { assert [] + rest == rest; }
  }

  lemma PartsRead(d: Driver, cs: seq<Clause>, keys: seq<Key>, size: nat, offset: nat, limit: seq<string>)
    requires AllProper(cs) && AllColumns(keys) && limit == LimitPart(d, size, offset)
    ensures ReadParts(d, WherePart(d, cs, 1) + (OrderPart(keys) + limit)) ==
      if IsAllowed(d, keys, true) then Some(Rows(AllNumbered(cs, 1), keys, Some((size, offset)))) else None
  {
    LimitEnds(d, size, offset);
    OrderEnds(keys, limit);
    WhereReads(d, cs, 1, OrderPart(keys) + limit);
    OrderReads(keys, limit);
    LimitReads(d, size, offset);
  }

  lemma PartsText(d: Driver, cs: seq<Clause>, keys: seq<Key>, size: nat, offset: nat)
    requires AllProper(cs) && AllColumns(keys)
    ensures var words := WherePart(d, cs, 1) + (OrderPart(keys) + LimitPart(d, size, offset));
      && NoSpaces(words)
      && SpacedText(words) == WhereText(ClauseTexts(d, cs, 1)) + (OrderText(KeyTexts(keys)) + LimitClause(d, size, offset))
  {
    var where, order, limit := WherePart(d, cs, 1), OrderPart(keys), LimitPart(d, size, offset);
    WhereIsPart(d, cs, 1);
    OrderIsPart(keys);
    LimitReads(d, size, offset);
    NoSpacesMore(order, limit);
    NoSpacesMore(where, order + limit);
    SpacedMore(order, limit);
    SpacedMore(where, order + limit);
  }

  function PageText(d: Driver, base: string, cs: seq<Clause>, keys: seq<Key>, size: nat, offset: nat): (r: string) {
    RowsHead(base) + WhereText(ClauseTexts(d, cs, 1)) + OrderText(KeyTexts(keys)) + LimitClause(d, size, offset)
  }

  /** A page's text is read back as its conditions, keys and bounds, or is no query exactly when the driver
      is SQL Server's and the keys are none or name a column twice. */
  lemma PageReads(d: Driver, base: string, cs: seq<Clause>, keys: seq<Key>, size: nat, offset: nat)
    requires AllProper(cs) && AllColumns(keys)
    ensures ReadQuery(d, base, PageText(d, base, cs, keys, size, offset)) ==
      if IsAllowed(d, keys, true) then Some(Rows(AllNumbered(cs, 1), keys, Some((size, offset)))) else None
  {
    var where, order, limit := WhereText(ClauseTexts(d, cs, 1)), OrderText(KeyTexts(keys)), LimitClause(d, size, offset);
    var words := WherePart(d, cs, 1) + (OrderPart(keys) + LimitPart(d, size, offset));
    PartsText(d, cs, keys, size, offset);
    PartRead(words);
    PartsRead(d, cs, keys, size, offset, LimitPart(d, size, offset));
    Regroup(RowsHead(base), where, order, limit);
    HeadThen(RowsHead(base), where + (order + limit));
  }

  function CountText(d: Driver, base: string, cs: seq<Clause>): (r: string) {
    CountHead(base) + WhereText(ClauseTexts(d, cs, 1))
  }

  /** The derived count is read back as the count of its conditions, by every driver. */
  lemma CountReads(d: Driver, base: string, cs: seq<Clause>)
    requires AllProper(cs)
    ensures ReadQuery(d, base, CountText(d, base, cs)) == Some(HowMany(AllNumbered(cs, 1)))
  {
    WhereIsPart(d, cs, 1);
    PartRead(WherePart(d, cs, 1));
    TailReads(d, cs, 1);
    HeadThen(CountHead(base), SpacedText(WherePart(d, cs, 1)));
    CountIsNoRows(base, SpacedText(WherePart(d, cs, 1)));
  }

  function ProbeText(base: string, n: nat): (r: string) { RowsHead(base) + " LIMIT " + NatText(n) }

  /** A probe is a query exactly where there is a LIMIT. */
  lemma ProbeReads(d: Driver, base: string, n: nat)
    ensures ReadQuery(d, base, ProbeText(base, n)) == if d.SqlServer? then None else Some(Rows([], [], Some((n, 0))))
  {
    NumberReads(n);
    ProbeTail(d, NatText(n), n);
    Assoc(RowsHead(base), " LIMIT ", NatText(n));
    HeadThen(RowsHead(base), " LIMIT " + NatText(n));
  }

  lemma ProbeTail(d: Driver, digits: string, n: nat)
    requires ReadNumber(digits) == Some(n) && ' ' !in digits
    ensures PartWords(" LIMIT " + digits) == Some(["LIMIT", digits])
    ensures ReadParts(d, ["LIMIT", digits]) == if d.SqlServer? then None else Some(Rows([], [], Some((n, 0))))
  {
    JoinCons("LIMIT", [digits]);
    assert ["LIMIT"] + [digits] == ["LIMIT", digits];
    assert " " + ("LIMIT" + " " + digits) == " LIMIT " + digits;
    PartRead(["LIMIT", digits]);
  }

  // ----- Answers -----

  /** What the base query gives: its rows in a fixed order, its columns, the database's comparison and sort. */
  datatype Database = Database(rows: seq<Row>, columns: seq<string>, test: Test, arrange: (seq<Key>, seq<Row>) -> seq<Row>)

  ghost predicate Arranges(db: Database) {
    forall keys, rows :: |db.arrange(keys, rows)| == |rows|
  }

  function Selected(test: Test, rows: seq<Row>, params: seq<Value>, conds: seq<Cond>): (r: seq<Row>) {
    if rows == [] then []
    else (if Selects(test, rows[0], params, conds) then [rows[0]] else []) + Selected(test, rows[1..], params, conds)
  }

  function Limited<T>(rows: seq<T>, limit: Option<(nat, nat)>): (r: seq<T>) {
    if limit.None? then rows else Slice(rows, limit.value.0, limit.value.1)
  }

  /** The rows a query text gives, unless it is no query. */
  function Answer(db: Database, d: Driver, base: string, text: string, params: seq<Value>): (r: Option<seq<Row>>) {
    var q := ReadQuery(d, base, text);
    if q.None? || !q.value.Rows? then None
    else Some(Limited(db.arrange(q.value.keys, Selected(db.test, db.rows, params, q.value.conds)), q.value.limit))
  }

  function Count(db: Database, d: Driver, base: string, text: string, params: seq<Value>): (r: Option<int>) {
    var q := ReadQuery(d, base, text);
    if q.None? || !q.value.HowMany? then None else Some(|Selected(db.test, db.rows, params, q.value.counted)|)
  }

  /** The columns of a query's answer. */
  function ColumnsOf(db: Database, d: Driver, base: string, text: string): (r: Option<seq<string>>) {
    var q := ReadQuery(d, base, text);
    if q.None? || !q.value.Rows? then None else Some(db.columns)
  }
}
