/** ORDER BY and the paging clause of a SELECT (internal/bindings/tabledb.go): their texts, a reader of
    those texts, and the arithmetic of pages. */
module SqlPaging {
  import opened Text
  import opened SqlText

  // ----- ORDER BY -----

  datatype Dir = Unsaid | Asc | Desc

  datatype Key = Key(col: string, dir: Dir)

  function DirWord(dir: Dir): (r: string) {
    match dir
    case Unsaid => ""
    case Asc => "ASC"
    case Desc => "DESC"
  }

  function KeyText(k: Key): (r: string) {
    if k.dir.Unsaid? then k.col else k.col + " " + DirWord(k.dir)
  }

  function KeyTexts(keys: seq<Key>): (texts: seq<string>)
    ensures |texts| == |keys|
  {
    if keys == [] then [] else KeyTexts(keys[..|keys| - 1]) + [KeyText(keys[|keys| - 1])]
  }

  function OrderText(texts: seq<string>): (r: string) {
    if texts == [] then "" else " ORDER BY " + Join(texts, ", ")
  }

  predicate AllColumns(keys: seq<Key>) { forall i :: 0 <= i < |keys| ==> IsValidIdentifier(keys[i].col) }

  function ReadDir(w: string): (r: Option<Dir>) {
    if w == "ASC" then Some(Asc) else if w == "DESC" then Some(Desc) else None
  }

  predicate EndsInComma(w: string) { w != "" && w[|w| - 1] == ',' }

  /** The columns of an ORDER BY with their directions, and the words after the last. */
  function ReadKeys(words: seq<string>): (r: Option<(seq<Key>, seq<string>)>)
    ensures r.Some? ==> |r.value.1| < |words|
    decreases |words|
  {
    if words == [] then None
    else if EndsInComma(words[0]) then ThenKeys(Key(words[0][..|words[0]| - 1], Unsaid), ReadKeys(words[1..]))
    else if |words| > 1 && ReadDir(words[1]).Some? then Some(([Key(words[0], ReadDir(words[1]).value)], words[2..]))
    else if |words| > 1 && EndsInComma(words[1]) && ReadDir(words[1][..|words[1]| - 1]).Some? then
      ThenKeys(Key(words[0], ReadDir(words[1][..|words[1]| - 1]).value), ReadKeys(words[2..]))
    else Some(([Key(words[0], Unsaid)], words[1..]))
  }

  function ThenKeys(k: Key, rest: Option<(seq<Key>, seq<string>)>): (r: Option<(seq<Key>, seq<string>)>) {
    if rest.None? then None else Some(([k] + rest.value.0, rest.value.1))
  }

  /** An ORDER BY, if there is one, and the words after it. */
  function ReadOrder(words: seq<string>): (r: Option<(seq<Key>, seq<string>)>) {
    if |words| < 2 || words[..2] != ["ORDER", "BY"] then Some(([], words)) else ReadKeys(words[2..])
  }

  function LastWords(k: Key): (r: seq<string>) { if k.dir.Unsaid? then [k.col] else [k.col, DirWord(k.dir)] }

  function CommaWords(k: Key): (r: seq<string>) {
    if k.dir.Unsaid? then [k.col + ","] else [k.col, DirWord(k.dir) + ","]
  }

  function KeyWords(keys: seq<Key>): (words: seq<string>)
    ensures keys != [] ==> words != []
  {
    if keys == [] then []
    else if |keys| == 1 then LastWords(keys[0])
    else CommaWords(keys[0]) + KeyWords(keys[1..])
  }

  /** Words that do not go on with the keys. */
  predicate EndsKeys(rest: seq<string>) { rest == [] || rest[0] !in ["ASC", "DESC", "ASC,", "DESC,", "ORDER"] }

  lemma LastKeyReads(k: Key, rest: seq<string>)
    requires IsValidIdentifier(k.col) && EndsKeys(rest)
    ensures ReadKeys(LastWords(k) + rest) == Some(([k], rest))
  {
    IdentifierIsWord(k.col);
    assert k.col[|k.col| - 1] in k.col;
    if k.dir.Unsaid? {
      assert ([k.col] + rest)[1..] == rest;
      if rest != [] { NoDirAhead(rest[0]); }
    } else {
      assert ([k.col, DirWord(k.dir)] + rest)[2..] == rest;
    }
  }

  lemma NoDirAhead(w: string)
    requires w !in ["ASC", "DESC", "ASC,", "DESC,"]
    ensures ReadDir(w) == None
    ensures EndsInComma(w) ==> ReadDir(w[..|w| - 1]) == None
  {
    if EndsInComma(w) {
      assert w == w[..|w| - 1] + ",";
      assert "ASC" + "," == "ASC," && "DESC" + "," == "DESC,";
    }
  }

  lemma CommaKeyReads(k: Key, more: seq<string>, keys: seq<Key>, rest: seq<string>)
    requires IsValidIdentifier(k.col) && ReadKeys(more) == Some((keys, rest))
    ensures ReadKeys(CommaWords(k) + more) == Some(([k] + keys, rest))
  {
    IdentifierIsWord(k.col);
    assert k.col[|k.col| - 1] in k.col;
    if k.dir.Unsaid? {
      var w := k.col + ",";
      assert w[..|w| - 1] == k.col && ([w] + more)[1..] == more;
    } else {
      var w := DirWord(k.dir) + ",";
      assert w[..|w| - 1] == DirWord(k.dir) && ([k.col, w] + more)[2..] == more;
    }
  }

  lemma {:induction false} KeysRead(keys: seq<Key>, rest: seq<string>)
    requires keys != [] && AllColumns(keys) && EndsKeys(rest)
    ensures ReadKeys(KeyWords(keys) + rest) == Some((keys, rest))
  {
    if |keys| == 1 {
      LastKeyReads(keys[0], rest);
      assert keys == [keys[0]];
    } else {
      KeysRead(keys[1..], rest);
      CommaKeyReads(keys[0], KeyWords(keys[1..]) + rest, keys[1..], rest);
      Assoc(CommaWords(keys[0]), KeyWords(keys[1..]), rest);
      HeadAndTail(keys);
    }
  }

  lemma {:induction false} KeyTextsFirst(keys: seq<Key>)
    requires keys != []
    ensures KeyTexts(keys) == [KeyText(keys[0])] + KeyTexts(keys[1..])
  {
    if |keys| > 1 {
      KeyTextsFirst(keys[..|keys| - 1]);
      assert keys[..|keys| - 1][1..] == keys[1..][..|keys| - 2];
    }
  }

  lemma CommaText(k: Key, more: seq<string>)
    requires more != []
    ensures Join(CommaWords(k) + more, " ") == KeyText(k) + ", " + Join(more, " ")
  {
    if k.dir.Unsaid? {
      JoinCons(k.col + ",", more);
      assert k.col + "," + " " + Join(more, " ") == k.col + ", " + Join(more, " ");
    } else {
      var w := DirWord(k.dir) + ",";
      JoinCons(w, more);
      JoinCons(k.col, [w] + more);
      assert [k.col, w] + more == [k.col] + ([w] + more);
      Spaced(k.col, DirWord(k.dir), Join(more, " "));
    }
  }

  lemma Spaced(col: string, dir: string, rest: string)
    ensures col + " " + ((dir + ",") + " " + rest) == col + " " + dir + ", " + rest
  {
  }

  lemma LastText(k: Key)
    ensures Join(LastWords(k), " ") == KeyText(k)
  {
    if !k.dir.Unsaid? {
      JoinCons(k.col, [DirWord(k.dir)]);
      assert [k.col] + [DirWord(k.dir)] == LastWords(k);
    }
  }

  lemma {:induction false} KeysAreWords(keys: seq<Key>)
    requires keys != []
    ensures Join(KeyTexts(keys), ", ") == Join(KeyWords(keys), " ")
  {
    KeyTextsFirst(keys);
    if |keys| == 1 {
      LastText(keys[0]);
      assert KeyTexts(keys[1..]) == [];
    } else {
      KeysAreWords(keys[1..]);
      CommaText(keys[0], KeyWords(keys[1..]));
      assert ([KeyText(keys[0])] + KeyTexts(keys[1..]))[1..] == KeyTexts(keys[1..]);
    }
  }

  lemma {:induction false} KeysNoSpaces(keys: seq<Key>)
    requires AllColumns(keys)
    ensures NoSpaces(KeyWords(keys))
  {
    if keys != [] {
      IdentifierIsWord(keys[0].col);
      assert ' ' !in DirWord(keys[0].dir);
      KeysNoSpaces(keys[1..]);
    }
  }

  function OrderPart(keys: seq<Key>): (words: seq<string>) {
    if keys == [] then [] else ["ORDER", "BY"] + KeyWords(keys)
  }

  lemma OrderIsPart(keys: seq<Key>)
    requires AllColumns(keys)
    ensures OrderText(KeyTexts(keys)) == SpacedText(OrderPart(keys)) && NoSpaces(OrderPart(keys))
  {
    if keys != [] {
      KeysAreWords(keys);
      KeysNoSpaces(keys);
      NoSpacesMore(["ORDER", "BY"], KeyWords(keys));
      OrderPrefix(KeyWords(keys));
    }
  }

  lemma OrderPrefix(words: seq<string>)
    requires words != []
    ensures SpacedText(["ORDER", "BY"] + words) == " ORDER BY " + Join(words, " ")
  {
    JoinMore(["ORDER", "BY"], words, " ");
    assert Join(["ORDER", "BY"], " ") == "ORDER BY";
  }

  /** An ORDER BY is read back as its columns and directions, in order, whatever follows it. */
  lemma OrderReads(keys: seq<Key>, rest: seq<string>)
    requires AllColumns(keys) && EndsKeys(rest)
    ensures OrderText(KeyTexts(keys)) == SpacedText(OrderPart(keys))
    ensures ReadOrder(OrderPart(keys) + rest) == Some((keys, rest))
  {
    OrderIsPart(keys);
    if keys == [] {
      assert [] + rest == rest;
    } else {
      KeysRead(keys, rest);
      var words := ["ORDER", "BY"] + KeyWords(keys);
      CutHead(words, rest, 2);
      assert words[2..] == KeyWords(keys) && (words + rest)[..2] == ["ORDER", "BY"];
    }
  }

  // ----- The paging clause -----

  /** DBHandle.LimitClause. */
  function LimitClause(d: Driver, size: nat, offset: nat): (r: string) {
    if d.SqlServer? then " OFFSET " + NatText(offset) + " ROWS FETCH NEXT " + NatText(size) + " ROWS ONLY"
    else " LIMIT " + NatText(size) + " OFFSET " + NatText(offset)
  }

  function ReadNumber(w: string): (r: Option<nat>) { if w != "" && AllDigits(w) then Some(NatValue(w)) else None }

  function LimitPart(d: Driver, size: nat, offset: nat): (words: seq<string>) {
    if d.SqlServer? then ["OFFSET", NatText(offset), "ROWS", "FETCH", "NEXT", NatText(size), "ROWS", "ONLY"]
    else ["LIMIT", NatText(size), "OFFSET", NatText(offset)]
  }

  /** How many rows a paging clause asks for, and how many it passes over. SQL Server knows no LIMIT. */
  function ReadLimit(d: Driver, words: seq<string>): (r: Option<(nat, nat)>) {
    if d.SqlServer? then
      if |words| == 8 && words[0] == "OFFSET" && words[2..5] == ["ROWS", "FETCH", "NEXT"] && words[6..] == ["ROWS", "ONLY"]
         && ReadNumber(words[1]).Some? && ReadNumber(words[5]).Some?
      then Some((ReadNumber(words[5]).value, ReadNumber(words[1]).value))
      else None
    else if |words| < 2 || words[0] != "LIMIT" || ReadNumber(words[1]).None? then None
    else if |words| == 2 then Some((ReadNumber(words[1]).value, 0))
    else if |words| == 4 && words[2] == "OFFSET" && ReadNumber(words[3]).Some?
    then Some((ReadNumber(words[1]).value, ReadNumber(words[3]).value))
    else None
  }

  lemma NumberReads(n: nat)
    ensures ReadNumber(NatText(n)) == Some(n) && ' ' !in NatText(n)
  {
    NatValueOfText(n);
    assert !IsDigit(' ');
  }

  /** The paging clause is read back as its size and offset. */
  lemma LimitReads(d: Driver, size: nat, offset: nat)
    ensures LimitClause(d, size, offset) == SpacedText(LimitPart(d, size, offset)) && NoSpaces(LimitPart(d, size, offset))
    ensures ReadLimit(d, LimitPart(d, size, offset)) == Some((size, offset))
  {
    NumberReads(size);
    NumberReads(offset);
    LimitWords(d, NatText(size), NatText(offset));
    if d.SqlServer? { FetchGlue(NatText(size), NatText(offset)); } else { LimitGlue(NatText(size), NatText(offset)); }
  }

  lemma LimitWords(d: Driver, s: string, o: string)
    requires ReadNumber(s).Some? && ReadNumber(o).Some? && ' ' !in s && ' ' !in o
    ensures d.SqlServer? ==> var words := ["OFFSET", o, "ROWS", "FETCH", "NEXT", s, "ROWS", "ONLY"];
      NoSpaces(words) && ReadLimit(d, words) == Some((ReadNumber(s).value, ReadNumber(o).value))
    ensures !d.SqlServer? ==> var words := ["LIMIT", s, "OFFSET", o];
      NoSpaces(words) && ReadLimit(d, words) == Some((ReadNumber(s).value, ReadNumber(o).value))
  {
  }

  lemma LimitGlue(s: string, o: string)
    ensures SpacedText(["LIMIT", s, "OFFSET", o]) == " LIMIT " + s + " OFFSET " + o
  {
    ThreeWords(s, "OFFSET", o);
    JoinCons("LIMIT", [s, "OFFSET", o]);
    assert ["LIMIT"] + [s, "OFFSET", o] == ["LIMIT", s, "OFFSET", o];
    LimitStrings(s, o);
  }

  lemma LimitStrings(s: string, o: string)
    ensures " " + ("LIMIT" + " " + (s + " " + "OFFSET" + " " + o)) == " LIMIT " + s + " OFFSET " + o
  {
  }

  lemma FetchGlue(s: string, o: string)
    ensures SpacedText(["OFFSET", o, "ROWS", "FETCH", "NEXT", s, "ROWS", "ONLY"]) ==
      " OFFSET " + o + " ROWS FETCH NEXT " + s + " ROWS ONLY"
  {
    ThreeWords(s, "ROWS", "ONLY");
    ThreeWords("ROWS", "FETCH", "NEXT");
    JoinCons("OFFSET", [o]);
    assert ["OFFSET"] + [o] == ["OFFSET", o];
    JoinMore(["ROWS", "FETCH", "NEXT"], [s, "ROWS", "ONLY"], " ");
    JoinMore(["OFFSET", o], ["ROWS", "FETCH", "NEXT"] + [s, "ROWS", "ONLY"], " ");
    assert ["OFFSET", o] + (["ROWS", "FETCH", "NEXT"] + [s, "ROWS", "ONLY"]) == ["OFFSET", o, "ROWS", "FETCH", "NEXT", s, "ROWS", "ONLY"];
    FetchStrings(s, o);
  }

  lemma FetchStrings(s: string, o: string)
    ensures " " + (("OFFSET" + " " + o) + (" " + (("ROWS" + " " + "FETCH" + " " + "NEXT") + (" " + (s + " " + "ROWS" + " " + "ONLY")))))
      == " OFFSET " + o + " ROWS FETCH NEXT " + s + " ROWS ONLY"
  {
  }

  // ----- Pages -----

  function Slice<T>(rows: seq<T>, size: nat, offset: nat): (r: seq<T>) {
    if offset >= |rows| then []
    else if offset + size >= |rows| then rows[offset..]
    else rows[offset..offset + size]
  }

  /** Go's division truncates; below 0 the least page number decides either way. */
  function LastPage(total: int, size: nat): (last: nat)
    requires size > 0
  {
    var pages := (total + size - 1) / size;
    if pages < 1 then 1 else pages
  }

  /** The rows before page p. */
  function Offset(p: nat, size: nat): (r: nat)
    requires p > 0
  {
    (p - 1) * size
  }

  function Page<T>(rows: seq<T>, size: nat, p: nat): (r: seq<T>)
    requires p > 0
  {
    Slice(rows, size, Offset(p, size))
  }

  /** The rows of pages 1 to n, one page after another. */
  function Pages<T>(rows: seq<T>, size: nat, n: nat): (r: seq<T>) {
    if n == 0 then [] else Pages(rows, size, n - 1) + Page(rows, size, n)
  }

  lemma {:induction false} PagesTake<T>(rows: seq<T>, size: nat, n: nat)
    ensures Pages(rows, size, n) == if n * size >= |rows| then rows else rows[..n * size]
  {
    if n > 0 {
      PagesTake(rows, size, n - 1);
      assert n * size == (n - 1) * size + size;
      assert forall k :: 0 <= k <= |rows| ==> rows[..k] + rows[k..] == rows;
    } else {
      assert rows[..0] == [];
    }
  }

  lemma LastPageCovers(total: nat, size: nat)
    requires size > 0
    ensures LastPage(total, size) * size >= total
    ensures LastPage(total, size) > 1 ==> (LastPage(total, size) - 1) * size < total
  {
    var pages := (total + size - 1) / size;
    assert pages * size <= total + size - 1 < pages * size + size;
    assert (pages - 1) * size == pages * size - size;
  }

  /** Pages 1 to LastPage are the whole result, one after another, and the last is not idle. */
  lemma PagesPartition<T>(rows: seq<T>, size: nat)
    requires size > 0
    ensures Pages(rows, size, LastPage(|rows|, size)) == rows
    ensures LastPage(|rows|, size) > 1 ==> Page(rows, size, LastPage(|rows|, size)) != []
  {
    LastPageCovers(|rows|, size);
    PagesUpTo(rows, size, LastPage(|rows|, size));
  }

  lemma PagesUpTo<T>(rows: seq<T>, size: nat, last: nat)
    requires last * size >= |rows| && last >= 1 && (last > 1 ==> (last - 1) * size < |rows|)
    requires size > 0
    ensures Pages(rows, size, last) == rows
    ensures last > 1 ==> Page(rows, size, last) != []
  {
    PagesTake(rows, size, last);
    SliceNotEmpty(rows, size, (last - 1) * size);
  }

  lemma SliceNotEmpty<T>(rows: seq<T>, size: nat, offset: nat)
    requires size > 0
    ensures offset < |rows| ==> |Slice(rows, size, offset)| > 0
  {
  }

  lemma LaterPagesEmpty<T>(rows: seq<T>, size: nat, p: nat)
    requires size > 0 && p > LastPage(|rows|, size)
    ensures Page(rows, size, p) == []
  {
    LastPageCovers(|rows|, size);
    Multiplied(LastPage(|rows|, size), p - 1, size);
  }

  lemma Multiplied(a: nat, b: nat, size: nat)
    requires a <= b
    ensures a * size <= b * size
  {
  }

  /** Each row is on exactly one page: the k-th on page k / size + 1. */
  lemma OnOnePage<T>(rows: seq<T>, size: nat, k: nat, p: nat)
    requires size > 0 && k < |rows| && p > 0
    ensures Offset(p, size) <= k < Offset(p, size) + |Page(rows, size, p)| <==> p == k / size + 1
    ensures p == k / size + 1 ==> k % size < |Page(rows, size, p)| && Page(rows, size, p)[k % size] == rows[k]
  {
    var q, r := k / size, k % size;
    OffsetFrom(p, q, size);
    InSlice(rows, size, Offset(p, size), q * size, r);
  }

  lemma OffsetFrom(p: nat, q: nat, size: nat)
    requires p > 0
    ensures p - 1 == q ==> Offset(p, size) == q * size
    ensures p - 1 < q ==> Offset(p, size) + size <= q * size
    ensures p - 1 > q ==> Offset(p, size) >= q * size + size
  {
    if p - 1 < q {
      Multiplied(p, q, size);
      assert p * size == (p - 1) * size + size;
    } else if p - 1 > q {
      Multiplied(q + 1, p - 1, size);
      assert (q + 1) * size == q * size + size;
    }
  }

  lemma InSlice<T>(rows: seq<T>, size: nat, offset: nat, at: nat, r: nat)
    requires r < size && at + r < |rows|
    requires offset == at || offset + size <= at || offset >= at + size
    ensures offset <= at + r < offset + |Slice(rows, size, offset)| <==> offset == at
    ensures offset == at ==> r < |Slice(rows, size, offset)| && Slice(rows, size, offset)[r] == rows[at + r]
  {
  }
}
