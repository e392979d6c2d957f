/** The SQL fragments the statement builders write (internal/bindings: db.go, tabledb.go, grid.go), and a
    reader of those fragments. Values never appear in a text, only placeholders: "?" bound in order of
    appearance, "$n" and "@pn" bound by number. */
module SqlText {
  import opened Text

  datatype Value = Null | Bool(b: bool) | Number(text: string) | Str(s: string)

  /** DBHandle.driver. */
  datatype Driver = Pgx | SqlServer | Mysql | Sqlite

  /** DBHandle.Placeholder. */
  function Placeholder(d: Driver, n: nat): (r: string) {
    match d
    case Pgx => "$" + NatText(n)
    case SqlServer => "@p" + NatText(n)
    case _ => "?"
  }

  datatype Op = Eq | Ne | Lt | Le | Gt | Ge | Like

  function OpText(op: Op): (r: string) {
    match op
    case Eq => "="
    case Ne => "<>"
    case Lt => "<"
    case Le => "<="
    case Gt => ">"
    case Ge => ">="
    case Like => "LIKE"
  }

  /** A condition to be written, with its values. */
  datatype Clause = Compare(col: string, op: Op, value: Value) | Among(among: string, values: seq<Value>) | Never

  /** isValidIdentifier. */
  predicate IsValidIdentifier(s: string) { s != "" && forall i :: 0 <= i < |s| ==> IsWordChar(s[i]) }

  function ClauseValues(c: Clause): (r: seq<Value>) {
    match c
    case Compare(_, _, v) => [v]
    case Among(_, vs) => vs
    case Never => []
  }

  /** A name that stands as one word of a text. */
  predicate IsWord(name: string) { ' ' !in name }

  predicate IsProper(c: Clause) {
    match c
    case Compare(col, _, _) => IsWord(col)
    case Among(col, vs) => IsWord(col) && vs != []
    case Never => true
  }

  predicate AllProper(cs: seq<Clause>) { cs == [] || (IsProper(cs[0]) && AllProper(cs[1..])) }

  /** placeholders: count tokens from n on. */
  function Placeholders(d: Driver, n: nat, count: nat): (ph: seq<string>)
    ensures |ph| == count
    decreases count
  {
    if count == 0 then [] else Placeholders(d, n, count - 1) + [Placeholder(d, n + count - 1)]
  }

  function ClauseText(d: Driver, c: Clause, n: nat): (r: string) {
    match c
    case Compare(col, op, _) => col + " " + OpText(op) + " " + Placeholder(d, n)
    case Among(col, vs) => col + " IN (" + Join(Placeholders(d, n, |vs|), ", ") + ")"
    case Never => "1 = 0"
  }

  function AllValues(cs: seq<Clause>): (r: seq<Value>) {
    if cs == [] then [] else ClauseValues(cs[0]) + AllValues(cs[1..])
  }

  /** The conditions of a WHERE, their placeholders numbered from n on. */
  function ClauseTexts(d: Driver, cs: seq<Clause>, n: nat): (texts: seq<string>)
    ensures |texts| == |cs|
  {
    if cs == [] then [] else [ClauseText(d, cs[0], n)] + ClauseTexts(d, cs[1..], n + |ClauseValues(cs[0])|)
  }

  lemma ValuesFirst(c: Clause, rest: seq<Clause>)
    ensures AllValues([c] + rest) == ClauseValues(c) + AllValues(rest)
  {
    assert ([c] + rest)[1..] == rest;
  }

  lemma TextsFirst(d: Driver, c: Clause, rest: seq<Clause>, n: nat)
    ensures ClauseTexts(d, [c] + rest, n) == [ClauseText(d, c, n)] + ClauseTexts(d, rest, n + |ClauseValues(c)|)
  {
    assert ([c] + rest)[1..] == rest;
  }

  lemma LoneText(d: Driver, c: Clause, n: nat)
    ensures ClauseTexts(d, [c], n) == [ClauseText(d, c, n)] && AllValues([c]) == ClauseValues(c)
  {
    assert [c][1..] == [];
  }

  lemma {:induction false} AnotherValues(cs: seq<Clause>, c: Clause)
    ensures AllValues(cs + [c]) == AllValues(cs) + ClauseValues(c)
  {
    if cs == [] {
      assert cs + [c] == [c];
      LoneText(Pgx, c, 0);
    } else {
      var first, rest := cs[0], cs[1..];
      AnotherValues(rest, c);
      assert cs == [first] + rest;
      Assoc([first], rest, [c]);
      ValuesFirst(first, rest);
      ValuesFirst(first, rest + [c]);
      Assoc(ClauseValues(first), AllValues(rest), ClauseValues(c));
    }
  }

  function Taken(cs: seq<Clause>): (k: nat) { if cs == [] then 0 else |ClauseValues(cs[0])| + Taken(cs[1..]) }

  lemma {:induction false} TakenIs(cs: seq<Clause>)
    ensures Taken(cs) == |AllValues(cs)|
  {
    if cs != [] { TakenIs(cs[1..]); }
  }

  lemma {:induction false} AnotherText(d: Driver, cs: seq<Clause>, c: Clause, n: nat)
    ensures ClauseTexts(d, cs + [c], n) == ClauseTexts(d, cs, n) + [ClauseText(d, c, n + |AllValues(cs)|)]
  {
    TakenIs(cs);
    AnotherTextAt(d, cs, c, n, Taken(cs), ClauseText(d, c, n + Taken(cs)));
  }

  lemma {:induction false} AnotherTextAt(d: Driver, cs: seq<Clause>, c: Clause, n: nat, k: nat, t: string)
    requires k == Taken(cs) && t == ClauseText(d, c, n + k)
    ensures ClauseTexts(d, cs + [c], n) == ClauseTexts(d, cs, n) + [t]
    decreases |cs|
  {
    if cs == [] {
      FirstText(d, cs, c, n);
    } else {
      var j := |ClauseValues(cs[0])|;
      AnotherTextAt(d, cs[1..], c, n + j, k - j, t);
      TextAfter(d, cs[0], cs[1..], c, n, n + j, t);
      HeadAndTail(cs);
    }
  }

  lemma FirstText(d: Driver, cs: seq<Clause>, c: Clause, n: nat)
    requires cs == []
    ensures ClauseTexts(d, cs + [c], n) == ClauseTexts(d, cs, n) + [ClauseText(d, c, n)]
  {
    assert cs + [c] == [c];
    LoneText(d, c, n);
  }

  lemma TextAfter(d: Driver, first: Clause, rest: seq<Clause>, c: Clause, n: nat, m: nat, t: string)
    requires m == n + |ClauseValues(first)| && ClauseTexts(d, rest + [c], m) == ClauseTexts(d, rest, m) + [t]
    ensures ClauseTexts(d, [first] + rest + [c], n) == ClauseTexts(d, [first] + rest, n) + [t]
  {
    Assoc([first], rest, [c]);
    TextsFirst(d, first, rest + [c], n);
    TextsFirst(d, first, rest, n);
    Assoc([ClauseText(d, first, n)], ClauseTexts(d, rest, m), [t]);
  }

  function WhereText(texts: seq<string>): (r: string) {
    if texts == [] then "" else " WHERE " + Join(texts, " AND ")
  }

  // ----- Reading a text: words between single spaces -----

  /** A condition as read: the positions of the parameters it uses. */
  datatype Cond = Compared(col: string, op: Op, at: nat) | Amongst(among: string, places: seq<nat>) | False

  function ReadOp(w: string): (r: Option<Op>) {
    if w == "=" then Some(Eq)
    else if w == "<>" then Some(Ne)
    else if w == "<" then Some(Lt)
    else if w == "<=" then Some(Le)
    else if w == ">" then Some(Gt)
    else if w == ">=" then Some(Ge)
    else if w == "LIKE" then Some(Like)
    else None
  }

  /** The parameter a placeholder stands for; a bare one stands for the next. */
  function ReadPlaceholder(d: Driver, w: string, next: nat): (r: Option<nat>) {
    match d
    case Pgx => if |w| > 1 && w[0] == '$' && AllDigits(w[1..]) then Some(NatValue(w[1..])) else None
    case SqlServer => if |w| > 2 && w[..2] == "@p" && AllDigits(w[2..]) then Some(NatValue(w[2..])) else None
    case _ => if w == "?" then Some(next) else None
  }

  /** A list of placeholders up to its closing parenthesis, and the words after it. */
  function ReadList(d: Driver, words: seq<string>, next: nat): (r: Option<(seq<nat>, seq<string>)>)
    ensures r.Some? ==> |r.value.1| < |words|
    decreases |words|
  {
    if words == [] || words[0] == "" then None
    else
      var w, n := words[0], |words[0]| - 1;
      var at := ReadPlaceholder(d, w[..n], next);
      if at.None? then None
      else if w[n] == ')' then Some(([at.value], words[1..]))
      else if w[n] != ',' then None
      else
        var rest := ReadList(d, words[1..], next + 1);
        if rest.None? then None else Some(([at.value] + rest.value.0, rest.value.1))
  }

  function ReadCond(d: Driver, words: seq<string>, next: nat): (r: Option<(Cond, seq<string>)>)
    ensures r.Some? ==> |r.value.1| < |words|
  {
    if |words| < 3 then None
    else if words[0] == "1" && words[1] == "=" && words[2] == "0" then Some((False, words[3..]))
    else if words[1] == "IN" then
      if words[2] == "" || words[2][0] != '(' then None
      else
        var r := ReadList(d, [words[2][1..]] + words[3..], next);
        if r.None? then None else Some((Amongst(words[0], r.value.0), r.value.1))
    else
      var op, at := ReadOp(words[1]), ReadPlaceholder(d, words[2], next);
      if op.None? || at.None? then None else Some((Compared(words[0], op.value, at.value), words[3..]))
  }

  function Uses(c: Cond): (r: nat) {
    match c
    case Compared(_, _, _) => 1
    case Amongst(_, places) => |places|
    case False => 0
  }

  /** Conditions between ANDs, and the words after the last. */
  function ReadConds(d: Driver, words: seq<string>, next: nat): (r: Option<(seq<Cond>, seq<string>)>)
    ensures r.Some? ==> |r.value.1| < |words|
    decreases |words|
  {
    var first := ReadCond(d, words, next);
    if first.None? then None
    else if first.value.1 == [] || first.value.1[0] != "AND" then Some(([first.value.0], first.value.1))
    else
      var rest := ReadConds(d, first.value.1[1..], next + Uses(first.value.0));
      if rest.None? then None else Some(([first.value.0] + rest.value.0, rest.value.1))
  }

  /** A WHERE, if there is one, and the words after it. */
  function ReadWhere(d: Driver, words: seq<string>, next: nat): (r: Option<(seq<Cond>, seq<string>)>)
    ensures r.Some? ==> |r.value.1| <= |words|
  {
    if words == [] || words[0] != "WHERE" then Some(([], words)) else ReadConds(d, words[1..], next)
  }

  // ----- What is read -----

  function Places(n: nat, count: nat): (places: seq<nat>)
    ensures |places| == count && forall i :: 0 <= i < count ==> places[i] == n + i
  {
    seq(count, i requires 0 <= i => n + i)
  }

  function Numbered(c: Clause, n: nat): (r: Cond) {
    match c
    case Compare(col, op, _) => Compared(col, op, n)
    case Among(col, vs) => Amongst(col, Places(n, |vs|))
    case Never => False
  }

  function AllNumbered(cs: seq<Clause>, n: nat): (r: seq<Cond>) {
    if cs == [] then [] else [Numbered(cs[0], n)] + AllNumbered(cs[1..], n + |ClauseValues(cs[0])|)
  }

  // ----- The words of a text -----

  function ListWords(d: Driver, n: nat, count: nat): (words: seq<string>)
    requires count > 0
    ensures |words| == count
    decreases count
  {
    if count == 1 then [Placeholder(d, n) + ")"]
    else [Placeholder(d, n) + ","] + ListWords(d, n + 1, count - 1)
  }

  function ClauseWords(d: Driver, c: Clause, n: nat): (words: seq<string>)
    requires IsProper(c)
    ensures |words| >= 3
  {
    match c
    case Compare(col, op, _) => [col, OpText(op), Placeholder(d, n)]
    case Among(col, vs) =>
      var list := ListWords(d, n, |vs|);
      [col, "IN", "(" + list[0]] + list[1..]
    case Never => ["1", "=", "0"]
  }

  function WhereWords(d: Driver, cs: seq<Clause>, n: nat): (words: seq<string>)
    requires AllProper(cs)
    ensures cs != [] ==> words != []
  {
    if cs == [] then []
    else if |cs| == 1 then ClauseWords(d, cs[0], n)
    else ClauseWords(d, cs[0], n) + (["AND"] + WhereWords(d, cs[1..], n + |ClauseValues(cs[0])|))
  }

  predicate NoSpaces(words: seq<string>) { forall i :: 0 <= i < |words| ==> ' ' !in words[i] }

  lemma {:induction false} SplitJoin(words: seq<string>)
    requires words != [] && NoSpaces(words)
    ensures Split(Join(words, " "), ' ') == words
  {
    if |words| == 1 {
      assert words == [words[0]];
    } else {
      SplitJoin(words[1..]);
      SplitPiece(words[0], Join(words[1..], " "), ' ');
      assert words == [words[0]] + words[1..];
    }
  }

  lemma {:induction false} JoinMore(a: seq<string>, b: seq<string>, sep: string)
    requires a != [] && b != []
    ensures Join(a + b, sep) == Join(a, sep) + (sep + Join(b, sep))
  {
    assert (a + b)[1..] == a[1..] + b;
    if |a| > 1 {
      JoinMore(a[1..], b, sep);
      Chain(a[0], sep, Join(a[1..], sep), sep + Join(b, sep));
    } else {
      assert a[1..] + b == b;
      Chain(a[0], sep, "", Join(b, sep));
      assert Join(a, sep) == a[0];
    }
  }

  lemma Chain(a: string, b: string, c: string, d: string)
    ensures a + b + (c + d) == a + b + c + d
    ensures a + b + d == a + (b + d)
  {
  }

  // A placeholder is read back, and is one word.

  lemma PlaceholderReads(d: Driver, n: nat)
    ensures ReadPlaceholder(d, Placeholder(d, n), n) == Some(n)
    ensures ' ' !in Placeholder(d, n) && |Placeholder(d, n)| > 0 && Placeholder(d, n)[0] != '0'
  {
    NatValueOfText(n);
    var digits := NatText(n);
    assert !IsDigit(' ') && ' ' !in digits;
    assert ("$" + digits)[1..] == digits;
    assert ("@p" + digits)[2..] == digits && ("@p" + digits)[..2] == "@p";
  }

  lemma LastPlace(d: Driver, ph: string, at: nat, rest: seq<string>, next: nat)
    requires ReadPlaceholder(d, ph, next) == Some(at)
    ensures ReadList(d, [ph + ")"] + rest, next) == Some(([at], rest))
  {
    var w := ph + ")";
    assert w[..|w| - 1] == ph && ([w] + rest)[1..] == rest;
  }

  lemma AnotherPlace(d: Driver, ph: string, at: nat, words: seq<string>, next: nat, places: seq<nat>, rest: seq<string>)
    requires ReadPlaceholder(d, ph, next) == Some(at) && ReadList(d, words, next + 1) == Some((places, rest))
    ensures ReadList(d, [ph + ","] + words, next) == Some(([at] + places, rest))
  {
    var w := ph + ",";
    assert w[..|w| - 1] == ph && ([w] + words)[1..] == words;
  }

  lemma PlacesFirst(n: nat, count: nat)
    requires count > 0
    ensures Places(n, count) == [n] + Places(n + 1, count - 1)
  {
  }

  lemma OnePlace(n: nat)
    ensures Places(n, 1) == [n]
  {
  }

  lemma ListWordsFirst(d: Driver, n: nat, count: nat)
    requires count > 0
    ensures ListWords(d, n, count) ==
      if count == 1 then [Placeholder(d, n) + ")"] else [Placeholder(d, n) + ","] + ListWords(d, n + 1, count - 1)
  {
  }

  lemma {:induction false} ListReads(d: Driver, n: nat, count: nat, rest: seq<string>)
    requires count > 0
    ensures ReadList(d, ListWords(d, n, count) + rest, n) == Some((Places(n, count), rest))
    decreases count
  {
    PlaceholderReads(d, n);
    ListWordsFirst(d, n, count);
    if count == 1 {
      LastPlace(d, Placeholder(d, n), n, rest, n);
      OnePlace(n);
    } else {
      ListReads(d, n + 1, count - 1, rest);
      NextPlace(d, n, ListWords(d, n + 1, count - 1), Places(n + 1, count - 1), rest);
      PlacesFirst(n, count);
    }
  }

  lemma NextPlace(d: Driver, n: nat, more: seq<string>, places: seq<nat>, rest: seq<string>)
    requires ReadPlaceholder(d, Placeholder(d, n), n) == Some(n)
    requires ReadList(d, more + rest, n + 1) == Some((places, rest))
    ensures ReadList(d, [Placeholder(d, n) + ","] + more + rest, n) == Some(([n] + places, rest))
  {
    AnotherPlace(d, Placeholder(d, n), n, more + rest, n, places, rest);
    Assoc([Placeholder(d, n) + ","], more, rest);
  }

  lemma CompareReads(d: Driver, col: string, op: Op, ph: string, n: nat, rest: seq<string>)
    requires |ph| > 0 && ph[0] != '0' && ReadPlaceholder(d, ph, n) == Some(n)
    ensures ReadCond(d, [col, OpText(op), ph] + rest, n) == Some((Compared(col, op, n), rest))
  {
    var words := [col, OpText(op), ph] + rest;
    assert words[3..] == rest;
  }

  lemma AmongReads(d: Driver, col: string, list: seq<string>, places: seq<nat>, n: nat, rest: seq<string>)
    requires list != [] && ReadList(d, list + rest, n) == Some((places, rest)) && |list + rest| > 0
    ensures ReadCond(d, [col, "IN", "(" + list[0]] + list[1..] + rest, n) == Some((Amongst(col, places), rest))
  {
    var words := [col, "IN", "(" + list[0]] + list[1..] + rest;
    assert words[2][1..] == list[0] && words[3..] == list[1..] + rest;
    assert [list[0]] + (list[1..] + rest) == list + rest;
  }

  lemma NeverReads(d: Driver, n: nat, rest: seq<string>)
    ensures ReadCond(d, ["1", "=", "0"] + rest, n) == Some((False, rest))
  {
    assert (["1", "=", "0"] + rest)[3..] == rest;
  }

  lemma CondReads(d: Driver, c: Clause, n: nat, rest: seq<string>)
    requires IsProper(c)
    ensures ReadCond(d, ClauseWords(d, c, n) + rest, n) == Some((Numbered(c, n), rest))
  {
    match c {
      case Compare(col, op, _) =>
        PlaceholderReads(d, n);
        CompareReads(d, col, op, Placeholder(d, n), n, rest);
      case Among(col, vs) =>
        ListReads(d, n, |vs|, rest);
        AmongReads(d, col, ListWords(d, n, |vs|), Places(n, |vs|), n, rest);
      case Never => NeverReads(d, n, rest);
    }
  }

  lemma AnotherCond(d: Driver, words: seq<string>, c: Cond, more: seq<string>, cs: seq<Cond>, n: nat, rest: seq<string>)
    requires ReadCond(d, words, n) == Some((c, ["AND"] + more))
    requires ReadConds(d, more, n + Uses(c)) == Some((cs, rest))
    ensures ReadConds(d, words, n) == Some(([c] + cs, rest))
  {
    assert (["AND"] + more)[1..] == more;
  }

  lemma UsesIts(c: Clause, n: nat)
    ensures Uses(Numbered(c, n)) == |ClauseValues(c)|
  {
  }

  /** Words that do not go on with the conditions. */
  predicate EndsConds(rest: seq<string>) { rest == [] || rest[0] != "AND" }

  lemma LastCond(d: Driver, c: Clause, n: nat, rest: seq<string>)
    requires IsProper(c) && EndsConds(rest)
    ensures ReadConds(d, ClauseWords(d, c, n) + rest, n) == Some(([Numbered(c, n)], rest))
  {
    CondReads(d, c, n, rest);
  }

  lemma OneNumbered(cs: seq<Clause>, n: nat)
    requires |cs| == 1
    ensures AllNumbered(cs, n) == [Numbered(cs[0], n)]
  {
    assert cs[1..] == [];
  }

  lemma WordsFirst(d: Driver, cs: seq<Clause>, n: nat)
    requires |cs| > 1 && AllProper(cs)
    ensures IsProper(cs[0]) && AllProper(cs[1..])
    ensures WhereWords(d, cs, n) == ClauseWords(d, cs[0], n) + (["AND"] + WhereWords(d, cs[1..], n + |ClauseValues(cs[0])|))
    ensures AllNumbered(cs, n) == [Numbered(cs[0], n)] + AllNumbered(cs[1..], n + |ClauseValues(cs[0])|)
  {
  }

  lemma LoneWords(d: Driver, cs: seq<Clause>, n: nat)
    requires |cs| == 1 && AllProper(cs)
    ensures IsProper(cs[0]) && WhereWords(d, cs, n) == ClauseWords(d, cs[0], n)
  {
  }

  lemma LoneCondReads(d: Driver, cs: seq<Clause>, n: nat, rest: seq<string>)
    requires |cs| == 1 && AllProper(cs) && EndsConds(rest)
    ensures ReadConds(d, WhereWords(d, cs, n) + rest, n) == Some((AllNumbered(cs, n), rest))
  {
    LoneWords(d, cs, n);
    LastCond(d, cs[0], n, rest);
    OneNumbered(cs, n);
  }

  lemma {:induction false} CondsRead(d: Driver, cs: seq<Clause>, n: nat, rest: seq<string>)
    requires cs != [] && AllProper(cs) && EndsConds(rest)
    ensures ReadConds(d, WhereWords(d, cs, n) + rest, n) == Some((AllNumbered(cs, n), rest))
    decreases |cs|
  {
    if |cs| == 1 {
      LoneCondReads(d, cs, n, rest);
    } else {
      var m := n + |ClauseValues(cs[0])|;
      WordsFirst(d, cs, n);
      CondsRead(d, cs[1..], m, rest);
      CondsStep(d, cs, n, m, WhereWords(d, cs[1..], m), AllNumbered(cs[1..], m), rest);
    }
  }

  lemma CondsStep(d: Driver, cs: seq<Clause>, n: nat, m: nat, more: seq<string>, conds: seq<Cond>, rest: seq<string>)
    requires |cs| > 1 && AllProper(cs) && m == n + |ClauseValues(cs[0])|
    requires WhereWords(d, cs, n) == ClauseWords(d, cs[0], n) + (["AND"] + more) && AllNumbered(cs, n) == [Numbered(cs[0], n)] + conds
    requires ReadConds(d, more + rest, m) == Some((conds, rest))
    ensures ReadConds(d, WhereWords(d, cs, n) + rest, n) == Some((AllNumbered(cs, n), rest))
  {
    Joined(d, cs[0], n, m, more, conds, rest);
  }

  lemma Joined(d: Driver, c: Clause, n: nat, m: nat, more: seq<string>, conds: seq<Cond>, rest: seq<string>)
    requires IsProper(c) && m == n + |ClauseValues(c)| && ReadConds(d, more + rest, m) == Some((conds, rest))
    ensures ReadConds(d, ClauseWords(d, c, n) + (["AND"] + more) + rest, n) == Some(([Numbered(c, n)] + conds, rest))
  {
    CondReads(d, c, n, ["AND"] + (more + rest));
    UsesIts(c, n);
    AndThen(ClauseWords(d, c, n), more, rest);
    CondsGoOn(d, ClauseWords(d, c, n) + (["AND"] + more) + rest, Numbered(c, n), more + rest, conds, n, m, rest);
  }

  lemma CondsGoOn(d: Driver, words: seq<string>, c: Cond, more: seq<string>, conds: seq<Cond>, n: nat, m: nat, rest: seq<string>)
    requires ReadCond(d, words, n) == Some((c, ["AND"] + more)) && m == n + Uses(c)
    requires ReadConds(d, more, m) == Some((conds, rest))
    ensures ReadConds(d, words, n) == Some(([c] + conds, rest))
  {
    AnotherCond(d, words, c, more, conds, n, rest);
  }

  lemma AndThen(words: seq<string>, more: seq<string>, rest: seq<string>)
    ensures words + (["AND"] + more) + rest == words + (["AND"] + (more + rest))
  {
    Assoc(words, ["AND"] + more, rest);
    Assoc(["AND"], more, rest);
  }

  // ----- The text is made of these words -----

  lemma {:induction false} PlaceholdersFirst(d: Driver, n: nat, count: nat)
    requires count > 0
    ensures Placeholders(d, n, count) == [Placeholder(d, n)] + Placeholders(d, n + 1, count - 1)
    decreases count
  {
    if count > 1 { PlaceholdersFirst(d, n, count - 1); }
  }

  lemma {:induction false} ListText(d: Driver, n: nat, count: nat)
    requires count > 0
    ensures Join(Placeholders(d, n, count), ", ") + ")" == Join(ListWords(d, n, count), " ")
    decreases count
  {
    PlaceholdersFirst(d, n, count);
    if count > 1 {
      ListText(d, n + 1, count - 1);
      var rest, ph := Placeholders(d, n + 1, count - 1), Placeholder(d, n);
      assert ([ph] + rest)[1..] == rest;
      assert ([ph + ","] + ListWords(d, n + 1, count - 1))[1..] == ListWords(d, n + 1, count - 1);
      CommaSpace(ph, Join(rest, ", "));
    }
  }

  lemma CommaSpace(ph: string, rest: string)
    ensures ph + ", " + rest + ")" == ph + "," + " " + (rest + ")")
  {
  }

  lemma JoinCons(w: string, words: seq<string>)
    requires words != []
    ensures Join([w] + words, " ") == w + " " + Join(words, " ")
  {
    assert ([w] + words)[1..] == words;
  }

  lemma AmongText(col: string, list: seq<string>)
    requires list != []
    ensures col + " IN (" + Join(list, " ") == Join([col, "IN", "(" + list[0]] + list[1..], " ")
  {
    var words := ["(" + list[0]] + list[1..];
    Bracket(list);
    JoinCons("IN", words);
    JoinCons(col, ["IN"] + words);
    assert [col, "IN", "(" + list[0]] + list[1..] == [col] + (["IN"] + words);
    InBetween(col, Join(list, " "));
  }

  lemma InBetween(col: string, list: string)
    ensures col + " " + ("IN" + " " + ("(" + list)) == col + " IN (" + list
  {
  }

  lemma Bracket(list: seq<string>)
    requires list != []
    ensures Join(["(" + list[0]] + list[1..], " ") == "(" + Join(list, " ")
  {
    if |list| > 1 {
      assert (["(" + list[0]] + list[1..])[1..] == list[1..];
      assert "(" + (list[0] + " " + Join(list[1..], " ")) == "(" + list[0] + " " + Join(list[1..], " ");
    }
  }

  lemma ThreeWords(a: string, b: string, c: string)
    ensures Join([a, b, c], " ") == a + " " + b + " " + c
  {
    JoinCons(b, [c]);
    JoinCons(a, [b] + [c]);
    assert [a] + ([b] + [c]) == [a, b, c];
    assert a + " " + (b + " " + c) == a + " " + b + " " + c;
  }

  lemma ClauseIsWords(d: Driver, c: Clause, n: nat)
    requires IsProper(c)
    ensures ClauseText(d, c, n) == Join(ClauseWords(d, c, n), " ")
  {
    match c {
      case Compare(col, op, _) => ThreeWords(col, OpText(op), Placeholder(d, n));
      case Among(col, vs) =>
        ListText(d, n, |vs|);
        AmongText(col, ListWords(d, n, |vs|));
        var inner := Join(Placeholders(d, n, |vs|), ", ");
        assert col + " IN (" + inner + ")" == col + " IN (" + (inner + ")");
      case Never => ThreeWords("1", "=", "0");
    }
  }

  lemma TextsAt(d: Driver, cs: seq<Clause>, n: nat)
    requires cs != []
    ensures ClauseTexts(d, cs, n) == [ClauseText(d, cs[0], n)] + ClauseTexts(d, cs[1..], n + |ClauseValues(cs[0])|)
  {
  }

  lemma LoneWhere(d: Driver, cs: seq<Clause>, n: nat)
    requires |cs| == 1 && AllProper(cs)
    ensures Join(ClauseTexts(d, cs, n), " AND ") == Join(WhereWords(d, cs, n), " ")
  {
    ClauseIsWords(d, cs[0], n);
    LoneWords(d, cs, n);
    LoneText(d, cs[0], n);
    assert cs == [cs[0]];
  }

  lemma {:induction false} WhereIsWords(d: Driver, cs: seq<Clause>, n: nat)
    requires cs != [] && AllProper(cs)
    ensures Join(ClauseTexts(d, cs, n), " AND ") == Join(WhereWords(d, cs, n), " ")
    decreases |cs|
  {
    if |cs| == 1 {
      LoneWhere(d, cs, n);
    } else {
      var m := n + |ClauseValues(cs[0])|;
      WordsFirst(d, cs, n);
      ClauseIsWords(d, cs[0], n);
      TextsAt(d, cs, n);
      WhereIsWords(d, cs[1..], m);
      WhereGoesOn(d, cs, n, ClauseTexts(d, cs[1..], m), WhereWords(d, cs[1..], m));
    }
  }

  lemma WhereGoesOn(d: Driver, cs: seq<Clause>, n: nat, texts: seq<string>, words: seq<string>)
    requires cs != [] && AllProper(cs) && texts != [] && words != [] && Join(texts, " AND ") == Join(words, " ")
    requires ClauseTexts(d, cs, n) == [ClauseText(d, cs[0], n)] + texts
    requires ClauseText(d, cs[0], n) == Join(ClauseWords(d, cs[0], n), " ")
    requires WhereWords(d, cs, n) == ClauseWords(d, cs[0], n) + (["AND"] + words)
    ensures Join(ClauseTexts(d, cs, n), " AND ") == Join(WhereWords(d, cs, n), " ")
  {
    AndWords(ClauseText(d, cs[0], n), texts, ClauseWords(d, cs[0], n), words);
  }

  lemma AndWords(text: string, texts: seq<string>, first: seq<string>, words: seq<string>)
    requires texts != [] && first != [] && words != [] && text == Join(first, " ")
    requires Join(texts, " AND ") == Join(words, " ")
    ensures Join([text] + texts, " AND ") == Join(first + (["AND"] + words), " ")
  {
    assert ([text] + texts)[1..] == texts;
    JoinMore(first, ["AND"] + words, " ");
    JoinCons("AND", words);
    AndBetween(Join(first, " "), Join(words, " "));
  }

  lemma AndBetween(a: string, b: string)
    ensures a + " AND " + b == a + (" " + ("AND" + " " + b))
  {
  }

  // ----- And none of the words has a space -----

  lemma IdentifierIsWord(col: string)
    requires IsValidIdentifier(col)
    ensures IsWord(col) && ',' !in col
  {
    forall i | 0 <= i < |col| ensures col[i] != ' ' && col[i] != ',' {
      assert IsWordChar(col[i]);
    }
  }

  lemma {:induction false} ListNoSpaces(d: Driver, n: nat, count: nat)
    requires count > 0
    ensures NoSpaces(ListWords(d, n, count))
    decreases count
  {
    PlaceholderReads(d, n);
    if count > 1 { ListNoSpaces(d, n + 1, count - 1); }
  }

  lemma ClauseNoSpaces(d: Driver, c: Clause, n: nat)
    requires IsProper(c)
    ensures NoSpaces(ClauseWords(d, c, n))
  {
    match c {
      case Compare(col, op, _) => PlaceholderReads(d, n);
      case Among(col, vs) => ListNoSpaces(d, n, |vs|);
      case Never =>
    }
  }

  lemma {:induction false} WhereNoSpaces(d: Driver, cs: seq<Clause>, n: nat)
    requires AllProper(cs)
    ensures NoSpaces(WhereWords(d, cs, n))
    decreases |cs|
  {
    if cs != [] {
      var more := WhereWords(d, cs[1..], n + |ClauseValues(cs[0])|);
      ClauseNoSpaces(d, cs[0], n);
      WhereNoSpaces(d, cs[1..], n + |ClauseValues(cs[0])|);
      NoSpacesMore(["AND"], more);
      NoSpacesMore(ClauseWords(d, cs[0], n), ["AND"] + more);
    }
  }

  lemma NoSpacesMore(a: seq<string>, b: seq<string>)
    requires NoSpaces(a) && NoSpaces(b)
    ensures NoSpaces(a + b)
  {
  }

  // ----- A part of a statement: its words, each after a space -----

  function SpacedText(words: seq<string>): (r: string) { if words == [] then "" else " " + Join(words, " ") }

  lemma SpacedMore(a: seq<string>, b: seq<string>)
    ensures SpacedText(a + b) == SpacedText(a) + SpacedText(b)
  {
    if a == [] {
      assert a + b == b;
    } else if b == [] {
      assert a + b == a;
    } else {
      JoinMore(a, b, " ");
      Assoc(" ", Join(a, " "), " " + Join(b, " "));
    }
  }

  lemma SpacedSplits(words: seq<string>)
    requires NoSpaces(words)
    ensures Split(SpacedText(words), ' ') == [""] + words
  {
    if words != [] {
      SplitFirst(' ', Join(words, " "), ' ');
      SplitJoin(words);
    }
  }

  function WherePart(d: Driver, cs: seq<Clause>, n: nat): (words: seq<string>)
    requires AllProper(cs)
  {
    if cs == [] then [] else ["WHERE"] + WhereWords(d, cs, n)
  }

  lemma WhereIsPart(d: Driver, cs: seq<Clause>, n: nat)
    requires AllProper(cs)
    ensures WhereText(ClauseTexts(d, cs, n)) == SpacedText(WherePart(d, cs, n))
    ensures NoSpaces(WherePart(d, cs, n))
  {
    if cs != [] {
      WhereIsWords(d, cs, n);
      WhereNoSpaces(d, cs, n);
      JoinCons("WHERE", WhereWords(d, cs, n));
      WherePrefix(Join(WhereWords(d, cs, n), " "));
    }
  }

  lemma WherePrefix(b: string)
    ensures " WHERE " + b == " " + ("WHERE" + " " + b)
  {
  }

  /** A WHERE is read back as its conditions, the placeholders numbered from n on without gap or repeat,
      whatever the driver's style and whatever follows it. */
  lemma WhereReads(d: Driver, cs: seq<Clause>, n: nat, rest: seq<string>)
    requires AllProper(cs) && EndsConds(rest) && (rest == [] || rest[0] != "WHERE")
    ensures WhereText(ClauseTexts(d, cs, n)) == SpacedText(WherePart(d, cs, n))
    ensures ReadWhere(d, WherePart(d, cs, n) + rest, n) == Some((AllNumbered(cs, n), rest))
  {
    WhereIsPart(d, cs, n);
    if cs == [] {
      assert [] + rest == rest;
    } else {
      CondsRead(d, cs, n, rest);
      CutHead(["WHERE"] + WhereWords(d, cs, n), rest, 1);
    }
  }
}
