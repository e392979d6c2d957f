/** formatDate, parseDateStr and parseWithFormat (internal/bindings/funcs.go). */
module DateFormat {
  import opened Text
  import opened Calendar

  // ----- The format, as tokens -----

  /** A field, a literal, or an unknown token, which is printed with its percent sign. */
  datatype Token = Field(b: char) | Literal(c: char) | Unknown(c: char)

  predicate IsField(c: char) { c == 'Y' || c == 'y' || c == 'm' || c == 'd' || c == 'H' || c == 'M' || c == 'S' }

  /** The token at the head of a format and how much of it the token takes. */
  function Head(format: string): (r: (Token, nat))
    requires format != ""
    ensures 0 < r.1 <= |format|
  {
    if format[0] != '%' || |format| == 1 then (Literal(format[0]), 1)
    else if IsField(format[1]) then (Field(format[1]), 2)
    else if format[1] == '%' then (Literal('%'), 2)
    else (Unknown(format[1]), 2)
  }

  function Tokens(format: string): (r: seq<Token>)
    decreases |format|
  {
    if format == "" then [] else [Head(format).0] + Tokens(format[Head(format).1..])
  }

  // ----- formatDate -----

  /** The %02d verb on 0 to 99. */
  function TwoDigits(n: nat): (s: string)
    requires n < 100
    ensures |s| == 2 && AllDigits(s) && NatValue(s) == n
  {
    var s := [DigitChar(n / 10), DigitChar(n % 10)];
    assert s[..1] == [DigitChar(n / 10)] && s[..1][..0] == [];
    assert NatValue(s[..1]) == n / 10;
    s
  }

  /** t.Year() % 100: Go's remainder has the sign of the year. */
  function ShortYear(t: Time): (r: int) { if t.date.year < 0 then 0 - (-t.date.year) % 100 else t.date.year % 100 }

  function Printed(t: Time, k: Token): (r: string)
    requires IsTime(t)
  {
    match k
    case Literal(c) => [c]
    case Unknown(c) => "%" + [c]
    case Field(b) =>
      if b == 'Y' then IntText(t.date.year)
      else if b == 'y' then IntText(ShortYear(t))
      else if b == 'm' then TwoDigits(t.date.month)
      else if b == 'd' then TwoDigits(t.date.day)
      else if b == 'H' then TwoDigits(t.hour)
      else if b == 'M' then TwoDigits(t.minute)
      else if b == 'S' then TwoDigits(t.second)
      else ""
  }

  function PrintedAll(t: Time, ks: seq<Token>): (r: string)
    requires IsTime(t)
  {
    if ks == [] then "" else Printed(t, ks[0]) + PrintedAll(t, ks[1..])
  }

  /** formatDate: one pass over the format's bytes. */
  method FormatDate(t: Time, format: string) returns (sb: string)
    requires IsTime(t)
    ensures sb == PrintedAll(t, Tokens(format))
  {
    sb := "";
    var i := 0;
    while i < |format|
      invariant 0 <= i <= |format|
      invariant sb + PrintedAll(t, Tokens(format[i..])) == PrintedAll(t, Tokens(format))
    {
      Ahead(t, sb, format[i..]);
      if format[i] != '%' || i + 1 >= |format| {
        sb := sb + [format[i]];
        assert format[i..][1..] == format[i + 1..];
        i := i + 1;
        continue;
      }
      assert format[i..][2..] == format[i + 2..];
      i := i + 1;
      match format[i] {
        case 'Y' => sb := sb + IntText(t.date.year);
        case 'y' => sb := sb + IntText(ShortYear(t));
        case 'm' => sb := sb + TwoDigits(t.date.month);
        case 'd' => sb := sb + TwoDigits(t.date.day);
        case 'H' => sb := sb + TwoDigits(t.hour);
        case 'M' => sb := sb + TwoDigits(t.minute);
        case 'S' => sb := sb + TwoDigits(t.second);
        case '%' => sb := sb + "%";
        case _ => sb := sb + ("%" + [format[i]]);
      }
      i := i + 1;
    }
  }

  lemma Ahead(t: Time, sb: string, rest: string)
    requires IsTime(t) && rest != ""
    ensures sb + PrintedAll(t, Tokens(rest)) == sb + Printed(t, Head(rest).0) + PrintedAll(t, Tokens(rest[Head(rest).1..]))
  {
  }

  // ----- parseDateStr -----

  /** The parts of the layouts that parseDateStr tries. */
  datatype Chunk = LongYear | ZeroMonth | ZeroDay | Space | Hour | ZeroMinute | ZeroSecond | Char(c: char)

  const DAY_LAYOUT := [LongYear, Char('-'), ZeroMonth, Char('-'), ZeroDay]

  const MINUTE_LAYOUT := DAY_LAYOUT + [Space, Hour, Char(':'), ZeroMinute]

  const SECOND_LAYOUT := MINUTE_LAYOUT + [Char(':'), ZeroSecond]

  /** Digits at the head of the text: two, or when not fixed one. */
  function GetNum(s: string, fixed: bool): (r: Option<(nat, string)>)
    ensures r.Some? ==> |r.value.1| < |s|
  {
    if s == "" || !IsDigit(s[0]) then None
    else if |s| == 1 || !IsDigit(s[1]) then if fixed then None else Some((DigitValue(s[0]), s[1..]))
    else Some((10 * DigitValue(s[0]) + DigitValue(s[1]), s[2..]))
  }

  function CutSpaces(s: string): (t: string)
    ensures |t| <= |s| && (t != "" ==> t[0] != ' ')
  {
    if s != "" && s[0] == ' ' then CutSpaces(s[1..]) else s
  }

  function CutDigits(s: string): (r: string) { if s != "" && IsDigit(s[0]) then CutDigits(s[1..]) else s }

  /** A fraction of a second, which is read though no layout has one. */
  function CutFraction(s: string): (r: string) {
    if |s| >= 2 && (s[0] == '.' || s[0] == ',') && IsDigit(s[1]) then CutDigits(s[1..]) else s
  }

  function WithNum(f: Fields, b: char, r: Option<(nat, string)>, least: nat): (result: Option<(Fields, string)>) {
    if r.None? || r.value.0 < least || r.value.0 > Most(b) then None else Some((WithField(f, b, r.value.0), r.value.1))
  }

  /** time.Parse on one part of a layout. */
  function ReadChunk(f: Fields, k: Chunk, s: string): (r: Option<(Fields, string)>) {
    match k
    case LongYear => if |s| < 4 || !AllDigits(s[..4]) then None else Some((WithField(f, 'Y', NatValue(s[..4])), s[4..]))
    case ZeroMonth => WithNum(f, 'm', GetNum(s, true), 1)
    case ZeroDay => WithNum(f, 'd', GetNum(s, true), 1)
    case Space => if s != "" && s[0] != ' ' then None else Some((f, CutSpaces(s)))
    case Hour => WithNum(f, 'H', GetNum(s, false), 0)
    case ZeroMinute => WithNum(f, 'M', GetNum(s, true), 0)
    case ZeroSecond =>
      var r := WithNum(f, 'S', GetNum(s, true), 0);
      if r.None? then None else Some((r.value.0, CutFraction(r.value.1)))
    case Char(c) => if s == "" || s[0] != c then None else Some((f, s[1..]))
  }

  function ReadChunks(f: Fields, ks: seq<Chunk>, s: string): (r: Option<(Fields, string)>)
    decreases |ks|
  {
    if ks == [] then Some((f, s))
    else
      var r := ReadChunk(f, ks[0], s);
      if r.None? then None else ReadChunks(r.value.0, ks[1..], r.value.1)
  }

  /** time.Parse: nothing may be left, and the day must be of its month. */
  function ReadLayout(ks: seq<Chunk>, s: string): (r: Option<Time>)
    ensures r.Some? ==> IsDate(r.value.date)
  {
    var r := ReadChunks(NoFields(), ks, s);
    if r.None? || r.value.1 != "" then None
    else
      var f := r.value.0;
      if !IsDate(Date(f.year, f.month, f.day)) then None
      else Some(Time(Date(f.year, f.month, f.day), f.hour, f.minute, f.second))
  }

  function FirstOf(s: string, layouts: seq<seq<Chunk>>): (r: Option<Time>) {
    if layouts == [] then None
    else if ReadLayout(layouts[0], s).Some? then ReadLayout(layouts[0], s)
    else FirstOf(s, layouts[1..])
  }

  /** The time in a text of one of the layouts. */
  function LayoutTime(s: string): (r: Option<Time>) { FirstOf(TrimSpace(s), [SECOND_LAYOUT, MINUTE_LAYOUT, DAY_LAYOUT]) }

  method ParseDateStr(text: string) returns (t: Option<Time>)
    ensures t == LayoutTime(text)
  {
    var s := TrimSpace(text);
    var layouts := [SECOND_LAYOUT, MINUTE_LAYOUT, DAY_LAYOUT];
    for i := 0 to |layouts|
      invariant FirstOf(s, layouts[i..]) == FirstOf(s, layouts)
    {
      assert layouts[i..][0] == layouts[i] && layouts[i..][1..] == layouts[i + 1..];
      t := ReadLayout(layouts[i], s);
      if t.Some? { return; }
    }
    return None;
  }

  // ----- parseWithFormat -----

  /** The fields read so far; zero when not named. */
  datatype Fields = Fields(year: int, month: int, day: int, hour: int, minute: int, second: int)

  /** getDayN at the head of the rest of the text. */
  function ReadField(s: string, n: nat, max: int): (r: Option<int>) {
    if n > |s| then None
    else
      var v := Atoi(s[..n]);
      if v.None? || v.value > max then None else v
  }

  function Width(b: char): (n: nat)
    ensures n > 0
  {
    if b == 'Y' then 4 else 2
  }

  function Most(b: char): (r: nat) {
    if b == 'Y' then 9999
    else if b == 'y' then 99
    else if b == 'm' then 12
    else if b == 'd' then 31
    else if b == 'H' then 23
    else 59
  }

  function WithField(f: Fields, b: char, v: int): (r: Fields) {
    if b == 'Y' then f.(year := v)
    else if b == 'y' then f.(year := 2000 + v)
    else if b == 'm' then f.(month := v)
    else if b == 'd' then f.(day := v)
    else if b == 'H' then f.(hour := v)
    else if b == 'M' then f.(minute := v)
    else f.(second := v)
  }

  /** One token against the rest of the text. An unknown token is matched without its percent sign. */
  function ReadToken(f: Fields, k: Token, s: string): (r: Option<(Fields, string)>)
    ensures r.Some? ==> |r.value.1| < |s|
  {
    match k
    case Field(b) =>
      var v := ReadField(s, Width(b), Most(b));
      if v.None? then None else Some((WithField(f, b, v.value), s[Width(b)..]))
    case Literal(c) => if s == "" || s[0] != c then None else Some((f, s[1..]))
    case Unknown(c) => if s == "" || s[0] != c then None else Some((f, s[1..]))
  }

  function ReadTokens(f: Fields, ks: seq<Token>, s: string): (r: Option<(Fields, string)>)
    decreases |ks|
  {
    if ks == [] then Some((f, s))
    else
      var r := ReadToken(f, ks[0], s);
      if r.None? then None else ReadTokens(r.value.0, ks[1..], r.value.1)
  }

  function NoFields(): (r: Fields) { Fields(0, 0, 0, 0, 0, 0) }

  function Settled(f: Fields): (r: Time) { TimeOf(f.year, f.month, f.day, f.hour, f.minute, f.second) }

  /** parseWithFormat: a text of one of the layouts is read by it, whatever the format. */
  function ParseDate(s: string, format: string): (r: Option<Time>) {
    if LayoutTime(s).Some? then LayoutTime(s)
    else
      var r := ReadTokens(NoFields(), Tokens(format), s);
      if r.None? then None else Some(Settled(r.value.0))
  }

  method ScanTokens(format: string) returns (toks: seq<Token>)
    ensures toks == Tokens(format)
  {
    toks := [];
    var i := 0;
    while i < |format|
      invariant 0 <= i <= |format|
      invariant toks + Tokens(format[i..]) == Tokens(format)
    {
      NextToken(format, i, toks);
      if format[i] == '%' && i + 1 < |format| {
        i := i + 1;
        if IsField(format[i]) {
          toks := toks + [Field(format[i])];
        } else {
          toks := toks + [if format[i] == '%' then Literal('%') else Unknown(format[i])];
        }
        i := i + 1;
        continue;
      }
      toks := toks + [Literal(format[i])];
      i := i + 1;
    }
  }

  lemma NextToken(format: string, i: nat, toks: seq<Token>)
    requires i < |format|
    ensures var (k, n) := Head(format[i..]);
      i + n <= |format| && toks + Tokens(format[i..]) == toks + [k] + Tokens(format[i + n..])
  {
    var n := Head(format[i..]).1;
    assert format[i..][n..] == format[i + n..];
  }

  method ParseWithFormat(s: string, format: string) returns (r: Option<Time>)
    ensures r == ParseDate(s, format)
  {
    r := ParseDateStr(s);
    if r.Some? { return; }
    var toks := ScanTokens(format);
    var sIdx := 0;
    var f := NoFields();
    for k := 0 to |toks|
      invariant 0 <= sIdx <= |s|
      invariant ReadTokens(f, toks[k..], s[sIdx..]) == ReadTokens(NoFields(), toks, s)
    {
      assert toks[k..][0] == toks[k] && toks[k..][1..] == toks[k + 1..];
      match toks[k] {
        case Field(b) =>
          var n := Width(b);
          if sIdx + n > |s| { return None; }
          assert s[sIdx..][..n] == s[sIdx..sIdx + n] && s[sIdx..][n..] == s[sIdx + n..];
          var v := Atoi(s[sIdx..sIdx + n]);
          if v.None? || v.value > Most(b) { return None; }
          sIdx := sIdx + n;
          f := WithField(f, b, v.value);
        case Literal(c) =>
          if sIdx >= |s| || s[sIdx] != c { return None; }
          assert s[sIdx..][1..] == s[sIdx + 1..];
          sIdx := sIdx + 1;
        case Unknown(c) =>
          if sIdx >= |s| || s[sIdx] != c { return None; }
          assert s[sIdx..][1..] == s[sIdx + 1..];
          sIdx := sIdx + 1;
      }
    }
    return Some(TimeOf(f.year, f.month, f.day, f.hour, f.minute, f.second));
  }

  // ----- What is recovered -----

  predicate NoUnknown(ks: seq<Token>) { ks == [] || (!ks[0].Unknown? && NoUnknown(ks[1..])) }

  predicate Names(ks: seq<Token>, b: char) { ks != [] && (ks[0] == Field(b) || Names(ks[1..], b)) }

  predicate NamesYear(ks: seq<Token>) { Names(ks, 'Y') || Names(ks, 'y') }

  /** Of the year tokens, the last decides. */
  predicate ShortYearLast(ks: seq<Token>) {
    ks != [] && if NamesYear(ks[1..]) then ShortYearLast(ks[1..]) else ks[0] == Field('y')
  }

  /** Each field that a token names has its value back. */
  predicate Recovers(t: Time, ks: seq<Token>, r: Time) {
    && (NamesYear(ks) ==> r.date.year == t.date.year)
    && (Names(ks, 'm') ==> r.date.month == t.date.month)
    && (Names(ks, 'd') ==> r.date.day == t.date.day)
    && (Names(ks, 'H') ==> r.hour == t.hour)
    && (Names(ks, 'M') ==> r.minute == t.minute)
    && (Names(ks, 'S') ==> r.second == t.second)
  }

  /** The years are printed as wide as they are read. */
  predicate YearsFill(t: Time, ks: seq<Token>) {
    (Names(ks, 'Y') ==> 1000 <= t.date.year <= 9999) && (Names(ks, 'y') ==> t.date.year % 100 >= 10)
  }

  /** A two-digit year that decides is in this century, and a year or month does not stand without month
      and day. */
  predicate NamesEnough(t: Time, ks: seq<Token>) {
    && (ShortYearLast(ks) ==> 2000 <= t.date.year < 2100)
    && (NamesYear(ks) || Names(ks, 'm') ==> Names(ks, 'm') && Names(ks, 'd'))
  }

  // Reading a printed token.

  function TokenWidth(k: Token): (r: nat) { if k.Field? then Width(k.b) else 1 }

  function AllWidths(ks: seq<Token>): (r: nat) { if ks == [] then 0 else TokenWidth(ks[0]) + AllWidths(ks[1..]) }

  lemma YearWidth(n: nat)
    requires n < 10000
    ensures |NatText(n)| <= 4 && (|NatText(n)| == 4 <==> n >= 1000)
    ensures n < 100 ==> |NatText(n)| <= 2 && (|NatText(n)| == 2 <==> n >= 10)
  {
    var a, b, c := n / 10, n / 100, n / 1000;
    assert a / 10 == b && b / 10 == c && c < 10;
    assert |NatText(c)| == 1;
    assert |NatText(b)| == if b < 10 then 1 else |NatText(c)| + 1;
    assert |NatText(a)| == if a < 10 then 1 else |NatText(b)| + 1;
    assert |NatText(n)| == if n < 10 then 1 else |NatText(a)| + 1;
  }

  predicate IsKnown(k: Token) { k.Field? ==> IsField(k.b) }

  predicate AllKnown(ks: seq<Token>) { ks == [] || (IsKnown(ks[0]) && AllKnown(ks[1..])) }

  lemma {:induction false} TokensAreKnown(format: string)
    ensures AllKnown(Tokens(format))
    decreases |format|
  {
    if format != "" { TokensAreKnown(format[Head(format).1..]); }
  }

  /** Years from 0 on. */
  predicate IsDomain(t: Time) { IsTime(t) && t.date.year >= 0 }

  /** A named year has no more than four digits. */
  predicate Narrow(t: Time, ks: seq<Token>) { Names(ks, 'Y') ==> t.date.year <= 9999 }

  /** What a token prints fits in what it reads, and fills it unless a year is short. */
  lemma PrintedWidth(t: Time, k: Token)
    requires IsDomain(t) && IsKnown(k) && !k.Unknown? && Narrow(t, [k])
    ensures |Printed(t, k)| <= TokenWidth(k)
    ensures |Printed(t, k)| == TokenWidth(k) <==> YearsFill(t, [k])
  {
    if t.date.year <= 9999 { YearWidth(t.date.year); }
    YearWidth(ShortYear(t));
    assert !Names([k][1..], 'Y') && !Names([k][1..], 'y');
  }

  function OwnValue(t: Time, b: char): (r: nat)
    requires IsDomain(t)
  {
    if b == 'Y' then t.date.year
    else if b == 'y' then ShortYear(t)
    else if b == 'm' then t.date.month
    else if b == 'd' then t.date.day
    else if b == 'H' then t.hour
    else if b == 'M' then t.minute
    else t.second
  }

  lemma FieldValue(t: Time, b: char)
    requires IsDomain(t) && IsField(b)
    ensures AllDigits(Printed(t, Field(b))) && Printed(t, Field(b)) != ""
    ensures NatValue(Printed(t, Field(b))) == OwnValue(t, b)
    ensures b == 'Y' || OwnValue(t, b) <= Most(b)
  {
    NatValueOfText(t.date.year);
    NatValueOfText(ShortYear(t));
  }

  lemma DigitsRead(s: string, rest: string, n: nat, max: int)
    requires s != "" && AllDigits(s) && |s| == n && NatValue(s) <= max
    ensures ReadField(s + rest, n, max) == Some(NatValue(s) as int)
  {
    assert (s + rest)[..n] == s;
    assert s[0] in s && !IsDigit('-') && !IsDigit('+');
  }

  function Taken(t: Time, f: Fields, k: Token): (r: Fields)
    requires IsDomain(t)
  {
    if k.Field? then WithField(f, k.b, OwnValue(t, k.b)) else f
  }

  lemma OwnTokenReads(t: Time, f: Fields, k: Token, rest: string)
    requires IsDomain(t) && IsKnown(k) && !k.Unknown? && YearsFill(t, [k])
    ensures ReadToken(f, k, Printed(t, k) + rest) == Some((Taken(t, f, k), rest))
  {
    var p := Printed(t, k);
    PrintedWidth(t, k);
    assert (p + rest)[|p|..] == rest;
    if k.Field? {
      FieldValue(t, k.b);
      DigitsRead(p, rest, Width(k.b), Most(k.b));
    }
  }

  function AllTaken(t: Time, f: Fields, ks: seq<Token>): (r: Fields)
    requires IsDomain(t)
    decreases |ks|
  {
    if ks == [] then f else AllTaken(t, Taken(t, f, ks[0]), ks[1..])
  }

  lemma FillSplit(t: Time, ks: seq<Token>)
    requires ks != []
    ensures YearsFill(t, ks) <==> YearsFill(t, [ks[0]]) && YearsFill(t, ks[1..])
    ensures Narrow(t, ks) <==> Narrow(t, [ks[0]]) && Narrow(t, ks[1..])
  {
    NamesSplit(ks, 'Y');
    NamesSplit(ks, 'y');
  }

  lemma NamesSplit(ks: seq<Token>, b: char)
    requires ks != []
    ensures Names(ks, b) <==> Names([ks[0]], b) || Names(ks[1..], b)
  {
    assert [ks[0]][1..] == [];
  }

  /** Printed years as wide as they are read: everything is read back in place. */
  lemma {:induction false} FullTextReads(t: Time, f: Fields, ks: seq<Token>)
    requires IsDomain(t) && AllKnown(ks) && NoUnknown(ks) && YearsFill(t, ks)
    ensures ReadTokens(f, ks, PrintedAll(t, ks)) == Some((AllTaken(t, f, ks), ""))
    decreases |ks|
  {
    if ks != [] {
      FillSplit(t, ks);
      OwnTokenReads(t, f, ks[0], PrintedAll(t, ks[1..]));
      FullTextReads(t, Taken(t, f, ks[0]), ks[1..]);
    }
  }

  /** A year printed too short leaves the text too short to be read. */
  lemma {:induction false} ShortText(t: Time, ks: seq<Token>)
    requires IsDomain(t) && AllKnown(ks) && NoUnknown(ks) && Narrow(t, ks)
    ensures |PrintedAll(t, ks)| <= AllWidths(ks)
    ensures !YearsFill(t, ks) ==> |PrintedAll(t, ks)| < AllWidths(ks)
  {
    if ks != [] {
      FillSplit(t, ks);
      PrintedWidth(t, ks[0]);
      ShortText(t, ks[1..]);
    }
  }

  // An unknown token is printed with its percent sign and read without: it is never read back. Counting
  // percent signs shows that no reading gets past the first one's.

  function Percents(ks: seq<Token>): (r: nat) {
    if ks == [] then 0 else (if ks[0] == Literal('%') then 1 else 0) + Percents(ks[1..])
  }

  function Signs(s: string): (r: nat) { multiset(s)['%'] }

  lemma SignsAdd(a: string, b: string)
    ensures Signs(a + b) == Signs(a) + Signs(b)
  {
  }

  lemma {:induction false} PrintedSigns(t: Time, ks: seq<Token>)
    requires IsDomain(t) && AllKnown(ks) && NoUnknown(ks)
    ensures Signs(PrintedAll(t, ks)) == Percents(ks)
  {
    if ks != [] {
      PrintedSigns(t, ks[1..]);
      SignsAdd(Printed(t, ks[0]), PrintedAll(t, ks[1..]));
      if ks[0].Field? {
        FieldValue(t, ks[0].b);
        assert !IsDigit('%') && '%' !in Printed(t, ks[0]);
      }
    }
  }

  lemma AtoiHasNoSign(s: string)
    requires Atoi(s).Some?
    ensures '%' !in s
  {
    var n := if s[0] == '-' || s[0] == '+' then s[1..] else s;
    forall c | c in s ensures c != '%' {
      assert s == s[..|s| - |n|] + n;
      assert !IsDigit('%');
      if c !in n { assert c == s[0]; }
    }
  }

  lemma TokenReadSigns(f: Fields, k: Token, s: string)
    requires !k.Unknown? && ReadToken(f, k, s).Some?
    ensures ReadsThrough(s, TokenWidth(k), ReadToken(f, k, s).value.1, if k == Literal('%') then 1 else 0)
  {
    if k.Field? { AtoiHasNoSign(s[..Width(k.b)]); } else { assert s[..1] == [s[0]]; }
  }

  lemma {:induction false} ReadSigns(f: Fields, ks: seq<Token>, s: string)
    requires NoUnknown(ks) && ReadTokens(f, ks, s).Some?
    ensures ReadsThrough(s, AllWidths(ks), ReadTokens(f, ks, s).value.1, Percents(ks))
    decreases |ks|
  {
    if ks == [] {
      assert s[..0] == "";
    } else {
      var r, w := ReadToken(f, ks[0], s).value, TokenWidth(ks[0]);
      TokenReadSigns(f, ks[0], s);
      ReadSigns(r.0, ks[1..], r.1);
      ReadsOn(s, w, r.1, AllWidths(ks[1..]), ReadTokens(f, ks, s).value.1, if ks[0] == Literal('%') then 1 else 0, Percents(ks[1..]));
    }
  }

  /** What is left after the first w characters, which have that many percent signs. */
  predicate ReadsThrough(s: string, w: nat, rest: string, signs: nat) { w <= |s| && rest == s[w..] && Signs(s[..w]) == signs }

  lemma ReadsOn(s: string, w: nat, middle: string, n: nat, rest: string, before: nat, after: nat)
    requires ReadsThrough(s, w, middle, before) && ReadsThrough(middle, n, rest, after)
    ensures ReadsThrough(s, w + n, rest, before + after)
  {
    CutTwice(s, w, n);
    SignsAdd(s[..w], middle[..n]);
  }

  /** The tokens before the first unknown one. */
  function BeforeUnknown(ks: seq<Token>): (n: nat)
    ensures n <= |ks| && NoUnknown(ks[..n]) && (n < |ks| ==> ks[n].Unknown?)
    ensures n == |ks| <==> NoUnknown(ks)
  {
    if ks == [] || ks[0].Unknown? then 0
    else
      var n := 1 + BeforeUnknown(ks[1..]);
      assert ks[..n][1..] == ks[1..][..n - 1] && ks[..n][0] == ks[0];
      n
  }

  lemma {:induction false} PrintedMore(t: Time, a: seq<Token>, b: seq<Token>)
    requires IsTime(t)
    ensures PrintedAll(t, a + b) == PrintedAll(t, a) + PrintedAll(t, b)
  {
    if a == [] {
      assert a + b == b;
    } else {
      assert (a + b)[1..] == a[1..] + b;
      PrintedMore(t, a[1..], b);
      Assoc(Printed(t, a[0]), PrintedAll(t, a[1..]), PrintedAll(t, b));
    }
  }

  lemma {:induction false} ReadMore(f: Fields, a: seq<Token>, b: seq<Token>, s: string)
    ensures var r := ReadTokens(f, a, s);
      ReadTokens(f, a + b, s) == if r.None? then None else ReadTokens(r.value.0, b, r.value.1)
    decreases |a|
  {
    if a == [] {
      assert a + b == b;
    } else {
      assert (a + b)[1..] == a[1..] + b;
      var r := ReadToken(f, a[0], s);
      if r.Some? { ReadMore(r.value.0, a[1..], b, r.value.1); }
    }
  }

  lemma {:induction false} KnownMore(a: seq<Token>, b: seq<Token>)
    ensures AllKnown(a + b) <==> AllKnown(a) && AllKnown(b)
  {
    if a == [] { assert a + b == b; } else { assert (a + b)[1..] == a[1..] + b; KnownMore(a[1..], b); }
  }

  lemma {:induction false} NamesMore(a: seq<Token>, b: seq<Token>, c: char)
    ensures Names(a + b, c) <==> Names(a, c) || Names(b, c)
  {
    if a == [] { assert a + b == b; } else { assert (a + b)[1..] == a[1..] + b; NamesMore(a[1..], b, c); }
  }

  lemma SignInside(p: string, rest: string, w: nat)
    requires |p| < w <= |p| + 1 + |rest|
    ensures Signs((p + ("%" + rest))[..w]) > Signs(p)
  {
    var s := p + ("%" + rest);
    assert s[..w] == p + (['%'] + rest[..w - |p| - 1]);
    SignsAdd(p, ['%'] + rest[..w - |p| - 1]);
    SignsAdd(['%'], rest[..w - |p| - 1]);
  }

  lemma UnknownStops(t: Time, f: Fields, before: seq<Token>, c: char, rest: string)
    requires IsDomain(t) && AllKnown(before) && NoUnknown(before) && Narrow(t, before) && c != '%'
    requires ReadTokens(f, before, PrintedAll(t, before) + ("%" + rest)).Some?
    ensures var r := ReadTokens(f, before, PrintedAll(t, before) + ("%" + rest)).value;
      ReadToken(r.0, Unknown(c), r.1) == None
  {
    var p, s, w := PrintedAll(t, before), PrintedAll(t, before) + ("%" + rest), AllWidths(before);
    ShortText(t, before);
    PrintedSigns(t, before);
    ReadSigns(f, before, s);
    if w > |p| { SignInside(p, rest, w); }
    assert s[w..][0] == '%';
  }

  lemma UnknownBetween(t: Time, before: seq<Token>, k: Token, after: seq<Token>)
    requires IsDomain(t) && AllKnown(before) && NoUnknown(before) && Narrow(t, before) && k.Unknown? && k.c != '%'
    ensures ReadTokens(NoFields(), before + ([k] + after), PrintedAll(t, before + ([k] + after))) == None
  {
    var f, rest := NoFields(), [k.c] + PrintedAll(t, after);
    PrintedMore(t, before, [k] + after);
    assert ([k] + after)[1..] == after;
    assert PrintedAll(t, [k] + after) == "%" + rest;
    var text := PrintedAll(t, before) + ("%" + rest);
    ReadMore(f, before, [k] + after, text);
    if ReadTokens(f, before, text).Some? { UnknownStops(t, f, before, k.c, rest); }
  }

  lemma SplitAt(ks: seq<Token>, n: nat)
    requires n < |ks|
    ensures ks == ks[..n] + ([ks[n]] + ks[n + 1..])
  {
  }

  lemma UnknownNeverReads(t: Time, ks: seq<Token>)
    requires IsDomain(t) && AllKnown(ks) && !NoUnknown(ks) && Narrow(t, ks) && Unknown('%') !in ks
    ensures ReadTokens(NoFields(), ks, PrintedAll(t, ks)) == None
  {
    var n := BeforeUnknown(ks);
    var before, k, after := ks[..n], ks[n], ks[n + 1..];
    SplitAt(ks, n);
    assert k in ks;
    KnownMore(before, [k] + after);
    NamesMore(before, [k] + after, 'Y');
    UnknownBetween(t, before, k, after);
  }

  lemma {:induction false} PercentIsKnown(format: string)
    ensures Unknown('%') !in Tokens(format)
    decreases |format|
  {
    if format != "" { PercentIsKnown(format[Head(format).1..]); }
  }

  lemma {:induction false} ReadingTakesWidths(f: Fields, ks: seq<Token>, s: string)
    requires ReadTokens(f, ks, s).Some?
    ensures |s| >= AllWidths(ks)
    decreases |ks|
  {
    if ks != [] {
      var r := ReadToken(f, ks[0], s).value;
      ReadingTakesWidths(r.0, ks[1..], r.1);
    }
  }

  // No date read has a year of five digits.

  predicate Bounded(f: Fields) {
    f.year <= 9999 && f.month <= 12 && f.day <= 31 && f.hour <= 23 && f.minute <= 59 && f.second <= 59
  }

  lemma {:induction false} ReadIsBounded(f: Fields, ks: seq<Token>, s: string)
    requires Bounded(f) && AllKnown(ks) && ReadTokens(f, ks, s).Some?
    ensures Bounded(ReadTokens(f, ks, s).value.0)
    decreases |ks|
  {
    if ks != [] {
      var r := ReadToken(f, ks[0], s).value;
      ReadIsBounded(r.0, ks[1..], r.1);
    }
  }

  lemma {:induction false} SettledYear(d: Date)
    requires 1 <= d.month <= 12 && d.day <= 31
    ensures SettleDay(d).year <= d.year
    decreases if d.day < 1 then 1 - d.day else 0
  {
    if d.day < 1 {
      var last := MonthDate(d.year, d.month - 1, 1);
      SettledYear(last.(day := d.day + DaysIn(last.year, last.month)));
    } else if d.day > DaysIn(d.year, d.month) {
      assert d.month < 12;
      var next := MonthDate(d.year, d.month + 1, d.day - DaysIn(d.year, d.month));
      assert next.year == d.year && next.day <= 3;
    }
  }

  lemma SettledBelow(f: Fields)
    requires Bounded(f)
    ensures Settled(f).date.year <= 9999
  {
    var m := f.minute + f.second / 60;
    assert f.second / 60 <= 0 && m <= 59;
    var h := f.hour + m / 60;
    assert m / 60 <= 0 && h <= 23 && h / 24 <= 0;
    SettledYear(MonthDate(f.year, f.month, f.day + h / 24));
  }

  // The fields read, and the time they settle to.

  lemma {:induction false} TakenFields(t: Time, f: Fields, ks: seq<Token>)
    requires IsDomain(t) && AllKnown(ks)
    ensures var r := AllTaken(t, f, ks);
      && r.year == (if !NamesYear(ks) then f.year else if ShortYearLast(ks) then 2000 + ShortYear(t) else t.date.year)
      && r.month == (if Names(ks, 'm') then t.date.month else f.month)
      && r.day == (if Names(ks, 'd') then t.date.day else f.day)
      && r.hour == (if Names(ks, 'H') then t.hour else f.hour)
      && r.minute == (if Names(ks, 'M') then t.minute else f.minute)
      && r.second == (if Names(ks, 'S') then t.second else f.second)
    decreases |ks|
  {
    if ks != [] { TakenFields(t, Taken(t, f, ks[0]), ks[1..]); }
  }

  lemma InRangeTime(y: int, m: int, d: int, hour: int, minute: int, second: int)
    requires 0 <= hour < 24 && 0 <= minute < 60 && 0 <= second < 60
    ensures TimeOf(y, m, d, hour, minute, second) == Time(SettleDay(MonthDate(y, m, d)), hour, minute, second)
  {
  }

  /** Where a date settles, as far as its fields can be missing. */
  lemma SettledDate(y: int, m: int, d: int)
    requires 0 <= m <= 12 && 0 <= d <= 31
    ensures var s := SettleDay(MonthDate(y, m, d));
      && (m == 0 ==> s.year == y - 1 && (d > 0 ==> s.day == d))
      && (m > 0 && d > 0 ==> s.year == y && (d <= DaysIn(y, m) ==> s == Date(y, m, d)))
      && (m > 0 && d == 0 ==> s.month != m)
  {
    assert m == 0 ==> MonthDate(y, m, d) == Date(y - 1, 12, d);
    assert m > 0 ==> MonthDate(y, m, d) == Date(y, m, d);
  }

  lemma CenturyIff(year: nat)
    ensures 2000 + year % 100 == year <==> 2000 <= year < 2100
  {
  }

  lemma DifferentCentury(year: nat)
    ensures 2000 + year % 100 - 1 != year
  {
  }

  /** The date read, from the fields named, agrees with the date printed on them. */
  lemma DateRecoversIff(t: Date, year: bool, short: bool, month: bool, day: bool, y: int, s: Date)
    requires IsDate(t) && t.year >= 0
    requires y == if !year then 0 else if short then 2000 + t.year % 100 else t.year
    requires s == SettleDay(MonthDate(y, if month then t.month else 0, if day then t.day else 0))
    ensures (year ==> s.year == t.year) && (month ==> s.month == t.month) && (day ==> s.day == t.day)
      <==> (year && short ==> 2000 <= t.year < 2100) && (year || month ==> month && day)
  {
    SettledDate(y, if month then t.month else 0, if day then t.day else 0);
    CenturyIff(t.year);
    DifferentCentury(t.year);
    if month && day && !year {
      assert t.day <= DaysIn(0, t.month);
    }
  }

  lemma {:induction false} ShortYearIsYear(ks: seq<Token>)
    ensures ShortYearLast(ks) ==> NamesYear(ks)
  {
    if ks != [] && NamesYear(ks[1..]) { ShortYearIsYear(ks[1..]); }
  }

  lemma RecoversIff(t: Time, ks: seq<Token>)
    requires IsDomain(t) && AllKnown(ks)
    ensures Recovers(t, ks, Settled(AllTaken(t, NoFields(), ks))) <==> NamesEnough(t, ks)
  {
    var f := AllTaken(t, NoFields(), ks);
    TakenFields(t, NoFields(), ks);
    ShortYearIsYear(ks);
    InRangeTime(f.year, f.month, f.day, f.hour, f.minute, f.second);
    DateRecoversIff(t.date, NamesYear(ks), ShortYearLast(ks), Names(ks, 'm'), Names(ks, 'd'), f.year, Settled(f).date);
  }

  /** Reading token by token gives every named field back exactly when no token is unknown, the years fill
      their places, and the fields are enough. */
  lemma TokensRecoverIff(t: Time, ks: seq<Token>)
    requires IsDomain(t) && AllKnown(ks) && Unknown('%') !in ks
    ensures var r := ReadTokens(NoFields(), ks, PrintedAll(t, ks));
      (r.Some? && Recovers(t, ks, Settled(r.value.0))) <==> NoUnknown(ks) && YearsFill(t, ks) && NamesEnough(t, ks)
  {
    var r := ReadTokens(NoFields(), ks, PrintedAll(t, ks));
    if !Narrow(t, ks) {
      if r.Some? {
        ReadIsBounded(NoFields(), ks, PrintedAll(t, ks));
        SettledBelow(r.value.0);
      }
    } else if !NoUnknown(ks) {
      UnknownNeverReads(t, ks);
    } else if YearsFill(t, ks) {
      FullTextReads(t, NoFields(), ks);
      RecoversIff(t, ks);
    } else {
      ShortText(t, ks);
      if r.Some? { ReadingTakesWidths(NoFields(), ks, PrintedAll(t, ks)); }
    }
  }

  // ----- What the layouts read -----

  function HeadDigits(s: string): (n: nat)
    ensures n <= |s| && AllDigits(s[..n])
  {
    DigitRunIsDigits(s);
    DigitRun(s)
  }

  function Slot(s: string, i: nat, j: nat): (r: string) { if i <= j <= |s| then s[i..j] else "" }

  /** The places of a text of one of the layouts. */
  datatype Slots = Slots(year: string, month: string, day: string, hour: string, minute: string, second: string)

  function ClockOf(s: string): (r: string) { CutSpaces(Slot(s, 10, |s|)) }

  function SlotsOf(s: string): (r: Slots) {
    var c := ClockOf(s);
    var h := HeadDigits(c);
    Slots(Slot(s, 0, 4), Slot(s, 5, 7), Slot(s, 8, 10), Slot(c, 0, h), Slot(c, h + 1, h + 3), Slot(c, h + 4, h + 6))
  }

  predicate IsNumeral(slot: string, n: int) { AllDigits(slot) && NatValue(slot) == n }

  /** The fields named stand in the layout's places. */
  predicate Shows(t: Time, ks: seq<Token>, s: string) {
    var z := SlotsOf(s);
    && (NamesYear(ks) ==> IsNumeral(z.year, t.date.year))
    && (Names(ks, 'm') ==> IsNumeral(z.month, t.date.month))
    && (Names(ks, 'd') ==> IsNumeral(z.day, t.date.day))
    && (Names(ks, 'H') ==> IsNumeral(z.hour, t.hour))
    && (Names(ks, 'M') ==> IsNumeral(z.minute, t.minute))
    && (Names(ks, 'S') ==> IsNumeral(z.second, t.second))
  }

  lemma NextChunk(f: Fields, k: Chunk, ks: seq<Chunk>, s: string)
    ensures ReadChunks(f, [k] + ks, s) ==
      var r := ReadChunk(f, k, s);
      if r.None? then None else ReadChunks(r.value.0, ks, r.value.1)
  {
    assert ([k] + ks)[1..] == ks;
  }

  lemma TwoNum(s: string)
    ensures GetNum(s, true) == if |s| >= 2 && AllDigits(s[..2]) then Some((NatValue(s[..2]), s[2..])) else None
    ensures |s| >= 2 && AllDigits(s[..2]) <==> |s| >= 2 && IsDigit(s[0]) && IsDigit(s[1])
  {
    if |s| >= 2 {
      var d := s[..2];
      assert d[0] == s[0] && d[1] == s[1] && d[..1] == [s[0]] && [s[0]][..0] == [];
      assert AllDigits(d) ==> d[0] in d && d[1] in d;
      assert NatValue("") == 0;
      if IsDigit(s[0]) && IsDigit(s[1]) { assert NatValue(d[..1]) == DigitValue(s[0]); }
    }
  }

  predicate DayForm(s: string) {
    && |s| >= 10 && AllDigits(s[..4]) && s[4] == '-' && AllDigits(s[5..7]) && s[7] == '-' && AllDigits(s[8..10])
    && 1 <= NatValue(s[5..7]) <= 12 && 1 <= NatValue(s[8..10]) <= 31
  }

  /** A mark and two digits, in bounds. */
  predicate MarkedNum(s: string, mark: char, least: nat, most: nat) {
    |s| >= 3 && s[0] == mark && AllDigits(s[1..3]) && least <= NatValue(s[1..3]) <= most
  }

  lemma MarkedReads(f: Fields, mark: char, k: Chunk, more: seq<Chunk>, s: string)
    requires k.ZeroMonth? || k.ZeroDay? || k.ZeroMinute?
    ensures var b := if k.ZeroMonth? then 'm' else if k.ZeroDay? then 'd' else 'M';
      ReadChunks(f, [Char(mark)] + ([k] + more), s) ==
        if !MarkedNum(s, mark, if b == 'M' then 0 else 1, Most(b)) then None
        else ReadChunks(WithField(f, b, NatValue(s[1..3])), more, s[3..])
  {
    NextChunk(f, Char(mark), [k] + more, s);
    if s != "" && s[0] == mark {
      NextChunk(f, k, more, s[1..]);
      TwoNum(s[1..]);
      if |s| >= 3 { CutAgain(s, 1, 0, 2); }
    }
  }

  lemma MonthDayReads(f: Fields, more: seq<Chunk>, s: string)
    ensures ReadChunks(f, [Char('-')] + ([ZeroMonth] + ([Char('-')] + ([ZeroDay] + more))), s) ==
      if !MarkedNum(s, '-', 1, 12) || !MarkedNum(s[3..], '-', 1, 31) then None
      else ReadChunks(f.(month := NatValue(s[1..3]), day := NatValue(s[3..][1..3])), more, s[3..][3..])
  {
    MarkedReads(f, '-', ZeroMonth, [Char('-')] + ([ZeroDay] + more), s);
    if MarkedNum(s, '-', 1, 12) { MarkedReads(f.(month := NatValue(s[1..3])), '-', ZeroDay, more, s[3..]); }
  }

  lemma DayPlaces(s: string, t: string)
    requires |s| >= 4 && t == s[4..]
    ensures DayForm(s) <==> AllDigits(s[..4]) && MarkedNum(t, '-', 1, 12) && MarkedNum(t[3..], '-', 1, 31)
    ensures |s| >= 10 ==> t[1..3] == s[5..7] && t[3..][1..3] == s[8..10] && t[3..][3..] == s[10..]
  {
    if |s| >= 10 {
      CutAgain(s, 4, 1, 3);
      CutAgain(s, 4, 3, 3);
      CutAgain(s, 7, 1, 3);
    }
  }

  lemma DayReads(f: Fields, more: seq<Chunk>, s: string)
    ensures ReadChunks(f, DAY_LAYOUT + more, s) ==
      if !DayForm(s) then None
      else ReadChunks(f.(year := NatValue(s[..4]), month := NatValue(s[5..7]), day := NatValue(s[8..10])), more, s[10..])
  {
    var rest := [Char('-')] + ([ZeroMonth] + ([Char('-')] + ([ZeroDay] + more)));
    assert DAY_LAYOUT + more == [LongYear] + rest;
    NextChunk(f, LongYear, rest, s);
    if |s| >= 4 && AllDigits(s[..4]) {
      MonthDayReads(f.(year := NatValue(s[..4])), more, s[4..]);
      DayPlaces(s, s[4..]);
    }
  }

  lemma OneOrTwo(c: string)
    ensures var h := HeadDigits(c);
      GetNum(c, false) == if h == 0 then None else if h == 1 then Some((NatValue(c[..1]), c[1..])) else Some((NatValue(c[..2]), c[2..]))
  {
    var h := HeadDigits(c);
    assert h >= 1 ==> c[..1] == [c[0]] && [c[0]][..0] == [] && NatValue(c[..1]) == DigitValue(c[0]);
    if h >= 2 {
      TwoNum(c);
      assert IsDigit(c[1]) by { assert HeadDigits(c[1..]) >= 1; }
    } else if h == 1 && |c| > 1 {
      assert HeadDigits(c[1..]) == 0 && !IsDigit(c[1]);
    }
  }

  predicate ClockForm(c: string) {
    var h := HeadDigits(c);
    && 1 <= h <= 2 && NatValue(c[..h]) <= 23
    && |c| >= h + 3 && c[h] == ':' && AllDigits(c[h + 1..h + 3]) && NatValue(c[h + 1..h + 3]) <= 59
  }

  lemma HourReadsAt(f: Fields, more: seq<Chunk>, c: string, hour: string, rest: string)
    requires AllDigits(hour) && GetNum(c, false) == Some((NatValue(hour), rest))
    ensures ReadChunks(f, [Hour] + ([Char(':')] + ([ZeroMinute] + more)), c) ==
      if NatValue(hour) > 23 || !MarkedNum(rest, ':', 0, 59) then None
      else ReadChunks(f.(hour := NatValue(hour), minute := NatValue(rest[1..3])), more, rest[3..])
  {
    NextChunk(f, Hour, [Char(':')] + ([ZeroMinute] + more), c);
    MarkedReads(f.(hour := NatValue(hour)), ':', ZeroMinute, more, rest);
  }

  lemma MarkAt(c: string, n: nat)
    requires n <= |c|
    ensures MarkedNum(c[n..], ':', 0, 59) <==>
      |c| >= n + 3 && c[n] == ':' && AllDigits(c[n + 1..n + 3]) && NatValue(c[n + 1..n + 3]) <= 59
    ensures |c| >= n + 3 ==> c[n..][1..3] == c[n + 1..n + 3] && c[n..][3..] == c[n + 3..]
  {
    if |c| >= n + 3 { CutAgain(c, n, 1, 3); }
  }

  lemma HourReads(f: Fields, more: seq<Chunk>, c: string)
    ensures var h := HeadDigits(c);
      ReadChunks(f, [Hour] + ([Char(':')] + ([ZeroMinute] + more)), c) ==
        if !ClockForm(c) then None
        else ReadChunks(f.(hour := NatValue(c[..h]), minute := NatValue(c[h + 1..h + 3])), more, c[h + 3..])
  {
    var h := HeadDigits(c);
    OneOrTwo(c);
    if h == 0 {
      NextChunk(f, Hour, [Char(':')] + ([ZeroMinute] + more), c);
    } else {
      var n := if h == 1 then 1 else 2;
      assert AllDigits(c[..n]);
      HourReadsAt(f, more, c, c[..n], c[n..]);
      MarkAt(c, n);
      if h > 2 { ThirdDigit(c); }
    }
  }

  lemma ClockReads(f: Fields, more: seq<Chunk>, s: string)
    ensures var c := CutSpaces(s);
      var h := HeadDigits(c);
      ReadChunks(f, CLOCK_CHUNKS + more, s) ==
        if (s != "" && s[0] != ' ') || !ClockForm(c) then None
        else ReadChunks(f.(hour := NatValue(c[..h]), minute := NatValue(c[h + 1..h + 3])), more, c[h + 3..])
  {
    var ks := [Hour] + ([Char(':')] + ([ZeroMinute] + more));
    assert CLOCK_CHUNKS + more == [Space] + ks;
    NextChunk(f, Space, ks, s);
    HourReads(f, more, CutSpaces(s));
  }

  lemma ThirdDigit(c: string)
    requires HeadDigits(c) > 2
    ensures |c| > 2 && c[2] != ':'
  {
    var d := c[..HeadDigits(c)];
    assert d[2] in d && d[2] == c[2] && !IsDigit(':');
  }

  lemma SecondReads(f: Fields, s: string)
    ensures ReadChunks(f, SECOND_CHUNKS, s) ==
      if SecondForm(s) then Some((f.(second := NatValue(s[1..3])), CutFraction(s[3..]))) else None
  {
    NextChunk(f, Char(':'), [ZeroSecond], s);
    assert [Char(':')] + [ZeroSecond] == SECOND_CHUNKS;
    if s != "" && s[0] == ':' {
      NextChunk(f, ZeroSecond, [], s[1..]);
      assert [ZeroSecond] + [] == [ZeroSecond];
      TwoNum(s[1..]);
      if |s| >= 3 { CutAgain(s, 1, 0, 2); }
    }
  }

  /** The time r has, in every field, the numeral of its place. */
  predicate IsIn(r: Time, z: Slots) {
    && IsNumeral(z.year, r.date.year) && IsNumeral(z.month, r.date.month) && IsNumeral(z.day, r.date.day)
    && IsNumeral(z.hour, r.hour) && IsNumeral(z.minute, r.minute) && IsNumeral(z.second, r.second)
  }

  lemma DayLayoutReads(s: string)
    ensures ReadLayout(DAY_LAYOUT, s).Some? <==> DayForm(s) && |s| == 10 && IsDate(Date(NatValue(s[..4]), NatValue(s[5..7]), NatValue(s[8..10])))
    ensures ReadLayout(DAY_LAYOUT, s).Some? ==> IsIn(ReadLayout(DAY_LAYOUT, s).value, SlotsOf(s))
  {
    DayReads(NoFields(), [], s);
    assert DAY_LAYOUT + [] == DAY_LAYOUT;
    if DayForm(s) && |s| == 10 {
      assert Slot(s, 10, |s|) == "" && CutSpaces("") == "" && HeadDigits("") == 0;
      assert NatValue("") == 0;
    }
  }

  lemma DateSlots(s: string)
    requires DayForm(s)
    ensures var z := SlotsOf(s);
      IsNumeral(z.year, NatValue(s[..4])) && IsNumeral(z.month, NatValue(s[5..7])) && IsNumeral(z.day, NatValue(s[8..10]))
    ensures Slot(s, 10, |s|) == s[10..]
  {
  }

  lemma ClockSlots(s: string, c: string, h: nat)
    requires c == ClockOf(s) && h == HeadDigits(c) && ClockForm(c)
    ensures var z := SlotsOf(s); IsNumeral(z.hour, NatValue(c[..h])) && IsNumeral(z.minute, NatValue(c[h + 1..h + 3]))
    ensures |c| == h + 3 ==> IsNumeral(SlotsOf(s).second, 0)
    ensures |c| >= h + 6 && AllDigits(c[h + 4..h + 6]) ==> IsNumeral(SlotsOf(s).second, NatValue(c[h + 4..h + 6]))
  {
    assert NatValue("") == 0;
  }

  const CLOCK_CHUNKS := [Space, Hour, Char(':'), ZeroMinute]

  const SECOND_CHUNKS := [Char(':'), ZeroSecond]

  lemma MinuteLayoutReads(s: string, ks: seq<Chunk>)
    requires ks == DAY_LAYOUT + (CLOCK_CHUNKS + [])
    ensures ReadLayout(ks, s).Some? ==> |s| > 10 && IsIn(ReadLayout(ks, s).value, SlotsOf(s))
  {
    DayReads(NoFields(), CLOCK_CHUNKS + [], s);
    if DayForm(s) {
      DateSlots(s);
      ClockReads(NoFields().(year := NatValue(s[..4]), month := NatValue(s[5..7]), day := NatValue(s[8..10])), [], s[10..]);
      if ClockForm(ClockOf(s)) { ClockSlots(s, ClockOf(s), HeadDigits(ClockOf(s))); }
    }
  }

  predicate SecondForm(s: string) { |s| >= 3 && s[0] == ':' && AllDigits(s[1..3]) && NatValue(s[1..3]) <= 59 }

  lemma SecondChunksRead(s: string, c: string, h: nat, end: string)
    requires DayForm(s) && c == CutSpaces(s[10..]) && h == HeadDigits(c) && end == if ClockForm(c) then c[h + 3..] else ""
    ensures var r := ReadChunks(NoFields(), DAY_LAYOUT + (CLOCK_CHUNKS + SECOND_CHUNKS), s);
      r.Some? ==> (
        && ClockForm(c) && SecondForm(end) && |s| > 10
        && r.value.0 == Fields(NatValue(s[..4]), NatValue(s[5..7]), NatValue(s[8..10]),
          NatValue(c[..h]), NatValue(c[h + 1..h + 3]), NatValue(end[1..3])))
  {
    var f := NoFields().(year := NatValue(s[..4]), month := NatValue(s[5..7]), day := NatValue(s[8..10]));
    DayReads(NoFields(), CLOCK_CHUNKS + SECOND_CHUNKS, s);
    ClockReads(f, SECOND_CHUNKS, s[10..]);
    if ClockForm(c) {
      SecondReads(f.(hour := NatValue(c[..h]), minute := NatValue(c[h + 1..h + 3])), end);
    }
  }

  lemma SecondLayoutReads(s: string, ks: seq<Chunk>)
    requires ks == DAY_LAYOUT + (CLOCK_CHUNKS + SECOND_CHUNKS)
    ensures ReadLayout(ks, s).Some? ==> |s| > 10 && IsIn(ReadLayout(ks, s).value, SlotsOf(s))
  {
    if DayForm(s) {
      var c, h := ClockOf(s), HeadDigits(ClockOf(s));
      DateSlots(s);
      SecondChunksRead(s, c, h, if ClockForm(c) then c[h + 3..] else "");
      if ClockForm(c) {
        ClockSlots(s, c, h);
        if |c| >= h + 6 { CutAgain(c, h + 3, 1, 3); }
      }
    } else {
      DayReads(NoFields(), CLOCK_CHUNKS + SECOND_CHUNKS, s);
    }
  }

  lemma LayoutParts()
    ensures MINUTE_LAYOUT == DAY_LAYOUT + (CLOCK_CHUNKS + []) && SECOND_LAYOUT == DAY_LAYOUT + (CLOCK_CHUNKS + SECOND_CHUNKS)
  {
  }

  /** Whatever a layout reads, it reads from the places of the trimmed text. */
  lemma LayoutReadsPlaces(text: string)
    ensures LayoutTime(text).Some? ==> IsIn(LayoutTime(text).value, SlotsOf(TrimSpace(text)))
  {
    var s := TrimSpace(text);
    LayoutParts();
    SecondLayoutReads(s, SECOND_LAYOUT);
    MinuteLayoutReads(s, MINUTE_LAYOUT);
    DayLayoutReads(s);
    ThreeLayouts(s);
  }

  lemma ThreeLayouts(s: string)
    ensures FirstOf(s, [SECOND_LAYOUT, MINUTE_LAYOUT, DAY_LAYOUT]) ==
      if ReadLayout(SECOND_LAYOUT, s).Some? then ReadLayout(SECOND_LAYOUT, s)
      else if ReadLayout(MINUTE_LAYOUT, s).Some? then ReadLayout(MINUTE_LAYOUT, s)
      else ReadLayout(DAY_LAYOUT, s)
  {
    var all := [SECOND_LAYOUT, MINUTE_LAYOUT, DAY_LAYOUT];
    assert all[1..] == [MINUTE_LAYOUT, DAY_LAYOUT] && all[1..][1..] == [DAY_LAYOUT] && [DAY_LAYOUT][1..] == [];
    assert FirstOf(s, [DAY_LAYOUT]) == ReadLayout(DAY_LAYOUT, s);
  }

  lemma ShownIff(t: Time, ks: seq<Token>, s: string, r: Time)
    requires IsIn(r, SlotsOf(s))
    ensures Recovers(t, ks, r) <==> Shows(t, ks, s)
  {
  }

  // ----- Printing and parsing -----

  /** A date printed with a format and parsed with it gives every named field back exactly when
      - it is written in one of the layouts, and each named field stands in the layout's place for it; or
      - it is not, no token is unknown, the years fill their places, a deciding two-digit year is of this
        century, and a year or month comes with month and day. */
  lemma ParseInvertsFormatIff(t: Time, format: string)
    requires IsDomain(t)
    ensures var ks, text := Tokens(format), PrintedAll(t, Tokens(format));
      (ParseDate(text, format).Some? && Recovers(t, ks, ParseDate(text, format).value))
      <==> if LayoutTime(text).Some? then Shows(t, ks, TrimSpace(text))
           else NoUnknown(ks) && YearsFill(t, ks) && NamesEnough(t, ks)
  {
    var ks, text := Tokens(format), PrintedAll(t, Tokens(format));
    TokensAreKnown(format);
    PercentIsKnown(format);
    if LayoutTime(text).Some? {
      LayoutReadsPlaces(text);
      ShownIff(t, ks, TrimSpace(text), LayoutTime(text).value);
    } else {
      TokensRecoverIff(t, ks);
    }
  }

  /** With the years in their places, a printed date can be parsed exactly when no token is unknown, or it
      is written in one of the layouts. */
  lemma ParsesIffKnown(t: Time, format: string)
    requires IsDomain(t) && YearsFill(t, Tokens(format))
    ensures var text := PrintedAll(t, Tokens(format));
      ParseDate(text, format).Some? <==> NoUnknown(Tokens(format)) || LayoutTime(text).Some?
  {
    var ks := Tokens(format);
    TokensAreKnown(format);
    if NoUnknown(ks) {
      FullTextReads(t, NoFields(), ks);
    } else {
      PercentIsKnown(format);
      UnknownNeverReads(t, ks);
    }
  }
}
