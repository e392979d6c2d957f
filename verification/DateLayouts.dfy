/** The three layouts parseDateStr knows (internal/bindings/funcs.go) as formats, and the one with day and
    month swapped: for which dates printing and parsing is the identity. */
module DateLayouts {
  import opened Text
  import opened Calendar
  import opened DateFormat

  // ----- The formats of the layouts -----

  const DATE_FORMAT := "%Y-%m-%d"
  const MINUTE_FORMAT := "%Y-%m-%d %H:%M"
  const SECOND_FORMAT := "%Y-%m-%d %H:%M:%S"
  const SWAPPED_FORMAT := "%Y-%d-%m"

  function Dashed(b: char, c: char): (r: seq<Token>) { [Field('Y'), Literal('-'), Field(b), Literal('-'), Field(c)] }

  const CLOCK := [Literal(' '), Field('H'), Literal(':'), Field('M')]

  lemma FieldFirst(s: string, b: char)
    requires |s| >= 2 && s[0] == '%' && s[1] == b && IsField(b)
    ensures Tokens(s) == [Field(b)] + Tokens(s[2..])
  {
  }

  lemma LiteralFirst(s: string, c: char)
    requires s != "" && s[0] == c && c != '%'
    ensures Tokens(s) == [Literal(c)] + Tokens(s[1..])
  {
  }

  /** A field and a mark after it. */
  lemma MarkedField(s: string, b: char, mark: char)
    requires |s| >= 3 && s[0] == '%' && s[1] == b && IsField(b) && s[2] == mark && mark != '%'
    ensures Tokens(s) == [Field(b)] + ([Literal(mark)] + Tokens(s[3..]))
  {
    FieldFirst(s, b);
    LiteralFirst(s[2..], mark);
    CutAgain(s, 2, 1, 1);
  }

  lemma DashedTokens(s: string, b: char, c: char)
    requires IsField(b) && IsField(c) && |s| >= 8 && s[..8] == ['%', 'Y', '-', '%', b, '-', '%', c]
    ensures Tokens(s) == Dashed(b, c) + Tokens(s[8..])
  {
    FirstEight(s, s[..8]);
    MarkedField(s, 'Y', '-');
    MarkedField(s[3..], b, '-');
    CutAgain(s, 3, 3, 3);
    FieldFirst(s[6..], c);
    CutAgain(s, 6, 2, 2);
    FiveTokens(Field('Y'), Literal('-'), Field(b), Literal('-'), Field(c), Tokens(s[8..]));
  }

  lemma FirstEight(s: string, head: string)
    requires |s| >= 8 && head == s[..8]
    ensures s[0] == head[0] && s[1] == head[1] && s[2] == head[2]
    ensures s[3..][0] == head[3] && s[3..][1] == head[4] && s[3..][2] == head[5]
    ensures s[6..][0] == head[6] && s[6..][1] == head[7]
  {
  }

  lemma FiveTokens(a: Token, b: Token, c: Token, d: Token, e: Token, rest: seq<Token>)
    ensures [a] + ([b] + ([c] + ([d] + ([e] + rest)))) == [a, b, c, d, e] + rest
  {
  }

  lemma ClockTokens(s: string)
    requires |s| >= 6 && s[..6] == " %H:%M"
    ensures Tokens(s) == CLOCK + Tokens(s[6..])
  {
    FirstSix(s, s[..6]);
    LiteralFirst(s, ' ');
    MarkedField(s[1..], 'H', ':');
    CutAgain(s, 1, 3, 3);
    FieldFirst(s[4..], 'M');
    CutAgain(s, 4, 2, 2);
    FourTokens(Literal(' '), Field('H'), Literal(':'), Field('M'), Tokens(s[6..]));
  }

  lemma FirstSix(s: string, head: string)
    requires |s| >= 6 && head == s[..6]
    ensures s[0] == head[0] && s[1..][0] == head[1] && s[1..][1] == head[2] && s[1..][2] == head[3]
    ensures s[4..][0] == head[4] && s[4..][1] == head[5]
  {
  }

  lemma FourTokens(a: Token, b: Token, c: Token, d: Token, rest: seq<Token>)
    ensures [a] + ([b] + ([c] + ([d] + rest))) == [a, b, c, d] + rest
  {
  }

  lemma DateTokens()
    ensures Tokens(DATE_FORMAT) == Dashed('m', 'd') + []
    ensures Tokens(SWAPPED_FORMAT) == Dashed('d', 'm') + []
  {
    DashedTokens(DATE_FORMAT, 'm', 'd');
    DashedTokens(SWAPPED_FORMAT, 'd', 'm');
    assert DATE_FORMAT[8..] == "" && SWAPPED_FORMAT[8..] == "";
  }

  lemma MinuteParts(s: string)
    requires s == MINUTE_FORMAT
    ensures |s| == 14 && s[..8] == ['%', 'Y', '-', '%', 'm', '-', '%', 'd'] && s[8..][..6] == " %H:%M" && s[8..][6..] == ""
  {
  }

  lemma SecondParts(s: string)
    requires s == SECOND_FORMAT
    ensures |s| == 17 && s[..8] == ['%', 'Y', '-', '%', 'm', '-', '%', 'd'] && s[8..][..6] == " %H:%M" && s[8..][6..] == ":%S"
  {
  }

  lemma MinuteTokens(s: string)
    requires s == MINUTE_FORMAT
    ensures Tokens(s) == Dashed('m', 'd') + (CLOCK + [])
  {
    MinuteParts(s);
    TimedTokens(s, "", []);
  }

  lemma SecondTokens(s: string, seconds: string)
    requires s == SECOND_FORMAT && seconds == ":%S"
    ensures Tokens(s) == Dashed('m', 'd') + (CLOCK + [Literal(':'), Field('S')])
  {
    SecondParts(s);
    LiteralFirst(seconds, ':');
    FieldFirst(seconds[1..], 'S');
    assert seconds[1..][2..] == "";
    TimedTokens(s, seconds, [Literal(':'), Field('S')]);
  }

  lemma TimedTokens(s: string, rest: string, ks: seq<Token>)
    requires |s| >= 14 && s[..8] == ['%', 'Y', '-', '%', 'm', '-', '%', 'd'] && s[8..][..6] == " %H:%M" && s[8..][6..] == rest
    requires Tokens(rest) == ks
    ensures Tokens(s) == Dashed('m', 'd') + (CLOCK + ks)
  {
    DashedTokens(s, 'm', 'd');
    ClockTokens(s[8..]);
  }

  // Their texts.

  /** A date in dashes, and what follows it. */
  function DashedText(year: string, a: string, b: string, tail: string): (r: string) { year + ("-" + (a + ("-" + (b + tail)))) }

  lemma DashedPlaces(year: string, a: string, b: string, tail: string)
    requires |year| == 4 && |a| == 2 && |b| == 2
    ensures var s := DashedText(year, a, b, tail);
      && |s| == 10 + |tail| && s[..4] == year && s[4] == '-' && s[5..7] == a && s[7] == '-' && s[8..10] == b && s[10..] == tail
  {
  }

  lemma DashedPrints(t: Time, b: char, c: char, more: seq<Token>)
    requires IsTime(t)
    ensures PrintedAll(t, Dashed(b, c) + more) ==
      DashedText(Printed(t, Field('Y')), Printed(t, Field(b)), Printed(t, Field(c)), PrintedAll(t, more))
  {
    FiveTokens(Field('Y'), Literal('-'), Field(b), Literal('-'), Field(c), more);
    PrintedCons(t, Field('Y'), [Literal('-')] + ([Field(b)] + ([Literal('-')] + ([Field(c)] + more))));
    PrintedCons(t, Literal('-'), [Field(b)] + ([Literal('-')] + ([Field(c)] + more)));
    PrintedCons(t, Field(b), [Literal('-')] + ([Field(c)] + more));
    PrintedCons(t, Literal('-'), [Field(c)] + more);
    PrintedCons(t, Field(c), more);
  }

  lemma PrintedCons(t: Time, k: Token, more: seq<Token>)
    requires IsTime(t)
    ensures PrintedAll(t, [k] + more) == Printed(t, k) + PrintedAll(t, more)
  {
    assert ([k] + more)[1..] == more;
  }

  /** The clock as printed after a date, with or without seconds. */
  function ClockText(hour: string, minute: string, second: string): (r: string) {
    " " + (hour + (":" + (minute + if second == "" then "" else ":" + second)))
  }

  lemma ClockPrints(t: Time)
    requires IsTime(t)
    ensures PrintedAll(t, CLOCK + []) == ClockText(TwoDigits(t.hour), TwoDigits(t.minute), "")
    ensures PrintedAll(t, CLOCK + [Literal(':'), Field('S')]) == ClockText(TwoDigits(t.hour), TwoDigits(t.minute), TwoDigits(t.second))
  {
    var seconds := [Literal(':')] + [Field('S')];
    PrintedCons(t, Field('S'), []);
    assert [Field('S')] + [] == [Field('S')];
    PrintedCons(t, Literal(':'), [Field('S')]);
    ClockPrintsWith(t, []);
    ClockPrintsWith(t, seconds);
    assert seconds == [Literal(':'), Field('S')];
    assert TwoDigits(t.second) + "" == TwoDigits(t.second);
  }

  lemma ClockPrintsWith(t: Time, more: seq<Token>)
    requires IsTime(t)
    ensures PrintedAll(t, CLOCK + more) == " " + (TwoDigits(t.hour) + (":" + (TwoDigits(t.minute) + PrintedAll(t, more))))
  {
    FourTokens(Literal(' '), Field('H'), Literal(':'), Field('M'), more);
    PrintedCons(t, Literal(' '), [Field('H')] + ([Literal(':')] + ([Field('M')] + more)));
    PrintedCons(t, Field('H'), [Literal(':')] + ([Field('M')] + more));
    PrintedCons(t, Literal(':'), [Field('M')] + more);
    PrintedCons(t, Field('M'), more);
  }

  lemma ClockPlaces(hour: string, minute: string, second: string)
    requires |hour| == |minute| == 2 && AllDigits(hour) && (second == "" || |second| == 2)
    ensures var c := CutSpaces(ClockText(hour, minute, second));
      HeadDigits(c) == 2 && Slot(c, 0, 2) == hour && Slot(c, 3, 5) == minute && Slot(c, 6, 8) == second
  {
    var text := ClockText(hour, minute, second);
    var c := text[1..];
    assert c == hour + (":" + (minute + if second == "" then "" else ":" + second));
    assert c[0] in hour && c[1] in hour && c[2] == ':' && !IsDigit(':') && !IsDigit(' ');
    assert CutSpaces(c) == c && CutSpaces(text) == CutSpaces(text[1..]);
    assert HeadDigits(c[2..]) == 0 && c[1..][1..] == c[2..];
    assert HeadDigits(c[1..]) == 1;
  }

  lemma DigitIsNoSpace(c: char)
    requires IsDigit(c)
    ensures !IsSpace(c)
  {
  }

  lemma DigitsAreTrimmed(s: string)
    requires s != "" && IsDigit(s[0]) && IsDigit(s[|s| - 1])
    ensures TrimSpace(s) == s
  {
    DigitIsNoSpace(s[0]);
    DigitIsNoSpace(s[|s| - 1]);
  }

  lemma NamesFirst(k: Token, more: seq<Token>, b: char)
    ensures Names([k] + more, b) <==> k == Field(b) || Names(more, b)
    ensures NoUnknown([k] + more) <==> !k.Unknown? && NoUnknown(more)
  {
    assert ([k] + more)[1..] == more;
  }

  lemma DashedNames(b: char, c: char, more: seq<Token>, x: char)
    ensures Names(Dashed(b, c) + more, x) <==> x == 'Y' || x == b || x == c || Names(more, x)
    ensures NoUnknown(Dashed(b, c) + more) <==> NoUnknown(more)
    ensures Names((Dashed(b, c) + more)[1..], x) <==> x == b || x == c || Names(more, x)
  {
    var rest := [Literal('-')] + ([Field(b)] + ([Literal('-')] + ([Field(c)] + more)));
    FiveTokens(Field('Y'), Literal('-'), Field(b), Literal('-'), Field(c), more);
    assert (Dashed(b, c) + more)[1..] == rest;
    NamesFirst(Field('Y'), rest, x);
    NamesFirst(Literal('-'), [Field(b)] + ([Literal('-')] + ([Field(c)] + more)), x);
    NamesFirst(Field(b), [Literal('-')] + ([Field(c)] + more), x);
    NamesFirst(Literal('-'), [Field(c)] + more, x);
    NamesFirst(Field(c), more, x);
  }

  /** What follows the date in the formats of the layouts. */
  predicate IsClock(more: seq<Token>) { more == [] || more == CLOCK + [] || more == CLOCK + [Literal(':'), Field('S')] }

  lemma ClockNames(more: seq<Token>, x: char)
    requires IsClock(more)
    ensures Names(more, x) <==> more != [] && (x == 'H' || x == 'M' || (x == 'S' && more != CLOCK + []))
    ensures NoUnknown(more)
  {
    if more != [] {
      var rest: seq<Token> := if more == CLOCK + [] then [] else [Literal(':'), Field('S')];
      assert more == CLOCK + rest;
      if rest != [] {
        assert [Literal(':')] + ([Field('S')] + []) == rest;
        NamesFirst(Literal(':'), [Field('S')] + [], x);
        NamesFirst(Field('S'), [], x);
      }
      FourTokens(Literal(' '), Field('H'), Literal(':'), Field('M'), rest);
      NamesFirst(Literal(' '), [Field('H')] + ([Literal(':')] + ([Field('M')] + rest)), x);
      NamesFirst(Field('H'), [Literal(':')] + ([Field('M')] + rest), x);
      NamesFirst(Literal(':'), [Field('M')] + rest, x);
      NamesFirst(Field('M'), rest, x);
    }
  }

  lemma DashedIsEnough(t: Time, b: char, c: char, more: seq<Token>)
    requires IsDomain(t) && IsClock(more) && ((b == 'm' && c == 'd') || (b == 'd' && c == 'm'))
    ensures var ks := Dashed(b, c) + more;
      && NoUnknown(ks) && NamesEnough(t, ks) && Names(ks, 'Y') && Names(ks, 'm') && Names(ks, 'd')
      && (YearsFill(t, ks) <==> 1000 <= t.date.year <= 9999)
  {
    var ks := Dashed(b, c) + more;
    ClockNames(more, 'Y');
    ClockNames(more, 'y');
    DashedNames(b, c, more, 'Y');
    DashedNames(b, c, more, 'y');
    DashedNames(b, c, more, 'm');
    DashedNames(b, c, more, 'd');
    assert ks[0] == Field('Y');
  }

  // A date in dashes whose year has not four digits is in no layout.

  lemma NoDayNoLayout(s: string)
    requires !DayForm(s)
    ensures FirstOf(s, [SECOND_LAYOUT, MINUTE_LAYOUT, DAY_LAYOUT]) == None
  {
    LayoutParts();
    DayReads(NoFields(), CLOCK_CHUNKS + SECOND_CHUNKS, s);
    DayReads(NoFields(), CLOCK_CHUNKS + [], s);
    DayReads(NoFields(), [], s);
    assert DAY_LAYOUT + [] == DAY_LAYOUT;
    ThreeLayouts(s);
  }

  lemma OddYearNoDay(year: string, a: string, b: string, tail: string)
    requires AllDigits(year) && |year| != 4
    ensures !DayForm(DashedText(year, a, b, tail))
  {
    var s := DashedText(year, a, b, tail);
    var n := |year|;
    assert s[n] == '-' && !IsDigit('-');
    if n < 4 {
      if |s| >= 4 { assert s[..4][n] == '-' && '-' in s[..4]; }
    } else {
      assert s[4] == year[4] && year[4] in year;
    }
  }

  predicate EndsInDigit(s: string) { s != "" && IsDigit(s[|s| - 1]) }

  lemma DigitsEnd(a: string, b: string)
    ensures EndsInDigit(b) ==> EndsInDigit(a + b)
    ensures b != "" && AllDigits(b) ==> EndsInDigit(b)
  {
    if b != "" { assert b[|b| - 1] in b; }
  }

  lemma ClockEnds(hour: string, minute: string, second: string)
    requires EndsInDigit(minute) && (second == "" || EndsInDigit(second))
    ensures EndsInDigit(ClockText(hour, minute, second))
  {
    if second == "" { assert minute + "" == minute; }
    var rest := minute + if second == "" then "" else ":" + second;
    assert EndsInDigit(rest);
    DigitsEnd(":", rest);
    DigitsEnd(hour, ":" + rest);
    DigitsEnd(" ", hour + (":" + rest));
  }

  lemma ClockEndsInDigit(t: Time, more: seq<Token>)
    requires IsTime(t) && IsClock(more) && more != []
    ensures EndsInDigit(PrintedAll(t, more))
  {
    ClockPrints(t);
    DigitsEnd("", TwoDigits(t.minute));
    DigitsEnd("", TwoDigits(t.second));
    ClockEnds(TwoDigits(t.hour), TwoDigits(t.minute), if more == CLOCK + [] then "" else TwoDigits(t.second));
  }

  lemma DashedTrimmed(year: string, a: string, b: string, tail: string)
    requires year != "" && AllDigits(year) && |b| == 2 && AllDigits(b) && (tail == "" || EndsInDigit(tail))
    ensures TrimSpace(DashedText(year, a, b, tail)) == DashedText(year, a, b, tail)
  {
    var s := DashedText(year, a, b, tail);
    assert s[0] == year[0] && year[0] in year;
    DigitsEnd("", b);
    if tail == "" { assert b + tail == b; } else { DigitsEnd(b, tail); }
    DigitsEnd("-", b + tail);
    DigitsEnd(a, "-" + (b + tail));
    DigitsEnd("-", a + ("-" + (b + tail)));
    DigitsEnd(year, "-" + (a + ("-" + (b + tail))));
    DigitsAreTrimmed(s);
  }

  lemma DashedSlots(t: Time, year: string, a: string, b: string, more: seq<Token>, tail: string)
    requires IsTime(t) && IsClock(more) && tail == PrintedAll(t, more) && |year| == 4 && |a| == 2 && |b| == 2
    ensures var z := SlotsOf(DashedText(year, a, b, tail));
      && z.year == year && z.month == a && z.day == b
      && (more != [] ==> z.hour == TwoDigits(t.hour) && z.minute == TwoDigits(t.minute))
      && (more != [] && more != CLOCK + [] ==> z.second == TwoDigits(t.second))
  {
    DashedPlaces(year, a, b, tail);
    var s := DashedText(year, a, b, tail);
    assert Slot(s, 10, |s|) == tail;
    if more != [] {
      ClockPrints(t);
      ClockPlaces(TwoDigits(t.hour), TwoDigits(t.minute), if more == CLOCK + [] then "" else TwoDigits(t.second));
    }
  }

  /** The text of a dashed format, and its year as wide as it is. */
  lemma DashedPrinted(t: Time, b: char, c: char, more: seq<Token>)
    requires IsDomain(t) && IsClock(more) && ((b == 'm' && c == 'd') || (b == 'd' && c == 'm'))
    ensures var year, tail := NatText(t.date.year), PrintedAll(t, more);
      var s := DashedText(year, Printed(t, Field(b)), Printed(t, Field(c)), tail);
      && PrintedAll(t, Dashed(b, c) + more) == s && TrimSpace(s) == s
      && (|year| == 4 <==> 1000 <= t.date.year <= 9999)
  {
    DashedPrints(t, b, c, more);
    if more != [] { ClockEndsInDigit(t, more); }
    DashedTrimmed(NatText(t.date.year), Printed(t, Field(b)), Printed(t, Field(c)), PrintedAll(t, more));
    YearWide(t.date.year);
  }

  lemma YearWide(n: nat)
    ensures |NatText(n)| == 4 <==> 1000 <= n <= 9999
  {
    if n <= 9999 { YearWidth(n); } else { WideYear(n); }
  }

  lemma WideYear(n: nat)
    requires n >= 10000
    ensures |NatText(n)| > 4
  {
    var k := n / 10;
    assert k >= 1000;
    assert |NatText(n)| == |NatText(k)| + 1;
    if k < 10000 { YearWidth(k); } else { WideYear(k); }
  }

  lemma OrderedShows(t: Time, more: seq<Token>, s: string)
    requires IsDomain(t) && IsClock(more) && 1000 <= t.date.year <= 9999
    requires s == DashedText(NatText(t.date.year), TwoDigits(t.date.month), TwoDigits(t.date.day), PrintedAll(t, more))
    ensures Shows(t, Dashed('m', 'd') + more, s)
  {
    YearWidth(t.date.year);
    NatValueOfText(t.date.year);
    DashedSlots(t, NatText(t.date.year), TwoDigits(t.date.month), TwoDigits(t.date.day), more, PrintedAll(t, more));
    ClockNames(more, 'H');
    ClockNames(more, 'M');
    ClockNames(more, 'S');
    DashedNames('m', 'd', more, 'H');
    DashedNames('m', 'd', more, 'M');
    DashedNames('m', 'd', more, 'S');
  }

  lemma OrderedRecoversIff(t: Time, format: string, more: seq<Token>)
    requires IsDomain(t) && IsClock(more) && Tokens(format) == Dashed('m', 'd') + more
    ensures RoundTrips(t, format) <==> 1000 <= t.date.year <= 9999
  {
    var year := NatText(t.date.year);
    var s := DashedText(year, TwoDigits(t.date.month), TwoDigits(t.date.day), PrintedAll(t, more));
    ParseInvertsFormatIff(t, format);
    DashedPrinted(t, 'm', 'd', more);
    DashedIsEnough(t, 'm', 'd', more);
    if 1000 <= t.date.year <= 9999 {
      OrderedShows(t, more, s);
    } else {
      OddYearNoDay(year, TwoDigits(t.date.month), TwoDigits(t.date.day), PrintedAll(t, more));
      NoDayNoLayout(s);
    }
  }

  /** Printing and parsing gives every named field back. */
  predicate RoundTrips(t: Time, format: string)
    requires IsTime(t)
  {
    var r := ParseDate(PrintedAll(t, Tokens(format)), format);
    r.Some? && Recovers(t, Tokens(format), r.value)
  }

  /** In the formats of the layouts themselves, exactly the years of four digits come back. */
  lemma LayoutFormatsRecoverIff(t: Time)
    requires IsDomain(t)
    ensures RoundTrips(t, DATE_FORMAT) <==> 1000 <= t.date.year <= 9999
    ensures RoundTrips(t, MINUTE_FORMAT) <==> 1000 <= t.date.year <= 9999
    ensures RoundTrips(t, SECOND_FORMAT) <==> 1000 <= t.date.year <= 9999
  {
    DateTokens();
    MinuteTokens(MINUTE_FORMAT);
    SecondTokens(SECOND_FORMAT, ":%S");
    OrderedRecoversIff(t, DATE_FORMAT, []);
    OrderedRecoversIff(t, MINUTE_FORMAT, CLOCK + []);
    OrderedRecoversIff(t, SECOND_FORMAT, CLOCK + [Literal(':'), Field('S')]);
  }

  lemma SwappedLayout(t: Time, s: string)
    requires IsDomain(t) && 1000 <= t.date.year <= 9999
    requires s == DashedText(NatText(t.date.year), TwoDigits(t.date.day), TwoDigits(t.date.month), "")
    ensures t.date.day <= 12 ==>
      ReadLayout(DAY_LAYOUT, s) == Some(Time(Date(t.date.year, t.date.day, t.date.month), 0, 0, 0))
    ensures t.date.day > 12 ==> !DayForm(s)
    ensures |s| == 10
  {
    YearWidth(t.date.year);
    NatValueOfText(t.date.year);
    DashedPlaces(NatText(t.date.year), TwoDigits(t.date.day), TwoDigits(t.date.month), "");
    DayReads(NoFields(), [], s);
    assert DAY_LAYOUT + [] == DAY_LAYOUT;
  }

  lemma ShortIsDay(text: string, s: string)
    requires TrimSpace(text) == s && |s| == 10
    ensures LayoutTime(text) == ReadLayout(DAY_LAYOUT, s)
  {
    LayoutParts();
    SecondLayoutReads(s, SECOND_LAYOUT);
    MinuteLayoutReads(s, MINUTE_LAYOUT);
    ThreeLayouts(s);
  }

  lemma SwappedPrinted(t: Time, format: string, s: string)
    requires IsDomain(t) && Tokens(format) == Dashed('d', 'm') + []
    requires s == DashedText(NatText(t.date.year), TwoDigits(t.date.day), TwoDigits(t.date.month), "")
    ensures PrintedAll(t, Tokens(format)) == s && TrimSpace(s) == s
  {
    DashedPrinted(t, 'd', 'm', []);
  }

  lemma SwappedReads(t: Time, format: string)
    requires IsDomain(t) && 1000 <= t.date.year <= 9999 && t.date.day <= 12 && Tokens(format) == Dashed('d', 'm') + []
    ensures LayoutTime(PrintedAll(t, Tokens(format))) == Some(Time(Date(t.date.year, t.date.day, t.date.month), 0, 0, 0))
  {
    var s := DashedText(NatText(t.date.year), TwoDigits(t.date.day), TwoDigits(t.date.month), "");
    SwappedPrinted(t, format, s);
    SwappedLayout(t, s);
    ShortIsDay(s, s);
  }

  lemma SwappedIff(t: Time, format: string)
    requires IsDomain(t) && Tokens(format) == Dashed('d', 'm') + []
    ensures RoundTrips(t, format) <==> 1000 <= t.date.year <= 9999 && (t.date.day == t.date.month || t.date.day > 12)
  {
    var year := NatText(t.date.year);
    var s := DashedText(year, TwoDigits(t.date.day), TwoDigits(t.date.month), "");
    if 1000 <= t.date.year <= 9999 && t.date.day <= 12 {
      SwappedReads(t, format);
      SwappedRecovers(t);
    } else {
      ParseInvertsFormatIff(t, format);
      SwappedPrinted(t, format, s);
      YearWide(t.date.year);
      DashedIsEnough(t, 'd', 'm', []);
      if 1000 <= t.date.year <= 9999 {
        SwappedLayout(t, s);
      } else {
        OddYearNoDay(year, TwoDigits(t.date.day), TwoDigits(t.date.month), "");
      }
      NoDayNoLayout(s);
    }
  }

  /** With day before month, the layouts read the one for the other when they can: the date comes back exactly
      when that makes no difference, or the day is too large for a month. */
  lemma SwappedRecoversIff(t: Time)
    requires IsDomain(t)
    ensures RoundTrips(t, SWAPPED_FORMAT) <==>
      1000 <= t.date.year <= 9999 && (t.date.day == t.date.month || t.date.day > 12)
  {
    DateTokens();
    SwappedIff(t, SWAPPED_FORMAT);
  }

  lemma SwappedRecovers(t: Time)
    requires IsDomain(t) && t.date.day <= 12
    ensures Recovers(t, Dashed('d', 'm') + [], Time(Date(t.date.year, t.date.day, t.date.month), 0, 0, 0)) <==>
      t.date.day == t.date.month
  {
    DashedNames('d', 'm', [], 'm');
    DashedNames('d', 'm', [], 'd');
    DashedNames('d', 'm', [], 'H');
    DashedNames('d', 'm', [], 'M');
    DashedNames('d', 'm', [], 'S');
  }

  /** 5 June 2024 printed with day before month is read as 6 May. */
  lemma SwappedExample()
    ensures var t := Time(Date(2024, 6, 5), 0, 0, 0);
      ParseDate(PrintedAll(t, Tokens(SWAPPED_FORMAT)), SWAPPED_FORMAT) == Some(Time(Date(2024, 5, 6), 0, 0, 0))
  {
    var t := Time(Date(2024, 6, 5), 0, 0, 0);
    assert IsDate(t.date);
    DateTokens();
    SwappedReads(t, SWAPPED_FORMAT);
  }
}
