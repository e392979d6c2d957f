/** The part of the gopher-lua scanner the form importer relies on: names, reserved words, decimal
    numbers, quoted strings, symbols, blanks and line comments. Anything else the scanner knows (long
    strings, hexadecimal numbers, exponents, superfluous leading zeros, numeric escapes, labels) is answered
    with None, so a text outside this subset never reads back as something. */
module LuaLexer {
  import opened Text

  datatype Token =
    | Name(name: string)
    | Keyword(word: string)
    | NumTok(text: string)
    | StrTok(value: string)
    | Symbol(text: string)

  /** The scanner's reservedWords, by first letter. */
  predicate IsReserved(w: string) {
    w != [] &&
    match w[0]
    case 'a' => w == "and"
    case 'b' => w == "break"
    case 'd' => w == "do"
    case 'e' => w == "else" || w == "elseif" || w == "end"
    case 'f' => w == "false" || w == "for" || w == "function"
    case 'g' => w == "goto"
    case 'i' => w == "if" || w == "in"
    case 'l' => w == "local"
    case 'n' => w == "nil" || w == "not"
    case 'o' => w == "or"
    case 'r' => w == "return" || w == "repeat"
    case 't' => w == "then" || w == "true"
    case 'u' => w == "until"
    case 'w' => w == "while"
    case _ => false
  }

  predicate IsNameStart(c: char) {
    c == '_' || 'A' <= c <= 'Z' || 'a' <= c <= 'z'
  }

  predicate IsNameChar(c: char) { IsNameStart(c) || IsDigit(c) }

  /** The builder's identRe: also what the scanner reads as one word. */
  predicate IsIdent(s: string) {
    s != [] && IsNameStart(s[0]) && forall c :: c in s ==> IsNameChar(c)
  }

  function WordLength(s: string): (n: nat)
    ensures n <= |s|
    ensures s != [] && IsNameChar(s[0]) ==> n > 0
  {
    if s != [] && IsNameChar(s[0]) then 1 + WordLength(s[1..]) else 0
  }

  function WordToken(w: string): (r: Token) {
    if IsReserved(w) then Keyword(w) else Name(w)
  }

  predicate IsExponent(c: char) { c == 'e' || c == 'E' }

  /** scanNumber on plain decimals. */
  function ScanNumber(s: string): (r: Option<(string, string)>)
    requires s != [] && IsDigit(s[0])
    ensures r.Some? ==> |r.value.1| < |s|
  {
    if s[0] == '0' && |s| > 1 && (s[1] == 'x' || s[1] == 'X' || IsDigit(s[1])) then None
    else
      var n := NumberLength(s);
      if n < |s| && IsExponent(s[n]) then None else Some((s[..n], s[n..]))
  }

  function NumberLength(s: string): (n: nat)
    ensures DigitRun(s) <= n <= |s|
  {
    var n := DigitRun(s);
    if n < |s| && s[n] == '.' then n + 1 + DigitRun(s[n + 1..]) else n
  }

  function Unescape(c: char): (r: char) {
    match c
    case 'a' => '\U{7}' case 'b' => '\U{8}' case 'f' => '\U{C}'
    case 'n' => '\n' case 'r' => '\r' case 't' => '\t' case 'v' => '\U{B}'
    case _ => c
  }

  function Consed(c: char, r: Option<(string, string)>): (result: Option<(string, string)>) {
    if r.None? then None else Some(([c] + r.value.0, r.value.1))
  }

  /** scanString after the opening quote: the decoded value and what follows the closing quote. */
  function ScanString(s: string, quote: char): (r: Option<(string, string)>)
    ensures r.Some? ==> |r.value.1| < |s|
  {
    if s == [] || s[0] in "\n\r" then None
    else if s[0] == quote then Some(([], s[1..]))
    else if s[0] == '\\' then
      if |s| == 1 || s[1] in "\n\r" || IsDigit(s[1]) then None
      else Consed(Unescape(s[1]), ScanString(s[2..], quote))
    else Consed(s[0], ScanString(s[1..], quote))
  }

  function Take(t: Token, n: nat, s: string): (r: Option<(Token, string)>)
    requires 0 < n <= |s|
    ensures r == Some((t, s[n..]))
  {
    Some((t, s[n..]))
  }

  function ScanToken(s: string): (r: Option<(Token, string)>)
    requires s != []
    ensures r.Some? ==> |r.value.1| < |s|
  {
    var c := s[0];
    var next := if |s| > 1 then s[1] else ' ';
    if IsNameStart(c) then
      var n := WordLength(s);
      Take(WordToken(s[..n]), n, s)
    else if IsDigit(c) then
      var r := ScanNumber(s);
      if r.None? then None else Some((NumTok(r.value.0), r.value.1))
    else if c in "\"'" then
      var r := ScanString(s[1..], c);
      if r.None? then None else Some((StrTok(r.value.0), r.value.1))
    else if c == '[' then
      if next in "[=" then None else Take(Symbol("["), 1, s)
    else if c == '=' || c == '<' || c == '>' then
      if next == '=' then Take(Symbol([c, '=']), 2, s) else Take(Symbol([c]), 1, s)
    else if c == '~' then
      if next == '=' then Take(Symbol("~="), 2, s) else None
    else if c == ':' then
      if next == ':' then None else Take(Symbol(":"), 1, s)
    else if c == '.' then
      if IsDigit(next) then None
      else if next != '.' then Take(Symbol("."), 1, s)
      else if |s| > 2 && s[2] == '.' then Take(Symbol("..."), 3, s)
      else Take(Symbol(".."), 2, s)
    else if IsSingle(c) then Take(Symbol([c]), 1, s)
    else None
  }

  /** Symbols that are a token whatever follows. */
  predicate IsBracketOrComma(c: char) {
    c == '{' || c == '}' || c == '(' || c == ')' || c == ']' || c == ','
  }

  predicate IsSingle(c: char) {
    IsBracketOrComma(c) || c == '-' || c == '+' || c == '*' || c == '/' || c == '%' || c == '^'
    || c == '#' || c == ';'
  }

  function SkipLine(s: string): (rest: string)
    ensures |rest| <= |s|
  {
    if s == [] || s[0] in "\n\r" then s else SkipLine(s[1..])
  }

  function Prepend(ts: seq<Token>, r: Option<seq<Token>>): (p: Option<seq<Token>>)
    ensures ts == [] ==> p == r
  {
    assert r.Some? ==> [] + r.value == r.value;
    if r.None? then None else Some(ts + r.value)
  }

  function Lex(s: string): (r: Option<seq<Token>>)
    decreases |s|
  {
    if s == [] then Some([])
    else if IsBlank(s[0]) then Lex(s[1..])
    else if |s| > 1 && s[0] == '-' && s[1] == '-' then
      if |s| > 2 && s[2] == '[' then None else Lex(SkipLine(s[2..]))
    else
      var r := ScanToken(s);
      if r.None? then None else Prepend([r.value.0], Lex(r.value.1))
  }

  // ----- What one printed piece lexes to -----

  lemma PrependTwice(a: seq<Token>, b: seq<Token>, r: Option<seq<Token>>)
    ensures Prepend(a, Prepend(b, r)) == Prepend(a + b, r)
  {
    if r.Some? {
      assert a + (b + r.value) == a + b + r.value;
    }
  }

  /** rest does not continue a word. */
  predicate EndsWord(rest: string) { rest == [] || !IsNameChar(rest[0]) }

  /** rest does not continue a number either. */
  predicate EndsNumber(rest: string) { EndsWord(rest) && (rest == [] || rest[0] != '.') }

  lemma {:induction false} WordRun(w: string, rest: string)
    requires forall c :: c in w ==> IsNameChar(c)
    requires EndsWord(rest)
    ensures WordLength(w + rest) == |w|
  {
    if w == [] {
      assert w + rest == rest;
    } else {
      assert (w + rest)[1..] == w[1..] + rest;
      WordRun(w[1..], rest);
    }
  }

  lemma LexWord(w: string, rest: string)
    requires IsIdent(w) && EndsWord(rest)
    ensures Lex(w + rest) == Prepend([WordToken(w)], Lex(rest))
  {
    var s := w + rest;
    WordRun(w, rest);
    assert s[0] == w[0];
    assert s[..|w|] == w && s[|w|..] == rest;
    assert ScanToken(s) == Some((WordToken(w), rest));
  }

  lemma LexSymbol(c: char, rest: string)
    requires IsBracketOrComma(c)
    ensures Lex([c] + rest) == Prepend([Symbol([c])], Lex(rest))
  {
    var s := [c] + rest;
    assert s[0] == c && s[1..] == rest;
    assert ScanToken(s) == Some((Symbol([c]), rest));
  }

  /** `[`, `=`, `.` and `-` when the next character does not make them a longer token. */
  lemma LexPrefixSymbol(c: char, rest: string)
    requires c == '[' || c == '=' || c == '.' || c == '-'
    requires rest != [] && rest[0] != c
    requires c == '[' ==> rest[0] != '='
    requires c == '.' ==> !IsDigit(rest[0])
    ensures Lex([c] + rest) == Prepend([Symbol([c])], Lex(rest))
  {
    var s := [c] + rest;
    assert s[0] == c && s[1..] == rest && s[1] == rest[0];
    assert !IsBlank(c);
    assert ScanToken(s) == Some((Symbol([c]), rest));
  }

  lemma LexBlank(c: char, rest: string)
    requires IsBlank(c)
    ensures Lex([c] + rest) == Lex(rest)
  {
    assert ([c] + rest)[1..] == rest;
  }

  lemma {:induction false} LexBlanks(blanks: string, rest: string)
    requires forall c :: c in blanks ==> IsBlank(c)
    ensures Lex(blanks + rest) == Lex(rest)
  {
    if blanks == [] {
      assert blanks + rest == rest;
    } else {
      assert (blanks + rest)[1..] == blanks[1..] + rest;
      LexBlanks(blanks[1..], rest);
    }
  }

  /** A decimal number as the exporter prints one: no superfluous leading zero, no bare point. */
  predicate IsMagnitude(m: string) {
    var n := DigitRun(m);
    && n >= 1
    && (n > 1 ==> m[0] != '0')
    && (n == |m| || (m[n] == '.' && n + 1 < |m| && AllDigits(m[n + 1..])))
  }

  lemma {:induction false} DigitRunStops(d: string, rest: string)
    requires DigitRun(d) == |d|
    requires rest == [] || !IsDigit(rest[0])
    ensures DigitRun(d + rest) == |d|
  {
    if d == [] {
      assert d + rest == rest;
    } else {
      assert (d + rest)[1..] == d[1..] + rest;
      DigitRunStops(d[1..], rest);
    }
  }

  lemma {:induction false} DigitRunAll(d: string)
    requires AllDigits(d)
    ensures DigitRun(d) == |d|
  {
    if d != [] {
      assert d[0] in d;
      assert forall c :: c in d[1..] ==> c in d;
      DigitRunAll(d[1..]);
    }
  }

  lemma MagnitudeLength(m: string, rest: string)
    requires IsMagnitude(m) && EndsNumber(rest)
    ensures NumberLength(m + rest) == |m|
  {
    var n := DigitRun(m);
    DigitRunIsDigits(m);
    if n == |m| {
      DigitRunStops(m, rest);
    } else {
      var whole, frac := m[..n], m[n + 1..];
      assert m + rest == whole + (['.'] + frac + rest);
      DigitRunStops(whole, ['.'] + frac + rest);
      DigitRunAll(frac);
      DigitRunStops(frac, rest);
      assert (m + rest)[n + 1..] == frac + rest;
    }
  }

  lemma ScanMagnitude(m: string, rest: string)
    requires IsMagnitude(m) && EndsNumber(rest)
    ensures ScanNumber(m + rest) == Some((m, rest))
  {
    var s := m + rest;
    MagnitudeLength(m, rest);
    assert |s| > 1 ==> s[1] == if |m| > 1 then m[1] else rest[0];
    if |m| > 1 && IsDigit(m[1]) {
      assert DigitRun(m[1..]) > 0;
    }
    assert s[..|m|] == m && s[|m|..] == rest;
  }

  lemma LexMagnitude(m: string, rest: string)
    requires IsMagnitude(m) && EndsNumber(rest)
    ensures Lex(m + rest) == Prepend([NumTok(m)], Lex(rest))
  {
    ScanMagnitude(m, rest);
    var s := m + rest;
    assert s[0] == m[0] && IsDigit(s[0]);
    assert ScanToken(s) == Some((NumTok(m), rest));
  }

  lemma {:induction false} SkipToNewline(comment: string, rest: string)
    requires forall c :: c in comment ==> c !in "\n\r"
    ensures SkipLine(comment + "\n" + rest) == "\n" + rest
  {
    var s := comment + "\n" + rest;
    if comment == [] {
      assert s == "\n" + rest;
    } else {
      assert s[0] == comment[0] && comment[0] in comment;
      assert s[1..] == comment[1..] + "\n" + rest;
      SkipToNewline(comment[1..], rest);
    }
  }

  /** A whole comment line is invisible. */
  lemma LexComment(comment: string, rest: string)
    requires forall c :: c in comment ==> c !in "\n\r"
    requires comment == [] || comment[0] != '['
    ensures Lex("--" + comment + "\n" + rest) == Lex(rest)
  {
    var s := "--" + comment + "\n" + rest;
    assert s[2..] == comment + "\n" + rest;
    SkipToNewline(comment, rest);
    LexBlank('\n', rest);
    assert ['\n'] + rest == "\n" + rest;
  }
}
