/** The shapes of literal text the exporter writes (internal/builder/lua_export.go): quoted strings in
    either of its two quoting styles, decimals, and table constructors on one line or one entry per
    line. For each shape: its text, and the theorem that the text scans and parses to its syntax tree,
    or does not parse at all when a reserved word is printed as a bare key. */
module LuaText {
  import opened Text
  import opened LuaLexer
  import opened LuaParser

  // ----- Quoting -----

  /** Lua: luaQuote's replacer. Go: the %q verb, on ASCII text. */
  datatype Style = Lua | Go

  /** Control characters %q has no letter escape for; it writes them as \xhh. */
  predicate IsHexEscaped(c: char) {
    (c < ' ' && c != '\U{7}' && c != '\U{8}' && c != '\U{C}' && c != '\n' && c != '\r' && c != '\t' && c != '\U{B}')
    || c == '\U{7F}'
  }

  function HexPair(c: char): (h: string)
    requires c < '\U{80}'
    ensures |h| == 2
  {
    [HexDigit(c as nat / 16), HexDigit(c as nat % 16)]
  }

  function QuoteChar(style: Style, c: char): (q: string)
    ensures q != []
  {
    if c == '\\' then "\\\\"
    else if c == '"' then "\\\""
    else if c == '\n' then "\\n"
    else if c == '\t' then "\\t"
    else if c == '\r' then "\\r"
    else if style.Lua? then [c]
    else if c == '\U{7}' then "\\a"
    else if c == '\U{8}' then "\\b"
    else if c == '\U{C}' then "\\f"
    else if c == '\U{B}' then "\\v"
    else if IsHexEscaped(c) then "\\x" + HexPair(c)
    else [c]
  }

  function QuoteChars(style: Style, s: string): (r: string) {
    if s == [] then [] else QuoteChar(style, s[0]) + QuoteChars(style, s[1..])
  }

  function Quote(style: Style, s: string): (q: string)
    ensures q != [] && q[0] == '"'
  {
    "\"" + QuoteChars(style, s) + "\""
  }

  /** What a quoted string scans back to: Lua knows no \x escape and keeps the letters. */
  function Requoted(style: Style, s: string): (r: string)
    ensures |r| >= |s|
  {
    if s == [] then []
    else (if style.Go? && IsHexEscaped(s[0]) then "x" + HexPair(s[0]) else [s[0]]) + Requoted(style, s[1..])
  }

  predicate IsQuotable(style: Style, s: string) {
    style.Lua? || forall c :: c in s ==> !IsHexEscaped(c)
  }

  lemma {:induction false} RequotedIsSame(style: Style, s: string)
    ensures Requoted(style, s) == s <==> IsQuotable(style, s)
  {
    if s != [] {
      RequotedIsSame(style, s[1..]);
      assert s == [s[0]] + s[1..];
      if style.Go? && IsHexEscaped(s[0]) {
        assert |Requoted(style, s)| > |s|;
      } else {
        assert Requoted(style, s)[1..] == Requoted(style, s[1..]);
      }
    }
  }

  lemma ScanPlainChar(c: char, more: string)
    requires c != '"' && c != '\\' && c != '\n' && c != '\r'
    ensures ScanString([c] + more, '"') == Consed(c, ScanString(more, '"'))
  {
    assert ([c] + more)[1..] == more;
  }

  lemma ScanEscape(c: char, more: string)
    requires c != '\n' && c != '\r' && !IsDigit(c)
    ensures ScanString("\\" + [c] + more, '"') == Consed(Unescape(c), ScanString(more, '"'))
  {
    var t := "\\" + [c] + more;
    assert t[2..] == more && t[0] == '\\' && t[1] == c;
  }

  function Glued(pre: string, r: Option<(string, string)>): (result: Option<(string, string)>) {
    if r.None? then None else Some((pre + r.value.0, r.value.1))
  }

  lemma ScanHex(h: string, more: string)
    requires |h| == 2 && forall c :: c in h ==> c != '"' && c != '\\' && c != '\n' && c != '\r'
    ensures ScanString("\\x" + h + more, '"') == Glued("x" + h, ScanString(more, '"'))
  {
    assert h[0] in h && h[1] in h;
    assert "\\x" + h + more == "\\" + ['x'] + ([h[0]] + ([h[1]] + more));
    ScanEscape('x', [h[0]] + ([h[1]] + more));
    ScanPlainChar(h[0], [h[1]] + more);
    ScanPlainChar(h[1], more);
    var r := ScanString(more, '"');
    if r.Some? {
      assert ['x'] + ([h[0]] + ([h[1]] + r.value.0)) == "x" + h + r.value.0;
    }
  }

  lemma ScanQuotedChar(style: Style, c: char, more: string)
    ensures ScanString(QuoteChar(style, c) + more, '"') ==
      Glued(if style.Go? && IsHexEscaped(c) then "x" + HexPair(c) else [c], ScanString(more, '"'))
  {
    var q := QuoteChar(style, c);
    if q == [c] {
      ScanPlainChar(c, more);
    } else if |q| == 2 {
      ScanEscape(q[1], more);
      assert q == "\\" + [q[1]];
    } else {
      ScanHex(HexPair(c), more);
    }
  }

  lemma {:induction false} ScanQuoted(style: Style, s: string, rest: string)
    ensures ScanString(QuoteChars(style, s) + "\"" + rest, '"') == Some((Requoted(style, s), rest))
  {
    if s == [] {
      assert QuoteChars(style, s) + "\"" + rest == "\"" + rest;
    } else {
      var more := QuoteChars(style, s[1..]) + "\"" + rest;
      ScanQuoted(style, s[1..], rest);
      ScanQuotedChar(style, s[0], more);
      assert QuoteChars(style, s) + "\"" + rest == QuoteChar(style, s[0]) + more;
    }
  }

  lemma LexQuoted(style: Style, s: string, rest: string)
    ensures Lex(Quote(style, s) + rest) == Prepend([StrTok(Requoted(style, s))], Lex(rest))
  {
    var t := Quote(style, s) + rest;
    ScanQuoted(style, s, rest);
    assert t[1..] == QuoteChars(style, s) + "\"" + rest;
    assert ScanToken(t) == Some((StrTok(Requoted(style, s)), rest));
  }

  /** luaKey: a bare word when it looks like an identifier, else a bracketed string. */
  function LuaKey(k: string): (r: string) {
    if IsIdent(k) then k else "[" + Quote(Lua, k) + "]"
  }

  // ----- Literals -----

  /** A number is its exact printed decimal; zero carries no sign. */
  datatype Decimal = Decimal(negative: bool, magnitude: string)

  predicate IsDecimal(d: Decimal) {
    IsMagnitude(d.magnitude) && (d.negative ==> d.magnitude != "0")
  }

  type Num = d: Decimal | IsDecimal(d) witness Decimal(false, "0")

  function DecimalText(d: Decimal): (r: string) {
    if d.negative then "-" + d.magnitude else d.magnitude
  }

  datatype Lit =
    | Nil
    | Truth(b: bool)
    | Number(num: Num)
    | Quoted(style: Style, text: string)
    | Table(entries: seq<Entry>, layout: Layout)

  datatype Entry = Item(value: Lit) | Pair(key: string, value: Lit)

  /** Inline(sep): entries joined by commas, `key<sep>value` in each; Lines(indent): one per line. */
  datatype Layout = Inline(sep: string) | Lines(indent: string)

  predicate IsBlanks(s: string) { forall c :: c in s ==> IsBlank(c) }

  predicate IsLayout(l: Layout) {
    match l
    case Inline(sep) => sep == "=" || sep == " = "
    case Lines(indent) => IsBlanks(indent)
  }

  function LitText(l: Lit): (r: string)
    decreases l, 1
  {
    match l
    case Nil => "nil"
    case Truth(b) => if b then "true" else "false"
    case Number(n) => DecimalText(n)
    case Quoted(style, s) => Quote(style, s)
    case Table(entries, Inline(sep)) => "{" + Join(EntryTexts(entries, sep), ", ") + "}"
    case Table(entries, Lines(indent)) => "{" + ("\n" + LineTexts(entries, indent)) + "}"
  }

  function EntryText(e: Entry, sep: string): (r: string)
    decreases e, 2
  {
    match e
    case Item(v) => LitText(v)
    case Pair(k, v) => LuaKey(k) + (sep + LitText(v))
  }

  function EntryTexts(es: seq<Entry>, sep: string): (texts: seq<string>)
    ensures |texts| == |es|
    decreases es, 0
  {
    if es == [] then [] else [EntryText(es[0], sep)] + EntryTexts(es[1..], sep)
  }

  function LineTexts(es: seq<Entry>, indent: string): (r: string)
    decreases es, 0
  {
    if es == [] then indent
    else (indent + "  ") + (EntryText(es[0], " = ") + (",\n" + LineTexts(es[1..], indent)))
  }

  predicate WellLaid(l: Lit)
    decreases l, 1
  {
    l.Table? ==> IsLayout(l.layout) && AllWellLaid(l.entries)
  }

  predicate AllWellLaid(es: seq<Entry>)
    decreases es, 0
  {
    es == [] || (EntryWellLaid(es[0]) && AllWellLaid(es[1..]))
  }

  predicate EntryWellLaid(e: Entry)
    decreases e, 2
  {
    WellLaid(e.value)
  }

  // ----- Stage 1: text to tokens -----

  function Tokens(l: Lit): (ts: seq<Token>)
    decreases l, 1
  {
    match l
    case Nil => [Keyword("nil")]
    case Truth(b) => [Keyword(if b then "true" else "false")]
    case Number(n) => (if n.negative then [Symbol("-")] else []) + [NumTok(n.magnitude)]
    case Quoted(style, s) => [StrTok(Requoted(style, s))]
    case Table(entries, layout) => [Symbol("{")] + EntriesTokens(entries, layout.Lines?) + [Symbol("}")]
  }

  function KeyTokens(k: string): (r: seq<Token>) {
    if IsIdent(k) then [WordToken(k)] else [Symbol("["), StrTok(k), Symbol("]")]
  }

  function EntryTokens(e: Entry): (r: seq<Token>)
    decreases e, 2
  {
    match e
    case Item(v) => Tokens(v)
    case Pair(k, v) => KeyTokens(k) + ([Symbol("=")] + Tokens(v))
  }

  /** The entries separated by commas, with one more comma at the end when trailing. */
  function EntriesTokens(es: seq<Entry>, trailing: bool): (r: seq<Token>)
    decreases es, 0
  {
    if es == [] then []
    else if |es| == 1 && !trailing then EntryTokens(es[0])
    else EntryTokens(es[0]) + ([Symbol(",")] + EntriesTokens(es[1..], trailing))
  }

  lemma LexBracketKey(k: string, rest: string)
    ensures Lex("[" + Quote(Lua, k) + "]" + rest) == Prepend([Symbol("["), StrTok(k), Symbol("]")], Lex(rest))
  {
    var tail := "]" + rest;
    var quoted := Quote(Lua, k) + tail;
    assert "[" + Quote(Lua, k) + "]" + rest == ['['] + quoted;
    assert quoted[0] == '"';
    LexPrefixSymbol('[', quoted);
    LexQuoted(Lua, k, tail);
    RequotedIsSame(Lua, k);
    LexSymbol(']', rest);
    PrependTwice([StrTok(k)], [Symbol("]")], Lex(rest));
    PrependTwice([Symbol("[")], [StrTok(k)] + [Symbol("]")], Lex(rest));
    assert [Symbol("[")] + ([StrTok(k)] + [Symbol("]")]) == [Symbol("["), StrTok(k), Symbol("]")];
  }

  lemma LexKey(k: string, rest: string)
    requires rest != [] && (rest[0] == ' ' || rest[0] == '=')
    ensures Lex(LuaKey(k) + rest) == Prepend(KeyTokens(k), Lex(rest))
  {
    if IsIdent(k) {
      LexWord(k, rest);
    } else {
      LexBracketKey(k, rest);
    }
  }

  lemma LexDecimal(n: Num, rest: string)
    requires EndsNumber(rest)
    ensures Lex(DecimalText(n) + rest) == Prepend(Tokens(Number(n)), Lex(rest))
  {
    LexMagnitude(n.magnitude, rest);
    if n.negative {
      assert DecimalText(n) + rest == ['-'] + (n.magnitude + rest);
      LexPrefixSymbol('-', n.magnitude + rest);
      PrependTwice([Symbol("-")], [NumTok(n.magnitude)], Lex(rest));
    } else {
      assert Tokens(Number(n)) == [NumTok(n.magnitude)];
    }
  }

  lemma LexCommaBlank(blank: char, rest: string)
    requires IsBlank(blank)
    ensures Lex([',', blank] + rest) == Prepend([Symbol(",")], Lex(rest))
  {
    assert [',', blank] + rest == [','] + ([blank] + rest);
    LexSymbol(',', [blank] + rest);
    LexBlank(blank, rest);
  }

  lemma LexPairSign(sep: string, rest: string)
    requires sep == "=" || sep == " = "
    requires rest != [] && rest[0] != '='
    ensures Lex(sep + rest) == Prepend([Symbol("=")], Lex(rest))
  {
    if sep == "=" {
      LexPrefixSymbol('=', rest);
    } else {
      assert " = " + rest == [' '] + (['='] + ([' '] + rest));
      LexBlank(' ', ['='] + ([' '] + rest));
      LexPrefixSymbol('=', [' '] + rest);
      LexBlank(' ', rest);
    }
  }

  lemma LexWordLiteral(w: string, rest: string)
    requires w == "nil" || w == "true" || w == "false"
    requires EndsNumber(rest)
    ensures Lex(w + rest) == Prepend([Keyword(w)], Lex(rest))
  {
    assert IsReserved(w);
    LexWord(w, rest);
  }

  lemma LexBraces(body: string, ts: seq<Token>, rest: string)
    requires Lex(body + ("}" + rest)) == Prepend(ts, Lex("}" + rest))
    ensures Lex("{" + body + "}" + rest) == Prepend([Symbol("{")] + ts + [Symbol("}")], Lex(rest))
  {
    assert "{" + body + "}" + rest == ['{'] + (body + ("}" + rest));
    LexSymbol('{', body + ("}" + rest));
    LexSymbol('}', rest);
    assert ['}'] + rest == "}" + rest;
    PrependTwice(ts, [Symbol("}")], Lex(rest));
    PrependTwice([Symbol("{")], ts + [Symbol("}")], Lex(rest));
    assert [Symbol("{")] + (ts + [Symbol("}")]) == [Symbol("{")] + ts + [Symbol("}")];
  }

  lemma {:induction false} LexLit(l: Lit, rest: string)
    requires WellLaid(l) && EndsNumber(rest)
    ensures Lex(LitText(l) + rest) == Prepend(Tokens(l), Lex(rest))
    decreases l, 1
  {
    match l
    case Nil => LexWordLiteral("nil", rest);
    case Truth(b) => LexWordLiteral(if b then "true" else "false", rest);
    case Number(n) => LexDecimal(n, rest);
    case Quoted(style, s) => LexQuoted(style, s, rest);
    case Table(entries, Inline(sep)) =>
      LexEntries(entries, sep, "}" + rest);
      LexBraces(Join(EntryTexts(entries, sep), ", "), EntriesTokens(entries, false), rest);
    case Table(entries, Lines(indent)) =>
      LexLines(entries, indent, "}" + rest);
      var body := LineTexts(entries, indent);
      LexBlank('\n', body + ("}" + rest));
      assert "\n" + body + ("}" + rest) == ['\n'] + (body + ("}" + rest));
      LexBraces("\n" + body, EntriesTokens(entries, true), rest);
  }

  lemma TextStarts(l: Lit)
    ensures LitText(l) != [] && LitText(l)[0] != '='
  {
    if l.Number? {
      assert l.num.magnitude[0] == LitText(l)[if l.num.negative then 1 else 0];
    }
  }

  lemma LexPair(k: string, sep: string, text: string, ts: seq<Token>, rest: string)
    requires sep == "=" || sep == " = "
    requires text != [] && text[0] != '='
    requires Lex(text + rest) == Prepend(ts, Lex(rest))
    ensures Lex(LuaKey(k) + (sep + text) + rest) == Prepend(KeyTokens(k) + ([Symbol("=")] + ts), Lex(rest))
  {
    var value := text + rest;
    Assoc(LuaKey(k), sep + text, rest);
    Assoc(sep, text, rest);
    LexKey(k, sep + value);
    LexPairSign(sep, value);
    PrependTwice([Symbol("=")], ts, Lex(rest));
    PrependTwice(KeyTokens(k), [Symbol("=")] + ts, Lex(rest));
  }

  lemma {:induction false} LexEntry(e: Entry, sep: string, rest: string)
    requires EntryWellLaid(e) && EndsNumber(rest)
    requires sep == "=" || sep == " = "
    ensures Lex(EntryText(e, sep) + rest) == Prepend(EntryTokens(e), Lex(rest))
    decreases e, 2
  {
    LexLit(e.value, rest);
    if e.Pair? {
      TextStarts(e.value);
      LexPair(e.key, sep, LitText(e.value), Tokens(e.value), rest);
    }
  }

  /** One entry, a comma, one blank, and the rest of the table. */
  lemma LexThenComma(first: string, blank: char, ts: seq<Token>, tail: string, more: seq<Token>, end: string)
    requires IsBlank(blank)
    requires Lex(first + ([',', blank] + tail)) == Prepend(ts, Lex([',', blank] + tail))
    requires Lex(tail) == Prepend(more, Lex(end))
    ensures Lex(first + ([',', blank] + tail)) == Prepend(ts + ([Symbol(",")] + more), Lex(end))
  {
    LexCommaBlank(blank, tail);
    PrependTwice([Symbol(",")], more, Lex(end));
    PrependTwice(ts, [Symbol(",")] + more, Lex(end));
  }

  lemma {:induction false} LexEntries(es: seq<Entry>, sep: string, rest: string)
    requires AllWellLaid(es) && EndsNumber(rest)
    requires sep == "=" || sep == " = "
    ensures Lex(Join(EntryTexts(es, sep), ", ") + rest) == Prepend(EntriesTokens(es, false), Lex(rest))
    decreases es, 0
  {
    if es == [] {
      assert Join(EntryTexts(es, sep), ", ") + rest == rest;
    } else if |es| == 1 {
      LexEntry(es[0], sep, rest);
      assert Join(EntryTexts(es, sep), ", ") == EntryText(es[0], sep);
    } else {
      var first, joined := EntryText(es[0], sep), Join(EntryTexts(es[1..], sep), ", ");
      var tail := joined + rest;
      assert EntryTexts(es, sep)[1..] == EntryTexts(es[1..], sep);
      assert Join(EntryTexts(es, sep), ", ") + rest == first + ([',', ' '] + tail);
      LexEntry(es[0], sep, [',', ' '] + tail);
      LexEntries(es[1..], sep, rest);
      LexThenComma(first, ' ', EntryTokens(es[0]), tail, EntriesTokens(es[1..], false), rest);
    }
  }

  lemma {:induction false} LexLines(es: seq<Entry>, indent: string, rest: string)
    requires AllWellLaid(es) && IsBlanks(indent) && EndsNumber(rest)
    ensures Lex(LineTexts(es, indent) + rest) == Prepend(EntriesTokens(es, true), Lex(rest))
    decreases es, 0
  {
    if es == [] {
      LexBlanks(indent, rest);
    } else {
      var first, lines := EntryText(es[0], " = "), LineTexts(es[1..], indent);
      var tail := lines + rest;
      var body := first + ([',', '\n'] + tail);
      assert LineTexts(es, indent) + rest == (indent + "  ") + body;
      LexBlanks(indent + "  ", body);
      LexEntry(es[0], " = ", [',', '\n'] + tail);
      LexLines(es[1..], indent, rest);
      LexThenComma(first, '\n', EntryTokens(es[0]), tail, EntriesTokens(es[1..], true), rest);
    }
  }

  // ----- Stage 2: tokens to syntax tree -----

  /** No reserved word is printed as a bare key anywhere in the literal. */
  predicate Readable(l: Lit)
    decreases l, 1
  {
    l.Table? ==> AllReadable(l.entries)
  }

  predicate AllReadable(es: seq<Entry>)
    decreases es, 0
  {
    es == [] || (EntryReadable(es[0]) && AllReadable(es[1..]))
  }

  predicate EntryReadable(e: Entry)
    decreases e, 2
  {
    (e.Pair? ==> !IsReserved(e.key)) && Readable(e.value)
  }

  function Ast(l: Lit): (r: Expr)
    decreases l, 1
  {
    match l
    case Nil => NilE
    case Truth(b) => if b then TrueE else FalseE
    case Number(n) => if n.negative then NegE(NumberE(n.magnitude)) else NumberE(n.magnitude)
    case Quoted(style, s) => StringE(Requoted(style, s))
    case Table(entries, _) => TableE(Fields(entries))
  }

  function EntryField(e: Entry): (r: Field)
    decreases e, 2
  {
    match e
    case Item(v) => Positional(Ast(v))
    case Pair(k, v) => Keyed(StringE(k), Ast(v))
  }

  function Fields(es: seq<Entry>): (fs: seq<Field>)
    ensures |fs| == |es|
    decreases es, 0
  {
    if es == [] then [] else [EntryField(es[0])] + Fields(es[1..])
  }

  /** What parsing a literal's tokens must give. */
  function Parsed(l: Lit, rest: seq<Token>): (r: Option<(Expr, seq<Token>)>) {
    if Readable(l) then Some((Ast(l), rest)) else None
  }

  lemma ParseScalar(l: Lit, rest: seq<Token>)
    requires !l.Table?
    ensures ParseExpr(Tokens(l) + rest) == Some((Ast(l), rest))
  {
    var ts := Tokens(l) + rest;
    if l.Number? && l.num.negative {
      assert ts[1..] == [NumTok(l.num.magnitude)] + rest;
      assert ts[1..][1..] == rest;
    } else {
      assert ts[1..] == rest;
    }
  }

  lemma ParseBraces(body: seq<Token>, rest: seq<Token>)
    ensures ParseExpr([Symbol("{")] + body + [Symbol("}")] + rest) ==
      var r := ParseFields(body + ([Symbol("}")] + rest));
      if r.None? then None else Some((TableE(r.value.0), r.value.1))
  {
    var ts := [Symbol("{")] + body + [Symbol("}")] + rest;
    assert ts[1..] == body + ([Symbol("}")] + rest);
  }

  lemma {:induction false} ParseTokens(l: Lit, rest: seq<Token>)
    ensures ParseExpr(Tokens(l) + rest) == Parsed(l, rest)
    decreases l, 1
  {
    if l.Table? {
      ParseEntries(l.entries, l.layout.Lines?, rest);
      ParseBraces(EntriesTokens(l.entries, l.layout.Lines?), rest);
    } else {
      ParseScalar(l, rest);
    }
  }

  lemma TokensStart(l: Lit)
    ensures Tokens(l) != [] && Tokens(l)[0] != Symbol("}") && Tokens(l)[0] != Symbol("[") && !Tokens(l)[0].Name?
  {
  }

  lemma PositionalField(l: Lit, rest: seq<Token>)
    ensures ParseField(Tokens(l) + rest) ==
      var r := ParseExpr(Tokens(l) + rest);
      if r.None? then None else Some((Positional(r.value.0), r.value.1))
  {
    TokensStart(l);
  }

  lemma ReservedIsIdent(k: string)
    ensures IsReserved(k) ==> IsIdent(k)
  {
  }

  function KeyedField(k: string, e: Option<(Expr, seq<Token>)>): (r: Option<(Field, seq<Token>)>) {
    if e.None? then None else Some((Keyed(StringE(k), e.value.0), e.value.1))
  }

  /** Not a field, or one that an equals sign follows: no table parses past it. */
  predicate NoFieldHere(r: Option<(Field, seq<Token>)>) {
    r.Some? ==> r.value.1 != [] && r.value.1[0] == Symbol("=")
  }

  lemma ParseWordField(k: string, value: seq<Token>)
    ensures var r := ParseField([WordToken(k)] + ([Symbol("=")] + value));
      if IsReserved(k) then NoFieldHere(r) else r == KeyedField(k, ParseExpr(value))
  {
    var ts := [WordToken(k)] + ([Symbol("=")] + value);
    assert ts[0] == WordToken(k) && ts[1] == Symbol("=") && ts[2..] == value;
  }

  lemma ParseBracketField(k: string, value: seq<Token>)
    ensures ParseField([Symbol("["), StrTok(k), Symbol("]")] + ([Symbol("=")] + value)) == KeyedField(k, ParseExpr(value))
  {
    var ts := [Symbol("["), StrTok(k), Symbol("]")] + ([Symbol("=")] + value);
    var inner := [StrTok(k), Symbol("]"), Symbol("=")] + value;
    assert ts[1..] == inner;
    assert inner[1..] == [Symbol("]"), Symbol("=")] + value;
    assert inner[1..][2..] == value;
  }

  /** A field whose key is a reserved word starts with that keyword: no field parses there. */
  lemma {:induction false} ParseEntry(e: Entry, rest: seq<Token>)
    ensures EntryReadable(e) ==> ParseField(EntryTokens(e) + rest) == Some((EntryField(e), rest))
    ensures !EntryReadable(e) ==> NoFieldHere(ParseField(EntryTokens(e) + rest))
    decreases e, 2
  {
    var value := Tokens(e.value) + rest;
    ParseTokens(e.value, rest);
    match e
    case Item(v) => PositionalField(v, rest);
    case Pair(k, v) =>
      ReservedIsIdent(k);
      assert EntryTokens(e) + rest == KeyTokens(k) + ([Symbol("=")] + value);
      if IsIdent(k) {
        ParseWordField(k, value);
      } else {
        ParseBracketField(k, value);
      }
  }

  lemma EntryStarts(e: Entry)
    ensures EntryTokens(e) != [] && EntryTokens(e)[0] != Symbol("}")
  {
    TokensStart(e.value);
  }

  /** ParseFields when another field, and then more, follows. */
  lemma FieldThenMore(ts: seq<Token>, f: Field, more: seq<Token>)
    requires ts != [] && ts[0] != Symbol("}")
    requires ParseField(ts) == Some((f, [Symbol(",")] + more))
    ensures ParseFields(ts) == var r := ParseFields(more); if r.None? then None else Some(([f] + r.value.0, r.value.1))
  {
    assert ([Symbol(",")] + more)[1..] == more;
  }

  lemma FieldThenClose(ts: seq<Token>, f: Field, rest: seq<Token>)
    requires ts != [] && ts[0] != Symbol("}")
    requires ParseField(ts) == Some((f, [Symbol("}")] + rest))
    ensures ParseFields(ts) == Some(([f], rest))
  {
    assert ([Symbol("}")] + rest)[1..] == rest;
  }

  lemma NoField(ts: seq<Token>)
    requires ts != [] && ts[0] != Symbol("}") && NoFieldHere(ParseField(ts))
    ensures ParseFields(ts) == None
  {
  }

  lemma {:induction false} ParseEntries(es: seq<Entry>, trailing: bool, rest: seq<Token>)
    ensures ParseFields(EntriesTokens(es, trailing) + ([Symbol("}")] + rest)) ==
      if AllReadable(es) then Some((Fields(es), rest)) else None
    decreases es, 0
  {
    var close := [Symbol("}")] + rest;
    if es == [] {
      assert EntriesTokens(es, trailing) + close == close && close[1..] == rest;
    } else {
      EntryStarts(es[0]);
      var more := EntriesTokens(es[1..], trailing) + close;
      var next := if |es| == 1 && !trailing then close else [Symbol(",")] + more;
      var ts := EntryTokens(es[0]) + next;
      assert EntriesTokens(es, trailing) + close == ts;
      ParseEntry(es[0], next);
      if !EntryReadable(es[0]) {
        NoField(ts);
      } else if |es| == 1 && !trailing {
        FieldThenClose(ts, EntryField(es[0]), rest);
        assert es[1..] == [] && Fields(es) == [EntryField(es[0])];
      } else {
        FieldThenMore(ts, EntryField(es[0]), more);
        ParseEntries(es[1..], trailing, rest);
      }
    }
  }
}
