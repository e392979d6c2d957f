/** Where one piece of Lua text ends and the next begins, and what the importer makes of option keys the
    exporter prints bare although they are no identifiers (exportControl in internal/builder/lua_export.go). */
module LuaKeys {
  import opened Text
  import opened LuaLexer
  import opened LuaParser
  import opened LuaText

  // ----- A blank between two pieces -----

  predicate HasComment(s: string) { exists i :: 0 <= i < |s| - 1 && s[i] == '-' && s[i + 1] == '-' }

  /** No character that begins a string or a long bracket. */
  predicate IsUnquoted(s: string) { forall c :: c in s ==> c !in "\"'[" }

  lemma {:induction false} WordStops(s: string, rest: string)
    requires EndsWord(rest)
    ensures WordLength(s + rest) == WordLength(s)
  {
    if s == "" {
      assert s + rest == rest;
    } else {
      assert (s + rest)[1..] == s[1..] + rest;
      WordStops(s[1..], rest);
    }
  }

  lemma {:induction false} DigitsStop(s: string, rest: string)
    requires rest == "" || !IsDigit(rest[0])
    ensures DigitRun(s + rest) == DigitRun(s)
  {
    if s == "" {
      assert s + rest == rest;
    } else {
      assert (s + rest)[1..] == s[1..] + rest;
      DigitsStop(s[1..], rest);
    }
  }

  lemma LengthStops(s: string, rest: string)
    requires rest != "" && IsBlank(rest[0])
    ensures NumberLength(s + rest) == NumberLength(s)
  {
    var n := DigitRun(s);
    DigitsStop(s, rest);
    if n < |s| {
      assert (s + rest)[n] == s[n];
      if s[n] == '.' {
        DigitsStop(s[n + 1..], rest);
        CutHead(s, rest, n + 1);
      }
    } else {
      assert (s + rest)[n] == rest[0];
    }
  }

  lemma CutAt(s: string, rest: string, n: nat)
    requires n <= |s|
    ensures (s + rest)[..n] == s[..n] && (s + rest)[n..] == s[n..] + rest
  {
  }

  lemma NumberStops(s: string, rest: string)
    requires s != "" && IsDigit(s[0]) && rest != "" && IsBlank(rest[0])
    ensures ScanNumber(s + rest) ==
      var r := ScanNumber(s); if r.None? then None else Some((r.value.0, r.value.1 + rest))
  {
    var n := NumberLength(s);
    LengthStops(s, rest);
    CutAt(s, rest, n);
    assert n < |s| ==> (s + rest)[n] == s[n];
    assert n == |s| ==> (s + rest)[n] == rest[0];
    assert (s + rest)[0] == s[0] && (s + rest)[1] == if |s| > 1 then s[1] else rest[0];
  }

  lemma {:induction false} StringStops(s: string, quote: char, rest: string)
    requires ScanString(s, quote).Some?
    ensures ScanString(s + rest, quote) == Some((ScanString(s, quote).value.0, ScanString(s, quote).value.1 + rest))
  {
    if s[0] == quote {
      CutHead(s, rest, 1);
    } else if s[0] == '\\' {
      CutHead(s, rest, 2);
      StringStops(s[2..], quote, rest);
    } else {
      CutHead(s, rest, 1);
      StringStops(s[1..], quote, rest);
    }
  }

  function Onward(r: Option<(Token, string)>, tail: string): (on: Option<(Token, string)>) {
    if r.None? then None else Some((r.value.0, r.value.1 + tail))
  }

  /** A blank ends any token. */
  lemma TokenStops(s: string, sep: char, rest: string)
    requires s != "" && IsBlank(sep)
    ensures ScanToken(s).Some? || IsUnquoted(s) ==> ScanToken(s + ([sep] + rest)) == Onward(ScanToken(s), [sep] + rest)
  {
    var c, tail := s[0], [sep] + rest;
    if IsNameStart(c) {
      WordStops(s, tail);
      CutHead(s, tail, WordLength(s));
      assert (s + tail)[..WordLength(s)] == s[..WordLength(s)];
    } else if IsDigit(c) {
      NumberStops(s, tail);
    } else if c in "\"'" {
      assert c in s;
      if ScanToken(s).Some? {
        CutHead(s, tail, 1);
        StringStops(s[1..], c, tail);
      }
    } else {
      SymbolStops(s, sep, rest);
    }
  }

  lemma SymbolStops(s: string, sep: char, rest: string)
    requires s != "" && IsBlank(sep) && !IsNameStart(s[0]) && !IsDigit(s[0]) && s[0] != '"' && s[0] != '\''
    ensures ScanToken(s).Some? || IsUnquoted(s) ==> ScanToken(s + ([sep] + rest)) == Onward(ScanToken(s), [sep] + rest)
  {
    var tail := [sep] + rest;
    var on := s + tail;
    assert s[0] in s && on[0] == s[0];
    CutHead(s, tail, 1);
    if |s| > 1 { CutHead(s, tail, 2); }
    if |s| > 2 { CutHead(s, tail, 3); }
    assert on[1] == if |s| > 1 then s[1] else sep;
    assert |s| > 1 ==> on[2] == if |s| > 2 then s[2] else sep;
  }

  lemma {:induction false} LineStops(s: string, rest: string)
    ensures SkipLine(s + ("\n" + rest)) == SkipLine(s) + ("\n" + rest)
  {
    if s == "" {
      assert s + ("\n" + rest) == "\n" + rest;
    } else {
      CutHead(s, "\n" + rest, 1);
      LineStops(s[1..], rest);
    }
  }

  function LexThen(s: string, rest: string): (r: Option<seq<Token>>) {
    if Lex(s).None? then None else Prepend(Lex(s).value, Lex(rest))
  }

  lemma NoCommentAfter(s: string, n: nat)
    requires n <= |s|
    ensures HasComment(s[n..]) ==> HasComment(s)
    ensures IsUnquoted(s) ==> IsUnquoted(s[n..])
  {
    if HasComment(s[n..]) {
      var i :| 0 <= i < |s[n..]| - 1 && s[n..][i] == '-' && s[n..][i + 1] == '-';
      assert s[n + i] == '-' && s[n + i + 1] == '-';
    }
  }

  lemma ScanShortens(s: string)
    requires s != "" && ScanToken(s).Some?
    ensures exists n: nat :: n <= |s| && ScanToken(s).value.1 == s[n..]
  {
    var c := s[0];
    if c in "\"'" { StringRest(s[1..], c, s, 1); }
    if IsDigit(c) { assert ScanToken(s).value.1 == s[NumberLength(s)..]; }
    if IsNameStart(c) { assert ScanToken(s).value.1 == s[WordLength(s)..]; }
    if !(c in "\"'") && !IsDigit(c) && !IsNameStart(c) { SymbolRest(s); }
  }

  lemma SymbolRest(s: string)
    requires s != "" && ScanToken(s).Some? && ScanToken(s).value.0.Symbol?
    ensures var n := |ScanToken(s).value.0.text|;
      0 < n <= |s| && ScanToken(s).value.0.text == s[..n] && ScanToken(s).value.1 == s[n..]
  {
  }

  lemma {:induction false} StringRest(t: string, quote: char, s: string, k: nat)
    requires k <= |s| && t == s[k..] && ScanString(t, quote).Some?
    ensures exists n: nat :: n <= |s| && ScanString(t, quote).value.1 == s[n..]
    decreases |t|
  {
    if t[0] == quote {
      assert t[1..] == s[k + 1..];
    } else if t[0] == '\\' {
      assert t[2..] == s[k + 2..];
      StringRest(t[2..], quote, s, k + 2);
    } else {
      assert t[1..] == s[k + 1..];
      StringRest(t[1..], quote, s, k + 1);
    }
  }

  lemma OneTokenThen(s: string, sep: char, rest: string, t: Token, r: string)
    requires s != "" && !IsBlank(s[0]) && IsBlank(sep) && !(|s| > 1 && s[0] == '-' && s[1] == '-')
    requires ScanToken(s) == Some((t, r)) && Lex(r + ([sep] + rest)) == LexThen(r, rest)
    ensures Lex(s + ([sep] + rest)) == LexThen(s, rest)
  {
    TokenStops(s, sep, rest);
    if Lex(r).Some? { PrependTwice([t], Lex(r).value, Lex(rest)); }
  }

  /** After any text that can be read, a newline ends what was read; after one without comments any blank
      does, and if the text has no quotes either, it can be read exactly when it can be read alone. */
  lemma {:induction false} LexPieces(s: string, sep: char, rest: string)
    requires IsBlank(sep) && (sep == '\n' || !HasComment(s)) && (Lex(s).Some? || (IsUnquoted(s) && !HasComment(s)))
    ensures Lex(s + ([sep] + rest)) == LexThen(s, rest)
    decreases |s|
  {
    var tail := [sep] + rest;
    if s == "" {
      assert s + tail == tail;
      LexBlank(sep, rest);
    } else if IsBlank(s[0]) {
      NoCommentAfter(s, 1);
      LexPieces(s[1..], sep, rest);
      CutHead(s, tail, 1);
    } else if |s| > 1 && s[0] == '-' && s[1] == '-' {
      assert "\n" == ['\n'];
      LineStops(s[2..], rest);
      CutHead(s, tail, 2);
      LexPieces(SkipLine(s[2..]), sep, rest);
    } else {
      TokenStops(s, sep, rest);
      if ScanToken(s).Some? {
        var t, r := ScanToken(s).value.0, ScanToken(s).value.1;
        ScanShortens(s);
        var n: nat :| n <= |s| && r == s[n..];
        NoCommentAfter(s, n);
        LexPieces(r, sep, rest);
        OneTokenThen(s, sep, rest, t, r);
      }
    }
  }

  // ----- Keys printed bare -----

  /** Not a character that ends a field, a table or a call, or begins a string, a table or a value. */
  predicate IsKeyChar(c: char) { c !in "\"'[]{}(),;=" }

  /** A key without such characters, without a comment and without blanks at its ends. */
  predicate IsPlainKey(k: string) {
    && (forall c :: c in k ==> IsKeyChar(c)) && !HasComment(k)
    && (k == "" || (!IsBlank(k[0]) && !IsBlank(k[|k| - 1])))
  }

  predicate IsInner(t: Token) { !t.StrTok? && (t.Symbol? ==> forall c :: c in t.text ==> IsKeyChar(c)) }

  predicate AllInner(ts: seq<Token>) { forall t :: t in ts ==> IsInner(t) }

  lemma ScansInner(s: string)
    requires s != "" && (forall c :: c in s ==> IsKeyChar(c)) && ScanToken(s).Some?
    ensures IsInner(ScanToken(s).value.0) && (forall c :: c in ScanToken(s).value.1 ==> c in s)
  {
    assert s[0] in s && IsKeyChar(s[0]);
    ScanShortens(s);
  }

  lemma {:induction false} KeyIsInner(s: string)
    requires (forall c :: c in s ==> IsKeyChar(c)) && !HasComment(s) && Lex(s).Some?
    ensures AllInner(Lex(s).value)
    decreases |s|
  {
    if s != "" {
      if IsBlank(s[0]) {
        NoCommentAfter(s, 1);
        KeyIsInner(s[1..]);
      } else {
        ScansInner(s);
        ScanShortens(s);
        var n: nat :| n <= |s| && ScanToken(s).value.1 == s[n..];
        NoCommentAfter(s, n);
        KeyIsInner(s[n..]);
      }
    }
  }

  lemma {:induction false} NothingRead(s: string)
    requires Lex(s) == Some([]) && !HasComment(s) && (s == "" || !IsBlank(s[|s| - 1]))
    ensures s == ""
  {
    if s != "" && IsBlank(s[0]) {
      NoCommentAfter(s, 1);
      NothingRead(s[1..]);
    }
  }

  lemma {:induction false} WordIsName(s: string)
    ensures forall i :: 0 <= i < WordLength(s) ==> IsNameChar(s[i])
  {
    if s != "" && IsNameChar(s[0]) { WordIsName(s[1..]); }
  }

  lemma FirstIsName(s: string, n: string)
    requires s != "" && !IsBlank(s[0]) && !(|s| > 1 && s[0] == '-' && s[1] == '-') && Lex(s) == Some([Name(n)])
    ensures IsNameStart(s[0]) && Lex(s[WordLength(s)..]) == Some([])
  {
    var t, rest := ScanToken(s).value.0, Lex(ScanToken(s).value.1).value;
    OnlyOne(t, rest, Name(n));
    NameFirst(s);
  }

  lemma OnlyOne(t: Token, rest: seq<Token>, n: Token)
    requires [t] + rest == [n]
    ensures t == n && rest == []
  {
    assert ([t] + rest)[0] == t && |rest| == 0;
  }

  lemma NameFirst(s: string)
    requires s != "" && ScanToken(s).Some? && ScanToken(s).value.0.Name?
    ensures IsNameStart(s[0]) && ScanToken(s).value.1 == s[WordLength(s)..]
  {
  }

  /** A plain key that is read as one name is that name. */
  lemma KeyIsName(k: string, n: string)
    requires IsPlainKey(k) && Lex(k) == Some([Name(n)])
    ensures IsIdent(k)
  {
    assert k != "" && !(|k| > 1 && k[0] == '-' && k[1] == '-');
    FirstIsName(k, n);
    var w := WordLength(k);
    var r := k[w..];
    NoCommentAfter(k, w);
    assert r != "" ==> r[|r| - 1] == k[|k| - 1];
    NothingRead(r);
    WordIsName(k);
  }

  // ----- No table is read past such a key -----

  predicate Stuck(ts: seq<Token>) { ts != [] && (IsInner(ts[0]) || ts[0] == Symbol("=")) }

  lemma {:induction false} ExprStuck(ts: seq<Token>, rest: seq<Token>)
    requires AllInner(ts) && rest != [] && rest[0] == Symbol("=")
    ensures var r := ParseExpr(ts + rest); r.Some? ==> Stuck(r.value.1)
  {
    if ts == [] {
      assert ts + rest == rest;
    } else {
      var more := ts[1..] + rest;
      InnerFirst(ts);
      HeadAndTail(ts);
      Assoc([ts[0]], ts[1..], rest);
      ExprStuck(ts[1..], rest);
      AtomStuck(ts[0], more);
    }
  }

  lemma AtomStuck(t: Token, more: seq<Token>)
    requires IsInner(t) && Stuck(more) && (ParseExpr(more).Some? ==> Stuck(ParseExpr(more).value.1))
    ensures var r := ParseExpr([t] + more); r.Some? ==> Stuck(r.value.1)
  {
    NotInner();
    assert ([t] + more)[1..] == more;
  }

  lemma InnerFirst(ts: seq<Token>)
    requires ts != [] && AllInner(ts)
    ensures IsInner(ts[0]) && AllInner(ts[1..]) && (|ts| > 1 ==> IsInner(ts[1]))
  {
    assert ts[0] in ts && (|ts| > 1 ==> ts[1] in ts);
  }

  /** Inner tokens before an equals sign are no field, unless they are one name. */
  lemma FieldsStuck(ts: seq<Token>, rest: seq<Token>)
    requires AllInner(ts) && rest != [] && rest[0] == Symbol("=") && !(|ts| == 1 && ts[0].Name?)
    ensures ParseFields(ts + rest) == None
  {
    ExprStuck(ts, rest);
    if ts == [] {
      assert ts + rest == rest;
    } else {
      InnerFirst(ts);
    }
    FieldStuck(ts + rest);
  }

  lemma NotClosing(t: Token)
    requires IsInner(t) || t == Symbol("=")
    ensures t != Symbol("}") && t != Symbol(",") && t != Symbol(";") && t != Symbol("[")
  {
    NotInner();
  }

  lemma FieldStuck(all: seq<Token>)
    requires Stuck(all) && (ParseExpr(all).Some? ==> Stuck(ParseExpr(all).value.1))
    requires all[0].Name? ==> |all| > 1 && IsInner(all[1])
    ensures ParseFields(all) == None
  {
    NotClosing(all[0]);
    if all[0].Name? { NotEquals(all[1]); }
    PositionalOnly(all);
    if ParseExpr(all).Some? { NotClosing(ParseExpr(all).value.1[0]); }
  }

  lemma NotEquals(t: Token)
    requires IsInner(t)
    ensures t != Symbol("=")
  {
    NotInner();
  }

  lemma PositionalOnly(all: seq<Token>)
    requires all != [] && all[0] != Symbol("[") && (all[0].Name? ==> |all| > 1 && all[1] != Symbol("="))
    ensures ParseField(all) ==
      var r := ParseExpr(all); if r.None? then None else Some((Positional(r.value.0), r.value.1))
  {
  }

  lemma NotInner()
    ensures !IsInner(Symbol("=")) && !IsInner(Symbol("}")) && !IsInner(Symbol("[")) && !IsInner(Symbol(",")) && !IsInner(Symbol(";"))
    ensures !IsInner(Symbol("{"))
  {
    assert !IsKeyChar('=') && !IsKeyChar('}') && !IsKeyChar('[') && !IsKeyChar(',') && !IsKeyChar(';') && !IsKeyChar('{');
    assert '=' in "=" && '}' in "}" && '[' in "[" && ',' in "," && ';' in ";" && '{' in "{";
  }

  /** The text has no tokens, or tokens no table goes on with. */
  predicate NoTable(text: string) { Lex(text).Some? ==> ParseFields(Lex(text).value) == None }

  lemma PlainIsUnquoted(k: string)
    requires IsPlainKey(k)
    ensures IsUnquoted(k)
  {
    assert forall c :: IsKeyChar(c) ==> c !in "\"'[";
  }

  /** A plain key that is no identifier, printed bare before an equals sign. */
  lemma BadKey(k: string, value: string)
    requires IsPlainKey(k) && !IsIdent(k)
    ensures NoTable(k + (" = " + value))
  {
    PlainIsUnquoted(k);
    LexPieces(k, ' ', "= " + value);
    assert k + (" = " + value) == k + ([' '] + ("= " + value));
    EqualsFirst(value);
    if Lex(k).Some? && Lex("= " + value).Some? { KeyThenEquals(k, Lex(k).value, Lex("= " + value).value); }
  }

  lemma EqualsFirst(value: string)
    ensures Lex("= " + value).Some? ==> Lex("= " + value).value != [] && Lex("= " + value).value[0] == Symbol("=")
  {
    LexPrefixSymbol('=', " " + value);
    assert ['='] + (" " + value) == "= " + value;
  }

  lemma KeyThenEquals(k: string, ts: seq<Token>, rest: seq<Token>)
    requires IsPlainKey(k) && !IsIdent(k) && Lex(k) == Some(ts) && rest != [] && rest[0] == Symbol("=")
    ensures ParseFields(ts + rest) == None
  {
    KeyIsInner(k);
    if |ts| == 1 && ts[0].Name? {
      assert ts == [Name(ts[0].name)];
      KeyIsName(k, ts[0].name);
    }
    FieldsStuck(ts, rest);
  }

  // ----- Entries with such keys -----

  function BareText(e: Entry): (r: string)
    requires e.Pair?
  {
    e.key + (" = " + LitText(e.value))
  }

  predicate AllPairs(es: seq<Entry>) { forall i :: 0 <= i < |es| ==> es[i].Pair? }

  function BareTexts(es: seq<Entry>): (texts: seq<string>)
    requires AllPairs(es)
    ensures |texts| == |es|
  {
    if es == [] then [] else [BareText(es[0])] + BareTexts(es[1..])
  }

  predicate PlainEntries(es: seq<Entry>) {
    forall i :: 0 <= i < |es| ==> es[i].Pair? && IsPlainKey(es[i].key) && WellLaid(es[i].value)
  }

  predicate BareEntries(es: seq<Entry>) { forall i :: 0 <= i < |es| ==> es[i].Pair? && IsIdent(es[i].key) }

  /** One entry with an identifier for a key, and then text in which no table goes on. */
  lemma EntryThenNone(e: Entry, blank: char, tail: string)
    requires e.Pair? && IsIdent(e.key) && WellLaid(e.value) && IsBlank(blank) && NoTable(tail)
    ensures NoTable(BareText(e) + ([',', blank] + tail))
  {
    LexEntry(e, " = ", [',', blank] + tail);
    LexCommaBlank(blank, tail);
    if Lex(tail).Some? {
      var more := Lex(tail).value;
      var ts := EntryTokens(e) + ([Symbol(",")] + more);
      EntryStarts(e);
      ParseEntry(e, [Symbol(",")] + more);
      if EntryReadable(e) { FieldThenMore(ts, EntryField(e), more); } else { NoField(ts); }
    }
  }

  lemma {:induction false} BadJoin(es: seq<Entry>, rest: string)
    requires PlainEntries(es) && AllPairs(es) && !BareEntries(es)
    ensures NoTable(Join(BareTexts(es), ", ") + rest)
  {
    var e, texts := es[0], BareTexts(es[1..]);
    var tail := Join(texts, ", ") + rest;
    assert BareTexts(es)[1..] == texts;
    if |es| == 1 {
      assert Join(BareTexts(es), ", ") == BareText(e);
      Assoc(e.key, " = " + LitText(e.value), rest);
      Assoc(" = ", LitText(e.value), rest);
      BadKey(e.key, LitText(e.value) + rest);
    } else {
      assert Join(BareTexts(es), ", ") + rest == BareText(e) + ([',', ' '] + tail);
      if IsIdent(e.key) {
        BadJoin(es[1..], rest);
        EntryThenNone(e, ' ', tail);
      } else {
        BadFirst(e, [',', ' '] + tail);
      }
    }
  }

  lemma BadFirst(e: Entry, rest: string)
    requires e.Pair? && IsPlainKey(e.key) && !IsIdent(e.key)
    ensures NoTable(BareText(e) + rest)
  {
    Assoc(e.key, " = " + LitText(e.value), rest);
    Assoc(" = ", LitText(e.value), rest);
    BadKey(e.key, LitText(e.value) + rest);
  }

  /** Options one to a line, each with its comma. */
  function OptionLines(texts: seq<string>, indent: string): (r: string) {
    if texts == [] then indent else (indent + "  ") + (texts[0] + (",\n" + OptionLines(texts[1..], indent)))
  }

  lemma LineThen(e: Entry, es: seq<Entry>, indent: string, rest: string)
    requires e.Pair? && AllPairs(es)
    ensures OptionLines([BareText(e)] + BareTexts(es), indent) + rest ==
      (indent + "  ") + (BareText(e) + ([',', '\n'] + (OptionLines(BareTexts(es), indent) + rest)))
  {
    var text, lines := BareText(e), OptionLines(BareTexts(es), indent);
    assert ([text] + BareTexts(es))[1..] == BareTexts(es);
    LineSpelled(indent + "  ", text, lines, rest);
  }

  lemma LineSpelled(pad: string, text: string, lines: string, rest: string)
    ensures pad + (text + (",\n" + lines)) + rest == pad + (text + ([',', '\n'] + (lines + rest)))
  {
  }

  lemma {:induction false} BadLines(es: seq<Entry>, indent: string, rest: string)
    requires PlainEntries(es) && AllPairs(es) && !BareEntries(es) && IsBlanks(indent)
    ensures NoTable(OptionLines(BareTexts(es), indent) + rest)
  {
    var e, tail := es[0], OptionLines(BareTexts(es[1..]), indent) + rest;
    LineThen(e, es[1..], indent, rest);
    LexBlanks(indent + "  ", BareText(e) + ([',', '\n'] + tail));
    if IsIdent(e.key) {
      BadLines(es[1..], indent, rest);
      EntryThenNone(e, '\n', tail);
    } else {
      BadFirst(e, [',', '\n'] + tail);
    }
  }
}
