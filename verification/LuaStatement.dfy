/** Scripts of call statements, the last argument of a call perhaps a function (the statements of
    internal/builder/lua_export.go), read as far as the importer looks: paths and arguments, a function's
    body passed over. */
module LuaStatement {
  import opened Text
  import opened LuaLexer
  import opened LuaParser
  import opened LuaText
  import opened LuaCall
  import opened LuaKeys

  /** A call statement, without the function that may be its last argument. */
  datatype Said = Said(call: Call, handler: bool)

  // ----- Parsing -----

  predicate OpensBlock(t: Token) { t == Keyword("function") || t == Keyword("do") || t == Keyword("if") }

  /** Past the end that closes a body in which so many blocks are open. */
  function SkipBody(ts: seq<Token>, depth: nat): (r: Option<seq<Token>>)
    ensures r.Some? ==> |r.value| < |ts|
  {
    if ts == [] then None
    else if ts[0] == Keyword("end") then if depth == 0 then Some(ts[1..]) else SkipBody(ts[1..], depth - 1)
    else SkipBody(ts[1..], if OpensBlock(ts[0]) then depth + 1 else depth)
  }

  function SkipParams(ts: seq<Token>): (r: Option<seq<Token>>)
    ensures r.Some? ==> |r.value| < |ts|
  {
    if ts == [] then None
    else if ts[0] == Symbol(")") then Some(ts[1..])
    else if ts[0].Name? || ts[0] == Symbol(",") then SkipParams(ts[1..])
    else None
  }

  /** Past a function, its keyword first. */
  function SkipFunction(ts: seq<Token>): (r: Option<seq<Token>>)
    ensures r.Some? ==> |r.value| < |ts|
  {
    if |ts| < 2 || ts[0] != Keyword("function") || ts[1] != Symbol("(") then None
    else
      var params := SkipParams(ts[2..]);
      if params.None? then None else SkipBody(params.value, 0)
  }

  datatype Arguments = Arguments(args: seq<Expr>, handler: bool, rest: seq<Token>)

  /** Arguments through the closing parenthesis, the last perhaps a function. */
  function ParseTail(ts: seq<Token>): (r: Option<Arguments>)
    ensures r.Some? ==> |r.value.rest| < |ts|
    decreases |ts|
  {
    if ts != [] && ts[0] == Keyword("function") then
      var f := SkipFunction(ts);
      if f.None? || f.value == [] || f.value[0] != Symbol(")") then None else Some(Arguments([], true, f.value[1..]))
    else
      var e := ParseExpr(ts);
      if e.None? || e.value.1 == [] then None
      else
        var rest := e.value.1;
        if rest[0] == Symbol(")") then Some(Arguments([e.value.0], false, rest[1..]))
        else if rest[0] == Symbol(",") then AndArgument(e.value.0, ParseTail(rest[1..]))
        else None
  }

  function AndArgument(e: Expr, r: Option<Arguments>): (more: Option<Arguments>) {
    if r.None? then None else Some(r.value.(args := [e] + r.value.args))
  }

  function ParseStatement(ts: seq<Token>): (r: Option<(Said, seq<Token>)>)
    ensures r.Some? ==> |r.value.1| < |ts|
  {
    var p := ParsePath(ts);
    if p.None? || p.value.1 == [] || p.value.1[0] != Symbol("(") then None
    else
      var a := ParseTail(p.value.1[1..]);
      if a.None? then None else Some((Said(Call(p.value.0, a.value.args), a.value.handler), a.value.rest))
  }

  function ParseScript(ts: seq<Token>): (r: Option<seq<Said>>)
    decreases |ts|
  {
    if ts == [] then Some([])
    else
      var first := ParseStatement(ts);
      if first.None? then None else Before([first.value.0], ParseScript(first.value.1))
  }

  function Before(ss: seq<Said>, r: Option<seq<Said>>): (all: Option<seq<Said>>) {
    if r.None? then None else Some(ss + r.value)
  }

  lemma BeforeTwice(a: seq<Said>, b: seq<Said>, r: Option<seq<Said>>)
    ensures Before(a, Before(b, r)) == Before(a + b, r)
  {
    if r.Some? { Assoc(a, b, r.value); }
  }

  /** Reading a script. */
  function ReadScript(text: string): (r: Option<seq<Said>>) {
    var ts := Lex(text);
    if ts.None? then None else ParseScript(ts.value)
  }

  // ----- More tokens after what was parsed -----

  lemma {:induction false} ExprMore(ts: seq<Token>, x: seq<Token>)
    requires ParseExpr(ts).Some?
    ensures ParseExpr(ts + x) == Some((ParseExpr(ts).value.0, ParseExpr(ts).value.1 + x))
    decreases |ts|, 0
  {
    CutHead(ts, x, 1);
    if ts[0] == Symbol("-") { ExprMore(ts[1..], x); }
    if ts[0] == Symbol("{") { FieldsMore(ts[1..], x); }
  }

  lemma {:induction false} FieldMore(ts: seq<Token>, x: seq<Token>)
    requires ParseField(ts).Some? && ParseField(ts).value.1 != []
    ensures ParseField(ts + x) == Some((ParseField(ts).value.0, ParseField(ts).value.1 + x))
    decreases |ts|, 1
  {
    if |ts| >= 2 && ts[0].Name? && ts[1] == Symbol("=") {
      CutHead(ts, x, 2);
      ExprMore(ts[2..], x);
    } else if ts[0] == Symbol("[") {
      CutHead(ts, x, 1);
      ExprMore(ts[1..], x);
      var k := ParseExpr(ts[1..]).value.1;
      CutHead(k, x, 2);
      ExprMore(k[2..], x);
    } else {
      ExprMore(ts, x);
    }
  }

  lemma {:induction false} FieldsMore(ts: seq<Token>, x: seq<Token>)
    requires ParseFields(ts).Some?
    ensures ParseFields(ts + x) == Some((ParseFields(ts).value.0, ParseFields(ts).value.1 + x))
    decreases |ts|, 2
  {
    CutHead(ts, x, 1);
    if ts[0] != Symbol("}") {
      FieldMore(ts, x);
      var rest := ParseField(ts).value.1;
      CutHead(rest, x, 1);
      if rest[0] != Symbol("}") { FieldsMore(rest[1..], x); }
    }
  }

  lemma {:induction false} PathMore(ts: seq<Token>, x: seq<Token>)
    requires ParsePath(ts).Some? && ParsePath(ts).value.1 != []
    ensures ParsePath(ts + x) == Some((ParsePath(ts).value.0, ParsePath(ts).value.1 + x))
  {
    CutHead(ts, x, 1);
    if |ts| >= 2 && ts[1] == Symbol(".") {
      CutHead(ts, x, 2);
      PathMore(ts[2..], x);
    }
  }

  lemma {:induction false} BodyMore(ts: seq<Token>, depth: nat, x: seq<Token>)
    requires SkipBody(ts, depth).Some?
    ensures SkipBody(ts + x, depth) == Some(SkipBody(ts, depth).value + x)
  {
    CutHead(ts, x, 1);
    if ts[0] == Keyword("end") {
      if depth > 0 { BodyMore(ts[1..], depth - 1, x); }
    } else {
      BodyMore(ts[1..], if OpensBlock(ts[0]) then depth + 1 else depth, x);
    }
  }

  lemma {:induction false} ParamsMore(ts: seq<Token>, x: seq<Token>)
    requires SkipParams(ts).Some?
    ensures SkipParams(ts + x) == Some(SkipParams(ts).value + x)
  {
    CutHead(ts, x, 1);
    if ts[0] != Symbol(")") { ParamsMore(ts[1..], x); }
  }

  lemma FunctionMore(ts: seq<Token>, x: seq<Token>)
    requires SkipFunction(ts).Some?
    ensures SkipFunction(ts + x) == Some(SkipFunction(ts).value + x)
  {
    CutHead(ts, x, 2);
    ParamsMore(ts[2..], x);
    BodyMore(SkipParams(ts[2..]).value, 0, x);
  }

  lemma {:induction false} TailMore(ts: seq<Token>, x: seq<Token>)
    requires ParseTail(ts).Some?
    ensures ParseTail(ts + x) == Some(ParseTail(ts).value.(rest := ParseTail(ts).value.rest + x))
    decreases |ts|
  {
    if ts[0] == Keyword("function") {
      FunctionMore(ts, x);
      CutHead(SkipFunction(ts).value, x, 1);
    } else {
      ExprMore(ts, x);
      var rest := ParseExpr(ts).value.1;
      CutHead(rest, x, 1);
      if rest[0] == Symbol(",") { TailMore(rest[1..], x); }
    }
  }

  lemma StatementMore(ts: seq<Token>, x: seq<Token>)
    requires ParseStatement(ts).Some?
    ensures ParseStatement(ts + x) == Some((ParseStatement(ts).value.0, ParseStatement(ts).value.1 + x))
  {
    PathMore(ts, x);
    var rest := ParsePath(ts).value.1;
    CutHead(rest, x, 1);
    TailMore(rest[1..], x);
  }

  lemma {:induction false} ScriptMore(ts: seq<Token>, x: seq<Token>)
    requires ParseScript(ts).Some?
    ensures ParseScript(ts + x) == Before(ParseScript(ts).value, ParseScript(x))
    decreases |ts|
  {
    if ts == [] {
      assert ts + x == x;
      if ParseScript(x).Some? { assert [] + ParseScript(x).value == ParseScript(x).value; }
    } else {
      StatementMore(ts, x);
      var first := ParseStatement(ts).value;
      ScriptMore(first.1, x);
      BeforeTwice([first.0], ParseScript(first.1).value, ParseScript(x));
    }
  }

  /** Scripts, one after another on new lines, are read as their statements, one after another. */
  lemma ScriptThen(text: string, rest: string)
    requires ReadScript(text).Some?
    ensures ReadScript(text + ("\n" + rest)) == Before(ReadScript(text).value, ReadScript(rest))
  {
    LexPieces(text, '\n', rest);
    assert "\n" == ['\n'];
    if Lex(rest).Some? { ScriptMore(Lex(text).value, Lex(rest).value); }
  }

  // ----- The printed calls -----

  datatype Statement = Statement(path: seq<string>, args: seq<Lit>)

  predicate IsStatement(s: Statement) { IsPath(s.path) && s.args != [] && ArgsWellLaid(s.args) }

  function Spoken(s: Statement, handler: bool): (r: Said) { Said(Call(s.path, Asts(s.args)), handler) }

  lemma NoFunctionFirst(args: seq<Lit>, rest: seq<Token>)
    requires args != []
    ensures ArgTokens(args) != [] && (ArgTokens(args) + rest)[0] != Keyword("function")
  {
    TokensStart(args[0]);
    var l := args[0];
    if l.Truth? { assert Tokens(l)[0] == Keyword(if l.b then "true" else "false"); }
  }

  /** Arguments that are literals, before what closes or continues the list. */
  lemma {:induction false} TailOfArgs(args: seq<Lit>, next: seq<Token>)
    requires args != [] && next != [] && (next[0] == Symbol(")") || next[0] == Symbol(","))
    ensures ParseTail(ArgTokens(args) + next) ==
      if !ArgsReadable(args) then None
      else if next[0] == Symbol(")") then Some(Arguments(Asts(args), false, next[1..]))
      else AndArguments(Asts(args), ParseTail(next[1..]))
  {
    NoFunctionFirst(args, next);
    var l := args[0];
    if |args| == 1 {
      ParseTokens(l, next);
      assert args[1..] == [] && Asts(args) == [Ast(l)];
    } else {
      var more := ArgTokens(args[1..]) + next;
      Assoc(Tokens(l), [Symbol(",")] + ArgTokens(args[1..]), next);
      Assoc([Symbol(",")], ArgTokens(args[1..]), next);
      ParseTokens(l, [Symbol(",")] + more);
      TailOfArgs(args[1..], next);
      assert ([Symbol(",")] + more)[1..] == more;
      if next[0] == Symbol(",") { AndMore(Ast(l), Asts(args[1..]), ParseTail(next[1..])); }
    }
  }

  function AndArguments(es: seq<Expr>, r: Option<Arguments>): (more: Option<Arguments>) {
    if r.None? then None else Some(r.value.(args := es + r.value.args))
  }

  lemma AndMore(e: Expr, es: seq<Expr>, r: Option<Arguments>)
    ensures AndArgument(e, AndArguments(es, r)) == AndArguments([e] + es, r)
  {
    if r.Some? { Assoc([e], es, r.value.args); }
  }

  lemma PathThenTail(path: seq<string>, tail: seq<Token>)
    requires path != []
    ensures ParseStatement(PathTokens(path) + ([Symbol("(")] + tail)) ==
      var a := ParseTail(tail);
      if a.None? then None else Some((Said(Call(path, a.value.args), a.value.handler), a.value.rest))
  {
    ParsePathTokens(path, [Symbol("(")] + tail);
    assert ([Symbol("(")] + tail)[1..] == tail;
  }

  function OpenText(indent: string, path: seq<string>, inside: string): (r: string) {
    indent + (Join(path, ".") + ("(" + inside))
  }

  lemma OpenLexes(indent: string, path: seq<string>, inside: string)
    requires IsBlanks(indent) && IsPath(path)
    ensures Lex(OpenText(indent, path, inside)) == Prepend(PathTokens(path) + [Symbol("(")], Lex(inside))
  {
    LexSymbol('(', inside);
    assert ['('] + inside == "(" + inside;
    LexPath(path, "(" + inside);
    LexBlanks(indent, Join(path, ".") + ("(" + inside));
    PrependTwice(PathTokens(path), [Symbol("(")], Lex(inside));
  }

  /** How a statement goes on after its opening parenthesis. */
  function ReadRest(path: seq<string>, inside: string): (r: Option<seq<Said>>) {
    if Lex(inside).None? then None
    else
      var a := ParseTail(Lex(inside).value);
      if a.None? then None else Before([Said(Call(path, a.value.args), a.value.handler)], ParseScript(a.value.rest))
  }

  lemma OpenReads(indent: string, path: seq<string>, inside: string)
    requires IsBlanks(indent) && IsPath(path)
    ensures ReadScript(OpenText(indent, path, inside)) == ReadRest(path, inside)
  {
    OpenLexes(indent, path, inside);
    if Lex(inside).Some? {
      var ts := Lex(inside).value;
      Assoc(PathTokens(path), [Symbol("(")], ts);
      PathThenTail(path, ts);
    }
  }

  /** A printed call is read as that call before what follows it, or nothing is read if an argument is
      unreadable. */
  lemma StatementReads(indent: string, s: Statement, rest: string)
    requires IsBlanks(indent) && IsStatement(s)
    ensures ReadScript(OpenText(indent, s.path, Join(ArgTexts(s.args), ", ") + (")" + rest))) ==
      if ArgsReadable(s.args) then Before([Spoken(s, false)], ReadScript(rest)) else None
  {
    var inside := Join(ArgTexts(s.args), ", ") + (")" + rest);
    OpenReads(indent, s.path, inside);
    LexArgs(s.args, ")" + rest);
    LexSymbol(')', rest);
    assert [')'] + rest == ")" + rest;
    if Lex(rest).Some? {
      var close := [Symbol(")")] + Lex(rest).value;
      TailOfArgs(s.args, close);
      assert close[1..] == Lex(rest).value;
    }
  }

  lemma CallTextThen(indent: string, s: Statement, rest: string)
    ensures CallText(indent, s.path, s.args) + rest == OpenText(indent, s.path, Join(ArgTexts(s.args), ", ") + (")" + ("\n\n" + rest)))
  {
    var path, args := Join(s.path, "."), Join(ArgTexts(s.args), ", ");
    Assoc(indent, path + ("(" + (args + ")\n\n")), rest);
    Assoc(path, "(" + (args + ")\n\n"), rest);
    Assoc("(", args + ")\n\n", rest);
    Assoc(args, ")\n\n", rest);
    assert ")\n\n" == ")" + "\n\n";
    Assoc(")", "\n\n", rest);
  }

  lemma CallTextReads(indent: string, s: Statement, rest: string)
    requires IsBlanks(indent) && IsStatement(s)
    ensures ReadScript(CallText(indent, s.path, s.args) + rest) ==
      if ArgsReadable(s.args) then Before([Spoken(s, false)], ReadScript(rest)) else None
  {
    CallTextThen(indent, s, rest);
    StatementReads(indent, s, "\n\n" + rest);
    LexBlanks("\n\n", rest);
  }

  /** Reading one call statement of literals that is the whole text. */
  function ReadCall(text: string): (r: Option<Call>) {
    var ss := ReadScript(text);
    if ss.None? || |ss.value| != 1 || ss.value[0].handler then None else Some(ss.value[0].call)
  }

  /** A printed call reads back as that call, or not at all if an argument is unreadable. */
  lemma ReadCallText(indent: string, path: seq<string>, args: seq<Lit>)
    requires IsBlanks(indent) && IsPath(path) && args != [] && ArgsWellLaid(args)
    ensures ReadCall(CallText(indent, path, args)) ==
      if ArgsReadable(args) then Some(Call(path, Asts(args))) else None
  {
    var text := CallText(indent, path, args);
    assert text + "" == text;
    CallTextReads(indent, Statement(path, args), "");
    NothingMore(Spoken(Statement(path, args), false));
  }

  lemma NothingMore(s: Said)
    ensures Before([s], ReadScript("")) == Some([s])
  {
    assert [s] + [] == [s];
  }
}
