/** Call statements `a.b.c(arg, ...)` with literal arguments: their text and its tokens. */
module LuaCall {
  import opened Text
  import opened LuaLexer
  import opened LuaParser
  import opened LuaText

  function ArgTexts(args: seq<Lit>): (texts: seq<string>)
    ensures |texts| == |args|
  {
    if args == [] then [] else [LitText(args[0])] + ArgTexts(args[1..])
  }

  function CallText(indent: string, path: seq<string>, args: seq<Lit>): (r: string) {
    indent + (Join(path, ".") + ("(" + (Join(ArgTexts(args), ", ") + ")\n\n")))
  }

  predicate IsPath(path: seq<string>) {
    path != [] && forall w :: w in path ==> IsIdent(w) && !IsReserved(w)
  }

  predicate ArgsWellLaid(args: seq<Lit>) {
    args == [] || (WellLaid(args[0]) && ArgsWellLaid(args[1..]))
  }

  predicate ArgsReadable(args: seq<Lit>) {
    args == [] || (Readable(args[0]) && ArgsReadable(args[1..]))
  }

  function Asts(args: seq<Lit>): (es: seq<Expr>)
    ensures |es| == |args|
  {
    if args == [] then [] else [Ast(args[0])] + Asts(args[1..])
  }

  function PathTokens(path: seq<string>): (r: seq<Token>) {
    if path == [] then []
    else if |path| == 1 then [Name(path[0])]
    else [Name(path[0]), Symbol(".")] + PathTokens(path[1..])
  }

  function ArgTokens(args: seq<Lit>): (r: seq<Token>) {
    if args == [] then []
    else if |args| == 1 then Tokens(args[0])
    else Tokens(args[0]) + ([Symbol(",")] + ArgTokens(args[1..]))
  }

  lemma LexWordDot(w: string, tail: string, ts: seq<Token>, rest: string)
    requires IsIdent(w) && !IsReserved(w)
    requires tail != [] && IsNameStart(tail[0])
    requires Lex(tail) == Prepend(ts, Lex(rest))
    ensures Lex(w + (['.'] + tail)) == Prepend([Name(w), Symbol(".")] + ts, Lex(rest))
  {
    LexWord(w, ['.'] + tail);
    LexPrefixSymbol('.', tail);
    PrependTwice([Symbol(".")], ts, Lex(rest));
    PrependTwice([Name(w)], [Symbol(".")] + ts, Lex(rest));
    TwoBefore(Name(w), Symbol("."), ts);
  }

  lemma TwoBefore(a: Token, b: Token, ts: seq<Token>)
    ensures [a] + ([b] + ts) == [a, b] + ts
  {
  }

  lemma JoinPath(path: seq<string>, rest: string)
    requires |path| > 1
    ensures Join(path, ".") + rest == path[0] + (['.'] + (Join(path[1..], ".") + rest))
  {
    Regroup(path[0], ".", Join(path[1..], "."), rest);
    assert "." == ['.'];
  }

  lemma {:induction false} LexPath(path: seq<string>, rest: string)
    requires IsPath(path) && EndsWord(rest)
    ensures Lex(Join(path, ".") + rest) == Prepend(PathTokens(path), Lex(rest))
  {
    var w := path[0];
    if |path| == 1 {
      LexWord(w, rest);
    } else {
      var more := path[1..];
      var joined := Join(more, ".");
      assert IsPath(more);
      JoinStarts(more);
      LexPath(more, rest);
      LexWordDot(w, joined + rest, PathTokens(more), rest);
      JoinPath(path, rest);
    }
  }

  lemma JoinStarts(path: seq<string>)
    requires path != [] && IsIdent(path[0])
    ensures Join(path, ".") != [] && Join(path, ".")[0] == path[0][0] && IsNameStart(Join(path, ".")[0])
  {
  }

  lemma {:induction false} LexArgs(args: seq<Lit>, rest: string)
    requires ArgsWellLaid(args) && EndsNumber(rest)
    ensures Lex(Join(ArgTexts(args), ", ") + rest) == Prepend(ArgTokens(args), Lex(rest))
  {
    if args == [] {
      assert Join(ArgTexts(args), ", ") + rest == rest;
    } else if |args| == 1 {
      LexLit(args[0], rest);
      assert Join(ArgTexts(args), ", ") == LitText(args[0]);
    } else {
      var tail := Join(ArgTexts(args[1..]), ", ") + rest;
      assert ArgTexts(args)[1..] == ArgTexts(args[1..]);
      assert Join(ArgTexts(args), ", ") + rest == LitText(args[0]) + ([',', ' '] + tail);
      LexLit(args[0], [',', ' '] + tail);
      LexArgs(args[1..], rest);
      LexThenComma(LitText(args[0]), ' ', Tokens(args[0]), tail, ArgTokens(args[1..]), rest);
    }
  }

  lemma PathEnds(w: string, rest: seq<Token>)
    requires rest != [] && rest[0] != Symbol(".")
    ensures ParsePath([Name(w)] + rest) == Some(([w], rest))
  {
    assert ([Name(w)] + rest)[1..] == rest;
  }

  lemma PathGoesOn(w: string, more: seq<Token>)
    ensures ParsePath([Name(w), Symbol(".")] + more) ==
      var r := ParsePath(more); if r.None? then None else Some(([w] + r.value.0, r.value.1))
  {
    assert ([Name(w), Symbol(".")] + more)[2..] == more;
  }

  lemma {:induction false} ParsePathTokens(path: seq<string>, rest: seq<Token>)
    requires path != [] && rest != [] && rest[0] != Symbol(".")
    ensures ParsePath(PathTokens(path) + rest) == Some((path, rest))
  {
    if |path| == 1 {
      PathEnds(path[0], rest);
      assert path == [path[0]];
    } else {
      ParsePathTokens(path[1..], rest);
      PathGoesOn(path[0], PathTokens(path[1..]) + rest);
      Assoc([Name(path[0]), Symbol(".")], PathTokens(path[1..]), rest);
      assert path == [path[0]] + path[1..];
    }
  }
}
