/** Lua table constructors (section 2.5.7 of the Lua 5.1 Reference Manual) over the scanner's
    tokens, as gopher-lua's grammar builds them: the expressions a literal can hold and the two
    kinds of table field. Operators and function bodies are outside this subset and parse to None. */
module LuaParser {
  import opened Text
  import opened LuaLexer

  datatype Expr =
    | StringE(value: string)
    | NumberE(text: string)
    | TrueE
    | FalseE
    | NilE
    | IdentE(name: string)
    | NegE(operand: Expr)
    | TableE(fields: seq<Field>)

  datatype Field = Positional(value: Expr) | Keyed(key: Expr, value: Expr)

  function ParseExpr(ts: seq<Token>): (r: Option<(Expr, seq<Token>)>)
    ensures r.Some? ==> |r.value.1| < |ts|
    decreases |ts|, 0
  {
    if ts == [] then None
    else
      match ts[0]
      case StrTok(v) => Some((StringE(v), ts[1..]))
      case NumTok(t) => Some((NumberE(t), ts[1..]))
      case Name(n) => Some((IdentE(n), ts[1..]))
      case Keyword(w) =>
        if w == "nil" then Some((NilE, ts[1..]))
        else if w == "true" then Some((TrueE, ts[1..]))
        else if w == "false" then Some((FalseE, ts[1..]))
        else None
      case Symbol(s) =>
        if s == "-" then
          var r := ParseExpr(ts[1..]);
          if r.None? then None else Some((NegE(r.value.0), r.value.1))
        else if s == "{" then
          var r := ParseFields(ts[1..]);
          if r.None? then None else Some((TableE(r.value.0), r.value.1))
        else None
  }

  function ParseField(ts: seq<Token>): (r: Option<(Field, seq<Token>)>)
    ensures r.Some? ==> |r.value.1| < |ts|
    decreases |ts|, 1
  {
    if |ts| >= 2 && ts[0].Name? && ts[1] == Symbol("=") then
      var r := ParseExpr(ts[2..]);
      if r.None? then None else Some((Keyed(StringE(ts[0].name), r.value.0), r.value.1))
    else if ts != [] && ts[0] == Symbol("[") then
      var k := ParseExpr(ts[1..]);
      if k.None? || |k.value.1| < 2 || k.value.1[0] != Symbol("]") || k.value.1[1] != Symbol("=") then None
      else
        var r := ParseExpr(k.value.1[2..]);
        if r.None? then None else Some((Keyed(k.value.0, r.value.0), r.value.1))
    else
      var r := ParseExpr(ts);
      if r.None? then None else Some((Positional(r.value.0), r.value.1))
  }

  /** The fields after an opening brace, through the closing one; a separator may be trailing. */
  function ParseFields(ts: seq<Token>): (r: Option<(seq<Field>, seq<Token>)>)
    ensures r.Some? ==> |r.value.1| < |ts|
    decreases |ts|, 2
  {
    if ts == [] then None
    else if ts[0] == Symbol("}") then Some(([], ts[1..]))
    else
      var f := ParseField(ts);
      if f.None? || f.value.1 == [] then None
      else
        var rest := f.value.1;
        if rest[0] == Symbol("}") then Some(([f.value.0], rest[1..]))
        else if rest[0] == Symbol(",") || rest[0] == Symbol(";") then
          var more := ParseFields(rest[1..]);
          if more.None? then None else Some(([f.value.0] + more.value.0, more.value.1))
        else None
  }

  /** A call statement `a.b.c(expr, ...)`: its dotted path and its arguments. */
  datatype Call = Call(path: seq<string>, args: seq<Expr>)

  function ParsePath(ts: seq<Token>): (r: Option<(seq<string>, seq<Token>)>)
    ensures r.Some? ==> |r.value.1| < |ts|
  {
    if ts == [] || !ts[0].Name? then None
    else if |ts| >= 2 && ts[1] == Symbol(".") then
      var r := ParsePath(ts[2..]);
      if r.None? then None else Some(([ts[0].name] + r.value.0, r.value.1))
    else Some(([ts[0].name], ts[1..]))
  }
}
