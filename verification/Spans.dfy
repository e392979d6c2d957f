/** The importer's line bookkeeping (internal/builder/lua_import.go): the deepest line of a call, the span
    of source lines given to it, and the text of a span. Lines are numbered from 1. */
module Spans {
  import opened Text

  // ----- The deepest line -----

  /** What the importer makes of a call of k.form.new, k.ctrl.*, k.form.show or k.form.on. A name that is no
      literal is empty; a handler of the form itself has the control "@form". */
  datatype Claim =
    | NoClaim
    | NewForm(form: string)
    | AddControl(form: string, name: string)
    | ShowForm(form: string)
    | OnEvent(form: string, ctrl: string, event: string)

  /** A statement, a bare call or another, or an expression, a call or another. */
  datatype Kind = CallStmt | OtherStmt | Call(claim: Claim) | OtherExpr

  /** A statement or expression, with the parts the walk goes into, in its order. A line not known is 0. */
  datatype Ast = Ast(kind: Kind, line: int, lastLine: int, parts: seq<Ast>)

  predicate OnLine(e: Ast, line: int)
    decreases e, 1
  {
    e.line == line || e.lastLine == line || AnyOnLine(e.parts, line)
  }

  predicate AnyOnLine(es: seq<Ast>, line: int)
    decreases es, 0
  {
    es != [] && (AnyOnLine(es[..|es| - 1], line) || OnLine(es[|es| - 1], line))
  }

  function Max(a: int, b: int): (r: int) { if a > b then a else b }

  /** The deepest line of a part, no less than mx. */
  function Deepest(e: Ast, mx: int): (r: int)
    decreases e, 1
  {
    DeepestOf(e.parts, Max(Max(mx, e.line), e.lastLine))
  }

  function DeepestOf(es: seq<Ast>, mx: int): (r: int)
    decreases es, 0
  {
    if es == [] then mx else Deepest(es[|es| - 1], DeepestOf(es[..|es| - 1], mx))
  }

  /** collectMaxExpr and collectMaxStmt. */
  method CollectMax(e: Ast, mx: int) returns (m: int)
    ensures m == Deepest(e, mx)
    decreases e
  {
    m := mx;
    if e.line > m { m := e.line; }
    if e.lastLine > m { m := e.lastLine; }
    ghost var own := m;
    for i := 0 to |e.parts|
      invariant m == DeepestOf(e.parts[..i], own)
    {
      assert e.parts[..i + 1][..i] == e.parts[..i];
      m := CollectMax(e.parts[i], m);
    }
    assert e.parts[..|e.parts|] == e.parts;
  }

  /** It is no line's inferior, and unless it is mx itself some part is on it. */
  lemma {:induction false} DeepestIsDeepest(e: Ast, mx: int, line: int)
    ensures Deepest(e, mx) >= mx && (Deepest(e, mx) == mx || OnLine(e, Deepest(e, mx)))
    ensures OnLine(e, line) ==> line <= Deepest(e, mx)
    decreases e, 1
  {
    DeepestOfIsDeepest(e.parts, Max(Max(mx, e.line), e.lastLine), line);
  }

  lemma {:induction false} DeepestOfIsDeepest(es: seq<Ast>, mx: int, line: int)
    ensures DeepestOf(es, mx) >= mx && (DeepestOf(es, mx) == mx || AnyOnLine(es, DeepestOf(es, mx)))
    ensures AnyOnLine(es, line) ==> line <= DeepestOf(es, mx)
    decreases es, 0
  {
    if es != [] {
      var n := |es| - 1;
      DeepestOfIsDeepest(es[..n], mx, line);
      DeepestIsDeepest(es[n], DeepestOf(es[..n], mx), line);
    }
  }

  // ----- Spans -----

  /** A call the importer owns, with the line of its statement, the deepest line of its parts, and the key
      of its body if it is a handler. The call itself is kept here only to speak about its lines. */
  datatype Owned = Owned(call: Ast, key: string, start: int, endMax: int)

  datatype Span = Span(start: int, end: int)

  /** The first boundary after a line, or the line after the last. */
  ghost predicate IsBoundAfter(bounds: seq<int>, lines: int, ln: int, b: int) {
    if exists i :: 0 <= i < |bounds| && bounds[i] > ln then
      (exists i :: 0 <= i < |bounds| && bounds[i] == b) && b > ln && forall i :: 0 <= i < |bounds| && bounds[i] > ln ==> b <= bounds[i]
    else b == lines + 1
  }

  /** boundAfter, on boundaries already sorted. */
  method BoundAfter(sorted: seq<int>, lines: int, ln: int) returns (b: int)
    requires forall i, j :: 0 <= i < j < |sorted| ==> sorted[i] <= sorted[j]
    ensures IsBoundAfter(sorted, lines, ln, b)
  {
    for i := 0 to |sorted|
      invariant forall k :: 0 <= k < i ==> sorted[k] <= ln
    {
      if sorted[i] > ln { return sorted[i]; }
    }
    return lines + 1;
  }

  /** The span of an owned statement. */
  method SpanOf(sorted: seq<int>, lines: int, o: Owned) returns (s: Span)
    requires forall i, j :: 0 <= i < j < |sorted| ==> sorted[i] <= sorted[j]
    ensures IsSpan(sorted, lines, o, s)
  {
    var end := o.start;
    if o.endMax > o.start {
      var b := BoundAfter(sorted, lines, o.endMax);
      end := b - 1;
      if end < o.endMax { end := o.endMax; }
      if end > lines { end := lines; }
    }
    return Span(o.start, end);
  }

  ghost predicate IsSpan(bounds: seq<int>, lines: int, o: Owned, s: Span) {
    && s.start == o.start
    && if o.endMax > o.start then
      exists b :: IsBoundAfter(bounds, lines, o.endMax, b) && s.end == Clip(b, o.endMax, lines)
    else s.end == o.start
  }

  function Clip(b: int, endMax: int, lines: int): (r: int) {
    var end := if b - 1 < endMax then endMax else b - 1;
    if end > lines then lines else end
  }

  /** The spans of a form's owned calls, in order, on boundaries already sorted. */
  method SpansOf(sorted: seq<int>, lines: int, owned: seq<Owned>) returns (spans: seq<Span>)
    requires forall i, j :: 0 <= i < j < |sorted| ==> sorted[i] <= sorted[j]
    ensures |spans| == |owned| && forall i :: 0 <= i < |owned| ==> IsSpan(sorted, lines, owned[i], spans[i])
  {
    spans := [];
    for i := 0 to |owned|
      invariant |spans| == i && forall k :: 0 <= k < i ==> IsSpan(sorted, lines, owned[k], spans[k])
    {
      var s := SpanOf(sorted, lines, owned[i]);
      spans := spans + [s];
    }
  }

  /** sort.Ints. */
  method SortInts(xs: seq<int>) returns (sorted: seq<int>)
    ensures forall i, j :: 0 <= i < j < |sorted| ==> sorted[i] <= sorted[j]
    ensures forall x :: x in sorted ==> x in xs
    ensures forall x :: x in xs ==> x in sorted
  {
    sorted := [];
    for i := 0 to |xs|
      invariant forall i, j :: 0 <= i < j < |sorted| ==> sorted[i] <= sorted[j]
      invariant forall x :: x in sorted <==> x in xs[..i]
    {
      var at := 0;
      while at < |sorted| && sorted[at] <= xs[i]
        invariant at <= |sorted| && forall k :: 0 <= k < at ==> sorted[k] <= xs[i]
      {
        at := at + 1;
      }
      ghost var before := sorted;
      sorted := sorted[..at] + [xs[i]] + sorted[at..];
      assert before == before[..at] + before[at..];
      assert xs[..i + 1] == xs[..i] + [xs[i]];
    }
    assert xs[..|xs|] == xs;
  }

  lemma SameSpan(sorted: seq<int>, bounds: seq<int>, lines: int, o: Owned, s: Span)
    requires IsSpan(sorted, lines, o, s)
    requires forall x :: x in sorted ==> x in bounds
    requires forall x :: x in bounds ==> x in sorted
    ensures IsSpan(bounds, lines, o, s)
  {
    if o.endMax > o.start {
      var b :| IsBoundAfter(sorted, lines, o.endMax, b) && s.end == Clip(b, o.endMax, lines);
      forall i | 0 <= i < |bounds| ensures bounds[i] in sorted {
        var x := bounds[i];
        assert x in bounds;
      }
      forall i | 0 <= i < |sorted| ensures sorted[i] in bounds {
        var x := sorted[i];
        assert x in sorted;
      }
      assert IsBoundAfter(bounds, lines, o.endMax, b);
    }
  }

  /** A span as it is promised: within the source, holding its call's lines, and short of every later
      boundary. */
  lemma SpanCovers(bounds: seq<int>, lines: int, o: Owned, s: Span, bound: int)
    requires 1 <= o.start <= o.endMax <= lines && IsSpan(bounds, lines, o, s)
    requires o.start in bounds
    ensures s.start == o.start && o.endMax <= s.end <= lines
    ensures bound in bounds && bound > o.endMax ==> s.end < bound
  {
    if o.endMax > o.start && bound in bounds && bound > o.endMax {
      var i :| 0 <= i < |bounds| && bounds[i] == bound;
      assert bounds[i] > o.endMax;
    }
  }

  // ----- The text of a span -----

  /** verbatim. */
  method Verbatim(srcLines: seq<string>, start0: int, end0: int) returns (text: string)
    ensures var start, end := Max(start0, 1), if end0 > |srcLines| then |srcLines| else end0;
      text == if end < start then "" else Join(srcLines[start - 1..end], "\n")
  {
    var start := if start0 < 1 then 1 else start0;
    var end := if end0 > |srcLines| then |srcLines| else end0;
    if end < start { return ""; }
    var parts: seq<string> := [];
    for i := start to end + 1
      invariant parts == srcLines[start - 1..i - 1]
    {
      parts := parts + [srcLines[i - 1]];
    }
    return Join(parts, "\n");
  }

  /** The text of a span is those lines and no others: splitting it gives them back. */
  lemma {:induction false} LinesBack(lines: seq<string>)
    requires lines != [] && forall i :: 0 <= i < |lines| ==> '\n' !in lines[i]
    ensures Split(Join(lines, "\n"), '\n') == lines
  {
    if |lines| == 1 {
      assert lines == [lines[0]];
    } else {
      LinesBack(lines[1..]);
      SplitPiece(lines[0], Join(lines[1..], "\n"), '\n');
      assert lines == [lines[0]] + lines[1..];
    }
  }
}
