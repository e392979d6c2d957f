/** The importer's walk over a script (walkStmt, walkExpr and checkCall of internal/builder/lua_import.go):
    which calls it owns, and which lines it gives to each. */
module Importer {
  import opened Spans

  /** What is known of a form: the calls owned, its controls, the events of each control. */
  datatype FormDef = FormDef(owned: seq<Owned>, controls: seq<string>, events: map<string, seq<string>>, hasShow: bool)

  /** The importer's fields. */
  datatype State = State(bounds: seq<int>, curStmtLine: int, directCall: bool, names: seq<string>, defs: map<string, FormDef>)

  const START := State([], 0, false, [], map[])

  predicate IsStmt(e: Ast) { e.kind.CallStmt? || e.kind.OtherStmt? }

  // ----- What a call does -----

  function EventsOf(fd: FormDef, ctrl: string): (r: seq<string>) { if ctrl in fd.events then fd.events[ctrl] else [] }

  /** The call as owned by a form, when it is reached in a bare call statement. */
  function Recorded(st: State, fd: FormDef, key: string, call: Ast): (r: FormDef) {
    if st.directCall then
      fd.(owned := fd.owned + [Owned(call, key, st.curStmtLine, Deepest(call, st.curStmtLine))])
    else fd
  }

  function Checked(st: State, call: Ast, claim: Claim): (r: State) {
    match claim
    case NoClaim => st
    case NewForm(form) =>
      if form == "" || form in st.defs || !st.directCall then st
      else st.(names := st.names + [form], defs := st.defs[form := Recorded(st, FormDef([], [], map[], false), "", call)])
    case AddControl(form, name) =>
      if form !in st.defs || name == "" || !st.directCall then st
      else
        var fd := Recorded(st, st.defs[form], "", call);
        st.(defs := st.defs[form := fd.(controls := fd.controls + [name])])
    case ShowForm(form) =>
      if form !in st.defs || st.defs[form].hasShow then st
      else st.(defs := st.defs[form := Recorded(st, st.defs[form].(hasShow := true), "", call)])
    case OnEvent(form, ctrl, event) =>
      if form !in st.defs || ctrl == "" || event == "" then st
      else
        var fd := st.defs[form];
        var listed := fd.(events := fd.events[ctrl := EventsOf(fd, ctrl) + [event]]);
        st.(defs := st.defs[form := Recorded(st, listed, ctrl + "." + event, call)])
  }

  // ----- The walk -----

  function Bounded(bounds: seq<int>, line: int): (r: seq<int>) { if line > 0 then bounds + [line] else bounds }

  function Entered(st: State, e: Ast): (r: State) {
    match e.kind
    case CallStmt => State(Bounded(Bounded(st.bounds, e.line), e.lastLine), e.line, true, st.names, st.defs)
    case OtherStmt => State(Bounded(Bounded(st.bounds, e.line), e.lastLine), e.line, false, st.names, st.defs)
    case Call(claim) => Checked(st, e, claim)
    case OtherExpr => st
  }

  function Walked(st: State, e: Ast): (r: State)
    decreases e, 1
  {
    WalkedAll(Entered(st, e), e.parts)
  }

  function WalkedAll(st: State, es: seq<Ast>): (r: State)
    decreases es, 0
  {
    if es == [] then st else Walked(WalkedAll(st, es[..|es| - 1]), es[|es| - 1])
  }

  class Importer {
    var bounds: seq<int>
    var curStmtLine: int
    var directCall: bool
    var names: seq<string>
    var defs: map<string, FormDef>

    ghost function Now(): (r: State)
      reads this
    {
      State(bounds, curStmtLine, directCall, names, defs)
    }

    constructor ()
      ensures Now() == START
    {
      bounds, curStmtLine, directCall, names, defs := [], 0, false, [], map[];
    }

    method Bound(line: int)
      modifies `bounds
      ensures bounds == Bounded(old(bounds), line)
    {
      if line > 0 { bounds := bounds + [line]; }
    }

    method SpanEnd(call: Ast) returns (mx: int)
      ensures mx == Deepest(call, curStmtLine)
    {
      mx := CollectMax(call, curStmtLine);
    }

    method RecordSpan(fd: FormDef, key: string, call: Ast, maxLine: int) returns (after: FormDef, ok: bool)
      requires maxLine == Deepest(call, curStmtLine)
      ensures after == Recorded(Now(), fd, key, call) && ok == directCall
    {
      if !directCall { return fd, false; }
      return fd.(owned := fd.owned + [Owned(call, key, curStmtLine, maxLine)]), true;
    }

    method ImportFormNew(call: Ast, name: string)
      modifies `names, `defs
      ensures Now() == Checked(old(Now()), call, NewForm(name))
    {
      if name == "" { return; }
      if name in defs { return; }
      var end := SpanEnd(call);
      var fd, ok := RecordSpan(FormDef([], [], map[], false), "", call, end);
      if !ok { return; }
      defs := defs[name := fd];
      names := names + [name];
    }

    method ImportControl(call: Ast, form: string, name: string)
      modifies `defs
      ensures Now() == Checked(old(Now()), call, AddControl(form, name))
    {
      if form !in defs { return; }
      if name == "" { return; }
      var end := SpanEnd(call);
      var fd, ok := RecordSpan(defs[form], "", call, end);
      if !ok { return; }
      defs := defs[form := fd.(controls := fd.controls + [name])];
    }

    method ImportFormShow(call: Ast, form: string)
      modifies `defs
      ensures Now() == Checked(old(Now()), call, ShowForm(form))
    {
      if form !in defs { return; }
      if defs[form].hasShow { return; }
      var end := SpanEnd(call);
      var fd, ok := RecordSpan(defs[form].(hasShow := true), "", call, end);
      defs := defs[form := fd];
    }

    /** A handler's event is listed whether or not its statement is owned. */
    method ImportFormOn(call: Ast, form: string, ctrl: string, event: string)
      modifies `defs
      ensures Now() == Checked(old(Now()), call, OnEvent(form, ctrl, event))
    {
      if form !in defs { return; }
      if ctrl == "" || event == "" { return; }
      var fd := defs[form];
      fd := fd.(events := fd.events[ctrl := (if ctrl in fd.events then fd.events[ctrl] else []) + [event]]);
      var end := SpanEnd(call);
      var after, ok := RecordSpan(fd, ctrl + "." + event, call, end);
      defs := defs[form := after];
    }

    method CheckCall(call: Ast, claim: Claim)
      modifies `names, `defs
      ensures Now() == Checked(old(Now()), call, claim)
    {
      match claim
      case NoClaim =>
      case NewForm(form) => ImportFormNew(call, form);
      case AddControl(form, name) => ImportControl(call, form, name);
      case ShowForm(form) => ImportFormShow(call, form);
      case OnEvent(form, ctrl, event) => ImportFormOn(call, form, ctrl, event);
    }

    /** walkStmt and walkExpr up to the parts. */
    method Enter(e: Ast)
      modifies this
      ensures Now() == Entered(old(Now()), e)
    {
      if IsStmt(e) {
        curStmtLine := e.line;
        Bound(e.line);
        Bound(e.lastLine);
        directCall := e.kind.CallStmt?;
      } else if e.kind.Call? {
        CheckCall(e, e.kind.claim);
      }
    }

    /** walkStmt and walkExpr. */
    method Walk(e: Ast)
      modifies this
      ensures Now() == Walked(old(Now()), e)
      decreases e, 1
    {
      Enter(e);
      WalkAll(e.parts);
    }

    method WalkAll(es: seq<Ast>)
      modifies this
      ensures Now() == WalkedAll(old(Now()), es)
      decreases es, 0
    {
      ghost var st := Now();
      for i := 0 to |es|
        invariant Now() == WalkedAll(st, es[..i])
      {
        assert es[..i + 1][..i] == es[..i];
        Walk(es[i]);
      }
      assert es[..|es|] == es;
    }
  }

  // ----- The boundaries are the lines of the statements -----

  /** Some statement in e begins or ends on the line. */
  predicate StmtOn(e: Ast, line: int)
    decreases e, 1
  {
    (IsStmt(e) && (e.line == line || e.lastLine == line)) || AnyStmtOn(e.parts, line)
  }

  predicate AnyStmtOn(es: seq<Ast>, line: int)
    decreases es, 0
  {
    es != [] && (AnyStmtOn(es[..|es| - 1], line) || StmtOn(es[|es| - 1], line))
  }

  lemma {:induction false} BoundsAre(st: State, e: Ast, line: int)
    ensures line in Walked(st, e).bounds <==> line in st.bounds || (line > 0 && StmtOn(e, line))
    decreases e, 1
  {
    BoundsAreAll(Entered(st, e), e.parts, line);
  }

  lemma {:induction false} BoundsAreAll(st: State, es: seq<Ast>, line: int)
    ensures line in WalkedAll(st, es).bounds <==> line in st.bounds || (line > 0 && AnyStmtOn(es, line))
    decreases es, 0
  {
    if es != [] {
      BoundsAreAll(st, es[..|es| - 1], line);
      BoundsAre(WalkedAll(st, es[..|es| - 1]), es[|es| - 1], line);
    }
  }

  // ----- What is recorded -----

  /** Every line lies in the source, and every statement begins on one. */
  predicate InSource(e: Ast, lines: int)
    decreases e, 1
  {
    e.line <= lines && e.lastLine <= lines && (IsStmt(e) ==> e.line >= 1) && AllInSource(e.parts, lines)
  }

  predicate AllInSource(es: seq<Ast>, lines: int)
    decreases es, 0
  {
    es == [] || (AllInSource(es[..|es| - 1], lines) && InSource(es[|es| - 1], lines))
  }

  /** An owned call as the walk records it: its start is a boundary, its end the deepest line of its parts. */
  ghost predicate IsRecorded(bounds: seq<int>, lines: int, o: Owned) {
    1 <= o.start <= o.endMax <= lines && o.start in bounds && o.endMax == Deepest(o.call, o.start)
  }

  /** A bare call statement has begun on a line that is a boundary, and everything owned is recorded so. */
  ghost predicate Sound(st: State, lines: int) {
    && (st.directCall ==> 1 <= st.curStmtLine <= lines && st.curStmtLine in st.bounds)
    && forall form, o :: form in st.defs && o in st.defs[form].owned ==> IsRecorded(st.bounds, lines, o)
  }

  lemma {:induction false} DeepestInSource(e: Ast, mx: int, lines: int)
    requires InSource(e, lines) && mx <= lines
    ensures Deepest(e, mx) <= lines
    decreases e, 1
  {
    DeepestInSourceAll(e.parts, Max(Max(mx, e.line), e.lastLine), lines);
  }

  lemma {:induction false} DeepestInSourceAll(es: seq<Ast>, mx: int, lines: int)
    requires AllInSource(es, lines) && mx <= lines
    ensures DeepestOf(es, mx) <= lines
    decreases es, 0
  {
    if es != [] {
      DeepestInSourceAll(es[..|es| - 1], mx, lines);
      DeepestInSource(es[|es| - 1], DeepestOf(es[..|es| - 1], mx), lines);
    }
  }

  lemma RecordedIsSound(st: State, fd: FormDef, key: string, call: Ast, lines: int, o: Owned)
    requires Sound(st, lines) && InSource(call, lines) && o in Recorded(st, fd, key, call).owned
    ensures o in fd.owned || IsRecorded(st.bounds, lines, o)
  {
    if o !in fd.owned {
      DeepestInSource(call, st.curStmtLine, lines);
      DeepestIsDeepest(call, st.curStmtLine, 0);
    }
  }

  lemma CheckedIsSound(st: State, call: Ast, claim: Claim, lines: int)
    requires Sound(st, lines) && InSource(call, lines)
    ensures Sound(Checked(st, call, claim), lines)
  {
    var after := Checked(st, call, claim);
    forall form, o | form in after.defs && o in after.defs[form].owned ensures IsRecorded(st.bounds, lines, o) {
      var had := if form in st.defs then st.defs[form] else FormDef([], [], map[], false);
      if o !in had.owned { RecordedIsSound(st, had, o.key, call, lines, o); }
    }
  }

  lemma EnteredIsSound(st: State, e: Ast, lines: int)
    requires Sound(st, lines) && InSource(e, lines)
    ensures Sound(Entered(st, e), lines)
  {
    if e.kind.Call? {
      CheckedIsSound(st, e, e.kind.claim, lines);
    } else if IsStmt(e) {
      var after := Entered(st, e);
      forall form, o | form in after.defs && o in after.defs[form].owned ensures IsRecorded(after.bounds, lines, o) {
        assert IsRecorded(st.bounds, lines, o);
      }
      assert e.line in Bounded(st.bounds, e.line) && e.line in after.bounds;
    }
  }

  lemma {:induction false} WalkedIsSound(st: State, e: Ast, lines: int)
    requires Sound(st, lines) && InSource(e, lines)
    ensures Sound(Walked(st, e), lines)
    decreases e, 1
  {
    EnteredIsSound(st, e, lines);
    WalkedAllIsSound(Entered(st, e), e.parts, lines);
  }

  lemma {:induction false} WalkedAllIsSound(st: State, es: seq<Ast>, lines: int)
    requires Sound(st, lines) && AllInSource(es, lines)
    ensures Sound(WalkedAll(st, es), lines)
    decreases es, 0
  {
    if es != [] {
      WalkedAllIsSound(st, es[..|es| - 1], lines);
      WalkedIsSound(WalkedAll(st, es[..|es| - 1]), es[|es| - 1], lines);
    }
  }

  // ----- The spans -----

  ghost predicate Known(st: State) { forall form :: form in st.names <==> form in st.defs }

  lemma {:induction false} WalkedIsKnown(st: State, e: Ast)
    requires Known(st)
    ensures Known(Walked(st, e))
    decreases e, 1
  {
    WalkedAllIsKnown(Entered(st, e), e.parts);
  }

  lemma {:induction false} WalkedAllIsKnown(st: State, es: seq<Ast>)
    requires Known(st)
    ensures Known(WalkedAll(st, es))
    decreases es, 0
  {
    if es != [] {
      WalkedAllIsKnown(st, es[..|es| - 1]);
      WalkedIsKnown(WalkedAll(st, es[..|es| - 1]), es[|es| - 1]);
    }
  }

  ghost predicate AreSpans(bounds: seq<int>, lines: int, owned: seq<Owned>, spans: seq<Span>) {
    |spans| == |owned| && forall i :: 0 <= i < |owned| ==> IsSpan(bounds, lines, owned[i], spans[i])
  }

  /** finish: the spans of every form's owned calls. */
  method Finish(st: State, lines: int) returns (spans: map<string, seq<Span>>)
    requires Known(st)
    ensures spans.Keys == st.defs.Keys
    ensures forall form :: form in st.defs ==> AreSpans(st.bounds, lines, st.defs[form].owned, spans[form])
  {
    var sorted := SortInts(st.bounds);
    spans := map[];
    for i := 0 to |st.names|
      invariant forall form :: form in spans <==> form in st.names[..i]
      invariant forall form :: form in spans ==> form in st.defs && AreSpans(st.bounds, lines, st.defs[form].owned, spans[form])
    {
      assert st.names[..i + 1] == st.names[..i] + [st.names[i]];
      assert st.names[i] in st.names;
      var owned := st.defs[st.names[i]].owned;
      var ss := SpansOf(sorted, lines, owned);
      forall k | 0 <= k < |owned| ensures IsSpan(st.bounds, lines, owned[k], ss[k]) {
        SameSpan(sorted, st.bounds, lines, owned[k], ss[k]);
      }
      spans := spans[st.names[i] := ss];
    }
    assert st.names[..|st.names|] == st.names;
  }

  /** The line on which the statement begun last, within e, begins. */
  function LastBegun(e: Ast, cur: int): (r: int)
    decreases e, 1
  {
    LastBegunAll(e.parts, if IsStmt(e) then e.line else cur)
  }

  function LastBegunAll(es: seq<Ast>, cur: int): (r: int)
    decreases es, 0
  {
    if es == [] then cur else LastBegun(es[|es| - 1], LastBegunAll(es[..|es| - 1], cur))
  }

  ghost predicate NotBefore(e: Ast, start: int) { forall line :: OnLine(e, line) && line > 0 ==> start <= line }

  /** The parts come in the order of the source: none lies before a statement the walk has begun. */
  ghost predicate InOrder(e: Ast, cur: int)
    decreases e, 1
  {
    NotBefore(e, cur) && AllInOrder(e.parts, if IsStmt(e) then e.line else cur)
  }

  ghost predicate AllInOrder(es: seq<Ast>, cur: int)
    decreases es, 0
  {
    es == [] || (AllInOrder(es[..|es| - 1], cur) && InOrder(es[|es| - 1], LastBegunAll(es[..|es| - 1], cur)))
  }

  ghost predicate StartsFirst(st: State) {
    forall form, o :: form in st.defs && o in st.defs[form].owned ==> NotBefore(o.call, o.start)
  }

  lemma EnteredStartsFirst(st: State, e: Ast)
    requires StartsFirst(st) && NotBefore(e, st.curStmtLine)
    ensures StartsFirst(Entered(st, e))
  {
    var after := Entered(st, e);
    forall form, o | form in after.defs && o in after.defs[form].owned ensures NotBefore(o.call, o.start) {
      if form in st.defs && o in st.defs[form].owned {
      } else {
        assert o.call == e && o.start == st.curStmtLine;
      }
    }
  }

  lemma {:induction false} WalkedStartsFirst(st: State, e: Ast)
    ensures Walked(st, e).curStmtLine == LastBegun(e, st.curStmtLine)
    ensures StartsFirst(st) && InOrder(e, st.curStmtLine) ==> StartsFirst(Walked(st, e))
    decreases e, 1
  {
    if StartsFirst(st) && InOrder(e, st.curStmtLine) { EnteredStartsFirst(st, e); }
    WalkedAllStartsFirst(Entered(st, e), e.parts);
  }

  lemma {:induction false} WalkedAllStartsFirst(st: State, es: seq<Ast>)
    ensures WalkedAll(st, es).curStmtLine == LastBegunAll(es, st.curStmtLine)
    ensures StartsFirst(st) && AllInOrder(es, st.curStmtLine) ==> StartsFirst(WalkedAll(st, es))
    decreases es, 0
  {
    if es != [] {
      WalkedAllStartsFirst(st, es[..|es| - 1]);
      WalkedStartsFirst(WalkedAll(st, es[..|es| - 1]), es[|es| - 1]);
    }
  }

  /** After the walk over any program whose lines lie in the source, the span of every owned call lies in the
      source and holds every line the call is on, and no statement beginning or ending further down is in it. */
  lemma SpanHoldsCall(program: seq<Ast>, lines: int, form: string, o: Owned, s: Span, line: int)
    requires AllInSource(program, lines)
    requires var st := WalkedAll(START, program);
      form in st.defs && o in st.defs[form].owned && IsSpan(st.bounds, lines, o, s)
    ensures 1 <= s.start <= s.end <= lines
    ensures OnLine(o.call, line) ==> line <= s.end
    ensures OnLine(o.call, line) && line > 0 && AllInOrder(program, 0) ==> s.start <= line
    ensures AnyStmtOn(program, line) && line > o.endMax ==> s.end < line
  {
    var st := WalkedAll(START, program);
    WalkedAllIsSound(START, program, lines);
    assert IsRecorded(st.bounds, lines, o);
    SpanCovers(st.bounds, lines, o, s, line);
    DeepestIsDeepest(o.call, o.start, line);
    BoundsAreAll(START, program, line);
    WalkedAllStartsFirst(START, program);
    if AllInOrder(program, 0) { assert NotBefore(o.call, o.start); }
  }

  /** Two owned calls, of one form or two, the one ending before the other's statement begins, have spans
      that do not overlap. */
  lemma SpansApart(program: seq<Ast>, lines: int, form: string, a: Owned, s: Span, other: string, b: Owned, t: Span)
    requires AllInSource(program, lines)
    requires var st := WalkedAll(START, program);
      && form in st.defs && a in st.defs[form].owned && IsSpan(st.bounds, lines, a, s)
      && other in st.defs && b in st.defs[other].owned && IsSpan(st.bounds, lines, b, t)
    requires forall line :: OnLine(a.call, line) ==> line < b.start
    requires a.start < b.start
    ensures s.end < t.start
  {
    var st := WalkedAll(START, program);
    WalkedAllIsSound(START, program, lines);
    assert IsRecorded(st.bounds, lines, a) && IsRecorded(st.bounds, lines, b);
    DeepestIsDeepest(a.call, a.start, 0);
    SpanCovers(st.bounds, lines, a, s, b.start);
  }

  /** What is promised of a call's span: it lies in the source, holds the call, and ends before any statement
      further down begins or ends. */
  ghost predicate IsGood(program: seq<Ast>, lines: int, o: Owned, s: Span) {
    && 1 <= s.start <= s.end <= lines
    && (forall line :: OnLine(o.call, line) ==> line <= s.end && (line > 0 && AllInOrder(program, 0) ==> s.start <= line))
    && (forall line :: AnyStmtOn(program, line) && line > o.endMax ==> s.end < line)
  }

  /** Of two owned calls, if the one ends before the other's statement begins, so do their spans. */
  ghost predicate AreApart(a: Owned, s: Span, b: Owned, t: Span) {
    (forall line :: OnLine(a.call, line) ==> line < b.start) && a.start < b.start ==> s.end < t.start
  }

  ghost predicate AllGood(program: seq<Ast>, lines: int, defs: map<string, FormDef>, spans: map<string, seq<Span>>)
    requires spans.Keys == defs.Keys && forall form :: form in defs ==> |spans[form]| == |defs[form].owned|
  {
    forall form, i :: form in defs && 0 <= i < |spans[form]| ==> IsGood(program, lines, defs[form].owned[i], spans[form][i])
  }

  ghost predicate AllApart(defs: map<string, FormDef>, spans: map<string, seq<Span>>)
    requires spans.Keys == defs.Keys && forall form :: form in defs ==> |spans[form]| == |defs[form].owned|
  {
    forall form, i, other, j ::
      form in defs && 0 <= i < |spans[form]| && other in defs && 0 <= j < |spans[other]| ==>
      AreApart(defs[form].owned[i], spans[form][i], defs[other].owned[j], spans[other][j])
  }

  ghost predicate Spanned(st: State, lines: int, spans: map<string, seq<Span>>) {
    spans.Keys == st.defs.Keys && forall form :: form in st.defs ==> AreSpans(st.bounds, lines, st.defs[form].owned, spans[form])
  }

  lemma SpansAreGood(program: seq<Ast>, lines: int, st: State, spans: map<string, seq<Span>>)
    requires AllInSource(program, lines) && st == WalkedAll(START, program) && Spanned(st, lines, spans)
    ensures AllGood(program, lines, st.defs, spans)
  {
    forall form, i | form in st.defs && 0 <= i < |spans[form]|
      ensures IsGood(program, lines, st.defs[form].owned[i], spans[form][i])
    {
      var o, s := st.defs[form].owned[i], spans[form][i];
      SpanHoldsCall(program, lines, form, o, s, 0);
      forall line { SpanHoldsCall(program, lines, form, o, s, line); }
    }
  }

  lemma SpansAreApart(program: seq<Ast>, lines: int, st: State, spans: map<string, seq<Span>>)
    requires AllInSource(program, lines) && st == WalkedAll(START, program) && Spanned(st, lines, spans)
    ensures AllApart(st.defs, spans)
  {
    forall form, i, other, j | form in st.defs && 0 <= i < |spans[form]| && other in st.defs && 0 <= j < |spans[other]|
      ensures AreApart(st.defs[form].owned[i], spans[form][i], st.defs[other].owned[j], spans[other][j])
    {
      var a, b := st.defs[form].owned[i], st.defs[other].owned[j];
      if (forall line :: OnLine(a.call, line) ==> line < b.start) && a.start < b.start {
        SpansApart(program, lines, form, a, spans[form][i], other, b, spans[other][j]);
      }
    }
  }

  /** Import, as far as lines go: walk every statement, then finish. */
  method ImportSpans(program: seq<Ast>, lines: int) returns (st: State, spans: map<string, seq<Span>>)
    ensures st == WalkedAll(START, program) && Spanned(st, lines, spans)
    ensures AllInSource(program, lines) ==> AllGood(program, lines, st.defs, spans) && AllApart(st.defs, spans)
  {
    var im := new Importer();
    im.WalkAll(program);
    WalkedAllIsKnown(START, program);
    st := State(im.bounds, im.curStmtLine, im.directCall, im.names, im.defs);
    spans := Finish(st, lines);
    if AllInSource(program, lines) {
      SpansAreGood(program, lines, st, spans);
      SpansAreApart(program, lines, st, spans);
    }
  }

  // ----- Only bare calls? -----

  /** Whether the statement begun last is a bare call. */
  function Armed(e: Ast, armed: bool): (r: bool)
    decreases e, 1
  {
    AnyArmed(e.parts, if IsStmt(e) then e.kind.CallStmt? else armed)
  }

  function AnyArmed(es: seq<Ast>, armed: bool): (r: bool)
    decreases es, 0
  {
    if es == [] then armed else Armed(es[|es| - 1], AnyArmed(es[..|es| - 1], armed))
  }

  /** A bare call statement is one call, and in no bare call statement is a claim inside that call, unless
      another kind of statement has begun since. */
  predicate Unwrapped(e: Ast, armed: bool)
    decreases e, 1
  {
    match e.kind
    case CallStmt => |e.parts| == 1 && e.parts[0].kind.Call? && AllUnwrapped(e.parts[0].parts, true)
    case OtherStmt => AllUnwrapped(e.parts, false)
    case Call(claim) => (armed ==> claim.NoClaim?) && AllUnwrapped(e.parts, armed)
    case OtherExpr => AllUnwrapped(e.parts, armed)
  }

  predicate AllUnwrapped(es: seq<Ast>, armed: bool)
    decreases es, 0
  {
    es == [] || (AllUnwrapped(es[..|es| - 1], armed) && Unwrapped(es[|es| - 1], AnyArmed(es[..|es| - 1], armed)))
  }

  /** The call is the whole of a bare call statement, begun on that line. */
  predicate IsBare(e: Ast, call: Ast, line: int)
    decreases e, 1
  {
    (e.kind.CallStmt? && e.parts == [call] && e.line == line) || AnyIsBare(e.parts, call, line)
  }

  predicate AnyIsBare(es: seq<Ast>, call: Ast, line: int)
    decreases es, 0
  {
    es != [] && (AnyIsBare(es[..|es| - 1], call, line) || IsBare(es[|es| - 1], call, line))
  }

  ghost predicate Owns(st: State, o: Owned) { exists form :: form in st.defs && o in st.defs[form].owned }

  lemma EnteredOwns(st: State, e: Ast, o: Owned)
    requires Owns(Entered(st, e), o) && !Owns(st, o)
    ensures st.directCall && e.kind.Call? && !e.kind.claim.NoClaim? && o.call == e && o.start == st.curStmtLine
  {
    var after := Entered(st, e);
    var form :| form in after.defs && o in after.defs[form].owned;
    assert !(form in st.defs && o in st.defs[form].owned);
  }

  lemma {:induction false} OwnsBare(st: State, e: Ast, o: Owned)
    requires Unwrapped(e, st.directCall)
    ensures Walked(st, e).directCall == Armed(e, st.directCall)
    ensures Owns(Walked(st, e), o) ==> Owns(st, o) || IsBare(e, o.call, o.start)
    decreases e, 1
  {
    var in1 := Entered(st, e);
    if Owns(in1, o) && !Owns(st, o) { EnteredOwns(st, e, o); }
    if e.kind.CallStmt? {
      var c := e.parts[0];
      var in2 := Entered(in1, c);
      if Owns(in2, o) && !Owns(in1, o) {
        EnteredOwns(in1, c, o);
        assert e.parts == [c];
      }
      OwnBareAll(in2, c.parts, o);
      OneWalked(in1, c);
      OneArmed(c, true);
      OneBare(c, o.call, o.start);
      assert e.parts == [c];
    } else {
      OwnBareAll(in1, e.parts, o);
    }
  }

  lemma {:induction false} OwnBareAll(st: State, es: seq<Ast>, o: Owned)
    requires AllUnwrapped(es, st.directCall)
    ensures WalkedAll(st, es).directCall == AnyArmed(es, st.directCall)
    ensures Owns(WalkedAll(st, es), o) ==> Owns(st, o) || AnyIsBare(es, o.call, o.start)
    decreases es, 0
  {
    if es != [] {
      OwnBareAll(st, es[..|es| - 1], o);
      OwnsBare(WalkedAll(st, es[..|es| - 1]), es[|es| - 1], o);
    }
  }

  lemma OneWalked(st: State, e: Ast)
    ensures WalkedAll(st, [e]) == Walked(st, e)
  {
    assert [e][..0] == [];
  }

  lemma OneArmed(e: Ast, armed: bool)
    ensures AnyArmed([e], armed) == Armed(e, armed)
  {
    assert [e][..0] == [];
  }

  lemma OneBare(e: Ast, call: Ast, line: int)
    ensures AnyIsBare([e], call, line) == IsBare(e, call, line)
  {
    assert [e][..0] == [];
  }

  /** In a program without wrapped claims, every owned call is a bare call statement, and its span begins
      where that statement does. */
  lemma OwnedAreBare(program: seq<Ast>, form: string, o: Owned)
    requires AllUnwrapped(program, false)
    requires var st := WalkedAll(START, program); form in st.defs && o in st.defs[form].owned
    ensures AnyIsBare(program, o.call, o.start)
  {
    OwnBareAll(START, program, o);
    assert Owns(WalkedAll(START, program), o);
  }

  /** A claim in an argument of a bare call is owned all the same: `f(k.form.new(name))`. */
  lemma WrappedIsOwned(form: string, line: int)
    requires form != "" && line >= 1
    ensures var inner := Ast(Call(NewForm(form)), line, 0, []);
      var program := [Ast(CallStmt, line, 0, [Ast(Call(NoClaim), line, 0, [inner])])];
      && WalkedAll(START, program).defs == map[form := FormDef([Owned(inner, "", line, line)], [], map[], false)]
      && !AnyIsBare(program, inner, line)
  {
    var inner := Ast(Call(NewForm(form)), line, 0, []);
    var outer := Ast(Call(NoClaim), line, 0, [inner]);
    var s := Ast(CallStmt, line, 0, [outer]);
    assert [s][..0] == [] && [outer][..0] == [] && [inner][..0] == [];
    OneWalked(START, s);
    var in1 := Entered(START, s);
    OneWalked(in1, outer);
    OneWalked(in1, inner);
    assert Deepest(inner, line) == line;
    assert Recorded(in1, FormDef([], [], map[], false), "", inner).owned == [Owned(inner, "", line, line)];
    assert WalkedAll(START, [s]) == Checked(in1, inner, NewForm(form));
    OneBare(s, inner, line);
    OneBare(outer, inner, line);
    OneBare(inner, inner, line);
    assert s.parts[0] != inner;
  }
}
