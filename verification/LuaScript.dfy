/** A form's block through export and import as one script: its k.form.new statement, its controls, its
    handlers, the stubs for default events and its k.form.show (exportFormLua in
    internal/builder/lua_export.go, checkCall in lua_import.go). */
module LuaScript {
  import opened Text
  import opened LuaLexer
  import opened LuaParser
  import opened LuaText
  import opened LuaCall
  import opened LuaStatement
  import opened LuaLiteral
  import opened Document
  import opened LuaForms
  import opened LuaControls
  import Handlers

  // ----- The block -----

  const FORM_SHOW := ["k", "form", "show"]
  const FORM_ON := ["k", "form", "on"]

  /** defaultEventsForControl. */
  function DefaultEvents(c: Control): (events: seq<string>) {
    match c.ctype
    case "image" => if Opt(c.opts, "clickable") == Bool(true) then ["click"] else []
    case "looper" => ["onselect", "onclick"]
    case "chart" => ["chart_click", "chart_legend_click"]
    case "tree" => ["on_click", "on_select", "on_expand", "on_loaded", "on_error"]
    case "tab" => ["onchange"]
    case "topbar" => ["logout"]
    case "sidebar" => ["sidebar_select"]
    case "ai_chat" => ["on_send", "on_reply", "on_tool", "on_error", "on_done"]
    case "button" => ["click"]
    case "textbox" => ["selection_change"]
    case "combo" => ["selection_change"]
    case "list" => ["selection_change"]
    case "checkbox" => ["selection_change"]
    case "radio" => ["selection_change"]
    case "table" => ["selection_change"]
    case _ => []
  }

  function CtrlOf(c: Control): (r: Handlers.Ctrl) {
    Handlers.Ctrl(c.name, DefaultEvents(c), Source(c.inline, "onclick") != "")
  }

  function CtrlsOf(controls: seq<Control>): (r: seq<Handlers.Ctrl>)
    ensures |r| == |controls|
  {
    seq(|controls|, i requires 0 <= i < |controls| => CtrlOf(controls[i]))
  }

  function ControlTexts(form: string, controls: seq<Control>, indent: string): (r: string) {
    if controls == [] then "" else ControlText(form, controls[0], indent) + ControlTexts(form, controls[1..], indent)
  }

  /** The handlers kept, each as it was written. */
  function BodyTexts(bodies: seq<Handlers.Registration>): (r: string) {
    if bodies == [] then "" else bodies[0].text + ("\n" + BodyTexts(bodies[1..]))
  }

  /** The arguments of a handler before its function: a form's own handler names no control. */
  function OnArgs(form: string, ctrl: string, event: string): (r: seq<Lit>) {
    if ctrl == Handlers.FORM then [Quoted(Go, form), Quoted(Go, event)]
    else [Quoted(Go, form), Quoted(Go, ctrl), Quoted(Go, event)]
  }

  function EventPath(form: string, ctrl: string, event: string): (r: string) {
    if ctrl == Handlers.FORM then form + "." + event else form + "." + ctrl + "." + event
  }

  function StubEnd(indent: string, eventPath: string): (r: string) {
    "function()\n" + ((indent + "  ") + ("k.print" + ("(" + (Quote(Lua, eventPath) + (")\n" + (indent + "end)\n\n"))))))
  }

  /** printHandlerStub. */
  function StubText(form: string, ctrl: string, event: string, indent: string): (r: string) {
    OpenText(indent, FORM_ON, Join(ArgTexts(OnArgs(form, ctrl, event)), ", ") + (", " + StubEnd(indent, EventPath(form, ctrl, event))))
  }

  function StubTexts(form: string, stubs: seq<Handlers.Registration>, indent: string): (r: string) {
    if stubs == [] then "" else StubText(form, stubs[0].ctrl, stubs[0].event, indent) + StubTexts(form, stubs[1..], indent)
  }

  function ShowText(form: string, indent: string): (r: string) {
    indent + ("k.form.show" + ("(" + (Quote(Go, form) + (")" + "\n"))))
  }

  /** The handlers kept and the stubs beside them, as module Handlers has them. */
  function Bodies(k: Handlers.Kept, controls: seq<Control>, orphans: seq<string>): (r: seq<Handlers.Registration>) {
    Handlers.EmittedAll(k, Handlers.Places(CtrlsOf(controls), orphans))
  }

  function Stubs(k: Handlers.Kept, controls: seq<Control>): (r: seq<Handlers.Registration>) {
    Handlers.StubsAll(k, CtrlsOf(controls))
  }

  function BlockText(f: Form, controls: seq<Control>, k: Handlers.Kept, orphans: seq<string>, indent: string, emitShow: bool): (r: string) {
    CallText(indent, FORM_NEW, [Quoted(Go, f.name), FormLit(f)])
    + (ControlTexts(f.name, controls, indent)
    + (BodyTexts(Bodies(k, controls, orphans))
    + (StubTexts(f.name, Stubs(k, controls), indent)
    + if emitShow then ShowText(f.name, indent) else "")))
  }

  method WriteControls(form: string, controls: seq<Control>, indent: string) returns (text: string)
    ensures text == ControlTexts(form, controls, indent)
  {
    text := "";
    ghost var all := ControlTexts(form, controls, indent);
    ghost var rest := all;
    for i := 0 to |controls|
      invariant rest == ControlTexts(form, controls[i..], indent) && text + rest == all
    {
      var control := ExportControl(form, controls[i], indent);
      ghost var more := NextControl(form, controls, indent, i, control, rest);
      Assoc(text, control, more);
      text := text + control;
      rest := more;
    }
    assert controls[|controls|..] == [] && text + "" == text;
  }

  lemma NextControl(form: string, controls: seq<Control>, indent: string, i: nat, control: string, rest: string) returns (more: string)
    requires i < |controls| && control == ControlText(form, controls[i], indent) && rest == ControlTexts(form, controls[i..], indent)
    ensures rest == control + more && more == ControlTexts(form, controls[i + 1..], indent)
  {
    assert controls[i..][1..] == controls[i + 1..];
    more := ControlTexts(form, controls[i + 1..], indent);
  }

  method WriteBodies(bodies: seq<Handlers.Registration>) returns (text: string)
    ensures text == BodyTexts(bodies)
  {
    text := "";
    for i := 0 to |bodies|
      invariant text + BodyTexts(bodies[i..]) == BodyTexts(bodies)
    {
      assert bodies[i..][1..] == bodies[i + 1..];
      Assoc(bodies[i].text, "\n", BodyTexts(bodies[i + 1..]));
      Assoc(text, bodies[i].text + "\n", BodyTexts(bodies[i + 1..]));
      text := text + (bodies[i].text + "\n");
    }
    assert bodies[|bodies|..] == [] && text + "" == text;
  }

  method WriteStub(form: string, ctrl: string, event: string, indent: string) returns (text: string)
    ensures text == StubText(form, ctrl, event, indent)
  {
    OnArgsText(form, ctrl, event);
    FormOnPath();
    StubSpelled(indent, Quote(Lua, EventPath(form, ctrl, event)));
    var call := if ctrl == "@form" then Quote(Go, form) + ", " + Quote(Go, event)
      else Quote(Go, form) + ", " + Quote(Go, ctrl) + ", " + Quote(Go, event);
    var path := if ctrl == "@form" then form + "." + event else form + "." + ctrl + "." + event;
    text := indent + ("k.form.on(" + (call + (", function()\n" + (indent + "  k.print(" + Quote(Lua, path) + ")\n" + (indent + "end)\n\n")))));
    OnSpelled(indent, call, StubEnd(indent, path));
  }

  lemma OnSpelled(indent: string, call: string, end: string)
    ensures indent + ("k.form.on(" + (call + (", " + end))) == indent + ("k.form.on" + ("(" + (call + (", " + end))))
  {
    assert "k.form.on(" == "k.form.on" + "(";
    Assoc("k.form.on", "(", call + (", " + end));
  }

  lemma StubSpelled(indent: string, quoted: string)
    ensures ", function()\n" + (indent + "  k.print(" + quoted + ")\n" + (indent + "end)\n\n")) ==
      ", " + ("function()\n" + ((indent + "  ") + ("k.print" + ("(" + (quoted + (")\n" + (indent + "end)\n\n")))))))
  {
  }

  method WriteStubs(form: string, stubs: seq<Handlers.Registration>, indent: string) returns (text: string)
    ensures text == StubTexts(form, stubs, indent)
  {
    text := "";
    for i := 0 to |stubs|
      invariant text + StubTexts(form, stubs[i..], indent) == StubTexts(form, stubs, indent)
    {
      assert stubs[i..][1..] == stubs[i + 1..];
      var stub := WriteStub(form, stubs[i].ctrl, stubs[i].event, indent);
      Assoc(text, stub, StubTexts(form, stubs[i + 1..], indent));
      text := text + stub;
    }
    assert stubs[|stubs|..] == [] && text + "" == text;
  }

  /** exportFormLua: one statement after another. */
  method ExportBlock(f: Form, controls: seq<Control>, k: Handlers.Kept, orphans: seq<string>, indent: string, emitShow: bool) returns (text: string)
    ensures text == BlockText(f, controls, k, orphans, indent, emitShow)
  {
    var head := ExportFormNew(f, indent);
    var body := WriteControls(f.name, controls, indent);
    var kept := Handlers.ExportBodies(k, CtrlsOf(controls), orphans);
    var handlers := WriteBodies(kept);
    var defaults := Handlers.ExportDefaults(k, CtrlsOf(controls));
    var stubs := WriteStubs(f.name, defaults, indent);
    var show := if emitShow then ShowText(f.name, indent) else "";
    text := head + (body + (handlers + (stubs + show)));
  }

  // ----- The block read as statements -----

  /** A control the export prints as a call of literals: no inline functions, and plain option keys. */
  predicate IsPlainControl(c: Control) { c.ctype in TYPES && c.inline == map[] && HasPlainKeys(c) }

  predicate ArePlain(controls: seq<Control>) { forall c :: c in controls ==> IsPlainControl(c) }

  /** Every option key is an identifier and every option readable. */
  predicate IsSpeakable(c: Control) { HasBareKeys(c) && OptionsReadable(c) }

  predicate AllSpeakable(controls: seq<Control>) { forall c :: c in controls ==> IsSpeakable(c) }

  function NewStatement(f: Form): (s: Statement) { Statement(FORM_NEW, [Quoted(Go, f.name), FormLit(f)]) }

  lemma NewIsStatement(f: Form)
    ensures IsStatement(NewStatement(f)) && ArgsReadable(NewStatement(f).args)
    ensures Asts(NewStatement(f).args) == [StringE(Requoted(Go, f.name)), TableE(Fields(FormEntries(f)))]
  {
    FormSound(f);
    FormPath();
    TwoAsts(Quoted(Go, f.name), FormLit(f));
  }

  function SaidControls(form: string, controls: seq<Control>, indent: string): (ss: seq<Said>)
    ensures |ss| == |controls|
  {
    if controls == [] then [] else [Spoken(ControlStatement(form, controls[0], indent), false)] + SaidControls(form, controls[1..], indent)
  }

  lemma BeforeNone(r: Option<seq<Said>>)
    ensures Before([], r) == r
  {
    if r.Some? { assert [] + r.value == r.value; }
  }

  lemma {:induction false} ControlsRead(form: string, controls: seq<Control>, indent: string, rest: string)
    requires IsBlanks(indent) && ArePlain(controls)
    ensures ReadScript(ControlTexts(form, controls, indent) + rest) ==
      if AllSpeakable(controls) then Before(SaidControls(form, controls, indent), ReadScript(rest)) else None
  {
    if controls == [] {
      assert "" + rest == rest;
      BeforeNone(ReadScript(rest));
    } else {
      HeadAndTail(controls);
      ControlsRead(form, controls[1..], indent, rest);
      ControlThen(form, controls[0], ControlTexts(form, controls[1..], indent), indent, rest);
      BeforeTwice([Spoken(ControlStatement(form, controls[0], indent), false)], SaidControls(form, controls[1..], indent), ReadScript(rest));
      SpeakableFirst(controls);
    }
  }

  lemma SpeakableFirst(controls: seq<Control>)
    requires controls != []
    ensures AllSpeakable(controls) <==> IsSpeakable(controls[0]) && AllSpeakable(controls[1..])
  {
    HeadAndTail(controls);
  }

  lemma ControlThen(form: string, c: Control, more: string, indent: string, rest: string)
    requires IsBlanks(indent) && IsPlainControl(c)
    ensures ReadScript(ControlText(form, c, indent) + more + rest) ==
      if IsSpeakable(c) then Before([Spoken(ControlStatement(form, c, indent), false)], ReadScript(more + rest)) else None
  {
    Assoc(ControlText(form, c, indent), more, rest);
    ControlReads(form, c, indent, more + rest);
  }

  /** What a k.form.on call says: the form, and the control ("@form" for the form itself) and event. */
  function OnOf(s: Said): (r: Option<(string, string, string)>) {
    var args, n := s.call.args, |s.call.args| + if s.handler then 1 else 0;
    if s.call.path != FORM_ON || n < 3 || ExprName(args[0]) == "" then None
    else if n == 3 then if ExprName(args[1]) == "" then None else Some((ExprName(args[0]), Handlers.FORM, ExprName(args[1])))
    else if ExprName(args[1]) == "" || ExprName(args[2]) == "" then None
    else Some((ExprName(args[0]), ExprName(args[1]), ExprName(args[2])))
  }

  /** The text is one k.form.on statement for that form, control and event. */
  predicate IsOnText(form: string, r: Handlers.Registration) {
    var ss := ReadScript(r.text);
    ss.Some? && |ss.value| == 1 && OnOf(ss.value[0]) == Some((form, r.ctrl, r.event))
  }

  predicate AreOnTexts(form: string, bodies: seq<Handlers.Registration>) { forall r :: r in bodies ==> IsOnText(form, r) }

  function SaidBodies(form: string, bodies: seq<Handlers.Registration>): (ss: seq<Said>)
    requires AreOnTexts(form, bodies)
    ensures |ss| == |bodies|
  {
    if bodies == [] then []
    else
      assert IsOnText(form, bodies[0]);
      ReadScript(bodies[0].text).value + SaidBodies(form, bodies[1..])
  }

  lemma {:induction false} BodiesRead(form: string, bodies: seq<Handlers.Registration>, rest: string)
    requires AreOnTexts(form, bodies)
    ensures ReadScript(BodyTexts(bodies) + rest) == Before(SaidBodies(form, bodies), ReadScript(rest))
  {
    if bodies == [] {
      assert "" + rest == rest;
      BeforeNone(ReadScript(rest));
    } else {
      var more := BodyTexts(bodies[1..]);
      assert IsOnText(form, bodies[0]);
      BodiesRead(form, bodies[1..], rest);
      Assoc(bodies[0].text, "\n" + more, rest);
      Assoc("\n", more, rest);
      ScriptThen(bodies[0].text, more + rest);
      BeforeTwice(ReadScript(bodies[0].text).value, SaidBodies(form, bodies[1..]), ReadScript(rest));
    }
  }

  lemma FormOnPath()
    ensures IsPath(FORM_ON) && Join(FORM_ON, ".") == "k.form.on"
  {
    assert IsIdent("k") && IsIdent("form") && IsIdent("on");
    assert !IsReserved("k") && !IsReserved("form") && !IsReserved("on");
    assert FORM_ON[1..] == ["form", "on"] && ["form", "on"][1..] == ["on"];
    assert Join(["form", "on"], ".") == "form.on";
  }

  lemma OnArgsText(form: string, ctrl: string, event: string)
    ensures Join(ArgTexts(OnArgs(form, ctrl, event)), ", ") ==
      if ctrl == Handlers.FORM then Quote(Go, form) + ", " + Quote(Go, event)
      else Quote(Go, form) + ", " + Quote(Go, ctrl) + ", " + Quote(Go, event)
    ensures ArgsWellLaid(OnArgs(form, ctrl, event)) && ArgsReadable(OnArgs(form, ctrl, event)) && OnArgs(form, ctrl, event) != []
    ensures Asts(OnArgs(form, ctrl, event)) ==
      if ctrl == Handlers.FORM then [StringE(Requoted(Go, form)), StringE(Requoted(Go, event))]
      else [StringE(Requoted(Go, form)), StringE(Requoted(Go, ctrl)), StringE(Requoted(Go, event))]
  {
    var a, b, c := Quoted(Go, form), Quoted(Go, ctrl), Quoted(Go, event);
    if ctrl == Handlers.FORM {
      TwoAsts(a, c);
      assert [a, c][1..] == [c] && ArgTexts([c]) == [LitText(c)];
      assert ArgTexts([a, c]) == [LitText(a)] + [LitText(c)];
      JoinTwo(LitText(a), LitText(c));
    } else {
      ThreeArgs(a, b, c);
      Regroup(LitText(a), ", ", LitText(b), ", " + LitText(c));
      Assoc(LitText(a) + ", " + LitText(b), ", ", LitText(c));
    }
  }

  function PrintTokens(eventPath: string): (r: seq<Token>) {
    [Keyword("function"), Symbol("("), Symbol(")")]
    + ([Name("k"), Symbol("."), Name("print")] + [Symbol("("), StrTok(eventPath), Symbol(")"), Keyword("end"), Symbol(")")])
  }

  lemma PrintEnds(indent: string, eventPath: string, rest: string)
    requires IsBlanks(indent)
    ensures Lex("(" + (Quote(Lua, eventPath) + (")\n" + (indent + "end)\n\n"))) + rest) ==
      Prepend([Symbol("("), StrTok(eventPath), Symbol(")"), Keyword("end"), Symbol(")")], Lex(rest))
  {
    var end := "end" + (")" + ("\n\n" + rest));
    LexBlanks("\n\n", rest);
    LexSymbol(')', "\n\n" + rest);
    assert [')'] + ("\n\n" + rest) == ")" + ("\n\n" + rest);
    assert IsReserved("end") && IsIdent("end");
    LexWord("end", ")" + ("\n\n" + rest));
    PrependTwice([Keyword("end")], [Symbol(")")], Lex(rest));
    LexBlanks("\n" + indent, end);
    LexSymbol(')', "\n" + indent + end);
    PrependTwice([Symbol(")")], [Keyword("end")] + [Symbol(")")], Lex(rest));
    var close := [')'] + ("\n" + indent + end);
    LexQuoted(Lua, eventPath, close);
    RequotedIsSame(Lua, eventPath);
    PrependTwice([StrTok(eventPath)], [Symbol(")")] + ([Keyword("end")] + [Symbol(")")]), Lex(rest));
    LexSymbol('(', Quote(Lua, eventPath) + close);
    PrependTwice([Symbol("(")], [StrTok(eventPath)] + ([Symbol(")")] + ([Keyword("end")] + [Symbol(")")])), Lex(rest));
    FiveTokens(Symbol("("), StrTok(eventPath), Symbol(")"), Keyword("end"), Symbol(")"));
    PrintSpelled(Quote(Lua, eventPath), indent, rest);
  }

  lemma FiveTokens(a: Token, b: Token, c: Token, d: Token, e: Token)
    ensures [a] + ([b] + ([c] + ([d] + [e]))) == [a, b, c, d, e]
  {
  }

  lemma PrintSpelled(quoted: string, indent: string, rest: string)
    ensures "(" + (quoted + (")\n" + (indent + "end)\n\n"))) + rest ==
      ['('] + (quoted + ([')'] + ("\n" + indent + ("end" + (")" + ("\n\n" + rest))))))
  {
  }

  lemma StubEndLexes(indent: string, eventPath: string, rest: string)
    requires IsBlanks(indent)
    ensures Lex(StubEnd(indent, eventPath) + rest) == Prepend(PrintTokens(eventPath), Lex(rest))
  {
    var tail := "(" + (Quote(Lua, eventPath) + (")\n" + (indent + "end)\n\n"))) + rest;
    PrintEnds(indent, eventPath, rest);
    PrintPath();
    LexPath(["k", "print"], tail);
    var call := "k.print" + tail;
    LexBlanks("\n" + (indent + "  "), call);
    LexSymbol(')', "\n" + (indent + "  ") + call);
    LexSymbol('(', [')'] + ("\n" + (indent + "  ") + call));
    assert IsReserved("function") && IsIdent("function");
    LexWord("function", ['('] + ([')'] + ("\n" + (indent + "  ") + call)));
    StubJoined(Lex(rest), eventPath, Lex(tail));
    FunctionSpelled(indent, Quote(Lua, eventPath), rest);
  }

  lemma StubJoined(r: Option<seq<Token>>, eventPath: string, tail: Option<seq<Token>>)
    requires tail == Prepend([Symbol("("), StrTok(eventPath), Symbol(")"), Keyword("end"), Symbol(")")], r)
    ensures Prepend([Keyword("function")], Prepend([Symbol("(")], Prepend([Symbol(")")], Prepend([Name("k"), Symbol("."), Name("print")], tail)))) ==
      Prepend(PrintTokens(eventPath), r)
  {
    var path, end := [Name("k"), Symbol("."), Name("print")], [Symbol("("), StrTok(eventPath), Symbol(")"), Keyword("end"), Symbol(")")];
    PrependTwice(path, end, r);
    PrependTwice([Symbol(")")], path + end, r);
    PrependTwice([Symbol("(")], [Symbol(")")] + (path + end), r);
    PrependTwice([Keyword("function")], [Symbol("(")] + ([Symbol(")")] + (path + end)), r);
    Assoc([Symbol("(")], [Symbol(")")], path + end);
    Assoc([Keyword("function")], [Symbol("(")] + [Symbol(")")], path + end);
    assert [Keyword("function")] + ([Symbol("(")] + [Symbol(")")]) == [Keyword("function"), Symbol("("), Symbol(")")];
  }

  lemma PrintPath()
    ensures IsPath(["k", "print"]) && Join(["k", "print"], ".") == "k.print"
    ensures PathTokens(["k", "print"]) == [Name("k"), Symbol("."), Name("print")]
  {
    assert IsIdent("k") && IsIdent("print") && !IsReserved("k") && !IsReserved("print");
    assert ["k", "print"][1..] == ["print"];
  }

  lemma FunctionSpelled(indent: string, quoted: string, rest: string)
    ensures "function()\n" + ((indent + "  ") + ("k.print" + ("(" + (quoted + (")\n" + (indent + "end)\n\n")))))) + rest ==
      "function" + (['('] + ([')'] + ("\n" + (indent + "  ") + ("k.print" + ("(" + (quoted + (")\n" + (indent + "end)\n\n"))) + rest)))))
  {
  }

  /** The body of a stub is passed over up to its end. */
  lemma StubParses(eventPath: string, rest: seq<Token>)
    ensures ParseTail(PrintTokens(eventPath) + rest) == Some(Arguments([], true, rest))
  {
    var ts := PrintTokens(eventPath) + rest;
    var body := [Name("k"), Symbol("."), Name("print"), Symbol("("), StrTok(eventPath), Symbol(")"), Keyword("end"), Symbol(")")] + rest;
    assert ts == [Keyword("function"), Symbol("("), Symbol(")")] + body;
    assert ts[2..] == [Symbol(")")] + body && ([Symbol(")")] + body)[1..] == body;
    PrintSkipped(eventPath, rest, body);
    assert ([Symbol(")")] + rest)[1..] == rest;
  }

  lemma PrintSkipped(eventPath: string, rest: seq<Token>, body: seq<Token>)
    requires body == [Name("k"), Symbol("."), Name("print"), Symbol("("), StrTok(eventPath), Symbol(")"), Keyword("end"), Symbol(")")] + rest
    ensures SkipBody(body, 0) == Some([Symbol(")")] + rest)
  {
    PassOver(body, 6);
    assert body[6..][1..] == [Symbol(")")] + rest;
  }

  lemma {:induction false} PassOver(ts: seq<Token>, n: nat)
    requires n <= |ts| && forall i :: 0 <= i < n ==> !ts[i].Keyword?
    ensures SkipBody(ts, 0) == SkipBody(ts[n..], 0)
  {
    if n > 0 {
      assert ts[1..][n - 1..] == ts[n..];
      PassOver(ts[1..], n - 1);
    }
  }

  function OnStatement(form: string, ctrl: string, event: string): (s: Statement) { Statement(FORM_ON, OnArgs(form, ctrl, event)) }

  lemma StubReads(form: string, ctrl: string, event: string, indent: string, rest: string)
    requires IsBlanks(indent)
    ensures ReadScript(StubText(form, ctrl, event, indent) + rest) ==
      Before([Spoken(OnStatement(form, ctrl, event), true)], ReadScript(rest))
  {
    var args, end := OnArgs(form, ctrl, event), StubEnd(indent, EventPath(form, ctrl, event));
    FormOnPath();
    OnArgsText(form, ctrl, event);
    OpenTextMore(indent, Join(FORM_ON, "."), Join(ArgTexts(args), ", ") + (", " + end), rest);
    Assoc(Join(ArgTexts(args), ", "), ", " + end, rest);
    Assoc(", ", end, rest);
    OpenReads(indent, FORM_ON, Join(ArgTexts(args), ", ") + (", " + (end + rest)));
    LexArgs(args, ", " + (end + rest));
    LexCommaBlank(' ', end + rest);
    assert [',', ' '] + (end + rest) == ", " + (end + rest);
    StubEndLexes(indent, EventPath(form, ctrl, event), rest);
    if Lex(rest).Some? { StubTail(args, EventPath(form, ctrl, event), Lex(rest).value); }
  }

  lemma StubTail(args: seq<Lit>, eventPath: string, rest: seq<Token>)
    requires args != [] && ArgsReadable(args)
    ensures ParseTail(ArgTokens(args) + ([Symbol(",")] + (PrintTokens(eventPath) + rest))) == Some(Arguments(Asts(args), true, rest))
  {
    var next := [Symbol(",")] + (PrintTokens(eventPath) + rest);
    TailOfArgs(args, next);
    assert next[1..] == PrintTokens(eventPath) + rest;
    StubParses(eventPath, rest);
    assert Asts(args) + [] == Asts(args);
  }

  function SaidStubs(form: string, stubs: seq<Handlers.Registration>): (ss: seq<Said>)
    ensures |ss| == |stubs|
  {
    if stubs == [] then [] else [Spoken(OnStatement(form, stubs[0].ctrl, stubs[0].event), true)] + SaidStubs(form, stubs[1..])
  }

  lemma {:induction false} StubsRead(form: string, stubs: seq<Handlers.Registration>, indent: string, rest: string)
    requires IsBlanks(indent)
    ensures ReadScript(StubTexts(form, stubs, indent) + rest) == Before(SaidStubs(form, stubs), ReadScript(rest))
  {
    if stubs == [] {
      assert "" + rest == rest;
      BeforeNone(ReadScript(rest));
    } else {
      var more := StubTexts(form, stubs[1..], indent);
      StubsRead(form, stubs[1..], indent, rest);
      Assoc(StubText(form, stubs[0].ctrl, stubs[0].event, indent), more, rest);
      StubReads(form, stubs[0].ctrl, stubs[0].event, indent, more + rest);
      BeforeTwice([Spoken(OnStatement(form, stubs[0].ctrl, stubs[0].event), true)], SaidStubs(form, stubs[1..]), ReadScript(rest));
    }
  }

  lemma ShowIsStatement(form: string)
    ensures IsStatement(Statement(FORM_SHOW, [Quoted(Go, form)])) && ArgsReadable([Quoted(Go, form)])
    ensures Asts([Quoted(Go, form)]) == [StringE(Requoted(Go, form))]
    ensures Join(FORM_SHOW, ".") == "k.form.show" && Join(ArgTexts([Quoted(Go, form)]), ", ") == Quote(Go, form)
  {
    assert IsIdent("k") && IsIdent("form") && IsIdent("show");
    assert !IsReserved("k") && !IsReserved("form") && !IsReserved("show");
    assert FORM_SHOW[1..] == ["form", "show"] && ["form", "show"][1..] == ["show"];
    assert Join(["form", "show"], ".") == "form.show";
    var q := Quoted(Go, form);
    assert [q][1..] == [] && ArgTexts([q]) == [LitText(q)];
  }

  function SaidShow(form: string, emitShow: bool): (ss: seq<Said>) {
    if emitShow then [Spoken(Statement(FORM_SHOW, [Quoted(Go, form)]), false)] else []
  }

  lemma ShowReads(form: string, indent: string, emitShow: bool)
    requires IsBlanks(indent)
    ensures ReadScript(if emitShow then ShowText(form, indent) else "") == Some(SaidShow(form, emitShow))
  {
    if emitShow {
      var s := Statement(FORM_SHOW, [Quoted(Go, form)]);
      ShowIsStatement(form);
      StatementReads(indent, s, "\n");
      LexBlanks("\n", "");
      assert "\n" + "" == "\n";
      NothingMore(Spoken(s, false));
    }
  }

  /** Every statement of the block, in order. */
  function SaidBlock(f: Form, controls: seq<Control>, bodies: seq<Handlers.Registration>, stubs: seq<Handlers.Registration>, indent: string, emitShow: bool): (ss: seq<Said>)
    requires AreOnTexts(f.name, bodies)
  {
    [Spoken(NewStatement(f), false)]
    + (SaidControls(f.name, controls, indent) + (SaidBodies(f.name, bodies) + (SaidStubs(f.name, stubs) + SaidShow(f.name, emitShow))))
  }

  /** A form's block is read as its statements, in order: the scaffold, the controls, the handlers as written,
      the stubs and the show; or nothing is read, if an option key is no identifier or an option unreadable. */
  lemma BlockReads(f: Form, controls: seq<Control>, k: Handlers.Kept, orphans: seq<string>, indent: string, emitShow: bool)
    requires IsBlanks(indent) && ArePlain(controls) && AreOnTexts(f.name, Bodies(k, controls, orphans))
    ensures ReadScript(BlockText(f, controls, k, orphans, indent, emitShow)) ==
      if AllSpeakable(controls) then Some(SaidBlock(f, controls, Bodies(k, controls, orphans), Stubs(k, controls), indent, emitShow))
      else None
  {
    var bodies, stubs := Bodies(k, controls, orphans), Stubs(k, controls);
    var show := if emitShow then ShowText(f.name, indent) else "";
    var afterBodies := StubTexts(f.name, stubs, indent) + show;
    var afterControls := BodyTexts(bodies) + afterBodies;
    NewIsStatement(f);
    CallTextReads(indent, NewStatement(f), ControlTexts(f.name, controls, indent) + afterControls);
    ControlsRead(f.name, controls, indent, afterControls);
    BodiesRead(f.name, bodies, afterBodies);
    StubsRead(f.name, stubs, indent, show);
    ShowReads(f.name, indent, emitShow);
  }

  // ----- Importing a script -----

  /** The options of a k.form.show. */
  datatype Show = Show(modal: bool, gapX: real, gapY: real)

  const PLAIN_SHOW := Show(false, 0.0, 0.0)

  function PowerOfTen(n: nat): (r: real)
    ensures r > 0.0
  {
    if n == 0 then 1.0 else 10.0 * PowerOfTen(n - 1)
  }

  /** strconv.ParseFloat on a plain decimal. */
  function DecimalValue(text: string): (r: Option<real>) {
    var n := DigitRun(text);
    DigitRunIsDigits(text);
    if text == "" || (n < |text| && (text[n] != '.' || !AllDigits(text[n + 1..]) || |text| == 1)) then None
    else if n == |text| then Some(NatValue(text[..n]) as real)
    else Some(NatValue(text[..n]) as real + NatValue(text[n + 1..]) as real / PowerOfTen(|text| - n - 1))
  }

  function NumberOr(e: Expr, otherwise: real): (r: real) {
    if e.NumberE? && DecimalValue(e.text).Some? then DecimalValue(e.text).value else otherwise
  }

  function GapStep(show: Show, f: Field): (r: Show) {
    if FieldKey(f) == "x" then show.(gapX := NumberOr(f.value, show.gapX))
    else if FieldKey(f) == "y" then show.(gapY := NumberOr(f.value, show.gapY))
    else show
  }

  function ShowStep(show: Show, f: Field): (r: Show) {
    if FieldKey(f) == "modal" then
      if f.value.TrueE? then show.(modal := true) else if f.value.FalseE? then show.(modal := false) else show
    else if FieldKey(f) == "gap" then
      if f.value.TableE? then Fold(GapStep, show, f.value.fields)
      else show.(gapX := NumberOr(f.value, show.gapX), gapY := NumberOr(f.value, show.gapY))
    else show
  }

  function ShowOf(call: Call): (r: Show) {
    if |call.args| >= 2 && call.args[1].TableE? then Fold(ShowStep, PLAIN_SHOW, call.args[1].fields) else PLAIN_SHOW
  }

  /** What the importer makes of a form: its scaffold, its controls, the events of each control, and its first
      show. */
  datatype FormRead =
    FormRead(scaffold: Scaffold, controls: seq<Imported>, events: map<string, seq<string>>, shown: bool, show: Show)

  type Forms = map<string, FormRead>

  function AddEvent(events: map<string, seq<string>>, ctrl: string, event: string): (r: map<string, seq<string>>) {
    events[ctrl := (if ctrl in events then events[ctrl] else []) + [event]]
  }

  /** checkCall on a statement: the first k.form.new of a name starts its form; controls, handlers and the first
      show go to forms known. */
  function ScriptStep(m: Forms, s: Said): (r: Forms) {
    var c := s.call;
    var n, k, on := ImportFormNew(c), ImportControl(c), OnOf(s);
    if n.Some? then
      if n.value.0 in m then m else m[n.value.0 := FormRead(n.value.1, [], map[], false, PLAIN_SHOW)]
    else if k.Some? then With(m, k.value.form, [k.value])
    else if on.Some? then Heard(m, on.value.0, on.value.1, on.value.2)
    else if c.path == FORM_SHOW && c.args != [] && ExprName(c.args[0]) in m then Shown(m, ExprName(c.args[0]), ShowOf(c))
    else m
  }

  function Heard(m: Forms, form: string, ctrl: string, event: string): (r: Forms) {
    if form !in m then m else m[form := m[form].(events := AddEvent(m[form].events, ctrl, event))]
  }

  function Shown(m: Forms, form: string, show: Show): (r: Forms) {
    if form !in m || m[form].shown then m else m[form := m[form].(shown := true, show := show)]
  }

  function ImportSaid(m: Forms, ss: seq<Said>): (r: Forms)
    decreases |ss|
  {
    if ss == [] then m else ImportSaid(ScriptStep(m, ss[0]), ss[1..])
  }

  function ImportScript(text: string): (r: Option<Forms>) {
    var ss := ReadScript(text);
    if ss.None? then None else Some(ImportSaid(map[], ss.value))
  }

  method ImportAll(ss: seq<Said>) returns (m: Forms)
    ensures m == ImportSaid(map[], ss)
  {
    m := map[];
    for i := 0 to |ss|
      invariant ImportSaid(m, ss[i..]) == ImportSaid(map[], ss)
    {
      assert ss[i..][1..] == ss[i + 1..];
      m := ScriptStep(m, ss[i]);
    }
    assert ss[|ss|..] == [];
  }

  /** A control as it comes back; one without a name is skipped. */
  function ReadOne(form: string, c: Control): (r: seq<Imported>)
    ensures |r| <= 1
  {
    if c.name == "" then [] else [Imported(form, Requoted(Go, c.name), c.ctype, Canonical(c.ctype, ReadableOptions(c)))]
  }

  function ReadControls(form: string, controls: seq<Control>): (r: seq<Imported>)
    ensures |r| <= |controls|
  {
    if controls == [] then [] else ReadOne(form, controls[0]) + ReadControls(form, controls[1..])
  }

  /** The form with more controls, if it is known. */
  function With(m: Forms, form: string, more: seq<Imported>): (r: Forms) {
    if form !in m then m else m[form := m[form].(controls := m[form].controls + more)]
  }

  lemma WithTwice(m: Forms, form: string, a: seq<Imported>, b: seq<Imported>)
    ensures With(With(m, form, a), form, b) == With(m, form, a + b)
  {
    if form in m { Assoc(m[form].controls, a, b); }
  }

  lemma WithNone(m: Forms, form: string)
    ensures With(m, form, []) == m
  {
    if form in m { assert m[form].controls + [] == m[form].controls; }
  }

  lemma {:induction false} ImportMore(m: Forms, a: seq<Said>, b: seq<Said>)
    ensures ImportSaid(m, a + b) == ImportSaid(ImportSaid(m, a), b)
    decreases |a|
  {
    if a == [] {
      assert a + b == b;
    } else {
      assert (a + b)[1..] == a[1..] + b;
      ImportMore(ScriptStep(m, a[0]), a[1..], b);
    }
  }

  lemma ImportFirst(m: Forms, s: Said, rest: seq<Said>)
    ensures ImportSaid(m, [s] + rest) == ImportSaid(ScriptStep(m, s), rest)
  {
    assert ([s] + rest)[1..] == rest;
  }

  /** The form as its own statement leaves it. */
  function Fresh(f: Form): (m: Forms)
    ensures "" !in m
  {
    if f.name == "" then map[] else map[Requoted(Go, f.name) := FormRead(NormalScaffold(f), [], map[], false, PLAIN_SHOW)]
  }

  lemma NewStep(f: Form)
    ensures ScriptStep(map[], Spoken(NewStatement(f), false)) == Fresh(f)
  {
    NewIsStatement(f);
    ImportsScaffold(Requoted(Go, f.name), Fields(FormEntries(f)));
    ScaffoldReads(f);
  }

  lemma ControlSays(m: Forms, form: string, name: string, c: Control, t: Expr, s: Said)
    requires c.ctype in TYPES && t.TableE? && name == Requoted(Go, c.name) && "" !in m
    requires s.call == Call(ControlPath(c.ctype), [StringE(form), StringE(name), t]) && ReadOpts(t.fields) == ReadableOptions(c)
    ensures ScriptStep(m, s) == With(m, form, ReadOne(form, c))
  {
    ImportsCall(form, name, c.ctype, t);
    if c.name == "" {
      WithNone(m, form);
      assert ImportControl(s.call) == None && s.call.path[1] == "ctrl";
    }
  }

  lemma ControlStep(m: Forms, name: string, c: Control, indent: string)
    requires IsBlanks(indent) && IsPlainControl(c) && HasBareKeys(c) && "" !in m
    ensures ScriptStep(m, Spoken(ControlStatement(name, c, indent), false)) == With(m, Requoted(Go, name), ReadOne(Requoted(Go, name), c))
  {
    ControlIsStatement(name, c, indent);
    ControlLitReads(c, indent);
    ControlSays(m, Requoted(Go, name), Requoted(Go, c.name), c, Ast(ControlLit(c, indent)), Spoken(ControlStatement(name, c, indent), false));
  }

  lemma {:induction false} ControlsImport(m: Forms, name: string, controls: seq<Control>, indent: string)
    requires IsBlanks(indent) && ArePlain(controls) && AllSpeakable(controls) && "" !in m
    ensures ImportSaid(m, SaidControls(name, controls, indent)) == With(m, Requoted(Go, name), ReadControls(Requoted(Go, name), controls))
    decreases |controls|
  {
    var form := Requoted(Go, name);
    if controls == [] {
      WithNone(m, form);
    } else {
      var c, rest := controls[0], controls[1..];
      ControlStep(m, name, c, indent);
      ImportFirst(m, Spoken(ControlStatement(name, c, indent), false), SaidControls(name, rest, indent));
      ControlsImport(With(m, form, ReadOne(form, c)), name, rest, indent);
      WithTwice(m, form, ReadOne(form, c), ReadControls(form, rest));
    }
  }

  // ----- Handlers -----

  /** The events of some handlers added to those known, in order. */
  function AddAll(events: map<string, seq<string>>, rs: seq<Handlers.Registration>): (r: map<string, seq<string>>)
    decreases |rs|
  {
    if rs == [] then events else AddAll(AddEvent(events, rs[0].ctrl, rs[0].event), rs[1..])
  }

  lemma {:induction false} AddMore(events: map<string, seq<string>>, a: seq<Handlers.Registration>, b: seq<Handlers.Registration>)
    ensures AddAll(events, a + b) == AddAll(AddAll(events, a), b)
    decreases |a|
  {
    if a == [] {
      assert a + b == b;
    } else {
      assert (a + b)[1..] == a[1..] + b;
      AddMore(AddEvent(events, a[0].ctrl, a[0].event), a[1..], b);
    }
  }

  predicate AllNamed(rs: seq<Handlers.Registration>) { forall r :: r in rs ==> Handlers.IsNamed(r) }

  /** They are the events module Handlers' importer lists. */
  lemma {:induction false} AddedAreImported(rs: seq<Handlers.Registration>)
    requires AllNamed(rs)
    ensures AddAll(map[], rs) == Handlers.Imported(rs).events
  {
    if rs != [] {
      var n := |rs| - 1;
      AddedAreImported(rs[..n]);
      InitAndLast(rs);
      AddMore(map[], rs[..n], [rs[n]]);
      assert [rs[n]][1..] == [];
    }
  }

  function HeardAll(m: Forms, form: string, rs: seq<Handlers.Registration>): (r: Forms) {
    if form !in m then m else m[form := m[form].(events := AddAll(m[form].events, rs))]
  }

  lemma HeardFirst(m: Forms, form: string, r: Handlers.Registration, rest: seq<Handlers.Registration>)
    ensures HeardAll(Heard(m, form, r.ctrl, r.event), form, rest) == HeardAll(m, form, [r] + rest)
  {
    assert ([r] + rest)[1..] == rest;
  }

  lemma HeardNone(m: Forms, form: string)
    ensures HeardAll(m, form, []) == m
  {
  }

  lemma OnStep(m: Forms, s: Said, form: string, ctrl: string, event: string)
    requires OnOf(s) == Some((form, ctrl, event))
    ensures ScriptStep(m, s) == Heard(m, form, ctrl, event)
  {
    assert s.call.path[1] == "form" && s.call.path[2] == "on" && FORM_NEW[2] == "new";
    assert ImportFormNew(s.call) == None && ImportControl(s.call) == None;
  }

  lemma {:induction false} BodiesImport(m: Forms, form: string, bodies: seq<Handlers.Registration>)
    requires AreOnTexts(form, bodies)
    ensures ImportSaid(m, SaidBodies(form, bodies)) == HeardAll(m, form, bodies)
    decreases |bodies|
  {
    if bodies == [] {
      HeardNone(m, form);
    } else {
      var r := bodies[0];
      assert IsOnText(form, r);
      var said := ReadScript(r.text).value;
      assert said == [said[0]];
      OnStep(m, said[0], form, r.ctrl, r.event);
      ImportFirst(m, said[0], SaidBodies(form, bodies[1..]));
      BodiesImport(Heard(m, form, r.ctrl, r.event), form, bodies[1..]);
      HeardFirst(m, form, r, bodies[1..]);
      HeadAndTail(bodies);
    }
  }

  /** A stub as it comes back; one without a control or an event is skipped. */
  function ReadStub(r: Handlers.Registration): (rs: seq<Handlers.Registration>) {
    var ctrl, event := if r.ctrl == Handlers.FORM then r.ctrl else Requoted(Go, r.ctrl), Requoted(Go, r.event);
    if ctrl == "" || event == "" then [] else [Handlers.Registration(ctrl, event, r.text, r.direct)]
  }

  function ReadStubs(stubs: seq<Handlers.Registration>): (rs: seq<Handlers.Registration>) {
    if stubs == [] then [] else ReadStub(stubs[0]) + ReadStubs(stubs[1..])
  }

  lemma StubSays(name: string, r: Handlers.Registration)
    ensures OnOf(Spoken(OnStatement(name, r.ctrl, r.event), true)) ==
      if name == "" || ReadStub(r) == [] then None
      else Some((Requoted(Go, name), ReadStub(r)[0].ctrl, ReadStub(r)[0].event))
  {
    OnArgsText(name, r.ctrl, r.event);
  }

  lemma NothingSaid(m: Forms, s: Said)
    requires s.call.path == FORM_ON && OnOf(s) == None
    ensures ScriptStep(m, s) == m
  {
    assert FORM_ON[1] == "form" && FORM_ON[2] == "on" && FORM_NEW[2] == "new" && FORM_SHOW[2] == "show";
    assert ImportFormNew(s.call) == None && ImportControl(s.call) == None;
  }

  lemma StubStep(m: Forms, name: string, r: Handlers.Registration)
    requires "" !in m
    ensures ScriptStep(m, Spoken(OnStatement(name, r.ctrl, r.event), true)) == HeardAll(m, Requoted(Go, name), ReadStub(r))
  {
    var s, form := Spoken(OnStatement(name, r.ctrl, r.event), true), Requoted(Go, name);
    StubSays(name, r);
    if OnOf(s).Some? {
      var x := ReadStub(r)[0];
      OnStep(m, s, form, x.ctrl, x.event);
      HeardFirst(m, form, x, []);
      HeardNone(Heard(m, form, x.ctrl, x.event), form);
      assert [x] + [] == [x] == ReadStub(r);
    } else {
      NothingSaid(m, s);
      if name != "" { HeardNone(m, form); }
    }
  }

  lemma HeardTwice(m: Forms, form: string, a: seq<Handlers.Registration>, b: seq<Handlers.Registration>)
    ensures HeardAll(HeardAll(m, form, a), form, b) == HeardAll(m, form, a + b)
  {
    if form in m { AddMore(m[form].events, a, b); }
  }

  lemma {:induction false} StubsImport(m: Forms, name: string, stubs: seq<Handlers.Registration>)
    requires "" !in m
    ensures ImportSaid(m, SaidStubs(name, stubs)) == HeardAll(m, Requoted(Go, name), ReadStubs(stubs))
    decreases |stubs|
  {
    var form := Requoted(Go, name);
    if stubs == [] {
      HeardNone(m, form);
    } else {
      StubStep(m, name, stubs[0]);
      ImportFirst(m, Spoken(OnStatement(name, stubs[0].ctrl, stubs[0].event), true), SaidStubs(name, stubs[1..]));
      StubsImport(HeardAll(m, form, ReadStub(stubs[0])), name, stubs[1..]);
      HeardTwice(m, form, ReadStub(stubs[0]), ReadStubs(stubs[1..]));
    }
  }

  lemma ShowImports(m: Forms, name: string, emitShow: bool)
    ensures ImportSaid(m, SaidShow(name, emitShow)) ==
      if emitShow then Shown(m, Requoted(Go, name), PLAIN_SHOW) else m
  {
    if emitShow {
      var s := Said(Call(FORM_SHOW, [StringE(Requoted(Go, name))]), false);
      ShowIsStatement(name);
      assert [s][1..] == [];
      assert s.call.path[1] == "form" && s.call.path[2] == "show" && FORM_NEW[2] == "new" && FORM_ON[2] == "on";
      assert ImportFormNew(s.call) == None && ImportControl(s.call) == None && OnOf(s) == None;
      assert ImportSaid(m, [s]) == ScriptStep(m, s);
    }
  }

  // ----- The round trip -----

  /** What a form's block imports as. A handler as written goes to the form of its own name. */
  function Reread(f: Form, controls: seq<Control>, bodies: seq<Handlers.Registration>, stubs: seq<Handlers.Registration>, emitShow: bool): (r: Forms) {
    var form := Requoted(Go, f.name);
    var events := AddAll(map[], (if form == f.name then bodies else []) + ReadStubs(stubs));
    if f.name == "" then map[]
    else map[form := FormRead(NormalScaffold(f), ReadControls(form, controls), events, emitShow, PLAIN_SHOW)]
  }

  lemma BlockImports(f: Form, controls: seq<Control>, bodies: seq<Handlers.Registration>, stubs: seq<Handlers.Registration>, indent: string, emitShow: bool)
    requires IsBlanks(indent) && ArePlain(controls) && AllSpeakable(controls) && AreOnTexts(f.name, bodies)
    ensures ImportSaid(map[], SaidBlock(f, controls, bodies, stubs, indent, emitShow)) == Reread(f, controls, bodies, stubs, emitShow)
  {
    var form, name := Requoted(Go, f.name), f.name;
    var cs, bs := SaidControls(name, controls, indent), SaidBodies(name, bodies);
    var ss, show := SaidStubs(name, stubs), SaidShow(name, emitShow);
    NewStep(f);
    ImportFirst(map[], Spoken(NewStatement(f), false), cs + (bs + (ss + show)));
    var m1 := With(Fresh(f), form, ReadControls(form, controls));
    ImportMore(Fresh(f), cs, bs + (ss + show));
    ControlsImport(Fresh(f), name, controls, indent);
    ImportMore(m1, bs, ss + show);
    BodiesImport(m1, name, bodies);
    var m2 := HeardAll(m1, name, bodies);
    ImportMore(m2, ss, show);
    StubsImport(m2, name, stubs);
    ShowImports(HeardAll(m2, form, ReadStubs(stubs)), name, emitShow);
    Assembled(f, controls, bodies, ReadStubs(stubs), emitShow);
  }

  lemma Assembled(f: Form, controls: seq<Control>, bodies: seq<Handlers.Registration>, stubs: seq<Handlers.Registration>, emitShow: bool)
    ensures var form := Requoted(Go, f.name);
      var m := HeardAll(HeardAll(With(Fresh(f), form, ReadControls(form, controls)), f.name, bodies), form, stubs);
      (if emitShow then Shown(m, form, PLAIN_SHOW) else m) ==
      if f.name == "" then map[]
      else map[form := FormRead(NormalScaffold(f), ReadControls(form, controls),
        AddAll(map[], (if form == f.name then bodies else []) + stubs), emitShow, PLAIN_SHOW)]
  {
    var form := Requoted(Go, f.name);
    if f.name != "" {
      var cs := ReadControls(form, controls);
      WithControls(form, NormalScaffold(f), cs);
      AddSome(form == f.name, bodies, stubs);
      Gathered(form, f.name, FormRead(NormalScaffold(f), cs, map[], false, PLAIN_SHOW), bodies, stubs, emitShow);
    }
  }

  lemma WithControls(form: string, scaffold: Scaffold, cs: seq<Imported>)
    ensures With(map[form := FormRead(scaffold, [], map[], false, PLAIN_SHOW)], form, cs) ==
      map[form := FormRead(scaffold, cs, map[], false, PLAIN_SHOW)]
  {
    assert [] + cs == cs;
  }

  lemma AddSome(same: bool, bodies: seq<Handlers.Registration>, stubs: seq<Handlers.Registration>)
    ensures AddAll(if same then AddAll(map[], bodies) else map[], stubs) == AddAll(map[], (if same then bodies else []) + stubs)
  {
    if same { AddMore(map[], bodies, stubs); } else { assert [] + stubs == stubs; }
  }

  lemma Gathered(form: string, name: string, r: FormRead, bodies: seq<Handlers.Registration>, stubs: seq<Handlers.Registration>, emitShow: bool)
    requires r.events == map[] && !r.shown && r.show == PLAIN_SHOW
    ensures var m := HeardAll(HeardAll(map[form := r], name, bodies), form, stubs);
      var events := AddAll(if form == name then AddAll(map[], bodies) else map[], stubs);
      (if emitShow then Shown(m, form, PLAIN_SHOW) else m) == map[form := r.(events := events, shown := emitShow)]
  {
  }

  /** Exporting a form's block and importing it as a script gives its normal scaffold, its controls in order,
      each with its canonical options, and the events of its handlers and stubs; nothing at all when an
      option key of any control is no identifier or an option is unreadable. */
  lemma BlockReadsBack(f: Form, controls: seq<Control>, k: Handlers.Kept, orphans: seq<string>, indent: string, emitShow: bool)
    requires IsBlanks(indent) && ArePlain(controls) && AreOnTexts(f.name, Bodies(k, controls, orphans))
    ensures ImportScript(BlockText(f, controls, k, orphans, indent, emitShow)) ==
      if AllSpeakable(controls) then Some(Reread(f, controls, Bodies(k, controls, orphans), Stubs(k, controls), emitShow)) else None
  {
    BlockReads(f, controls, k, orphans, indent, emitShow);
    if AllSpeakable(controls) { BlockImports(f, controls, Bodies(k, controls, orphans), Stubs(k, controls), indent, emitShow); }
  }

  /** A form's own controls, as the importer would hold them. */
  function Own(form: string, controls: seq<Control>): (r: seq<Imported>)
    ensures |r| == |controls|
  {
    if controls == [] then [] else [Imported(form, controls[0].name, controls[0].ctype, controls[0].opts)] + Own(form, controls[1..])
  }

  lemma OneKept(form: string, c: Control)
    requires form != "" && IsQuotable(Go, form) && IsPlainControl(c) && IsSpeakable(c)
    ensures ReadOne(form, c) == [Imported(form, c.name, c.ctype, c.opts)] <==> ControlSurvives(form, c)
  {
    RequotedIsSame(Go, form);
    RequotedIsSame(Go, c.name);
    CanonicalKept(c);
  }

  lemma SplitLists<T>(a: seq<T>, rest: seq<T>, x: T, more: seq<T>)
    requires |a| <= 1 && |rest| <= |more|
    ensures a + rest == [x] + more <==> a == [x] && rest == more
  {
    if a + rest == [x] + more {
      assert |a| == 1 && (a + rest)[0] == a[0] && (a + rest)[1..] == rest && ([x] + more)[1..] == more;
    }
  }

  lemma {:induction false} ControlsKept(form: string, controls: seq<Control>)
    requires form != "" && IsQuotable(Go, form) && ArePlain(controls) && AllSpeakable(controls)
    ensures ReadControls(form, controls) == Own(form, controls) <==> AllSurvive(form, controls)
  {
    if controls != [] {
      var c, rest := controls[0], controls[1..];
      ControlsKept(form, rest);
      OneKept(form, c);
      SplitLists(ReadOne(form, c), ReadControls(form, rest), Imported(form, c.name, c.ctype, c.opts), Own(form, rest));
      HeadAndTail(controls);
      assert (forall x :: x in controls ==> ControlSurvives(form, x)) <==>
             ControlSurvives(form, c) && forall x :: x in rest ==> ControlSurvives(form, x);
    }
  }

  /** The import gave back the form, its controls in order, the events of every handler exported, whether it is
      shown, and how. */
  predicate ReturnsBlock(f: Form, controls: seq<Control>, exported: seq<Handlers.Registration>, emitShow: bool, r: Option<Forms>) {
    && r.Some? && r.value.Keys == {f.name}
    && ReturnsForm(f, Some((f.name, r.value[f.name].scaffold)))
    && r.value[f.name].controls == Own(f.name, controls)
    && r.value[f.name].events == Handlers.Imported(exported).events
    && r.value[f.name].shown == emitShow
    && r.value[f.name].show == Show(f.modal, f.gapX, f.gapY)
  }

  lemma ScaffoldKept(f: Form, indent: string)
    requires IsBlanks(indent) && f.name != ""
    ensures ReturnsForm(f, Some((Requoted(Go, f.name), NormalScaffold(f)))) <==> FormSurvives(f)
  {
    FormReadsBack(f, indent);
    FormRoundTrip(f, indent);
  }

  predicate IsKeptStub(r: Handlers.Registration) {
    r.ctrl != "" && r.event != "" && IsQuotable(Go, r.event) && (r.ctrl == Handlers.FORM || IsQuotable(Go, r.ctrl))
  }

  lemma {:induction false} StubsKept(stubs: seq<Handlers.Registration>)
    requires forall r :: r in stubs ==> IsKeptStub(r)
    ensures ReadStubs(stubs) == stubs
  {
    if stubs != [] {
      var r := stubs[0];
      assert IsKeptStub(r);
      StubsKept(stubs[1..]);
      RequotedIsSame(Go, r.ctrl);
      RequotedIsSame(Go, r.event);
      HeadAndTail(stubs);
    }
  }

  predicate IsEventName(e: string) { e != "" && forall i :: 0 <= i < |e| ==> e[i] == '_' || 'a' <= e[i] <= 'z' }

  lemma FormEventNames()
    ensures forall e :: e in Handlers.FORM_EVENTS ==> IsEventName(e)
  {
    assert IsEventName("open_form") && IsEventName("after_open_form") && IsEventName("close_form");
  }

  lemma ListEventNames()
    ensures IsEventName("onselect") && IsEventName("onclick") && IsEventName("chart_click") && IsEventName("chart_legend_click")
    ensures IsEventName("onchange") && IsEventName("logout") && IsEventName("sidebar_select") && IsEventName("click")
    ensures IsEventName("selection_change")
  {
  }

  lemma TreeEventNames()
    ensures IsEventName("on_click") && IsEventName("on_select") && IsEventName("on_expand") && IsEventName("on_loaded")
    ensures IsEventName("on_error") && IsEventName("on_send") && IsEventName("on_reply") && IsEventName("on_tool") && IsEventName("on_done")
  {
  }

  lemma EventsAreNames(c: Control, event: string)
    requires event in DefaultEvents(c)
    ensures IsEventName(event)
  {
    ListEventNames();
    TreeEventNames();
  }

  lemma NamesAreQuotable(event: string)
    requires IsEventName(event)
    ensures event != "" && IsQuotable(Go, event)
  {
  }

  lemma {:induction false} StubsOfOne(k: Handlers.Kept, ctrl: string, defaults: seq<string>, click: bool, r: Handlers.Registration)
    requires r in Handlers.Stubs(k, ctrl, defaults, click)
    ensures r.ctrl == ctrl && r.event in defaults
  {
    var n := |defaults| - 1;
    if r in Handlers.Stubs(k, ctrl, defaults[..n], click) { StubsOfOne(k, ctrl, defaults[..n], click, r); }
  }

  lemma {:induction false} StubsOfAll(k: Handlers.Kept, controls: seq<Control>, r: Handlers.Registration)
    requires r in Handlers.StubsAll(k, CtrlsOf(controls))
    ensures (r.ctrl == Handlers.FORM && r.event in Handlers.FORM_EVENTS)
      || exists c :: c in controls && r.ctrl == c.name && r.event in DefaultEvents(c)
  {
    if controls == [] {
      StubsOfOne(k, Handlers.FORM, Handlers.FORM_EVENTS, false, r);
    } else {
      var n := |controls| - 1;
      assert CtrlsOf(controls)[..n] == CtrlsOf(controls[..n]);
      if r in Handlers.StubsAll(k, CtrlsOf(controls[..n])) {
        StubsOfAll(k, controls[..n], r);
      } else {
        StubsOfOne(k, controls[n].name, DefaultEvents(controls[n]), Source(controls[n].inline, "onclick") != "", r);
      }
    }
  }

  lemma StubsSurvive(form: string, k: Handlers.Kept, controls: seq<Control>)
    requires AllSurvive(form, controls)
    ensures ReadStubs(Stubs(k, controls)) == Stubs(k, controls) && AllNamed(Stubs(k, controls))
  {
    forall r | r in Stubs(k, controls) ensures IsKeptStub(r) {
      StubsOfAll(k, controls, r);
      if r.ctrl == Handlers.FORM && r.event in Handlers.FORM_EVENTS {
        FormEventNames();
      } else {
        var c :| c in controls && r.ctrl == c.name && r.event in DefaultEvents(c);
        EventsAreNames(c, r.event);
      }
      NamesAreQuotable(r.event);
    }
    StubsKept(Stubs(k, controls));
  }

  predicate AllSurvive(form: string, controls: seq<Control>) { forall c :: c in controls ==> ControlSurvives(form, c) }

  lemma BodiesAreNamed(form: string, bodies: seq<Handlers.Registration>)
    requires AreOnTexts(form, bodies)
    ensures AllNamed(bodies)
  {
    forall r | r in bodies ensures Handlers.IsNamed(r) { assert IsOnText(form, r); }
  }

  lemma RereadReturns(f: Form, controls: seq<Control>, bodies: seq<Handlers.Registration>, stubs: seq<Handlers.Registration>, indent: string, emitShow: bool)
    requires IsBlanks(indent) && f.name != "" && ArePlain(controls) && AllSpeakable(controls)
    requires AllSurvive(f.name, controls) ==> ReadStubs(stubs) == stubs && AllNamed(bodies + stubs)
    ensures ReturnsBlock(f, controls, bodies + stubs, emitShow, Some(Reread(f, controls, bodies, stubs, emitShow))) <==>
      FormSurvives(f) && PlainShow(f) && AllSurvive(f.name, controls)
  {
    RequotedIsSame(Go, f.name);
    ScaffoldKept(f, indent);
    if IsQuotable(Go, f.name) {
      ControlsKept(f.name, controls);
      if AllSurvive(f.name, controls) { AddedAreImported(bodies + stubs); }
      OneForm(f, controls, bodies, stubs, emitShow);
    } else {
      OtherForm(f, controls, bodies, stubs, emitShow);
    }
  }

  lemma OneForm(f: Form, controls: seq<Control>, bodies: seq<Handlers.Registration>, stubs: seq<Handlers.Registration>, emitShow: bool)
    requires f.name != "" && Requoted(Go, f.name) == f.name
    ensures ReturnsBlock(f, controls, bodies + stubs, emitShow, Some(Reread(f, controls, bodies, stubs, emitShow))) <==>
      ReturnsForm(f, Some((f.name, NormalScaffold(f)))) && ReadControls(f.name, controls) == Own(f.name, controls)
      && AddAll(map[], bodies + ReadStubs(stubs)) == Handlers.Imported(bodies + stubs).events && PlainShow(f)
  {
    var m := Reread(f, controls, bodies, stubs, emitShow);
    assert m.Keys == {f.name};
  }

  lemma OtherForm(f: Form, controls: seq<Control>, bodies: seq<Handlers.Registration>, stubs: seq<Handlers.Registration>, emitShow: bool)
    requires f.name != "" && Requoted(Go, f.name) != f.name
    ensures !ReturnsBlock(f, controls, bodies + stubs, emitShow, Some(Reread(f, controls, bodies, stubs, emitShow)))
  {
    assert f.name !in Reread(f, controls, bodies, stubs, emitShow);
  }

  /** A whole form, its handlers exported with it, comes back as itself exactly when its scaffold and every one
      of its controls does and its show options are the default ones, which alone the export writes. */
  lemma BlockRoundTrip(f: Form, controls: seq<Control>, k: Handlers.Kept, orphans: seq<string>, indent: string, emitShow: bool)
    requires IsBlanks(indent) && ArePlain(controls) && AreOnTexts(f.name, Bodies(k, controls, orphans))
    ensures ReturnsBlock(f, controls, Bodies(k, controls, orphans) + Stubs(k, controls), emitShow,
        ImportScript(BlockText(f, controls, k, orphans, indent, emitShow))) <==>
      FormSurvives(f) && PlainShow(f) && AllSurvive(f.name, controls)
  {
    BlockReadsBack(f, controls, k, orphans, indent, emitShow);
    var bodies, stubs := Bodies(k, controls, orphans), Stubs(k, controls);
    if AllSpeakable(controls) && f.name != "" {
      BodiesAreNamed(f.name, bodies);
      if AllSurvive(f.name, controls) { StubsSurvive(f.name, k, controls); }
      RereadReturns(f, controls, bodies, stubs, indent, emitShow);
    } else if !AllSpeakable(controls) {
      var c :| c in controls && !IsSpeakable(c);
      assert !ControlSurvives(f.name, c);
    }
  }
}
