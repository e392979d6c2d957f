/** Event handlers through import and export (internal/builder: lua_import.go, lua_export.go). A script is a
    list of registrations; running it, the last registration of an event stands. */
module Handlers {
  import opened Text

  /** One k.form.on call of a form: for a control, or "@form" for the form itself. text is the call as
      written; direct tells whether it is a statement of its own, not part of another. */
  datatype Registration = Registration(ctrl: string, event: string, text: string, direct: bool)

  const FORM := "@form"

  /** What a script leaves registered. */
  function Registered(script: seq<Registration>): (r: map<(string, string), Registration>) {
    if script == [] then map[]
    else
      var last := script[|script| - 1];
      Registered(script[..|script| - 1])[(last.ctrl, last.event) := last]
  }

  // ----- Import -----

  function Key(ctrl: string, event: string): (r: string) { ctrl + "." + event }

  /** What the importer keeps: the events of each control in order, direct or not, and for each key the
      direct statement that came last. */
  datatype Kept = Kept(events: map<string, seq<string>>, bodies: map<string, Registration>)

  /** importFormOn skips a call without a control or an event. */
  predicate IsNamed(r: Registration) { r.ctrl != "" && r.event != "" }

  function EventsOf(k: Kept, ctrl: string): (r: seq<string>) { if ctrl in k.events then k.events[ctrl] else [] }

  function Imported(script: seq<Registration>): (r: Kept) {
    if script == [] then Kept(map[], map[])
    else
      var k, last := Imported(script[..|script| - 1]), script[|script| - 1];
      if !IsNamed(last) then k
      else Kept(
        k.events[last.ctrl := EventsOf(k, last.ctrl) + [last.event]],
        if last.direct then k.bodies[Key(last.ctrl, last.event) := last] else k.bodies)
  }

  /** importFormOn for every call, then finish for every statement recorded. */
  method ImportHandlers(script: seq<Registration>) returns (k: Kept)
    ensures k == Imported(script)
  {
    var events: map<string, seq<string>> := map[];
    var owned: seq<(string, Registration)> := [];
    for i := 0 to |script|
      invariant events == Imported(script[..i]).events
      invariant owned == Recorded(script[..i])
    {
      assert script[..i + 1][..i] == script[..i];
      var r := script[i];
      if r.ctrl == "" || r.event == "" { continue; }
      events := events[r.ctrl := (if r.ctrl in events then events[r.ctrl] else []) + [r.event]];
      if r.direct { owned := owned + [(r.ctrl + "." + r.event, r)]; }
    }
    assert script[..|script|] == script;
    var bodies := FinishBodies(owned);
    RecordedAre(script);
    return Kept(events, bodies);
  }

  /** What recordSpan keeps: the keys of the direct statements. */
  function Recorded(script: seq<Registration>): (r: seq<(string, Registration)>) {
    if script == [] then []
    else
      var before, last := Recorded(script[..|script| - 1]), script[|script| - 1];
      if IsNamed(last) && last.direct then before + [(Key(last.ctrl, last.event), last)] else before
  }

  function LastOfEach(owned: seq<(string, Registration)>): (r: map<string, Registration>) {
    if owned == [] then map[] else LastOfEach(owned[..|owned| - 1])[owned[|owned| - 1].0 := owned[|owned| - 1].1]
  }

  lemma {:induction false} RecordedAre(script: seq<Registration>)
    ensures LastOfEach(Recorded(script)) == Imported(script).bodies
  {
    if script != [] {
      RecordedAre(script[..|script| - 1]);
      var before, all := Recorded(script[..|script| - 1]), Recorded(script);
      if IsNamed(script[|script| - 1]) && script[|script| - 1].direct { assert all[..|all| - 1] == before; }
    }
  }

  /** The bodies finish captures, statement by statement. */
  method FinishBodies(owned: seq<(string, Registration)>) returns (bodies: map<string, Registration>)
    ensures bodies == LastOfEach(owned)
  {
    bodies := map[];
    for i := 0 to |owned|
      invariant bodies == LastOfEach(owned[..i])
    {
      assert owned[..i + 1][..i] == owned[..i];
      bodies := bodies[owned[i].0 := owned[i].1];
    }
    assert owned[..|owned|] == owned;
  }

  // ----- Export -----

  /** A control to be exported: its default events, and whether it has inline onclick text. */
  datatype Ctrl = Ctrl(name: string, defaults: seq<string>, inlineClick: bool)

  function Emitted(k: Kept, ctrl: string, events: seq<string>): (r: seq<Registration>) {
    if events == [] then []
    else
      var n := |events| - 1;
      var before, key := Emitted(k, ctrl, events[..n]), Key(ctrl, events[n]);
      if events[n] != "" && key in k.bodies then before + [k.bodies[key]] else before
  }

  function EmittedAll(k: Kept, places: seq<string>): (r: seq<Registration>) {
    if places == [] then []
    else
      var n := |places| - 1;
      EmittedAll(k, places[..n]) + Emitted(k, places[n], EventsOf(k, places[n]))
  }

  function CtrlNames(ctrls: seq<Ctrl>): (names: seq<string>)
    ensures |names| == |ctrls| && forall i :: 0 <= i < |ctrls| ==> names[i] == ctrls[i].name
  {
    seq(|ctrls|, i requires 0 <= i < |ctrls| => ctrls[i].name)
  }

  /** Where handlers are looked for: the form, its controls, and the renamed controls kept for their
      handlers, sorted. */
  function Places(ctrls: seq<Ctrl>, orphans: seq<string>): (r: seq<string>) {
    [FORM] + CtrlNames(ctrls) + Sort(multiset(orphans))
  }

  /** hasHandler. */
  predicate HasHandler(k: Kept, ctrl: string, event: string, inlineClick: bool) {
    event in EventsOf(k, ctrl) || (event == "click" && inlineClick)
  }

  function Stub(ctrl: string, event: string): (r: Registration) { Registration(ctrl, event, "stub", true) }

  function Stubs(k: Kept, ctrl: string, defaults: seq<string>, inlineClick: bool): (r: seq<Registration>) {
    if defaults == [] then []
    else
      var n := |defaults| - 1;
      var before := Stubs(k, ctrl, defaults[..n], inlineClick);
      if HasHandler(k, ctrl, defaults[n], inlineClick) then before else before + [Stub(ctrl, defaults[n])]
  }

  const FORM_EVENTS := ["open_form", "after_open_form", "close_form"]

  function StubsAll(k: Kept, ctrls: seq<Ctrl>): (r: seq<Registration>) {
    if ctrls == [] then Stubs(k, FORM, FORM_EVENTS, false)
    else
      var n := |ctrls| - 1;
      StubsAll(k, ctrls[..n]) + Stubs(k, ctrls[n].name, ctrls[n].defaults, ctrls[n].inlineClick)
  }

  method ExportEvents(sb: seq<Registration>, k: Kept, ctrl: string) returns (out: seq<Registration>)
    ensures out == sb + Emitted(k, ctrl, EventsOf(k, ctrl))
  {
    out := sb;
    var events := if ctrl in k.events then k.events[ctrl] else [];
    for i := 0 to |events|
      invariant out == sb + Emitted(k, ctrl, events[..i])
    {
      assert events[..i + 1][..i] == events[..i];
      if events[i] == "" { continue; }
      if Key(ctrl, events[i]) in k.bodies { out := out + [k.bodies[Key(ctrl, events[i])]]; }
    }
    assert events[..|events|] == events;
  }

  method ExportStubs(sb: seq<Registration>, k: Kept, ctrl: string, defaults: seq<string>, inlineClick: bool) returns (out: seq<Registration>)
    ensures out == sb + Stubs(k, ctrl, defaults, inlineClick)
  {
    out := sb;
    for i := 0 to |defaults|
      invariant out == sb + Stubs(k, ctrl, defaults[..i], inlineClick)
    {
      assert defaults[..i + 1][..i] == defaults[..i];
      if HasHandler(k, ctrl, defaults[i], inlineClick) { continue; }
      out := out + [Stub(ctrl, defaults[i])];
    }
    assert defaults[..|defaults|] == defaults;
  }

  lemma EmittedNext(k: Kept, done: seq<string>, name: string)
    ensures EmittedAll(k, done + [name]) == EmittedAll(k, done) + Emitted(k, name, EventsOf(k, name))
  {
    assert (done + [name])[..|done|] == done;
  }

  lemma SomeNext(k: Kept, done: seq<string>, names: seq<string>, i: nat)
    requires i < |names|
    ensures EmittedAll(k, done + names[..i + 1]) == EmittedAll(k, done + names[..i]) + Emitted(k, names[i], EventsOf(k, names[i]))
  {
    assert names[..i + 1] == names[..i] + [names[i]];
    Assoc(done, names[..i], [names[i]]);
    EmittedNext(k, done + names[..i], names[i]);
  }

  lemma NoneYet(k: Kept, done: seq<string>, names: seq<string>)
    ensures EmittedAll(k, done + names[..0]) == EmittedAll(k, done)
    ensures names[..|names|] == names
  {
    assert done + names[..0] == done;
  }

  /** The statements of some places in turn, after those of the places done. */
  method ExportSome(sb: seq<Registration>, k: Kept, names: seq<string>, ghost done: seq<string>) returns (out: seq<Registration>)
    requires sb == EmittedAll(k, done)
    ensures out == EmittedAll(k, done + names)
  {
    out := sb;
    NoneYet(k, done, names);
    for i := 0 to |names|
      invariant out == EmittedAll(k, done + names[..i])
    {
      SomeNext(k, done, names, i);
      out := ExportEvents(out, k, names[i]);
    }
  }

  lemma NoPlaces(k: Kept, places: seq<string>)
    requires places == []
    ensures EmittedAll(k, places) == []
  {
  }

  method ExportParts(k: Kept, form: seq<string>, names: seq<string>, keys: seq<string>) returns (out: seq<Registration>)
    ensures out == EmittedAll(k, [] + form + names + keys)
  {
    ghost var none: seq<string> := [];
    NoPlaces(k, none);
    out := ExportSome([], k, form, none);
    out := ExportSome(out, k, names, none + form);
    out := ExportSome(out, k, keys, none + form + names);
  }

  /** exportHandlers: the form's, each control's, and those of renamed controls. */
  method ExportBodies(k: Kept, ctrls: seq<Ctrl>, orphans: seq<string>) returns (out: seq<Registration>)
    ensures out == EmittedAll(k, Places(ctrls, orphans))
  {
    out := ExportParts(k, [FORM], CtrlNames(ctrls), Sort(multiset(orphans)));
    assert [] + [FORM] == [FORM];
  }

  /** exportDefaultHandlers. */
  method ExportDefaults(k: Kept, ctrls: seq<Ctrl>) returns (out: seq<Registration>)
    ensures out == StubsAll(k, ctrls)
  {
    out := ExportStubs([], k, FORM, FORM_EVENTS, false);
    for i := 0 to |ctrls|
      invariant out == StubsAll(k, ctrls[..i])
    {
      assert ctrls[..i + 1][..i] == ctrls[..i];
      out := ExportStubs(out, k, ctrls[i].name, ctrls[i].defaults, ctrls[i].inlineClick);
    }
    assert ctrls[..|ctrls|] == ctrls;
  }

  method ExportHandlers(k: Kept, ctrls: seq<Ctrl>, orphans: seq<string>) returns (out: seq<Registration>)
    ensures out == EmittedAll(k, Places(ctrls, orphans)) + StubsAll(k, ctrls)
  {
    var bodies := ExportBodies(k, ctrls, orphans);
    var stubs := ExportDefaults(k, ctrls);
    return bodies + stubs;
  }

  // ----- What survives -----

  predicate Has(script: seq<Registration>, ctrl: string, event: string) {
    exists i :: 0 <= i < |script| && script[i].ctrl == ctrl && script[i].event == event
  }

  lemma {:induction false} RegisteredIff(script: seq<Registration>, ctrl: string, event: string)
    ensures (ctrl, event) in Registered(script) <==> Has(script, ctrl, event)
  {
    if script != [] {
      var n := |script| - 1;
      RegisteredIff(script[..n], ctrl, event);
      assert Has(script, ctrl, event) <==> Has(script[..n], ctrl, event) || (script[n].ctrl == ctrl && script[n].event == event) by {
        assert forall i :: 0 <= i < n ==> script[..n][i] == script[i];
      }
    }
  }

  /** An event with a name, of a control with a name. */
  predicate HasNamed(script: seq<Registration>, ctrl: string, event: string) { Has(script, ctrl, event) && ctrl != "" && event != "" }

  predicate HasDirect(script: seq<Registration>, key: string) {
    exists i :: 0 <= i < |script| && IsNamed(script[i]) && script[i].direct && Key(script[i].ctrl, script[i].event) == key
  }

  /** The last direct statement of a key; what stands for its event, if that is a direct statement. */
  lemma {:induction false} BodyIs(script: seq<Registration>, key: string)
    ensures key in Imported(script).bodies <==> HasDirect(script, key)
    ensures key in Imported(script).bodies ==>
      var b := Imported(script).bodies[key];
      IsNamed(b) && b.direct && Key(b.ctrl, b.event) == key && (b.ctrl, b.event) in Registered(script) &&
      (Registered(script)[(b.ctrl, b.event)].direct ==> Registered(script)[(b.ctrl, b.event)] == b)
  {
    if script != [] {
      var n := |script| - 1;
      BodyIs(script[..n], key);
      assert HasDirect(script, key) <==> HasDirect(script[..n], key) || (IsNamed(script[n]) && script[n].direct && Key(script[n].ctrl, script[n].event) == key) by {
        assert forall i :: 0 <= i < n ==> script[..n][i] == script[i];
      }
    }
  }

  lemma {:induction false} EventsAre(script: seq<Registration>, ctrl: string, event: string)
    ensures event in EventsOf(Imported(script), ctrl) <==> HasNamed(script, ctrl, event)
  {
    if script != [] {
      var n := |script| - 1;
      EventsAre(script[..n], ctrl, event);
      assert forall i :: 0 <= i < n ==> script[..n][i] == script[i];
    }
  }

  lemma {:induction false} RegisteredMore(a: seq<Registration>, b: seq<Registration>)
    ensures Registered(a + b) == Registered(a) + Registered(b)
  {
    if b == [] {
      assert a + b == a;
    } else {
      var n := |b| - 1;
      RegisteredMore(a, b[..n]);
      assert (a + b)[..|a + b| - 1] == a + b[..n];
    }
  }

  /** The statement is the body kept under its own key. */
  predicate IsBody(k: Kept, r: Registration) {
    Key(r.ctrl, r.event) in k.bodies && k.bodies[Key(r.ctrl, r.event)] == r
  }

  /** Some event looked for has this key. */
  ghost predicate IsAsked(k: Kept, places: seq<string>, key: string) {
    exists c, e :: Asks(k, places, c, e, key)
  }

  predicate Asks(k: Kept, places: seq<string>, c: string, e: string, key: string) {
    c in places && e in EventsOf(k, c) && Key(c, e) == key
  }

  lemma {:induction false} EmittedAre(script: seq<Registration>, places: seq<string>, c: string, events: seq<string>, r: Registration)
    requires c in places && (forall i :: 0 <= i < |events| ==> events[i] in EventsOf(Imported(script), c))
    requires r in Emitted(Imported(script), c, events)
    ensures IsBody(Imported(script), r) && IsAsked(Imported(script), places, Key(r.ctrl, r.event))
  {
    var k, n := Imported(script), |events| - 1;
    if r in Emitted(k, c, events[..n]) {
      EmittedAre(script, places, c, events[..n], r);
    } else {
      BodyIs(script, Key(c, events[n]));
      assert Asks(k, places, c, events[n], Key(c, events[n]));
    }
  }

  lemma {:induction false} EmittedAllAre(script: seq<Registration>, places: seq<string>, some: seq<string>, r: Registration)
    requires forall i :: 0 <= i < |some| ==> some[i] in places
    requires r in EmittedAll(Imported(script), some)
    ensures IsBody(Imported(script), r) && IsAsked(Imported(script), places, Key(r.ctrl, r.event))
  {
    var k, n := Imported(script), |some| - 1;
    if r in EmittedAll(k, some[..n]) {
      EmittedAllAre(script, places, some[..n], r);
    } else {
      EmittedAre(script, places, some[n], EventsOf(k, some[n]), r);
    }
  }

  lemma {:induction false} EmittedHas(k: Kept, c: string, events: seq<string>, e: string)
    requires e in events && e != "" && Key(c, e) in k.bodies
    ensures k.bodies[Key(c, e)] in Emitted(k, c, events)
  {
    var n := |events| - 1;
    if events[n] == e {
      var all, r := Emitted(k, c, events), k.bodies[Key(c, e)];
      assert all[|all| - 1] == r;
    } else {
      EmittedHas(k, c, events[..n], e);
    }
  }

  lemma {:induction false} EmittedAllHas(k: Kept, places: seq<string>, c: string, e: string)
    requires c in places && e in EventsOf(k, c) && e != "" && Key(c, e) in k.bodies
    ensures k.bodies[Key(c, e)] in EmittedAll(k, places)
  {
    var n := |places| - 1;
    if places[n] == c {
      EmittedHas(k, c, EventsOf(k, c), e);
    } else {
      EmittedAllHas(k, places[..n], c, e);
    }
  }

  lemma {:induction false} StubsAreNew(k: Kept, c: string, defaults: seq<string>, inlineClick: bool, r: Registration)
    requires r in Stubs(k, c, defaults, inlineClick)
    ensures r.event !in EventsOf(k, r.ctrl)
  {
    var n := |defaults| - 1;
    if r in Stubs(k, c, defaults[..n], inlineClick) { StubsAreNew(k, c, defaults[..n], inlineClick, r); }
  }

  lemma {:induction false} StubsAllAreNew(k: Kept, ctrls: seq<Ctrl>, r: Registration)
    requires r in StubsAll(k, ctrls)
    ensures r.event !in EventsOf(k, r.ctrl)
  {
    if ctrls == [] {
      StubsAreNew(k, FORM, FORM_EVENTS, false, r);
    } else {
      var n := |ctrls| - 1;
      if r in StubsAll(k, ctrls[..n]) {
        StubsAllAreNew(k, ctrls[..n], r);
      } else {
        StubsAreNew(k, ctrls[n].name, ctrls[n].defaults, ctrls[n].inlineClick, r);
      }
    }
  }

  function Exported(script: seq<Registration>, ctrls: seq<Ctrl>, orphans: seq<string>): (r: seq<Registration>) {
    EmittedAll(Imported(script), Places(ctrls, orphans)) + StubsAll(Imported(script), ctrls)
  }

  predicate AllBodies(k: Kept, bodies: seq<Registration>) { forall i :: 0 <= i < |bodies| ==> IsBody(k, bodies[i]) }

  lemma EmittedAreBodies(script: seq<Registration>, places: seq<string>)
    ensures AllBodies(Imported(script), EmittedAll(Imported(script), places))
  {
    var bodies := EmittedAll(Imported(script), places);
    forall i | 0 <= i < |bodies| ensures IsBody(Imported(script), bodies[i]) {
      EmittedAllAre(script, places, places, bodies[i]);
    }
  }

  /** What stands after, if it was emitted, is a direct statement, and the one that stood before if that was
      direct. */
  predicate Stands(script: seq<Registration>, after: Registration, c: string, e: string) {
    && after.direct && (c, e) in Registered(script)
    && (Registered(script)[(c, e)].direct ==> after == Registered(script)[(c, e)])
  }

  lemma {:induction false} BodiesKeep(script: seq<Registration>, bodies: seq<Registration>, c: string, e: string)
    requires AllBodies(Imported(script), bodies) && (c, e) in Registered(bodies)
    ensures Stands(script, Registered(bodies)[(c, e)], c, e)
  {
    var n := |bodies| - 1;
    if bodies[n].ctrl == c && bodies[n].event == e {
      BodyIs(script, Key(c, e));
    } else {
      BodiesKeep(script, bodies[..n], c, e);
    }
  }

  /** An event registered before is registered after exactly if it is emitted. */
  lemma ExportedKeeps(script: seq<Registration>, ctrls: seq<Ctrl>, orphans: seq<string>, c: string, e: string)
    requires HasNamed(script, c, e)
    ensures var after := Registered(Exported(script, ctrls, orphans));
      && ((c, e) in after <==> Has(EmittedAll(Imported(script), Places(ctrls, orphans)), c, e))
      && ((c, e) in after ==> Stands(script, after[(c, e)], c, e))
  {
    var k := Imported(script);
    var bodies, stubs := EmittedAll(k, Places(ctrls, orphans)), StubsAll(k, ctrls);
    RegisteredMore(bodies, stubs);
    RegisteredIff(stubs, c, e);
    RegisteredIff(bodies, c, e);
    if Has(stubs, c, e) {
      var i :| 0 <= i < |stubs| && stubs[i].ctrl == c && stubs[i].event == e;
      StubsAllAreNew(k, ctrls, stubs[i]);
      EventsAre(script, c, e);
    }
    if Has(bodies, c, e) {
      EmittedAreBodies(script, Places(ctrls, orphans));
      BodiesKeep(script, bodies, c, e);
    }
  }

  /** Each named event of the script is still registered, with the statement that stood last. */
  ghost predicate Survive(script: seq<Registration>, ctrls: seq<Ctrl>, orphans: seq<string>) {
    forall c, e :: HasNamed(script, c, e) ==>
      && (c, e) in Registered(script) && (c, e) in Registered(Exported(script, ctrls, orphans))
      && Registered(Exported(script, ctrls, orphans))[(c, e)] == Registered(script)[(c, e)]
  }

  /** Every handler is for the form, one of its controls or one of the renamed ones. */
  ghost predicate Placed(script: seq<Registration>, ctrls: seq<Ctrl>, orphans: seq<string>) {
    forall c, e :: HasNamed(script, c, e) ==> c in Places(ctrls, orphans)
  }

  /** No two events share a key. */
  ghost predicate KeysApart(script: seq<Registration>) {
    forall c, e, d, f :: HasNamed(script, c, e) && HasNamed(script, d, f) && Key(c, e) == Key(d, f) ==> c == d && e == f
  }

  /** The registration of each named event that stands is a statement of its own. */
  ghost predicate LastDirect(script: seq<Registration>) {
    forall c, e :: (c, e) in Registered(script) && c != "" && e != "" ==> Registered(script)[(c, e)].direct
  }

  lemma {:induction false} RegisteredFrom(script: seq<Registration>, c: string, e: string)
    requires (c, e) in Registered(script)
    ensures Registered(script)[(c, e)] in script
    ensures Registered(script)[(c, e)].ctrl == c && Registered(script)[(c, e)].event == e
  {
    var n := |script| - 1;
    if script[n].ctrl != c || script[n].event != e { RegisteredFrom(script[..n], c, e); }
  }

  lemma EmittedIff(script: seq<Registration>, places: seq<string>, c: string, e: string)
    requires HasNamed(script, c, e) && KeysApart(script) && LastDirect(script)
    ensures Has(EmittedAll(Imported(script), places), c, e) <==> c in places
  {
    var k := Imported(script);
    var bodies, key := EmittedAll(k, places), Key(c, e);
    RegisteredIff(script, c, e);
    RegisteredFrom(script, c, e);
    assert HasDirect(script, key);
    BodyIs(script, key);
    EventsAre(script, c, e);
    var b := k.bodies[key];
    RegisteredIff(script, b.ctrl, b.event);
    assert b.ctrl == c && b.event == e;
    if c in places { EmittedAllHas(k, places, c, e); }
    if Has(bodies, c, e) {
      var j :| 0 <= j < |bodies| && bodies[j].ctrl == c && bodies[j].event == e;
      EmittedAllAre(script, places, places, bodies[j]);
      var d, f :| Asks(k, places, d, f, key);
      EventsAre(script, d, f);
    }
  }

  /** Of two events with one key, only the one whose statement came last is emitted. */
  lemma SharedKeyLoses(script: seq<Registration>, places: seq<string>, c: string, e: string, d: string, f: string)
    requires Has(script, c, e) && Has(script, d, f) && Key(c, e) == Key(d, f) && (c, e) != (d, f)
    ensures !Has(EmittedAll(Imported(script), places), c, e) || !Has(EmittedAll(Imported(script), places), d, f)
  {
    var bodies := EmittedAll(Imported(script), places);
    if Has(bodies, c, e) && Has(bodies, d, f) {
      var i :| 0 <= i < |bodies| && bodies[i].ctrl == c && bodies[i].event == e;
      var j :| 0 <= j < |bodies| && bodies[j].ctrl == d && bodies[j].event == f;
      EmittedAllAre(script, places, places, bodies[i]);
      EmittedAllAre(script, places, places, bodies[j]);
    }
  }

  /** Importing a script's handlers and exporting them again leaves every event with the statement that
      stood last, and no stub takes its place, exactly when each handler is for the form or a control known
      to it, no two events share a key, and each last registration is a statement of its own. */
  lemma HandlersSurviveIff(script: seq<Registration>, ctrls: seq<Ctrl>, orphans: seq<string>)
    ensures Survive(script, ctrls, orphans) <==>
      Placed(script, ctrls, orphans) && KeysApart(script) && LastDirect(script)
  {
    var places := Places(ctrls, orphans);
    if !LastDirect(script) {
      var c, e :| (c, e) in Registered(script) && c != "" && e != "" && !Registered(script)[(c, e)].direct;
      RegisteredIff(script, c, e);
      ExportedKeeps(script, ctrls, orphans, c, e);
    } else if !KeysApart(script) {
      var c, e, d, f :| HasNamed(script, c, e) && HasNamed(script, d, f) && Key(c, e) == Key(d, f) && !(c == d && e == f);
      SharedKeyLoses(script, places, c, e, d, f);
      ExportedKeeps(script, ctrls, orphans, c, e);
      ExportedKeeps(script, ctrls, orphans, d, f);
    } else if !Placed(script, ctrls, orphans) {
      var c, e :| HasNamed(script, c, e) && c !in places;
      EmittedIff(script, places, c, e);
      ExportedKeeps(script, ctrls, orphans, c, e);
    } else {
      forall c, e | HasNamed(script, c, e)
        ensures (c, e) in Registered(script) && (c, e) in Registered(Exported(script, ctrls, orphans))
        ensures Registered(Exported(script, ctrls, orphans))[(c, e)] == Registered(script)[(c, e)]
      {
        EmittedIff(script, places, c, e);
        ExportedKeeps(script, ctrls, orphans, c, e);
      }
    }
  }

  /** What the importer skips for want of a control or an event is not emitted. */
  lemma UnnamedNotEmitted(script: seq<Registration>, places: seq<string>, c: string, e: string)
    requires c == "" || e == ""
    ensures !Has(EmittedAll(Imported(script), places), c, e)
  {
    var bodies := EmittedAll(Imported(script), places);
    if Has(bodies, c, e) {
      var i :| 0 <= i < |bodies| && bodies[i].ctrl == c && bodies[i].event == e;
      EmittedAllAre(script, places, places, bodies[i]);
      BodyIs(script, Key(c, e));
    }
  }

  /** A call inside another statement lists its event: nothing is emitted for it, not even a stub. */
  lemma NestedEmitsNothing(script: seq<Registration>, ctrls: seq<Ctrl>, orphans: seq<string>, c: string, e: string)
    requires HasNamed(script, c, e) && !HasDirect(script, Key(c, e))
    ensures !Has(Exported(script, ctrls, orphans), c, e)
  {
    ExportedKeeps(script, ctrls, orphans, c, e);
    RegisteredIff(Exported(script, ctrls, orphans), c, e);
    var bodies := EmittedAll(Imported(script), Places(ctrls, orphans));
    if Has(bodies, c, e) {
      var i :| 0 <= i < |bodies| && bodies[i].ctrl == c && bodies[i].event == e;
      EmittedAllAre(script, Places(ctrls, orphans), Places(ctrls, orphans), bodies[i]);
      BodyIs(script, Key(c, e));
    }
  }

  /** Two events of two controls that share a key: whatever the controls exported, one handler is lost. A
      document with a control named a.b is not valid, but the importer reads one. */
  lemma SharedKeyExample(ctrls: seq<Ctrl>, orphans: seq<string>, first: string, second: string)
    ensures !Survive([Registration("a", "b.c", first, true), Registration("a.b", "c", second, true)], ctrls, orphans)
  {
    var script := [Registration("a", "b.c", first, true), Registration("a.b", "c", second, true)];
    assert script[0].ctrl == "a" && script[1].ctrl == "a.b";
    assert Has(script, "a", "b.c") && Has(script, "a.b", "c");
    assert Key("a", "b.c") == "a.b.c" && Key("a.b", "c") == "a.b.c";
    assert "a" != "a.b" by { assert |"a"| != |"a.b"|; }
    assert !KeysApart(script);
    HandlersSurviveIff(script, ctrls, orphans);
  }

  // ----- Valid control names -----

  /** A control's name in a valid document (identRe, model.go), or the form's own place. */
  predicate IsPlaceName(name: string) {
    name == FORM || (name != "" && forall i :: 0 <= i < |name| ==> IsWordChar(name[i]))
  }

  lemma KeyDecides(c: string, e: string, d: string, f: string)
    requires IsPlaceName(c) && IsPlaceName(d) && Key(c, e) == Key(d, f)
    ensures c == d && e == f
  {
    var key := Key(c, e);
    assert key[|c|] == '.' && key[|d|] == '.';
    assert forall i :: 0 <= i < |c| ==> key[i] == c[i] && c[i] != '.';
    assert forall i :: 0 <= i < |d| ==> key[i] == d[i] && d[i] != '.';
    assert |c| == |d|;
    assert c == key[..|c|] && d == key[..|d|];
    assert e == key[|c| + 1..] && f == key[|d| + 1..];
  }

  /** For controls whose names are valid no two events share a key. */
  lemma ValidHandlersSurviveIff(script: seq<Registration>, ctrls: seq<Ctrl>, orphans: seq<string>)
    requires forall i :: 0 <= i < |script| && IsNamed(script[i]) ==> IsPlaceName(script[i].ctrl)
    ensures Survive(script, ctrls, orphans) <==> Placed(script, ctrls, orphans) && LastDirect(script)
  {
    forall c, e, d, f | HasNamed(script, c, e) && HasNamed(script, d, f) && Key(c, e) == Key(d, f) ensures c == d && e == f {
      KeyDecides(c, e, d, f);
    }
    HandlersSurviveIff(script, ctrls, orphans);
  }
}
