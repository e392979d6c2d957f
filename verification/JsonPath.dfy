/** navigateJSON (internal/bindings/json.go): following a path such as "a.b[0].c" from a value. */
module JsonPath {
  import opened Text
  import opened LuaHeap

  function RawIndex(h: Heap, p: LValue, i: int): (r: LValue) {
    if p.LTable? then RawGetInt(TableAt(h, p.addr), i) else LNil
  }

  function RawName(h: Heap, p: LValue, name: string): (r: LValue) {
    if p.LTable? then RawGetString(TableAt(h, p.addr), name) else LNil
  }

  function NameLength(s: string): (n: nat)
    ensures n <= |s|
  {
    if s == "" || s[0] == '.' || s[0] == '[' then 0 else 1 + NameLength(s[1..])
  }

  function DropDot(s: string): (t: string)
    ensures |t| <= |s|
  {
    if s != "" && s[0] == '.' then s[1..] else s
  }

  /** The entry at the index written in brackets, counted from 0; nil when there is none. */
  function IndexText(h: Heap, p: LValue, numStr: string): (r: LValue) {
    var idx := Atoi(TrimSpace(numStr));
    if idx.None? then LNil else RawIndex(h, p, idx.value + 1)
  }

  /** The value a path leads to; none when a step fails or meets nil. */
  function Navigate(h: Heap, p: LValue, path: string): (r: Option<LValue>)
    decreases |path|
  {
    if path == "" then Some(p)
    else if path[0] == '[' then
      var end := Until(path, ']');
      if end == |path| then None
      else
        var next := IndexText(h, p, path[1..end]);
        if next == LNil then None else Navigate(h, next, DropDot(path[end + 1..]))
    else
      var n := NameLength(path);
      var next := RawName(h, p, path[..n]);
      if n == 0 || next == LNil then None else Navigate(h, next, DropDot(path[n..]))
  }

  lemma SliceOfRest(path: string, i: nat, end: nat)
    requires 0 < end && i + end < |path|
    ensures path[i..][1..end] == path[i + 1..i + end] && path[i..][end + 1..] == path[i + end + 1..]
  {
  }

  method ReadIndex(h: Heap, p: LValue, numStr: string) returns (v: LValue)
    ensures v == IndexText(h, p, numStr)
  {
    var idx := Atoi(TrimSpace(numStr));
    if idx.None? { return LNil; }
    if !p.LTable? { return LNil; }
    return RawGetInt(TableAt(h, p.addr), idx.value + 1);
  }

  lemma BracketCase(h: Heap, p: LValue, rest: string, end: nat, inner: string, after: string)
    requires rest != "" && rest[0] == '[' && end == Until(rest, ']') < |rest| && inner == rest[1..end] && after == rest[end + 1..]
    ensures Navigate(h, p, rest) ==
      if IndexText(h, p, inner) == LNil then None else Navigate(h, IndexText(h, p, inner), DropDot(after))
  {
  }

  /** The bracket case: past an index in brackets. */
  method IndexSegment(h: Heap, p: LValue, path: string, i: nat) returns (next: Option<(LValue, nat)>)
    requires i < |path| && path[i] == '['
    ensures next.None? ==> Navigate(h, p, path[i..]) == None
    ensures next.Some? ==> i < next.value.1 <= |path| && Navigate(h, next.value.0, path[next.value.1..]) == Navigate(h, p, path[i..])
  {
    var rest := path[i..];
    var end := Until(rest, ']');
    if end == |rest| { return None; }
    var numStr, after := path[i + 1..i + end], i + end + 1;
    SliceOfRest(path, i, end);
    BracketCase(h, p, rest, end, numStr, path[after..]);
    var v := ReadIndex(h, p, numStr);
    if v == LNil { return None; }
    after := SkipDot(path, after);
    return Some((v, after));
  }

  /** Past a name. */
  method NameSegment(h: Heap, p: LValue, path: string, start: nat) returns (next: Option<(LValue, nat)>)
    requires start < |path| && path[start] != '['
    ensures next.None? ==> Navigate(h, p, path[start..]) == None
    ensures next.Some? ==> start < next.value.1 <= |path| && Navigate(h, next.value.0, path[next.value.1..]) == Navigate(h, p, path[start..])
  {
    var i := NameEnd(path, start);
    ghost var rest := path[start..];
    var seg := path[start..i];
    assert rest[..i - start] == seg && rest[i - start..] == path[i..];
    if seg == "" { return None; }
    if !p.LTable? { return None; }
    var v := RawGetString(TableAt(h, p.addr), seg);
    if v == LNil { return None; }
    var at := SkipDot(path, i);
    return Some((v, at));
  }

  method NameEnd(path: string, start: nat) returns (i: nat)
    requires start <= |path|
    ensures start <= i <= |path| && i - start == NameLength(path[start..])
  {
    i := start;
    while i < |path| && path[i] != '.' && path[i] != '['
      invariant start <= i <= |path| && i - start + NameLength(path[i..]) == NameLength(path[start..])
    {
      assert path[i..][1..] == path[i + 1..];
      i := i + 1;
    }
  }

  /** navigateJSON. */
  method NavigateJson(h: Heap, root: LValue, path: string) returns (r: Option<LValue>)
    ensures r == Navigate(h, root, path)
  {
    if path == "" { return Some(root); }
    var p := root;
    var i := 0;
    while i < |path|
      invariant 0 <= i <= |path|
      invariant Navigate(h, p, path[i..]) == Navigate(h, root, path)
      decreases |path| - i
    {
      var next;
      if path[i] == '[' {
        next := IndexSegment(h, p, path, i);
      } else {
        next := NameSegment(h, p, path, i);
      }
      if next.None? { return None; }
      p, i := next.value.0, next.value.1;
    }
    assert path[|path|..] == "";
    return Some(p);
  }

  method SkipDot(path: string, at: nat) returns (i: nat)
    requires at <= |path|
    ensures at <= i <= |path| && path[i..] == DropDot(path[at..])
  {
    i := at;
    if i < |path| && path[i] == '.' { i := i + 1; }
  }

  // ----- Paths for steps -----

  datatype Step = Name(name: string) | Index(index: nat)

  /** Name by name, index by index; none as soon as a value is nil. */
  function Follow(h: Heap, p: LValue, steps: seq<Step>): (r: Option<LValue>)
    decreases |steps|
  {
    if steps == [] then Some(p)
    else
      var next := match steps[0] case Name(name) => RawName(h, p, name) case Index(i) => RawIndex(h, p, i + 1);
      if next == LNil then None else Follow(h, next, steps[1..])
  }

  /** A name that can stand in a path. */
  predicate IsPathName(name: string) { name != "" && '.' !in name && '[' !in name }

  predicate AllPathNames(steps: seq<Step>) {
    steps == [] || ((steps[0].Name? ==> IsPathName(steps[0].name)) && AllPathNames(steps[1..]))
  }

  function StepText(s: Step): (r: string) {
    match s
    case Name(name) => "." + name
    case Index(i) => "[" + NatText(i) + "]"
  }

  function StepsText(steps: seq<Step>): (r: string) { if steps == [] then "" else StepText(steps[0]) + StepsText(steps[1..]) }

  /** The path for some steps. */
  function PathText(steps: seq<Step>): (r: string) { DropDot(StepsText(steps)) }

  lemma {:induction false} UntilIs(s: string, c: char, rest: string)
    requires c !in s
    ensures Until(s + [c] + rest, c) == |s|
  {
    if s != "" {
      UntilIs(s[1..], c, rest);
      assert (s + [c] + rest)[1..] == s[1..] + [c] + rest;
    }
  }

  lemma {:induction false} NameLengthIs(s: string, rest: string)
    requires '.' !in s && '[' !in s && (rest == "" || rest[0] == '.' || rest[0] == '[')
    ensures NameLength(s + rest) == |s|
  {
    if s == "" {
      assert s + rest == rest;
    } else {
      NameLengthIs(s[1..], rest);
      assert (s + rest)[1..] == s[1..] + rest;
    }
  }

  lemma IndexStep(h: Heap, p: LValue, i: nat, rest: string)
    ensures Navigate(h, p, "[" + NatText(i) + "]" + rest) ==
      if RawIndex(h, p, i + 1) == LNil then None else Navigate(h, RawIndex(h, p, i + 1), DropDot(rest))
  {
    var digits := NatText(i);
    var path := "[" + digits + "]" + rest;
    assert !IsDigit(']') && ']' !in "[" + digits;
    UntilIs("[" + digits, ']', rest);
    assert path[1..|digits| + 1] == digits && path[|digits| + 2..] == rest;
    assert digits[0] in digits && digits[|digits| - 1] in digits;
    assert IsTrimmed(digits);
    AtoiOfText(i);
  }

  lemma NameStep(h: Heap, p: LValue, name: string, rest: string)
    requires IsPathName(name) && (rest == "" || rest[0] == '.' || rest[0] == '[')
    ensures Navigate(h, p, name + rest) ==
      if RawName(h, p, name) == LNil then None else Navigate(h, RawName(h, p, name), DropDot(rest))
  {
    NameLengthIs(name, rest);
    assert (name + rest)[..|name|] == name && (name + rest)[|name|..] == rest;
    assert name[0] in name;
  }

  lemma Dotted(name: string, rest: string)
    ensures DropDot("." + name + rest) == name + rest
  {
  }

  /** The path written for some steps leads where the steps do. */
  lemma {:induction false} PathFollows(h: Heap, p: LValue, steps: seq<Step>)
    requires AllPathNames(steps)
    ensures Navigate(h, p, PathText(steps)) == Follow(h, p, steps)
    decreases |steps|
  {
    if steps != [] {
      var rest := StepsText(steps[1..]);
      match steps[0] {
        case Name(name) =>
          NameStep(h, p, name, rest);
          Dotted(name, rest);
          var next := RawName(h, p, name);
          if next != LNil { PathFollows(h, next, steps[1..]); }
        case Index(i) =>
          IndexStep(h, p, i, rest);
          var next := RawIndex(h, p, i + 1);
          if next != LNil { PathFollows(h, next, steps[1..]); }
      }
    }
  }
}
