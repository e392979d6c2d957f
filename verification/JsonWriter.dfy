/** writeJSON (internal/bindings/json.go): encoding a Lua value over a heap of tables that may be shared
    and cyclic, with a depth cap and a mutable set of the tables being written. */
module JsonWriter {
  import opened Text
  import opened LuaHeap

  // ----- The simple encoder: finite trees -----

  datatype Tree =
    | TNull
    | TBool(b: bool)
    | TNum(text: string)
    | TStr(s: string)
    | TArr(items: seq<Tree>)
    | TObj(names: seq<string>, values: seq<Tree>)

  function UnicodeEscape(c: char): (r: string)
    requires c < '\U{10000}'
  {
    var n := c as nat;
    "\\u" + [HexDigit(n / 4096), HexDigit(n / 256 % 16), HexDigit(n / 16 % 16), HexDigit(n % 16)]
  }

  /** json.Marshal of one character of a string, with HTML escaping on. */
  function EscapeChar(c: char): (r: string) {
    if c == '"' then "\\\""
    else if c == '\\' then "\\\\"
    else if c == '\U{8}' then "\\b"
    else if c == '\U{C}' then "\\f"
    else if c == '\n' then "\\n"
    else if c == '\r' then "\\r"
    else if c == '\t' then "\\t"
    else if c < ' ' || c == '<' || c == '>' || c == '&' || c == '\U{2028}' || c == '\U{2029}' then UnicodeEscape(c)
    else [c]
  }

  function EscapeChars(s: string): (r: string) {
    if s == [] then [] else EscapeChar(s[0]) + EscapeChars(s[1..])
  }

  function JsonString(s: string): (r: string) { "\"" + EscapeChars(s) + "\"" }

  function Encode(t: Tree): (r: string)
    decreases t, 1
  {
    match t
    case TNull => "null"
    case TBool(b) => if b then "true" else "false"
    case TNum(text) => text
    case TStr(s) => JsonString(s)
    case TArr(items) => "[" + Join(EncodeAll(items), ",") + "]"
    case TObj(names, values) => "{" + Join(EncodeMembers(names, values), ",") + "}"
  }

  function EncodeAll(items: seq<Tree>): (texts: seq<string>)
    ensures |texts| == |items|
    decreases items, 0
  {
    if items == [] then [] else [Encode(items[0])] + EncodeAll(items[1..])
  }

  function EncodeMember(name: string, value: Tree): (r: string)
    decreases value, 2
  {
    JsonString(name) + ":" + Encode(value)
  }

  function EncodeMembers(names: seq<string>, values: seq<Tree>): (texts: seq<string>)
    decreases values, 0
  {
    if names == [] || values == [] then []
    else [EncodeMember(names[0], values[0])] + EncodeMembers(names[1..], values[1..])
  }

  // ----- Unfolding a value of the heap into a tree -----

  /** The values a value is written with. */
  function Children(look: Look, kNull: Addr, v: LValue): (r: seq<LValue>) {
    if v.LTable? && v.addr != kNull then look(v.addr).values else []
  }

  /** t is what v looks like when every table reference is followed. */
  ghost predicate Unfolds(look: Look, kNull: Addr, v: LValue, t: Tree)
    decreases t, 1
  {
    match v
    case LNil => t == TNull
    case LBool(b) => t == TBool(b)
    case LNum(n) => n.Finite? && t == TNum(n.text)
    case LStr(s) => t == TStr(s)
    case LOther(_) => false
    case LTable(a) =>
      if a == kNull then t == TNull
      else
        match look(a)
        case ArrayOf(vs) => t.TArr? && AllUnfold(look, kNull, vs, t.items)
        case ObjectOf(names, vs) => t.TObj? && t.names == names && AllUnfold(look, kNull, vs, t.values)
  }

  ghost predicate AllUnfold(look: Look, kNull: Addr, vs: seq<LValue>, ts: seq<Tree>)
    decreases ts, 0
  {
    |vs| == |ts| && (ts == [] || (Unfolds(look, kNull, vs[0], ts[0]) && AllUnfold(look, kNull, vs[1..], ts[1..])))
  }

  lemma {:induction false} UnfoldsOnce(look: Look, kNull: Addr, v: LValue, t: Tree, u: Tree)
    requires Unfolds(look, kNull, v, t) && Unfolds(look, kNull, v, u)
    ensures t == u
    decreases t, 1
  {
    if v.LTable? && v.addr != kNull {
      if look(v.addr).ArrayOf? {
        AllUnfoldOnce(look, kNull, look(v.addr).values, t.items, u.items);
      } else {
        AllUnfoldOnce(look, kNull, look(v.addr).values, t.values, u.values);
      }
    }
  }

  lemma {:induction false} AllUnfoldOnce(look: Look, kNull: Addr, vs: seq<LValue>, ts: seq<Tree>, us: seq<Tree>)
    requires AllUnfold(look, kNull, vs, ts) && AllUnfold(look, kNull, vs, us)
    ensures ts == us
    decreases ts, 0
  {
    if ts != [] {
      UnfoldsOnce(look, kNull, vs[0], ts[0], us[0]);
      AllUnfoldOnce(look, kNull, vs[1..], ts[1..], us[1..]);
      assert ts == [ts[0]] + ts[1..] && us == [us[0]] + us[1..];
    }
  }

  // ----- What writeJSON does, as a function of depth and the tables above -----

  const MAX_DEPTH := 200

  predicate IsEncodable(v: LValue) { !v.LOther? && (v.LNum? ==> v.n.Finite?) }

  predicate Writable(look: Look, kNull: Addr, v: LValue, depth: nat, seen: set<Addr>)
    decreases MAX_DEPTH + 1 - depth, 0
  {
    && depth <= MAX_DEPTH
    && IsEncodable(v)
    && (v.LTable? && v.addr != kNull ==>
         v.addr !in seen && AllWritable(look, kNull, Children(look, kNull, v), depth + 1, seen + {v.addr}))
  }

  predicate AllWritable(look: Look, kNull: Addr, vs: seq<LValue>, depth: nat, seen: set<Addr>)
    decreases MAX_DEPTH + 1 - depth, 1, |vs|
  {
    vs == [] || (Writable(look, kNull, vs[0], depth, seen) && AllWritable(look, kNull, vs[1..], depth, seen))
  }

  /** The tree written, for a writable value. */
  function Written(look: Look, kNull: Addr, v: LValue, depth: nat): (r: Tree)
    decreases MAX_DEPTH + 1 - depth, 0
  {
    if depth > MAX_DEPTH then TNull
    else
      match v
      case LNil => TNull
      case LBool(b) => TBool(b)
      case LNum(n) => if n.Finite? then TNum(n.text) else TNull
      case LStr(s) => TStr(s)
      case LOther(_) => TNull
      case LTable(a) =>
        if a == kNull then TNull
        else TableTree(look(a), AllWritten(look, kNull, look(a).values, depth + 1))
  }

  function TableTree(view: View, ts: seq<Tree>): (r: Tree) {
    if view.ArrayOf? then TArr(ts) else TObj(view.names, ts)
  }

  function AllWritten(look: Look, kNull: Addr, vs: seq<LValue>, depth: nat): (ts: seq<Tree>)
    ensures |ts| == |vs|
    decreases MAX_DEPTH + 1 - depth, 1, |vs|
  {
    if vs == [] then [] else [Written(look, kNull, vs[0], depth)] + AllWritten(look, kNull, vs[1..], depth)
  }

  /** A writable value has a finite unfolding, and that is the tree written. */
  lemma {:induction false} WritableUnfolds(look: Look, kNull: Addr, v: LValue, depth: nat, seen: set<Addr>)
    requires Writable(look, kNull, v, depth, seen)
    ensures Unfolds(look, kNull, v, Written(look, kNull, v, depth))
    decreases MAX_DEPTH + 1 - depth, 0
  {
    if v.LTable? && v.addr != kNull {
      AllWritableUnfold(look, kNull, Children(look, kNull, v), depth + 1, seen + {v.addr});
    }
  }

  lemma {:induction false} AllWritableUnfold(look: Look, kNull: Addr, vs: seq<LValue>, depth: nat, seen: set<Addr>)
    requires AllWritable(look, kNull, vs, depth, seen)
    ensures AllUnfold(look, kNull, vs, AllWritten(look, kNull, vs, depth))
    decreases MAX_DEPTH + 1 - depth, 1, |vs|
  {
    if vs != [] {
      WritableUnfolds(look, kNull, vs[0], depth, seen);
      AllWritableUnfold(look, kNull, vs[1..], depth, seen);
    }
  }

  // ----- When it fails: a bad path -----

  /** A descent from a value: each value is written as a child of the one before. */
  ghost predicate IsPath(look: Look, kNull: Addr, p: seq<LValue>) {
    p != [] && forall i :: 0 <= i < |p| - 1 ==> p[i + 1] in Children(look, kNull, p[i])
  }

  ghost predicate OnPath(p: seq<LValue>, n: nat, a: Addr)
    requires n <= |p|
  {
    exists i :: 0 <= i < n && p[i] == LTable(a)
  }

  /** The descent, begun at the given depth below the tables in seen, ends too deep, at a value no JSON
      stands for, or at a table it has already entered. */
  ghost predicate IsBad(kNull: Addr, p: seq<LValue>, depth: nat, seen: set<Addr>)
    requires p != []
  {
    var last := p[|p| - 1];
    || depth + |p| - 1 > MAX_DEPTH
    || !IsEncodable(last)
    || (last.LTable? && last.addr != kNull && (last.addr in seen || OnPath(p, |p| - 1, last.addr)))
  }

  ghost predicate HasBadPath(look: Look, kNull: Addr, v: LValue, depth: nat, seen: set<Addr>) {
    exists p :: IsPath(look, kNull, p) && p[0] == v && IsBad(kNull, p, depth, seen)
  }

  lemma PathTail(look: Look, kNull: Addr, p: seq<LValue>)
    requires IsPath(look, kNull, p) && |p| > 1
    ensures IsPath(look, kNull, p[1..]) && p[1] in Children(look, kNull, p[0])
  {
    var rest := p[1..];
    forall i | 0 <= i < |rest| - 1 ensures rest[i + 1] in Children(look, kNull, rest[i]) {
      assert p[i + 1 + 1] in Children(look, kNull, p[i + 1]);
    }
    assert p[0 + 1] in Children(look, kNull, p[0]);
  }

  lemma {:induction false} BadPathFails(look: Look, kNull: Addr, p: seq<LValue>, depth: nat, seen: set<Addr>)
    requires IsPath(look, kNull, p) && IsBad(kNull, p, depth, seen)
    ensures !Writable(look, kNull, p[0], depth, seen)
    decreases |p|
  {
    if |p| > 1 && depth <= MAX_DEPTH {
      PathTail(look, kNull, p);
      BadTail(kNull, p, depth, seen);
      BadPathFails(look, kNull, p[1..], depth + 1, seen + {p[0].addr});
      AllWritableHas(look, kNull, Children(look, kNull, p[0]), depth + 1, seen + {p[0].addr}, p[1]);
    }
  }

  lemma BadTail(kNull: Addr, p: seq<LValue>, depth: nat, seen: set<Addr>)
    requires |p| > 1 && p[0].LTable? && IsBad(kNull, p, depth, seen)
    ensures IsBad(kNull, p[1..], depth + 1, seen + {p[0].addr})
  {
    var rest, last := p[1..], p[|p| - 1];
    if last.LTable? && OnPath(p, |p| - 1, last.addr) {
      var i :| 0 <= i < |p| - 1 && p[i] == LTable(last.addr);
      if i > 0 {
        assert rest[i - 1] == LTable(last.addr);
      }
    }
  }

  lemma {:induction false} AllWritableHas(look: Look, kNull: Addr, vs: seq<LValue>, depth: nat, seen: set<Addr>, v: LValue)
    requires v in vs
    ensures AllWritable(look, kNull, vs, depth, seen) ==> Writable(look, kNull, v, depth, seen)
  {
    if v != vs[0] {
      AllWritableHas(look, kNull, vs[1..], depth, seen, v);
    }
  }

  lemma {:induction false} FailureHasPath(look: Look, kNull: Addr, v: LValue, depth: nat, seen: set<Addr>)
    requires !Writable(look, kNull, v, depth, seen)
    ensures HasBadPath(look, kNull, v, depth, seen)
    decreases MAX_DEPTH + 1 - depth, 0
  {
    if depth > MAX_DEPTH || !IsEncodable(v) || v.addr in seen {
      assert IsPath(look, kNull, [v]) && IsBad(kNull, [v], depth, seen);
    } else {
      var vs := Children(look, kNull, v);
      var c := FailingChild(look, kNull, vs, depth + 1, seen + {v.addr});
      FailureHasPath(look, kNull, c, depth + 1, seen + {v.addr});
      var p :| IsPath(look, kNull, p) && p[0] == c && IsBad(kNull, p, depth + 1, seen + {v.addr});
      BadLonger(look, kNull, v, p, depth, seen);
    }
  }

  lemma {:induction false} FailingChild(look: Look, kNull: Addr, vs: seq<LValue>, depth: nat, seen: set<Addr>) returns (c: LValue)
    requires !AllWritable(look, kNull, vs, depth, seen)
    ensures c in vs && !Writable(look, kNull, c, depth, seen)
  {
    if !Writable(look, kNull, vs[0], depth, seen) {
      c := vs[0];
    } else {
      c := FailingChild(look, kNull, vs[1..], depth, seen);
    }
  }

  lemma BadLonger(look: Look, kNull: Addr, v: LValue, p: seq<LValue>, depth: nat, seen: set<Addr>)
    requires v.LTable? && v.addr != kNull
    requires IsPath(look, kNull, p) && p[0] in Children(look, kNull, v)
    requires IsBad(kNull, p, depth + 1, seen + {v.addr})
    ensures HasBadPath(look, kNull, v, depth, seen)
  {
    var q := [v] + p;
    PathLonger(look, kNull, v, p);
    var last := p[|p| - 1];
    assert q[|q| - 1] == last;
    if last.LTable? {
      if last.addr == v.addr {
        assert q[0] == LTable(last.addr);
      } else if OnPath(p, |p| - 1, last.addr) {
        var i :| 0 <= i < |p| - 1 && p[i] == LTable(last.addr);
        assert q[i + 1] == LTable(last.addr);
      }
    }
    assert IsBad(kNull, q, depth, seen);
  }

  lemma PathLonger(look: Look, kNull: Addr, v: LValue, p: seq<LValue>)
    requires IsPath(look, kNull, p) && p[0] in Children(look, kNull, v)
    ensures IsPath(look, kNull, [v] + p)
  {
    var q := [v] + p;
    forall i | 0 <= i < |q| - 1 ensures q[i + 1] in Children(look, kNull, q[i]) {
      if i > 0 {
        assert p[i - 1 + 1] in Children(look, kNull, p[i - 1]);
      }
    }
  }

  /** Encoding from the root fails exactly when some descent revisits a table it is inside, goes deeper
      than the cap, or meets a value no JSON stands for. */
  lemma FailsExactlyOnBadPaths(look: Look, kNull: Addr, v: LValue)
    ensures Writable(look, kNull, v, 0, {}) <==> !HasBadPath(look, kNull, v, 0, {})
  {
    if HasBadPath(look, kNull, v, 0, {}) {
      var p :| IsPath(look, kNull, p) && p[0] == v && IsBad(kNull, p, 0, {});
      BadPathFails(look, kNull, p, 0, {});
    }
    if !Writable(look, kNull, v, 0, {}) {
      FailureHasPath(look, kNull, v, 0, {});
    }
  }

  // ----- When it succeeds: a finite unfolding within the cap -----

  function Height(t: Tree): (r: nat)
    decreases t, 1
  {
    match t
    case TArr(items) => if items == [] then 0 else 1 + Highest(items)
    case TObj(_, values) => if values == [] then 0 else 1 + Highest(values)
    case _ => 0
  }

  function Highest(ts: seq<Tree>): (r: nat)
    decreases ts, 0
  {
    if ts == [] then 0
    else if Height(ts[0]) > Highest(ts[1..]) then Height(ts[0]) else Highest(ts[1..])
  }

  /** Whatever the open tables unfold to is higher than n. */
  ghost predicate Above(look: Look, kNull: Addr, seen: set<Addr>, n: nat) {
    forall a, u :: a in seen && Unfolds(look, kNull, LTable(a), u) ==> Height(u) > n
  }

  lemma {:induction false} ShallowIsWritable(look: Look, kNull: Addr, v: LValue, t: Tree, depth: nat, seen: set<Addr>)
    requires Unfolds(look, kNull, v, t) && depth + Height(t) <= MAX_DEPTH && Above(look, kNull, seen, Height(t))
    ensures Writable(look, kNull, v, depth, seen)
    decreases t, 1
  {
    if v.LTable? && v.addr != kNull {
      assert v.addr !in seen;
      var vs, ts := Children(look, kNull, v), if t.TArr? then t.items else t.values;
      if ts != [] {
        forall a, u | a in seen + {v.addr} && Unfolds(look, kNull, LTable(a), u) ensures Height(u) > Highest(ts) {
          if a == v.addr { UnfoldsOnce(look, kNull, v, t, u); }
        }
        AllShallowAreWritable(look, kNull, vs, ts, depth + 1, seen + {v.addr});
      }
    }
  }

  lemma {:induction false} AllShallowAreWritable(look: Look, kNull: Addr, vs: seq<LValue>, ts: seq<Tree>, depth: nat, seen: set<Addr>)
    requires AllUnfold(look, kNull, vs, ts) && depth + Highest(ts) <= MAX_DEPTH && Above(look, kNull, seen, Highest(ts))
    ensures AllWritable(look, kNull, vs, depth, seen)
    decreases ts, 0
  {
    if ts != [] {
      ShallowIsWritable(look, kNull, vs[0], ts[0], depth, seen);
      AllShallowAreWritable(look, kNull, vs[1..], ts[1..], depth, seen);
    }
  }

  lemma {:induction false} WritableIsShallow(look: Look, kNull: Addr, v: LValue, t: Tree, depth: nat, seen: set<Addr>)
    requires Unfolds(look, kNull, v, t) && Writable(look, kNull, v, depth, seen)
    ensures depth + Height(t) <= MAX_DEPTH
    decreases t, 1
  {
    if v.LTable? && v.addr != kNull {
      var vs, ts := Children(look, kNull, v), if t.TArr? then t.items else t.values;
      AllWritableAreShallow(look, kNull, vs, ts, depth + 1, seen + {v.addr});
    }
  }

  lemma {:induction false} AllWritableAreShallow(look: Look, kNull: Addr, vs: seq<LValue>, ts: seq<Tree>, depth: nat, seen: set<Addr>)
    requires AllUnfold(look, kNull, vs, ts) && AllWritable(look, kNull, vs, depth, seen)
    ensures ts != [] ==> depth + Highest(ts) <= MAX_DEPTH
    decreases ts, 0
  {
    if ts != [] {
      WritableIsShallow(look, kNull, vs[0], ts[0], depth, seen);
      AllWritableAreShallow(look, kNull, vs[1..], ts[1..], depth, seen);
    }
  }

  /** A value that unfolds to a finite tree can be encoded exactly when the tree is within the depth cap:
      sharing a table between branches never fails. */
  lemma WritableIffShallow(look: Look, kNull: Addr, v: LValue, t: Tree)
    requires Unfolds(look, kNull, v, t)
    ensures Writable(look, kNull, v, 0, {}) <==> Height(t) <= MAX_DEPTH
  {
    if Height(t) <= MAX_DEPTH { ShallowIsWritable(look, kNull, v, t, 0, {}); }
    if Writable(look, kNull, v, 0, {}) { WritableIsShallow(look, kNull, v, t, 0, {}); }
  }

  // ----- The encoder itself -----

  lemma OutAgain(seen: set<Addr>, a: Addr)
    requires a !in seen
    ensures seen + {a} - {a} == seen
  {
  }

  /** A builder being written to, and the tables whose encoding is under way. */
  class Writer {
    var sb: string
    var seen: set<Addr>

    constructor ()
      ensures sb == "" && seen == {}
    {
      sb, seen := "", {};
    }

    /** writeJSON. Whatever happens, the set of open tables is left as it was found. */
    method Write(h: Heap, kNull: Addr, v: LValue, depth: nat) returns (ok: bool)
      modifies this
      ensures seen == old(seen)
      ensures ok == Writable(Seen(h), kNull, v, depth, old(seen))
      ensures ok ==> sb == old(sb) + Encode(Written(Seen(h), kNull, v, depth))
      decreases MAX_DEPTH + 1 - depth, 2
    {
      if depth > MAX_DEPTH { return false; }
      match v {
        case LNil => sb := sb + "null";
        case LBool(b) => sb := sb + if b then "true" else "false";
        case LNum(n) =>
          if n.NotFinite? { return false; }
          sb := sb + n.text;
        case LStr(s) => sb := sb + JsonString(s);
        case LOther(_) => return false;
        case LTable(a) =>
          if a == kNull {
            sb := sb + "null";
            return true;
          }
          TableCase(h, kNull, a, depth, seen);
          if a in seen { return false; }
          OutAgain(seen, a);
          seen := seen + {a};
          ok := WriteTable(h, kNull, TableAt(h, a), depth);
          seen := seen - {a};
          return ok;
      }
      return true;
    }

    /** The table case of writeJSON, its table already in seen. */
    method WriteTable(h: Heap, kNull: Addr, t: Table, depth: nat) returns (ok: bool)
      requires depth <= MAX_DEPTH
      modifies this
      ensures seen == old(seen)
      ensures ok == AllWritable(Seen(h), kNull, TableView(t).values, depth + 1, old(seen))
      ensures ok ==> sb == old(sb) + Encode(TableTree(TableView(t), AllWritten(Seen(h), kNull, TableView(t).values, depth + 1)))
      decreases MAX_DEPTH + 1 - depth, 1, 1
    {
      if IsArrayTable(t) {
        ok := WriteArray(h, kNull, t, depth);
      } else {
        ok := WriteObject(h, kNull, t, depth);
      }
    }

    /** The array loop, its table already in seen. */
    method WriteArray(h: Heap, kNull: Addr, t: Table, depth: nat) returns (ok: bool)
      requires depth <= MAX_DEPTH && IsArrayTable(t)
      modifies this
      ensures seen == old(seen)
      ensures ok == AllWritable(Seen(h), kNull, TableView(t).values, depth + 1, old(seen))
      ensures ok ==> sb == old(sb) + Encode(TArr(AllWritten(Seen(h), kNull, TableView(t).values, depth + 1)))
      decreases MAX_DEPTH + 1 - depth, 1, 0
    {
      var n := Len(t.slots);
      ghost var look, vs := Seen(h), t.slots[..n];
      ghost var parts: seq<string> := [];
      ghost var start := old(sb) + "[";
      sb := sb + "[";
      for i := 1 to n + 1
        invariant seen == old(seen)
        invariant |parts| == i - 1 && sb == start + Join(parts, ",")
        invariant parts == EncodeAll(AllWritten(look, kNull, vs[..i - 1], depth + 1))
        invariant AllWritable(look, kNull, vs[..i - 1], depth + 1, old(seen))
      {
        ghost var v := RawGetInt(t, i);
        NextItem(look, kNull, vs, i - 1, depth + 1, old(seen));
        JoinAnother(start, parts, Encode(Written(look, kNull, v, depth + 1)));
        if i > 1 { sb := sb + ","; }
        ok := Write(h, kNull, RawGetInt(t, i), depth + 1);
        if !ok {
          AllWritableHas(look, kNull, vs, depth + 1, seen, v);
          return false;
        }
        parts := parts + [Encode(Written(look, kNull, v, depth + 1))];
      }
      assert vs[..n] == vs;
      sb := sb + "]";
      Bracketed(old(sb), "[", Join(parts, ","), "]");
      return true;
    }

    /** The object branch: its names in byte order, in braces. */
    method WriteObject(h: Heap, kNull: Addr, t: Table, depth: nat) returns (ok: bool)
      requires depth <= MAX_DEPTH && !IsArrayTable(t)
      modifies this
      ensures seen == old(seen)
      ensures ok == AllWritable(Seen(h), kNull, TableView(t).values, depth + 1, old(seen))
      ensures ok ==> sb == old(sb) + Encode(TObj(TableView(t).names, AllWritten(Seen(h), kNull, TableView(t).values, depth + 1)))
      decreases MAX_DEPTH + 1 - depth, 1, 0
    {
      var names := SortedNames(t);
      ObjectView(t);
      sb := sb + "{";
      ok := WriteMembers(h, kNull, t, names, depth);
      sb := sb + "}";
      Braced(old(sb), names, AllWritten(Seen(h), kNull, NamedValues(t, names), depth + 1));
    }

    /** The object loop over its names, each looked up as a string. */
    method WriteMembers(h: Heap, kNull: Addr, t: Table, names: seq<string>, depth: nat) returns (ok: bool)
      requires depth <= MAX_DEPTH
      modifies this
      ensures seen == old(seen)
      ensures ok == AllWritable(Seen(h), kNull, NamedValues(t, names), depth + 1, old(seen))
      ensures ok ==> sb == old(sb) + Join(EncodeMembers(names, AllWritten(Seen(h), kNull, NamedValues(t, names), depth + 1)), ",")
      decreases MAX_DEPTH + 1 - depth, 0
    {
      ghost var look, vs := Seen(h), NamedValues(t, names);
      ghost var parts: seq<string> := [];
      for i := 0 to |names|
        invariant seen == old(seen)
        invariant |parts| == i && sb == old(sb) + Join(parts, ",")
        invariant parts == EncodeMembers(names[..i], AllWritten(look, kNull, vs[..i], depth + 1))
        invariant AllWritable(look, kNull, vs[..i], depth + 1, old(seen))
      {
        ghost var v := RawGetString(t, names[i]);
        NamedValueAt(t, names, i);
        NextMember(look, kNull, names, vs, i, depth + 1, old(seen));
        ghost var part := EncodeMember(names[i], Written(look, kNull, v, depth + 1));
        JoinAnother(old(sb), parts, part);
        if i > 0 { sb := sb + ","; }
        ok := WriteMember(h, kNull, names[i], RawGetString(t, names[i]), depth + 1);
        if !ok {
          AllWritableHas(look, kNull, vs, depth + 1, seen, v);
          return false;
        }
        parts := parts + [part];
      }
      assert vs[..|names|] == vs && names[..|names|] == names;
      return true;
    }

    /** One member: its name, a colon, its value. */
    method WriteMember(h: Heap, kNull: Addr, name: string, v: LValue, depth: nat) returns (ok: bool)
      modifies this
      ensures seen == old(seen)
      ensures ok == Writable(Seen(h), kNull, v, depth, old(seen))
      ensures ok ==> sb == old(sb) + EncodeMember(name, Written(Seen(h), kNull, v, depth))
      decreases MAX_DEPTH + 1 - depth, 3
    {
      sb := sb + JsonString(name);
      sb := sb + ":";
      ok := Write(h, kNull, v, depth);
      Bracketed(old(sb), JsonString(name), ":", Encode(Written(Seen(h), kNull, v, depth)));
    }
  }

  lemma {:induction false} AnotherItem(look: Look, kNull: Addr, vs: seq<LValue>, v: LValue, depth: nat, seen: set<Addr>)
    ensures AllWritable(look, kNull, vs + [v], depth, seen) <==> AllWritable(look, kNull, vs, depth, seen) && Writable(look, kNull, v, depth, seen)
    ensures EncodeAll(AllWritten(look, kNull, vs + [v], depth)) ==
      EncodeAll(AllWritten(look, kNull, vs, depth)) + [Encode(Written(look, kNull, v, depth))]
  {
    if vs != [] {
      assert (vs + [v])[1..] == vs[1..] + [v];
      AnotherItem(look, kNull, vs[1..], v, depth, seen);
    }
  }

  lemma {:induction false} AnotherMember(look: Look, kNull: Addr, names: seq<string>, vs: seq<LValue>, name: string, v: LValue, depth: nat, seen: set<Addr>)
    requires |names| == |vs|
    ensures AllWritable(look, kNull, vs + [v], depth, seen) <==> AllWritable(look, kNull, vs, depth, seen) && Writable(look, kNull, v, depth, seen)
    ensures EncodeMembers(names + [name], AllWritten(look, kNull, vs + [v], depth)) ==
      EncodeMembers(names, AllWritten(look, kNull, vs, depth)) + [EncodeMember(name, Written(look, kNull, v, depth))]
  {
    if vs != [] {
      assert (vs + [v])[1..] == vs[1..] + [v] && (names + [name])[1..] == names[1..] + [name];
      AnotherMember(look, kNull, names[1..], vs[1..], name, v, depth, seen);
    }
  }

  lemma NextItem(look: Look, kNull: Addr, vs: seq<LValue>, i: nat, depth: nat, seen: set<Addr>)
    requires i < |vs|
    ensures AllWritable(look, kNull, vs[..i + 1], depth, seen) <==>
      AllWritable(look, kNull, vs[..i], depth, seen) && Writable(look, kNull, vs[i], depth, seen)
    ensures EncodeAll(AllWritten(look, kNull, vs[..i + 1], depth)) ==
      EncodeAll(AllWritten(look, kNull, vs[..i], depth)) + [Encode(Written(look, kNull, vs[i], depth))]
  {
    AnotherItem(look, kNull, vs[..i], vs[i], depth, seen);
    NextSlice(vs, i);
  }

  lemma NextMember(look: Look, kNull: Addr, names: seq<string>, vs: seq<LValue>, i: nat, depth: nat, seen: set<Addr>)
    requires i < |names| == |vs|
    ensures AllWritable(look, kNull, vs[..i + 1], depth, seen) <==>
      AllWritable(look, kNull, vs[..i], depth, seen) && Writable(look, kNull, vs[i], depth, seen)
    ensures EncodeMembers(names[..i + 1], AllWritten(look, kNull, vs[..i + 1], depth)) ==
      EncodeMembers(names[..i], AllWritten(look, kNull, vs[..i], depth)) + [EncodeMember(names[i], Written(look, kNull, vs[i], depth))]
  {
    AnotherMember(look, kNull, names[..i], vs[..i], names[i], vs[i], depth, seen);
    NextSlice(vs, i);
    NextSlice(names, i);
  }

  lemma {:induction false} NamedValueAt(t: Table, names: seq<string>, i: nat)
    requires i < |names|
    ensures NamedValues(t, names)[i] == RawGetString(t, names[i])
  {
    if i > 0 { NamedValueAt(t, names[1..], i - 1); }
  }

  lemma {:induction false} JoinLast(parts: seq<string>, part: string)
    requires parts != []
    ensures Join(parts + [part], ",") == Join(parts, ",") + ("," + part)
  {
    assert (parts + [part])[1..] == parts[1..] + [part];
    if |parts| > 1 {
      JoinLast(parts[1..], part);
      Assoc(parts[0] + ",", Join(parts[1..], ","), "," + part);
    } else {
      Assoc(parts[0], ",", part);
    }
  }

  lemma JoinAnother(start: string, parts: seq<string>, part: string)
    ensures start + Join(parts + [part], ",") ==
      (if |parts| > 0 then start + Join(parts, ",") + "," else start + Join(parts, ",")) + part
  {
    if |parts| > 0 {
      JoinLast(parts, part);
      Assoc(start, Join(parts, ","), "," + part);
      Assoc(start + Join(parts, ","), ",", part);
    }
  }

  lemma TableCase(h: Heap, kNull: Addr, a: Addr, depth: nat, seen: set<Addr>)
    requires depth <= MAX_DEPTH && a != kNull
    ensures Writable(Seen(h), kNull, LTable(a), depth, seen) <==>
      a !in seen && AllWritable(Seen(h), kNull, TableView(TableAt(h, a)).values, depth + 1, seen + {a})
    ensures Written(Seen(h), kNull, LTable(a), depth) ==
      TableTree(TableView(TableAt(h, a)), AllWritten(Seen(h), kNull, TableView(TableAt(h, a)).values, depth + 1))
  {
    assert Seen(h)(a) == TableView(TableAt(h, a));
    ViewCase(Seen(h), kNull, a, TableView(TableAt(h, a)), depth, seen);
  }

  lemma ViewCase(look: Look, kNull: Addr, a: Addr, view: View, depth: nat, seen: set<Addr>)
    requires depth <= MAX_DEPTH && a != kNull && look(a) == view
    ensures Writable(look, kNull, LTable(a), depth, seen) <==>
      a !in seen && AllWritable(look, kNull, view.values, depth + 1, seen + {a})
    ensures Written(look, kNull, LTable(a), depth) == TableTree(view, AllWritten(look, kNull, view.values, depth + 1))
  {
  }

  lemma Braced(sb: string, names: seq<string>, values: seq<Tree>)
    requires |names| == |values|
    ensures sb + "{" + Join(EncodeMembers(names, values), ",") + "}" == sb + Encode(TObj(names, values))
  {
    Bracketed(sb, "{", Join(EncodeMembers(names, values), ","), "}");
  }

  lemma ObjectView(t: Table)
    requires !IsArrayTable(t)
    ensures TableView(t) == ObjectOf(SortedNames(t), NamedValues(t, SortedNames(t)))
  {
  }

  lemma Bracketed(sb: string, open: string, inner: string, close: string)
    ensures sb + open + inner + close == sb + (open + inner + close)
  {
  }

  /** stringifyJSON: on success, the encoding of the value's finite unfolding; on failure, a bad path. */
  method Stringify(h: Heap, kNull: Addr, v: LValue) returns (text: Option<string>)
    ensures text.None? <==> HasBadPath(Seen(h), kNull, v, 0, {})
    ensures text.Some? ==>
      Unfolds(Seen(h), kNull, v, Written(Seen(h), kNull, v, 0)) && text.value == Encode(Written(Seen(h), kNull, v, 0))
  {
    var w := new Writer();
    var ok := w.Write(h, kNull, v, 0);
    FailsExactlyOnBadPaths(Seen(h), kNull, v);
    if ok {
      WritableUnfolds(Seen(h), kNull, v, 0, {});
      return Some(w.sb);
    }
    return None;
  }
}
