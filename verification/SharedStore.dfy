/** k.shared (internal/bindings/serve.go): values are kept as their JSON text and decoded again when read
    (convertJSONGo, internal/bindings/json.go). The text of a plain value always comes back as an equal
    value, built of new tables. */
module SharedStore {
  import opened Text
  import opened LuaHeap
  import opened JsonWriter
  import opened JsonReader

  // ----- Plain data -----

  /** A Lua value with its tables opened up: array entries in order, then the string keys in byte order
      with their values. */
  datatype Deep =
    | DNull
    | DBool(b: bool)
    | DNumber(text: string)
    | DString(s: string)
    | DTable(slots: seq<Deep>, names: seq<string>, values: seq<Deep>)

  /** In this heap, v is the value d. A number is known by its exact JSON text. */
  ghost predicate DeepIs(h: Heap, kNull: Addr, v: LValue, d: Deep)
    decreases d, 1
  {
    match d
    case DNull => v == LTable(kNull)
    case DBool(b) => v == LBool(b)
    case DNumber(text) => v == LNum(Finite(text)) && IsJsonNumber(text)
    case DString(s) => v == LStr(s)
    case DTable(slots, names, values) =>
      && v.LTable? && v.addr != kNull && v.addr in h
      && HasOnlyUsualKeys(h[v.addr])
      && names == KeyNames(h[v.addr])
      && AllDeep(h, kNull, Entries(h[v.addr]), slots)
      && AllDeep(h, kNull, NamedValues(h[v.addr], names), values)
  }

  ghost predicate AllDeep(h: Heap, kNull: Addr, vs: seq<LValue>, ds: seq<Deep>)
    decreases ds, 0
  {
    |vs| == |ds| && (ds == [] || (DeepIs(h, kNull, vs[0], ds[0]) && AllDeep(h, kNull, vs[1..], ds[1..])))
  }

  ghost predicate HasOnlyUsualKeys(t: Table) { forall e :: e in t.odd ==> e.1 == LNil }

  function KeyNames(t: Table): (r: seq<string>) { SortedKeys(StringNames(t)) }

  function Entries(t: Table): (r: seq<LValue>) { t.slots[..Len(t.slots)] }

  /** Every table is an array or has string keys, not both. */
  predicate Plain(d: Deep)
    decreases d, 1
  {
    d.DTable? ==> (d.slots == [] || d.names == []) && AllPlain(d.slots) && AllPlain(d.values)
  }

  predicate AllPlain(ds: seq<Deep>)
    decreases ds, 0
  {
    ds == [] || (Plain(ds[0]) && AllPlain(ds[1..]))
  }

  /** The tree a plain value is written as. */
  function TreeOf(d: Deep): (r: Tree)
    decreases d, 1
  {
    match d
    case DNull => TNull
    case DBool(b) => TBool(b)
    case DNumber(text) => TNum(text)
    case DString(s) => TStr(s)
    case DTable(slots, names, values) => if slots != [] then TArr(TreesOf(slots)) else TObj(names, TreesOf(values))
  }

  function TreesOf(ds: seq<Deep>): (ts: seq<Tree>)
    ensures |ts| == |ds|
    decreases ds, 0
  {
    if ds == [] then [] else [TreeOf(ds[0])] + TreesOf(ds[1..])
  }

  // ----- Writing -----

  lemma {:induction false} NoIndexNames(slots: seq<LValue>)
    requires Len(slots) == 0
    ensures IndexNames(slots) == multiset{}
  {
    if slots != [] { NoIndexNames(slots[..|slots| - 1]); }
  }

  lemma {:induction false} NoOddNames(odd: seq<(OddKey, LValue)>)
    requires forall e :: e in odd ==> e.1 == LNil
    ensures OddNames(odd) == multiset{}
  {
    if odd != [] { NoOddNames(odd[..|odd| - 1]); }
  }

  lemma ObjectNames(t: Table)
    requires Len(t.slots) == 0 && HasOnlyUsualKeys(t)
    ensures SortedNames(t) == KeyNames(t)
  {
    NoIndexNames(t.slots);
    NoOddNames(t.odd);
    assert IndexNames(t.slots) + multiset(StringNames(t)) + OddNames(t.odd) == multiset(StringNames(t));
  }

  lemma {:induction false} DeepIsNotNil(h: Heap, kNull: Addr, vs: seq<LValue>, ds: seq<Deep>, i: nat)
    requires AllDeep(h, kNull, vs, ds) && i < |vs|
    ensures vs[i] != LNil
  {
    if i > 0 { DeepIsNotNil(h, kNull, vs[1..], ds[1..], i - 1); }
  }

  lemma NoKeys(t: Table)
    requires KeyNames(t) == []
    ensures forall k :: k in t.strings ==> t.strings[k] == LNil
  {
    forall k | k in t.strings ensures t.strings[k] == LNil {
      assert k in StringNames(t) ==> k in KeyNames(t);
    }
  }

  lemma DenseEntries(h: Heap, kNull: Addr, t: Table, slots: seq<Deep>)
    requires AllDeep(h, kNull, Entries(t), slots)
    ensures IsDense(t)
  {
    forall i | 1 <= i <= Len(t.slots) ensures RawGetInt(t, i) != LNil {
      DeepIsNotNil(h, kNull, Entries(t), slots, i - 1);
    }
  }

  lemma ArrayView(h: Heap, kNull: Addr, t: Table, slots: seq<Deep>)
    requires HasOnlyUsualKeys(t) && AllDeep(h, kNull, Entries(t), slots) && slots != [] && KeyNames(t) == []
    ensures TableView(t) == ArrayOf(Entries(t))
  {
    NoKeys(t);
    DenseEntries(h, kNull, t, slots);
  }

  /** How a plain table is seen by the encoder. */
  lemma PlainView(h: Heap, kNull: Addr, t: Table, slots: seq<Deep>)
    requires HasOnlyUsualKeys(t) && AllDeep(h, kNull, Entries(t), slots)
    requires slots == [] || KeyNames(t) == []
    ensures TableView(t) == if slots != [] then ArrayOf(Entries(t)) else ObjectOf(KeyNames(t), NamedValues(t, KeyNames(t)))
  {
    if slots == [] { ObjectNames(t); } else { ArrayView(h, kNull, t, slots); }
  }

  lemma {:induction false} PlainUnfolds(h: Heap, kNull: Addr, v: LValue, d: Deep)
    requires DeepIs(h, kNull, v, d) && Plain(d)
    ensures Unfolds(Seen(h), kNull, v, TreeOf(d)) && Sound(TreeOf(d))
    decreases d, 1
  {
    if d.DTable? {
      var t := h[v.addr];
      assert Seen(h)(v.addr) == TableView(t);
      PlainView(h, kNull, t, d.slots);
      AllPlainUnfold(h, kNull, Entries(t), d.slots);
      AllPlainUnfold(h, kNull, NamedValues(t, d.names), d.values);
    }
  }

  lemma {:induction false} AllPlainUnfold(h: Heap, kNull: Addr, vs: seq<LValue>, ds: seq<Deep>)
    requires AllDeep(h, kNull, vs, ds) && AllPlain(ds)
    ensures AllUnfold(Seen(h), kNull, vs, TreesOf(ds)) && AllSound(TreesOf(ds))
    decreases ds, 0
  {
    if ds != [] {
      PlainUnfolds(h, kNull, vs[0], ds[0]);
      AllPlainUnfold(h, kNull, vs[1..], ds[1..]);
    }
  }

  // ----- Reading: convertJSONGo -----

  /** h2 has all of h, unchanged. */
  ghost predicate Extends(h: Heap, h2: Heap) { forall a :: a in h ==> a in h2 && h2[a] == h[a] }

  /** In this heap, v is the converted g, built of tables of its own. */
  ghost predicate Matches(h: Heap, kNull: Addr, v: LValue, g: GoValue)
    decreases g, 1
  {
    match g
    case GNil => v == LTable(kNull)
    case GBool(b) => v == LBool(b)
    case GNumber(text) => v == LNum(Finite(text))
    case GString(s) => v == LStr(s)
    case GSlice(items) =>
      && v.LTable? && v.addr in h && v.addr != kNull
      && h[v.addr].strings == map[] && h[v.addr].odd == []
      && AllMatch(h, kNull, h[v.addr].slots, items)
    case GMap(members) =>
      && v.LTable? && v.addr in h && v.addr != kNull
      && h[v.addr].slots == [] && h[v.addr].odd == []
      && h[v.addr].strings.Keys == members.Keys
      && forall k :: k in members ==> Matches(h, kNull, h[v.addr].strings[k], members[k])
  }

  ghost predicate AllMatch(h: Heap, kNull: Addr, vs: seq<LValue>, gs: seq<GoValue>)
    decreases gs, 0
  {
    |vs| == |gs| && (gs == [] || (Matches(h, kNull, vs[0], gs[0]) && AllMatch(h, kNull, vs[1..], gs[1..])))
  }

  lemma {:induction false} MatchesExtends(h: Heap, h2: Heap, kNull: Addr, v: LValue, g: GoValue)
    requires Extends(h, h2) && Matches(h, kNull, v, g)
    ensures Matches(h2, kNull, v, g)
    decreases g, 1
  {
    if g.GSlice? {
      AllMatchExtend(h, h2, kNull, h[v.addr].slots, g.items);
    } else if g.GMap? {
      forall k | k in g.members ensures Matches(h2, kNull, h2[v.addr].strings[k], g.members[k]) {
        MatchesExtends(h, h2, kNull, h[v.addr].strings[k], g.members[k]);
      }
    }
  }

  lemma {:induction false} AllMatchExtend(h: Heap, h2: Heap, kNull: Addr, vs: seq<LValue>, gs: seq<GoValue>)
    requires Extends(h, h2) && AllMatch(h, kNull, vs, gs)
    ensures AllMatch(h2, kNull, vs, gs)
    decreases gs, 0
  {
    if gs != [] {
      MatchesExtends(h, h2, kNull, vs[0], gs[0]);
      AllMatchExtend(h, h2, kNull, vs[1..], gs[1..]);
    }
  }

  lemma {:induction false} AllMatchAnother(h: Heap, kNull: Addr, vs: seq<LValue>, gs: seq<GoValue>, v: LValue, g: GoValue)
    requires AllMatch(h, kNull, vs, gs) && Matches(h, kNull, v, g)
    ensures AllMatch(h, kNull, vs + [v], gs + [g])
  {
    if gs != [] {
      assert (vs + [v])[1..] == vs[1..] + [v] && (gs + [g])[1..] == gs[1..] + [g];
      AllMatchAnother(h, kNull, vs[1..], gs[1..], v, g);
    }
  }

  lemma {:induction false} FreshExists(addrs: set<Addr>) returns (a: Addr)
    ensures forall x :: x in addrs ==> x < a
    decreases |addrs|
  {
    if addrs == {} { return 0; }
    var x :| x in addrs;
    var b := FreshExists(addrs - {x});
    assert forall y :: y in addrs ==> y in addrs - {x} || y == x;
    return if b > x then b else x + 1;
  }

  /** L.NewTable, already filled: which new address it gets is left open. */
  method NewTable(h: Heap, t: Table) returns (h2: Heap, a: Addr)
    ensures a !in h && h2 == h[a := t] && Extends(h, h2)
  {
    ghost var b := FreshExists(h.Keys);
    assert b !in h;
    a :| a !in h;
    h2 := h[a := t];
  }

  /** convertJSONGo. A Go map is visited in any order; each table is allocated once its entries are. */
  method ConvertJsonGo(h: Heap, kNull: Addr, g: GoValue) returns (h2: Heap, v: LValue)
    requires kNull in h
    ensures Extends(h, h2) && Matches(h2, kNull, v, g)
    decreases g
  {
    match g {
      case GNil => return h, LTable(kNull);
      case GBool(b) => return h, LBool(b);
      case GNumber(text) => return h, LNum(Finite(text));
      case GString(s) => return h, LStr(s);
      case GSlice(items) =>
        h2 := h;
        var slots: seq<LValue> := [];
        for i := 0 to |items|
          invariant |slots| == i && Extends(h, h2) && AllMatch(h2, kNull, slots, items[..i])
        {
          var h3, c := ConvertJsonGo(h2, kNull, items[i]);
          AllMatchExtend(h2, h3, kNull, slots, items[..i]);
          AllMatchAnother(h3, kNull, slots, items[..i], c, items[i]);
          assert items[..i + 1] == items[..i] + [items[i]];
          h2, slots := h3, slots + [c];
        }
        assert items[..|items|] == items;
        var h3, a := NewTable(h2, Table(slots, map[], []));
        AllMatchExtend(h2, h3, kNull, slots, items);
        return h3, LTable(a);
      case GMap(members) =>
        h2 := h;
        var fields: map<string, LValue> := map[];
        var rest := members.Keys;
        while rest != {}
          invariant rest <= members.Keys && fields.Keys == members.Keys - rest && Extends(h, h2)
          invariant forall k :: k in fields ==> Matches(h2, kNull, fields[k], members[k])
          decreases |rest|
        {
          var k :| k in rest;
          var h3, c := ConvertJsonGo(h2, kNull, members[k]);
          forall x | x in fields ensures Matches(h3, kNull, fields[x], members[x]) {
            MatchesExtends(h2, h3, kNull, fields[x], members[x]);
          }
          h2, fields, rest := h3, fields[k := c], rest - {k};
        }
        var h3, a := NewTable(h2, Table([], fields, []));
        forall k | k in members ensures Matches(h3, kNull, fields[k], members[k]) {
          MatchesExtends(h2, h3, kNull, fields[k], members[k]);
        }
        return h3, LTable(a);
    }
  }

  // ----- The round trip -----

  lemma {:induction false} MemberLookup(names: seq<string>, ts: seq<Tree>, m: map<string, GoValue>)
    requires |names| == |ts|
    requires forall i, j :: 0 <= i < j < |names| ==> names[i] != names[j]
    ensures MembersOf(names, ts, m).Keys == m.Keys + set i | 0 <= i < |names| :: names[i]
    ensures forall i :: 0 <= i < |names| ==> MembersOf(names, ts, m)[names[i]] == GoOf(ts[i])
    ensures forall k :: k in m && k !in names ==> MembersOf(names, ts, m)[k] == m[k]
    decreases ts
  {
    if ts != [] {
      var m1 := m[names[0] := GoOf(ts[0])];
      MemberLookup(names[1..], ts[1..], m1);
      assert names[0] !in names[1..];
      assert names == [names[0]] + names[1..];
      forall i | 0 <= i < |names| ensures MembersOf(names, ts, m)[names[i]] == GoOf(ts[i]) {
        if i > 0 { assert names[1..][i - 1] == names[i] && ts[1..][i - 1] == ts[i]; }
      }
    }
  }

  lemma {:induction false} MatchIsNotNil(h: Heap, kNull: Addr, vs: seq<LValue>, gs: seq<GoValue>)
    requires AllMatch(h, kNull, vs, gs)
    ensures Len(vs) == |vs|
  {
    if vs != [] { MatchAt(h, kNull, vs, gs, |vs| - 1); }
  }

  lemma {:induction false} MatchAt(h: Heap, kNull: Addr, vs: seq<LValue>, gs: seq<GoValue>, i: nat)
    requires AllMatch(h, kNull, vs, gs) && i < |vs|
    ensures Matches(h, kNull, vs[i], gs[i])
  {
    if i > 0 { MatchAt(h, kNull, vs[1..], gs[1..], i - 1); }
  }

  /** The string keys of a converted object, and its values looked up by name. */
  lemma ObjectMatches(h: Heap, kNull: Addr, t: Table, names: seq<string>, ts: seq<Tree>, m: map<string, GoValue>)
    requires |names| == |ts| && m == MembersOf(names, ts, map[])
    requires forall i, j :: 0 <= i < j < |names| ==> names[i] != names[j]
    requires t.strings.Keys == m.Keys && forall k :: k in m ==> Matches(h, kNull, t.strings[k], m[k])
    ensures StringNames(t) == set i | 0 <= i < |names| :: names[i]
    ensures AllMatch(h, kNull, NamedValues(t, names), AllGoOf(ts))
  {
    MemberLookup(names, ts, map[]);
    forall i | 0 <= i < |names| ensures Matches(h, kNull, RawGetString(t, names[i]), GoOf(ts[i])) {
      assert names[i] in m;
    }
    assert forall k :: k in t.strings ==> t.strings[k] != LNil;
    NamedMatch(h, kNull, t, names, ts);
  }

  lemma {:induction false} NamedMatch(h: Heap, kNull: Addr, t: Table, names: seq<string>, ts: seq<Tree>)
    requires |names| == |ts|
    requires forall i :: 0 <= i < |names| ==> Matches(h, kNull, RawGetString(t, names[i]), GoOf(ts[i]))
    ensures AllMatch(h, kNull, NamedValues(t, names), AllGoOf(ts))
  {
    if ts != [] {
      assert Matches(h, kNull, RawGetString(t, names[0]), GoOf(ts[0]));
      forall i | 0 <= i < |names[1..]| ensures Matches(h, kNull, RawGetString(t, names[1..][i]), GoOf(ts[1..][i])) {
        assert names[1..][i] == names[i + 1] && ts[1..][i] == ts[i + 1];
      }
      NamedMatch(h, kNull, t, names[1..], ts[1..]);
    }
  }

  lemma KeyNamesAre(t: Table)
    ensures (set i | 0 <= i < |KeyNames(t)| :: KeyNames(t)[i]) == StringNames(t)
    ensures forall i, j :: 0 <= i < j < |KeyNames(t)| ==> KeyNames(t)[i] != KeyNames(t)[j]
  {
    var names, all := KeyNames(t), set i | 0 <= i < |KeyNames(t)| :: KeyNames(t)[i];
    forall k ensures k in all <==> k in StringNames(t) {
      assert k in names <==> k in StringNames(t);
    }
  }

  /** A converted object has the keys it was written with, and its values under them. */
  lemma ObjectConverted(h: Heap, kNull: Addr, t: Table, t0: Table, ts: seq<Tree>)
    requires |KeyNames(t0)| == |ts|
    requires t.strings.Keys == MembersOf(KeyNames(t0), ts, map[]).Keys
    requires forall k :: k in t.strings ==> Matches(h, kNull, t.strings[k], MembersOf(KeyNames(t0), ts, map[])[k])
    ensures KeyNames(t) == KeyNames(t0)
    ensures AllMatch(h, kNull, NamedValues(t, KeyNames(t0)), AllGoOf(ts))
  {
    KeyNamesAre(t0);
    ObjectMatches(h, kNull, t, KeyNames(t0), ts, MembersOf(KeyNames(t0), ts, map[]));
  }

  /** A converted array has its items for entries and no keys. */
  lemma ArrayConverted(h: Heap, kNull: Addr, t: Table, gs: seq<GoValue>)
    requires AllMatch(h, kNull, t.slots, gs) && t.strings == map[]
    ensures Entries(t) == t.slots && KeyNames(t) == []
  {
    MatchIsNotNil(h, kNull, t.slots, gs);
    assert StringNames(t) == {};
    NoKeysNoNames(t);
  }

  lemma NoKeysNoNames(t: Table)
    requires StringNames(t) == {}
    ensures KeyNames(t) == []
  {
    assert multiset(StringNames(t)) == multiset{};
  }

  /** Decoding what a plain value is written as gives that value again. */
  lemma {:induction false} PlainBack(h0: Heap, kNull0: Addr, v0: LValue, h: Heap, kNull: Addr, v: LValue, d: Deep)
    requires DeepIs(h0, kNull0, v0, d) && Plain(d)
    requires Matches(h, kNull, v, GoOf(TreeOf(d)))
    ensures DeepIs(h, kNull, v, d)
    decreases d, 1
  {
    if d.DTable? {
      TableMatches(h, kNull, v, d);
      if d.slots != [] {
        ArrayPlainBack(h0, kNull0, h0[v0.addr], h, kNull, h[v.addr], d.slots);
      } else {
        ObjectPlainBack(h0, kNull0, h0[v0.addr], h, kNull, h[v.addr], d.values);
      }
    }
  }

  /** What it is for a value to match a table's tree. */
  lemma TableMatches(h: Heap, kNull: Addr, v: LValue, d: Deep)
    requires d.DTable? && |d.names| == |d.values| && Matches(h, kNull, v, GoOf(TreeOf(d)))
    ensures v.LTable? && v.addr in h && v.addr != kNull && h[v.addr].odd == []
    ensures d.slots != [] ==> h[v.addr].strings == map[] && AllMatch(h, kNull, h[v.addr].slots, AllGoOf(TreesOf(d.slots)))
    ensures d.slots == [] ==>
      var m := MembersOf(d.names, TreesOf(d.values), map[]);
      && h[v.addr].slots == [] && h[v.addr].strings.Keys == m.Keys
      && forall k :: k in m ==> Matches(h, kNull, h[v.addr].strings[k], m[k])
  {
  }

  lemma {:induction false} ArrayPlainBack(h0: Heap, kNull0: Addr, t0: Table, h: Heap, kNull: Addr, t: Table, slots: seq<Deep>)
    requires AllDeep(h0, kNull0, Entries(t0), slots) && AllPlain(slots)
    requires t.strings == map[] && AllMatch(h, kNull, t.slots, AllGoOf(TreesOf(slots)))
    ensures KeyNames(t) == [] && AllDeep(h, kNull, Entries(t), slots)
    decreases slots, 1
  {
    ArrayConverted(h, kNull, t, AllGoOf(TreesOf(slots)));
    AllPlainBack(h0, kNull0, Entries(t0), h, kNull, t.slots, slots);
  }

  lemma {:induction false} ObjectPlainBack(h0: Heap, kNull0: Addr, t0: Table, h: Heap, kNull: Addr, t: Table, values: seq<Deep>)
    requires AllDeep(h0, kNull0, NamedValues(t0, KeyNames(t0)), values) && AllPlain(values)
    requires t.strings.Keys == MembersOf(KeyNames(t0), TreesOf(values), map[]).Keys
    requires forall k :: k in t.strings ==> Matches(h, kNull, t.strings[k], MembersOf(KeyNames(t0), TreesOf(values), map[])[k])
    ensures KeyNames(t) == KeyNames(t0) && AllDeep(h, kNull, NamedValues(t, KeyNames(t0)), values)
    decreases values, 1
  {
    ObjectConverted(h, kNull, t, t0, TreesOf(values));
    AllPlainBack(h0, kNull0, NamedValues(t0, KeyNames(t0)), h, kNull, NamedValues(t, KeyNames(t0)), values);
  }

  lemma {:induction false} AllPlainBack(h0: Heap, kNull0: Addr, vs0: seq<LValue>, h: Heap, kNull: Addr, vs: seq<LValue>, ds: seq<Deep>)
    requires AllDeep(h0, kNull0, vs0, ds) && AllPlain(ds)
    requires AllMatch(h, kNull, vs, AllGoOf(TreesOf(ds)))
    ensures AllDeep(h, kNull, vs, ds)
    decreases ds, 0
  {
    if ds != [] {
      PlainBack(h0, kNull0, vs0[0], h, kNull, vs[0], ds[0]);
      AllPlainBack(h0, kNull0, vs0[1..], h, kNull, vs[1..], ds[1..]);
    }
  }

  /** Only plain values survive: a table with both kinds of key is written as an object, whose array
      entries are looked up as strings. */
  lemma {:induction false} OnlyPlainBack(h0: Heap, kNull0: Addr, v0: LValue, t: Tree, h: Heap, kNull: Addr, v: LValue, d: Deep)
    requires DeepIs(h0, kNull0, v0, d) && Unfolds(Seen(h0), kNull0, v0, t)
    requires Matches(h, kNull, v, GoOf(t)) && DeepIs(h, kNull, v, d)
    ensures Plain(d)
    decreases d, 1
  {
    if d.DTable? {
      assert Seen(h0)(v0.addr) == TableView(h0[v0.addr]);
      if IsArrayTable(h0[v0.addr]) {
        ArrayOnlyPlain(h0, kNull0, h0[v0.addr], t.items, h, kNull, h[v.addr], d.slots);
        assert d.values == [];
      } else {
        ObjectOnlyPlain(h0, kNull0, h0[v0.addr], t.values, h, kNull, h[v.addr], d.values);
        assert Entries(h[v.addr]) == [];
      }
    }
  }

  lemma {:induction false} ArrayOnlyPlain(h0: Heap, kNull0: Addr, t0: Table, ts: seq<Tree>, h: Heap, kNull: Addr, t: Table, slots: seq<Deep>)
    requires IsArrayTable(t0) && AllDeep(h0, kNull0, Entries(t0), slots) && AllUnfold(Seen(h0), kNull0, Entries(t0), ts)
    requires t.strings == map[] && AllMatch(h, kNull, t.slots, AllGoOf(ts)) && AllDeep(h, kNull, Entries(t), slots)
    ensures KeyNames(t0) == [] && AllPlain(slots)
    decreases slots, 1
  {
    assert StringNames(t0) == {};
    NoKeysNoNames(t0);
    ArrayConverted(h, kNull, t, AllGoOf(ts));
    AllOnlyPlainBack(h0, kNull0, Entries(t0), ts, h, kNull, t.slots, slots);
  }

  lemma {:induction false} ObjectOnlyPlain(h0: Heap, kNull0: Addr, t0: Table, ts: seq<Tree>, h: Heap, kNull: Addr, t: Table, values: seq<Deep>)
    requires HasOnlyUsualKeys(t0) && Len(t0.slots) == 0
    requires AllDeep(h0, kNull0, NamedValues(t0, KeyNames(t0)), values)
    requires AllUnfold(Seen(h0), kNull0, NamedValues(t0, SortedNames(t0)), ts)
    requires t.strings.Keys == MembersOf(SortedNames(t0), ts, map[]).Keys
    requires forall k :: k in t.strings ==> Matches(h, kNull, t.strings[k], MembersOf(SortedNames(t0), ts, map[])[k])
    requires AllDeep(h, kNull, NamedValues(t, KeyNames(t0)), values)
    ensures AllPlain(values)
    decreases values, 1
  {
    ObjectNames(t0);
    ObjectConverted(h, kNull, t, t0, ts);
    AllOnlyPlainBack(h0, kNull0, NamedValues(t0, KeyNames(t0)), ts, h, kNull, NamedValues(t, KeyNames(t0)), values);
  }

  lemma {:induction false} AllOnlyPlainBack(h0: Heap, kNull0: Addr, vs0: seq<LValue>, ts: seq<Tree>, h: Heap, kNull: Addr, vs: seq<LValue>, ds: seq<Deep>)
    requires AllDeep(h0, kNull0, vs0, ds) && AllUnfold(Seen(h0), kNull0, vs0, ts)
    requires AllMatch(h, kNull, vs, AllGoOf(ts)) && AllDeep(h, kNull, vs, ds)
    ensures AllPlain(ds)
    decreases ds, 0
  {
    if ds != [] {
      OnlyPlainBack(h0, kNull0, vs0[0], ts[0], h, kNull, vs[0], ds[0]);
      AllOnlyPlainBack(h0, kNull0, vs0[1..], ts[1..], h, kNull, vs[1..], ds[1..]);
    }
  }

  ghost predicate WrittenAs(h: Heap, kNull: Addr, v: LValue, text: string) {
    Writable(Seen(h), kNull, v, 0, {}) && text == Encode(Written(Seen(h), kNull, v, 0))
  }

  /** A plain value can be stored exactly when it nests within the cap, and the decoder reads its text
      whole. */
  lemma PlainText(h: Heap, kNull: Addr, v: LValue, d: Deep, text: string)
    requires DeepIs(h, kNull, v, d) && Plain(d)
    ensures Writable(Seen(h), kNull, v, 0, {}) <==> Height(TreeOf(d)) <= MAX_DEPTH
    ensures WrittenAs(h, kNull, v, text) ==> ParseValue(text) == Some((GoOf(TreeOf(d)), ""))
  {
    PlainUnfolds(h, kNull, v, d);
    WritableIffShallow(Seen(h), kNull, v, TreeOf(d));
    if WrittenAs(h, kNull, v, text) {
      WritableUnfolds(Seen(h), kNull, v, 0, {});
      UnfoldsOnce(Seen(h), kNull, v, TreeOf(d), Written(Seen(h), kNull, v, 0));
      ValueBack(TreeOf(d), "");
      assert text + "" == text;
    }
  }

  lemma {:induction false} DeepIsSound(h: Heap, kNull: Addr, v: LValue, d: Deep, t: Tree)
    requires DeepIs(h, kNull, v, d) && Unfolds(Seen(h), kNull, v, t)
    ensures Sound(t)
    decreases d, 2
  {
    if d.DTable? {
      assert Seen(h)(v.addr) == TableView(h[v.addr]);
      if t.TArr? {
        AllDeepAreSound(h, kNull, Entries(h[v.addr]), d.slots, t.items);
      } else {
        NamedAreSound(h, kNull, h[v.addr], d.values, SortedNames(h[v.addr]), t.values);
      }
    }
  }

  lemma {:induction false} AllDeepAreSound(h: Heap, kNull: Addr, vs: seq<LValue>, ds: seq<Deep>, ts: seq<Tree>)
    requires AllDeep(h, kNull, vs, ds) && AllUnfold(Seen(h), kNull, vs, ts)
    ensures AllSound(ts)
    decreases ds, 0
  {
    if ds != [] {
      DeepIsSound(h, kNull, vs[0], ds[0], ts[0]);
      AllDeepAreSound(h, kNull, vs[1..], ds[1..], ts[1..]);
    }
  }

  lemma {:induction false} NamedAreSound(h: Heap, kNull: Addr, t: Table, ds: seq<Deep>, names: seq<string>, ts: seq<Tree>)
    requires AllDeep(h, kNull, NamedValues(t, KeyNames(t)), ds)
    requires AllUnfold(Seen(h), kNull, NamedValues(t, names), ts)
    ensures AllSound(ts)
    decreases ds, 1, |names|
  {
    if names != [] {
      var v := RawGetString(t, names[0]);
      if v != LNil {
        var j := KeyAt(t, names[0]);
        NamedDeepAt(h, kNull, t, KeyNames(t), ds, j);
        DeepIsSound(h, kNull, v, ds[j], ts[0]);
      }
      NamedAreSound(h, kNull, t, ds, names[1..], ts[1..]);
    }
  }

  lemma KeyAt(t: Table, name: string) returns (j: nat)
    requires RawGetString(t, name) != LNil
    ensures j < |KeyNames(t)| && KeyNames(t)[j] == name
  {
    assert name in StringNames(t);
    assert name in KeyNames(t);
    j :| 0 <= j < |KeyNames(t)| && KeyNames(t)[j] == name;
  }

  lemma {:induction false} NamedDeepAt(h: Heap, kNull: Addr, t: Table, names: seq<string>, ds: seq<Deep>, j: nat)
    requires AllDeep(h, kNull, NamedValues(t, names), ds) && j < |names|
    ensures j < |ds| && DeepIs(h, kNull, RawGetString(t, names[j]), ds[j])
  {
    if j > 0 { NamedDeepAt(h, kNull, t, names[1..], ds[1..], j - 1); }
  }

  /** The round trip, from one worker's heap to another's: what a stored value decodes to is equal to it
      exactly when it is plain. */
  lemma RoundTripIffPlain(h0: Heap, kNull0: Addr, v0: LValue, d: Deep, text: string, h: Heap, kNull: Addr, v: LValue)
    requires DeepIs(h0, kNull0, v0, d) && WrittenAs(h0, kNull0, v0, text)
    requires ParseValue(text).Some? && Matches(h, kNull, v, ParseValue(text).value.0)
    ensures DeepIs(h, kNull, v, d) <==> Plain(d)
  {
    var t := Written(Seen(h0), kNull0, v0, 0);
    WritableUnfolds(Seen(h0), kNull0, v0, 0, {});
    DeepIsSound(h0, kNull0, v0, d, t);
    ValueBack(t, "");
    assert text + "" == text;
    if Plain(d) {
      PlainUnfolds(h0, kNull0, v0, d);
      UnfoldsOnce(Seen(h0), kNull0, v0, TreeOf(d), t);
      PlainBack(h0, kNull0, v0, h, kNull, v, d);
    } else if DeepIs(h, kNull, v, d) {
      OnlyPlainBack(h0, kNull0, v0, t, h, kNull, v, d);
    }
  }

  // ----- k.shared -----

  /** d is some worker's plain value. */
  ghost predicate IsPlainValue(d: Deep) {
    Plain(d) && exists h, kNull, v :: DeepIs(h, kNull, v, d)
  }

  /** The plain values held once v is stored under key. */
  ghost function Remember(held: map<string, Deep>, key: string, h: Heap, kNull: Addr, v: LValue, text: string): (now: map<string, Deep>)
    requires WrittenAs(h, kNull, v, text)
    ensures now - {key} == held - {key}
    ensures key in now ==> IsTextOf(text, now[key])
    ensures forall d :: DeepIs(h, kNull, v, d) && Plain(d) ==> key in now && now[key] == d
  {
    if d :| DeepIs(h, kNull, v, d) && Plain(d) then
      PlainText(h, kNull, v, d, text);
      OnlyDeep(h, kNull, v, d);
      held[key := d]
    else held - {key}
  }

  lemma OnlyDeep(h: Heap, kNull: Addr, v: LValue, d: Deep)
    requires DeepIs(h, kNull, v, d)
    ensures forall e :: DeepIs(h, kNull, v, e) ==> e == d
  {
    forall e | DeepIs(h, kNull, v, e) ensures e == d { DeepIsOnce(h, kNull, v, d, e); }
  }

  /** What stringifyJSON says of a value: its text, or whether a plain one is too deep. */
  lemma PlainStores(h: Heap, kNull: Addr, v: LValue, text: Option<string>)
    requires text.None? <==> HasBadPath(Seen(h), kNull, v, 0, {})
    requires text.Some? ==> text.value == Encode(Written(Seen(h), kNull, v, 0))
    ensures text.Some? ==> WrittenAs(h, kNull, v, text.value)
    ensures forall d :: DeepIs(h, kNull, v, d) && Plain(d) ==> (text.Some? <==> Height(TreeOf(d)) <= MAX_DEPTH)
  {
    FailsExactlyOnBadPaths(Seen(h), kNull, v);
    forall d | DeepIs(h, kNull, v, d) && Plain(d) ensures text.Some? <==> Height(TreeOf(d)) <= MAX_DEPTH {
      PlainText(h, kNull, v, d, "");
    }
  }

  /** Each value held is plain, and its text decodes to it and to nothing more. */
  ghost predicate Holds(texts: map<string, string>, held: map<string, Deep>) {
    forall k :: k in held ==> k in texts && IsTextOf(texts[k], held[k])
  }

  ghost predicate IsTextOf(text: string, d: Deep) {
    IsPlainValue(d) && ParseValue(text) == Some((GoOf(TreeOf(d)), ""))
  }

  lemma HoldsAfter(texts: map<string, string>, held: map<string, Deep>, key: string, text: string, now: map<string, Deep>)
    requires Holds(texts, held) && now - {key} == held - {key} && (key in now ==> IsTextOf(text, now[key]))
    ensures Holds(texts[key := text], now)
  {
    forall k | k in now && k != key ensures k in held && now[k] == held[k] {
      assert k in now - {key};
      assert (now - {key})[k] == (held - {key})[k];
    }
  }

  class Shared {
    var texts: map<string, string>

    /** The plain values now stored, by key. */
    ghost var held: map<string, Deep>

    ghost predicate Valid()
      reads this
    {
      Holds(texts, held)
    }

    constructor ()
      ensures Valid() && texts == map[] && held == map[]
    {
      texts, held := map[], map[];
    }

    /** k.shared.set: nothing changes when the value cannot be encoded. */
    method Set(h: Heap, kNull: Addr, key: string, v: LValue) returns (ok: bool)
      requires Valid()
      modifies this
      ensures Valid()
      ensures ok <==> !HasBadPath(Seen(h), kNull, v, 0, {})
      ensures !ok ==> texts == old(texts) && held == old(held)
      ensures ok ==> key in texts && texts - {key} == old(texts) - {key} && held - {key} == old(held) - {key}
      ensures forall d :: DeepIs(h, kNull, v, d) && Plain(d) ==>
        ok == (Height(TreeOf(d)) <= MAX_DEPTH) && (ok ==> key in held && held[key] == d)
    {
      var text := Stringify(h, kNull, v);
      PlainStores(h, kNull, v, text);
      if text.None? { return false; }
      ghost var now := Remember(held, key, h, kNull, v, text.value);
      HoldsAfter(texts, held, key, text.value, now);
      texts, held := texts[key := text.value], now;
      return true;
    }

    /** k.shared.get: the decoded value in new tables, or the text itself when it is not JSON. */
    method Get(h: Heap, kNull: Addr, key: string) returns (h2: Heap, v: LValue)
      requires Valid() && kNull in h
      ensures Extends(h, h2)
      ensures key in held ==> DeepIs(h2, kNull, v, held[key])
      ensures key !in texts ==> v == LStr("")
    {
      var text := if key in texts then texts[key] else "";
      var g := ParseValue(text);
      if g.None? { return h, LStr(text); }
      h2, v := ConvertJsonGo(h, kNull, g.value.0);
      if key in held {
        ghost var h0, kNull0, v0 :| DeepIs(h0, kNull0, v0, held[key]);
        PlainBack(h0, kNull0, v0, h2, kNull, v, held[key]);
      }
    }

    /** k.shared.del. */
    method Del(key: string)
      requires Valid()
      modifies this
      ensures Valid() && texts == old(texts) - {key} && held == old(held) - {key}
    {
      texts, held := texts - {key}, held - {key};
    }
  }

  lemma {:induction false} DeepIsOnce(h: Heap, kNull: Addr, v: LValue, d: Deep, e: Deep)
    requires DeepIs(h, kNull, v, d) && DeepIs(h, kNull, v, e)
    ensures d == e
    decreases d, 1
  {
    if d.DTable? {
      var t := h[v.addr];
      AllDeepOnce(h, kNull, Entries(t), d.slots, e.slots);
      AllDeepOnce(h, kNull, NamedValues(t, d.names), d.values, e.values);
    }
  }

  lemma {:induction false} AllDeepOnce(h: Heap, kNull: Addr, vs: seq<LValue>, ds: seq<Deep>, es: seq<Deep>)
    requires AllDeep(h, kNull, vs, ds) && AllDeep(h, kNull, vs, es)
    ensures ds == es
    decreases ds, 0
  {
    if ds != [] {
      DeepIsOnce(h, kNull, vs[0], ds[0], es[0]);
      AllDeepOnce(h, kNull, vs[1..], ds[1..], es[1..]);
      assert ds == [ds[0]] + ds[1..] && es == [es[0]] + es[1..];
    }
  }
}
