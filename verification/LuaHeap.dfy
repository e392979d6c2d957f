/** gopher-lua values and the heap of tables they point into. A table has an array part (with holes as
    nil), string keys, and other keys, as in its table.go. */
module LuaHeap {
  import opened Text

  type Addr = nat

  /** A float64: its exact JSON text when finite. */
  datatype LNumber = Finite(text: string) | NotFinite

  datatype LValue =
    | LNil
    | LBool(b: bool)
    | LNum(n: LNumber)
    | LStr(s: string)
    | LTable(addr: Addr)
    | LOther(typeName: string)

  /** A key that is neither an array index nor a string: a number, with its int() truncation, or
      anything else, with its String() form. */
  datatype OddKey = NumberKey(text: string, truncated: int) | OtherKey(text: string)

  /** odd lists the other keys in the order ForEach visits them. */
  datatype Table = Table(slots: seq<LValue>, strings: map<string, LValue>, odd: seq<(OddKey, LValue)>)

  type Heap = map<Addr, Table>

  function TableAt(h: Heap, a: Addr): (r: Table) { if a in h then h[a] else Table([], map[], []) }

  /** LTable.Len: through the last entry of the array part that is not nil. */
  function Len(slots: seq<LValue>): (n: nat)
    ensures n <= |slots|
    ensures n > 0 ==> slots[n - 1] != LNil
    ensures forall i :: n <= i < |slots| ==> slots[i] == LNil
  {
    if slots == [] then 0
    else if slots[|slots| - 1] != LNil then |slots|
    else Len(slots[..|slots| - 1])
  }

  function RawGetInt(t: Table, i: int): (r: LValue) { if 1 <= i <= |t.slots| then t.slots[i - 1] else LNil }

  function RawGetString(t: Table, k: string): (r: LValue) { if k in t.strings then t.strings[k] else LNil }

  predicate IsDense(t: Table) {
    forall i :: 1 <= i <= Len(t.slots) ==> RawGetInt(t, i) != LNil
  }

  /** isArrayTable: dense, and no key ForEach visits is a string or truncates outside 1..n. */
  predicate IsArrayTable(t: Table) {
    var n := Len(t.slots);
    && n > 0
    && IsDense(t)
    && (forall k :: k in t.strings ==> t.strings[k] == LNil)
    && (forall e :: e in t.odd && e.1 != LNil ==> e.0.NumberKey? && 1 <= e.0.truncated <= n)
  }

  function OddName(k: OddKey): (r: string) {
    match k
    case NumberKey(_, n) => IntText(n)
    case OtherKey(text) => text
  }

  function IndexNames(slots: seq<LValue>): (r: multiset<string>) {
    if slots == [] then multiset{}
    else
      var n := |slots|;
      IndexNames(slots[..n - 1]) + if slots[n - 1] == LNil then multiset{} else multiset{NatText(n)}
  }

  function OddNames(odd: seq<(OddKey, LValue)>): (r: multiset<string>) {
    if odd == [] then multiset{}
    else
      var n := |odd| - 1;
      OddNames(odd[..n]) + if odd[n].1 == LNil then multiset{} else multiset{OddName(odd[n].0)}
  }

  function StringNames(t: Table): (r: set<string>) { set k | k in t.strings && t.strings[k] != LNil }

  /** tableNames, sorted by its caller: one name per visited key, whatever the key's kind. */
  function SortedNames(t: Table): (r: seq<string>) {
    Sort(IndexNames(t.slots) + multiset(StringNames(t)) + OddNames(t.odd))
  }

  // ----- How writeJSON sees a table -----

  /** Its array entries in order, or one lookup by name for every sorted name (a numeric name is looked
      up as a string, and found nil). */
  datatype View = ArrayOf(values: seq<LValue>) | ObjectOf(names: seq<string>, values: seq<LValue>)

  function TableView(t: Table): (view: View)
    ensures view.ObjectOf? ==> |view.names| == |view.values|
  {
    if IsArrayTable(t) then ArrayOf(t.slots[..Len(t.slots)])
    else ObjectOf(SortedNames(t), NamedValues(t, SortedNames(t)))
  }

  function NamedValues(t: Table, names: seq<string>): (vs: seq<LValue>)
    ensures |vs| == |names|
  {
    if names == [] then [] else [RawGetString(t, names[0])] + NamedValues(t, names[1..])
  }

  /** A heap as seen by the encoder. */
  type Look = Addr -> View

  function Seen(h: Heap): (r: Look) { (a: Addr) => TableView(TableAt(h, a)) }
}
