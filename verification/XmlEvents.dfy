/** The stack loop of parseXML (internal/bindings/xml.go) on numbered nodes: what the loop keeps after every
    event, and the proof that an element's own events rebuild it. */
module XmlEvents {
  import opened Text

  /** The decoder's tokens. Comments and the like are Other. */
  datatype Event = Start(name: string, attrs: seq<(string, string)>) | End | Chars(s: string) | Other

  /** An xmlNode, its children and parent by number. */
  datatype ANode = ANode(name: string, attrs: map<string, string>, content: string, children: seq<nat>, parent: Option<nat>)

  datatype State = State(nodes: seq<ANode>, root: Option<nat>, current: Option<nat>, stack: seq<Option<nat>>)

  function AttrMap(attrs: seq<(string, string)>): (r: map<string, string>) {
    if attrs == [] then map[] else AttrMap(attrs[..|attrs| - 1])[attrs[|attrs| - 1].0 := attrs[|attrs| - 1].1]
  }

  function InitialState(): (r: State) { State([], None, None, []) }

  predicate CurrentOk(st: State) { st.current.Some? ==> st.current.value < |st.nodes| }

  function Step(st: State, e: Event): (r: State)
    requires CurrentOk(st)
  {
    match e
    case Other => st
    case Start(name, attrs) =>
      var k, node := |st.nodes|, ANode(name, AttrMap(attrs), "", [], st.current);
      if st.current.Some? then
        var c := st.current.value;
        var parent := st.nodes[c].(children := st.nodes[c].children + [k]);
        State(st.nodes[c := parent] + [node], st.root, Some(k), st.stack + [st.current])
      else State(st.nodes + [node], Some(k), Some(k), st.stack + [st.current])
    case End =>
      if st.stack == [] then st
      else st.(current := st.stack[|st.stack| - 1], stack := st.stack[..|st.stack| - 1])
    case Chars(s) =>
      if st.current.None? then st
      else
        var c := st.current.value;
        st.(nodes := st.nodes[c := st.nodes[c].(content := st.nodes[c].content + TrimSpace(s))])
  }

  // ----- What every event keeps -----

  /** A node's children come after it, in order, and name it as their parent. */
  predicate LinkedDown(nodes: seq<ANode>, i: nat)
    requires i < |nodes|
  {
    && (forall a :: 0 <= a < |nodes[i].children| ==> i < nodes[i].children[a] < |nodes| && nodes[nodes[i].children[a]].parent == Some(i))
    && (forall a, b :: 0 <= a < b < |nodes[i].children| ==> nodes[i].children[a] < nodes[i].children[b])
  }

  /** A node's parent comes before it and lists it. */
  predicate LinkedUp(nodes: seq<ANode>, k: nat)
    requires k < |nodes|
  {
    nodes[k].parent.Some? ==> nodes[k].parent.value < k && k in nodes[nodes[k].parent.value].children
  }

  predicate Linked(nodes: seq<ANode>) {
    forall i :: 0 <= i < |nodes| ==> LinkedDown(nodes, i) && LinkedUp(nodes, i)
  }

  /** The nodes above a node: nothing above none, and above a node its parent's chain and its parent. */
  ghost predicate IsChain(nodes: seq<ANode>, node: Option<nat>, chain: seq<Option<nat>>)
    decreases |chain|
  {
    if node.None? || node.value >= |nodes| then node.None? && chain == []
    else chain != [] && chain[|chain| - 1] == nodes[node.value].parent && IsChain(nodes, nodes[node.value].parent, chain[..|chain| - 1])
  }

  ghost predicate Keeps(st: State) {
    && CurrentOk(st)
    && Linked(st.nodes)
    && (st.root.Some? ==> st.root.value < |st.nodes| && st.nodes[st.root.value].parent == None)
    && IsChain(st.nodes, st.current, st.stack)
  }

  /** The chain looks at parents only. */
  lemma {:induction false} SameChain(a: seq<ANode>, b: seq<ANode>, node: Option<nat>, chain: seq<Option<nat>>)
    requires IsChain(a, node, chain) && |a| <= |b| && forall i :: 0 <= i < |a| ==> a[i].parent == b[i].parent
    ensures IsChain(b, node, chain)
    decreases |chain|
  {
    if node.Some? { SameChain(a, b, a[node.value].parent, chain[..|chain| - 1]); }
  }

  lemma StartKeeps(st: State, e: Event)
    requires Keeps(st) && e.Start?
    ensures Keeps(Step(st, e))
  {
    var now := Step(st, e);
    StartNodes(st, e);
    StartLinks(st.nodes, st.current, |st.nodes|, now.nodes);
    SameChain(st.nodes, now.nodes, st.current, st.stack);
    assert now.stack[..|now.stack| - 1] == st.stack;
  }

  lemma StartNodes(st: State, e: Event)
    requires CurrentOk(st) && e.Start?
    ensures var k, now := |st.nodes|, Step(st, e).nodes;
      && |now| == k + 1 && now[k].children == [] && now[k].parent == st.current
      && (forall i :: 0 <= i < k ==> now[i].parent == st.nodes[i].parent && now[i].children == ChildrenAfter(st.nodes, st.current, k, i))
  {
  }

  function ChildrenAfter(nodes: seq<ANode>, parent: Option<nat>, k: nat, i: nat): (r: seq<nat>)
    requires i < |nodes|
  {
    if parent == Some(i) then nodes[i].children + [k] else nodes[i].children
  }

  /** A new last node, listed by its parent. */
  lemma StartLinks(old0: seq<ANode>, parent: Option<nat>, k: nat, now: seq<ANode>)
    requires Linked(old0) && k == |old0| && |now| == k + 1 && (parent.Some? ==> parent.value < k)
    requires now[k].children == [] && now[k].parent == parent
    requires forall i :: 0 <= i < k ==> now[i].parent == old0[i].parent && now[i].children == ChildrenAfter(old0, parent, k, i)
    ensures Linked(now)
  {
    forall i | 0 <= i < |now| ensures LinkedDown(now, i) && LinkedUp(now, i) {
      if i < k {
        assert LinkedDown(old0, i) && LinkedUp(old0, i);
        if old0[i].parent.Some? { StillListed(old0[old0[i].parent.value].children, k, i); }
      } else if parent.Some? {
        var ks := old0[parent.value].children;
        assert (ks + [k])[|ks|] == k;
      }
    }
  }

  lemma StillListed(ks: seq<nat>, k: nat, x: nat)
    requires x in ks
    ensures x in ks + [k]
  {
    var a :| 0 <= a < |ks| && ks[a] == x;
    assert (ks + [k])[a] == x;
  }

  lemma SameLinks(a: seq<ANode>, b: seq<ANode>)
    requires Linked(a) && |a| == |b|
    requires forall i :: 0 <= i < |a| ==> b[i].children == a[i].children && b[i].parent == a[i].parent
    ensures Linked(b)
  {
    forall i | 0 <= i < |b| ensures LinkedDown(b, i) && LinkedUp(b, i) {
      assert LinkedDown(a, i) && LinkedUp(a, i);
    }
  }

  lemma CharsKeep(st: State, s: string)
    requires Keeps(st)
    ensures Keeps(Step(st, Chars(s)))
  {
    var now := Step(st, Chars(s));
    SameLinks(st.nodes, now.nodes);
    SameChain(st.nodes, now.nodes, st.current, st.stack);
  }

  lemma EndKeeps(st: State)
    requires Keeps(st)
    ensures Keeps(Step(st, End))
  {
  }

  lemma StepKeeps(st: State, e: Event)
    requires Keeps(st)
    ensures Keeps(Step(st, e))
  {
    match e
    case Start(_, _) => StartKeeps(st, e);
    case Chars(s) => CharsKeep(st, s);
    case End => EndKeeps(st);
    case Other =>
  }

  /** The state after some events. */
  ghost function Run(st: State, es: seq<Event>): (now: State)
    requires Keeps(st)
    ensures Keeps(now)
    decreases |es|
  {
    if es == [] then st
    else
      StepKeeps(st, es[0]);
      Run(Step(st, es[0]), es[1..])
  }

  lemma {:induction false} RunMore(st: State, a: seq<Event>, b: seq<Event>)
    requires Keeps(st)
    ensures Run(st, a + b) == Run(Run(st, a), b)
    decreases |a|
  {
    if a == [] {
      assert a + b == b;
    } else {
      StepKeeps(st, a[0]);
      assert (a + b)[1..] == a[1..] + b;
      RunMore(Step(st, a[0]), a[1..], b);
    }
  }

  lemma RunOne(st: State, e: Event)
    requires Keeps(st)
    ensures Run(st, [e]) == Step(st, e)
  {
    assert [e][1..] == [];
  }

  // ----- Trees -----

  /** A node with everything below it. */
  datatype XTree = XTree(name: string, attrs: map<string, string>, content: string, children: seq<XTree>)

  ghost function TreeAt(nodes: seq<ANode>, i: nat): (r: XTree)
    requires Linked(nodes) && i < |nodes|
    decreases |nodes| - i, 1, 0
  {
    assert LinkedDown(nodes, i);
    XTree(nodes[i].name, nodes[i].attrs, nodes[i].content, TreesAt(nodes, i, nodes[i].children))
  }

  ghost function TreesAt(nodes: seq<ANode>, above: nat, ks: seq<nat>): (r: seq<XTree>)
    requires Linked(nodes) && above < |nodes| && forall j :: 0 <= j < |ks| ==> above < ks[j] < |nodes|
    decreases |nodes| - above, 0, |ks|
  {
    if ks == [] then [] else TreesAt(nodes, above, ks[..|ks| - 1]) + [TreeAt(nodes, ks[|ks| - 1])]
  }

  /** An element as written: text and elements in order. */
  datatype Item = Words(s: string) | Element(name: string, attrs: seq<(string, string)>, items: seq<Item>)

  function Events(it: Item): (r: seq<Event>)
    decreases it, 1
  {
    match it
    case Words(s) => [Chars(s)]
    case Element(name, attrs, items) => [Start(name, attrs)] + AllEvents(items) + [End]
  }

  function AllEvents(items: seq<Item>): (r: seq<Event>)
    decreases items, 0
  {
    if items == [] then [] else AllEvents(items[..|items| - 1]) + Events(items[|items| - 1])
  }

  /** The tree an element stands for: its own text, trimmed piece by piece, and its child elements. */
  function TreeOf(it: Item): (r: XTree)
    requires it.Element?
    decreases it, 1
  {
    XTree(it.name, AttrMap(it.attrs), Contents(it.items), Elements(it.items))
  }

  function Contents(items: seq<Item>): (r: string) {
    if items == [] then ""
    else
      var last := items[|items| - 1];
      Contents(items[..|items| - 1]) + if last.Words? then TrimSpace(last.s) else ""
  }

  function Elements(items: seq<Item>): (r: seq<XTree>)
    decreases items, 0
  {
    if items == [] then []
    else
      var last := items[|items| - 1];
      Elements(items[..|items| - 1]) + if last.Element? then [TreeOf(last)] else []
  }

  /** A tree depends only on the nodes from its root on. */
  lemma {:induction false} TreeFrom(a: seq<ANode>, b: seq<ANode>, i: nat)
    requires Linked(a) && Linked(b) && i < |a| <= |b| && forall j :: i <= j < |a| ==> a[j] == b[j]
    ensures TreeAt(a, i) == TreeAt(b, i)
    decreases |a| - i, 1, 0
  {
    assert LinkedDown(a, i) && LinkedDown(b, i);
    TreesFrom(a, b, i, a[i].children);
  }

  lemma {:induction false} TreesFrom(a: seq<ANode>, b: seq<ANode>, above: nat, ks: seq<nat>)
    requires Linked(a) && Linked(b) && above < |a| <= |b|
    requires forall j :: 0 <= j < |ks| ==> above < ks[j] < |a|
    requires forall j :: above < j < |a| ==> a[j] == b[j]
    ensures TreesAt(a, above, ks) == TreesAt(b, above, ks)
    decreases |a| - above, 0, |ks|
  {
    if ks != [] {
      TreesFrom(a, b, above, ks[..|ks| - 1]);
      TreeFrom(a, b, ks[|ks| - 1]);
    }
  }

  /** What the events of some items do inside node c: its text and children grow by theirs, and nothing
      else that was there changes. */
  ghost predicate Adds(st: State, now: State, c: nat, items: seq<Item>, ks: seq<nat>)
    requires c < |st.nodes|
  {
    && Keeps(st) && Keeps(now)
    && st.current == Some(c)
    && now.current == st.current && now.stack == st.stack && now.root == st.root
    && |st.nodes| <= |now.nodes|
    && (forall j :: 0 <= j < |st.nodes| && j != c ==> now.nodes[j] == st.nodes[j])
    && now.nodes[c] == st.nodes[c].(content := st.nodes[c].content + Contents(items), children := st.nodes[c].children + ks)
    && (forall j :: 0 <= j < |ks| ==> |st.nodes| <= ks[j] < |now.nodes|)
    && TreesAt(now.nodes, c, ks) == Elements(items)
  }

  lemma {:induction false} ItemsAdd(st: State, c: nat, items: seq<Item>) returns (ks: seq<nat>)
    requires Keeps(st) && c < |st.nodes| && st.current == Some(c)
    ensures Adds(st, Run(st, AllEvents(items)), c, items, ks)
    decreases items, 0
  {
    if items == [] {
      ks := [];
      assert st.nodes[c] == st.nodes[c].(content := st.nodes[c].content + "", children := st.nodes[c].children + []);
    } else {
      var n := |items| - 1;
      ks := ItemsAdd(st, c, items[..n]);
      var mid := Run(st, AllEvents(items[..n]));
      RunMore(st, AllEvents(items[..n]), Events(items[n]));
      if items[n].Words? {
        WordsAdd(st, mid, c, items, ks);
      } else {
        var k := ElementAdds(mid, c, items[n]);
        ElementAdded(st, mid, c, items, ks, k);
        ks := ks + [k];
      }
    }
  }

  lemma WordsAdd(st: State, mid: State, c: nat, items: seq<Item>, ks: seq<nat>)
    requires c < |st.nodes| && items != [] && items[|items| - 1].Words? && Adds(st, mid, c, items[..|items| - 1], ks)
    ensures Adds(st, Run(mid, Events(items[|items| - 1])), c, items, ks)
  {
    var s := items[|items| - 1].s;
    var now := Run(mid, [Chars(s)]);
    StepKeeps(mid, Chars(s));
    RunOne(mid, Chars(s));
    TreesFrom(mid.nodes, now.nodes, c, ks);
    Assoc(st.nodes[c].content, Contents(items[..|items| - 1]), TrimSpace(s));
  }

  /** The events of one element inside node c make the next free node its last child. */
  ghost predicate AddsOne(st: State, now: State, c: nat, it: Item, k: nat)
    requires c < |st.nodes| && it.Element?
  {
    && Keeps(st) && Keeps(now)
    && st.current == Some(c)
    && now.current == st.current && now.stack == st.stack && now.root == st.root
    && k == |st.nodes| < |now.nodes|
    && (forall j :: 0 <= j < |st.nodes| && j != c ==> now.nodes[j] == st.nodes[j])
    && now.nodes[c] == st.nodes[c].(children := st.nodes[c].children + [k])
    && TreeAt(now.nodes, k) == TreeOf(it)
  }

  lemma {:induction false} ElementAdds(st: State, c: nat, it: Item) returns (k: nat)
    requires Keeps(st) && c < |st.nodes| && st.current == Some(c) && it.Element?
    ensures AddsOne(st, Run(st, Events(it)), c, it, k)
    decreases it, 1
  {
    k := |st.nodes|;
    var start := Start(it.name, it.attrs);
    StepKeeps(st, start);
    var inner := Step(st, start);
    var ks := ItemsAdd(inner, k, it.items);
    var full := Run(inner, AllEvents(it.items));
    StepKeeps(full, End);
    ElementRuns(st, it, inner, full);
    ElementTree(full.nodes, k, it, inner, ks);
  }

  lemma ElementRuns(st: State, it: Item, inner: State, full: State)
    requires Keeps(st) && it.Element? && inner == Step(st, Start(it.name, it.attrs)) && Keeps(inner)
    requires full == Run(inner, AllEvents(it.items))
    ensures Run(st, Events(it)) == Step(full, End)
  {
    var start := Start(it.name, it.attrs);
    RunMore(st, [start] + AllEvents(it.items), [End]);
    RunMore(st, [start], AllEvents(it.items));
    assert Run(st, [start]) == inner;
    StepKeeps(full, End);
    assert Run(full, [End]) == Step(full, End);
  }

  lemma ElementTree(nodes: seq<ANode>, k: nat, it: Item, inner: State, ks: seq<nat>)
    requires it.Element? && k < |inner.nodes| && k < |nodes| && Linked(nodes)
    requires inner.nodes[k] == ANode(it.name, AttrMap(it.attrs), "", [], inner.nodes[k].parent)
    requires nodes[k] == inner.nodes[k].(content := inner.nodes[k].content + Contents(it.items), children := inner.nodes[k].children + ks)
    requires (forall j :: 0 <= j < |ks| ==> k < ks[j] < |nodes|) && TreesAt(nodes, k, ks) == Elements(it.items)
    ensures TreeAt(nodes, k) == TreeOf(it)
  {
    assert [] + ks == ks && "" + Contents(it.items) == Contents(it.items);
  }

  lemma ElementAdded(st: State, mid: State, c: nat, items: seq<Item>, ks: seq<nat>, k: nat)
    requires c < |st.nodes| && items != [] && items[|items| - 1].Element?
    requires Adds(st, mid, c, items[..|items| - 1], ks)
    requires AddsOne(mid, Run(mid, Events(items[|items| - 1])), c, items[|items| - 1], k)
    ensures Adds(st, Run(mid, Events(items[|items| - 1])), c, items, ks + [k])
  {
    var now := Run(mid, Events(items[|items| - 1]));
    TreesFrom(mid.nodes, now.nodes, c, ks);
    assert (ks + [k])[..|ks|] == ks;
    assert Contents(items) == Contents(items[..|items| - 1]) + "";
    assert st.nodes[c].children + ks + [k] == st.nodes[c].children + (ks + [k]);
  }

  /** The stack loop inverts writing: an element's own events rebuild exactly that element. */
  lemma RebuildsElement(it: Item)
    requires it.Element?
    ensures var now := Run(InitialState(), Events(it));
      && now.root == Some(0) && now.current == None && now.stack == []
      && now.nodes != [] && TreeAt(now.nodes, 0) == TreeOf(it)
  {
    var st, start := InitialState(), Start(it.name, it.attrs);
    StepKeeps(st, start);
    var inner := Step(st, start);
    var ks := ItemsAdd(inner, 0, it.items);
    var full := Run(inner, AllEvents(it.items));
    StepKeeps(full, End);
    ElementRuns(st, it, inner, full);
    ElementTree(full.nodes, 0, it, inner, ks);
  }
}
