/** parseXML and findNode (internal/bindings/xml.go) on real, linked nodes, tied node by node to the numbered
    nodes of XmlEvents. */
module XmlParser {
  import opened Text
  import opened XmlEvents

  class XmlNode {
    var name: string
    var attrs: map<string, string>
    var content: string
    var children: seq<XmlNode>
    var parent: XmlNode?

    constructor (name: string)
      ensures this.name == name && attrs == map[] && content == "" && children == [] && parent == null
    {
      this.name, attrs, content, children, parent := name, map[], "", [], null;
    }
  }

  /** The k-th node, or none. */
  function At(ns: seq<XmlNode>, k: Option<nat>): (r: XmlNode?)
    requires k.Some? ==> k.value < |ns|
  {
    if k.None? then null else ns[k.value]
  }

  /** The node stands as the numbered node says, its links leading to the right nodes. */
  ghost predicate Mirrors(ns: seq<XmlNode>, n: XmlNode, a: ANode)
    reads n
  {
    && n.name == a.name && n.attrs == a.attrs && n.content == a.content
    && |n.children| == |a.children|
    && (forall j :: 0 <= j < |a.children| ==> a.children[j] < |ns| && n.children[j] == ns[a.children[j]])
    && (a.parent.Some? ==> a.parent.value < |ns|) && n.parent == At(ns, a.parent)
  }

  ghost predicate AllMirror(ns: seq<XmlNode>, nodes: seq<ANode>)
    reads ns
  {
    && |ns| == |nodes|
    && (forall i, j :: 0 <= i < j < |ns| ==> ns[i] != ns[j])
    && (forall i :: 0 <= i < |ns| ==> Mirrors(ns, ns[i], nodes[i]))
  }

  /** The loop's variables. */
  ghost predicate Follows(ns: seq<XmlNode>, st: State, root: XmlNode?, current: XmlNode?, stack: seq<XmlNode?>)
    reads ns
  {
    && AllMirror(ns, st.nodes) && CurrentOk(st)
    && (st.root.Some? ==> st.root.value < |ns|) && root == At(ns, st.root)
    && current == At(ns, st.current)
    && |stack| == |st.stack|
    && (forall i :: 0 <= i < |stack| ==> (st.stack[i].Some? ==> st.stack[i].value < |ns|) && stack[i] == At(ns, st.stack[i]))
  }

  lemma MirrorsMore(ns: seq<XmlNode>, x: XmlNode, n: XmlNode, a: ANode)
    requires Mirrors(ns, n, a)
    ensures Mirrors(ns + [x], n, a)
  {
  }

  /** The variables after a start tag, once the nodes and their links are right. */
  lemma StartFollows(ns: seq<XmlNode>, node: XmlNode, st: State, name: string, attrs: seq<(string, string)>, root: XmlNode?, current: XmlNode?, stack: seq<XmlNode?>)
    requires Keeps(st) && CurrentOk(st) && |ns| == |st.nodes| && node !in ns
    requires forall i, j :: 0 <= i < j < |ns| ==> ns[i] != ns[j]
    requires (st.root.Some? ==> st.root.value < |ns|) && root == At(ns, st.root) && current == At(ns, st.current)
    requires |stack| == |st.stack|
    requires forall i :: 0 <= i < |stack| ==> (st.stack[i].Some? ==> st.stack[i].value < |ns|) && stack[i] == At(ns, st.stack[i])
    requires var now := Step(st, Start(name, attrs));
      |now.nodes| == |ns| + 1 && forall i :: 0 <= i <= |ns| ==> Mirrors(ns + [node], (ns + [node])[i], now.nodes[i])
    ensures Follows(ns + [node], Step(st, Start(name, attrs)), if current != null then root else node, node, stack + [current])
  {
  }

  /** A start tag: a new node, the last child of the current one, becomes current. */
  method StartElement(name: string, attrs: seq<(string, string)>, root0: XmlNode?, current: XmlNode?, stack0: seq<XmlNode?>,
      ghost ns: seq<XmlNode>, ghost st: State)
    returns (root: XmlNode?, node: XmlNode, stack: seq<XmlNode?>)
    requires Keeps(st) && Follows(ns, st, root0, current, stack0)
    modifies current
    ensures fresh(node)
    ensures Follows(ns + [node], Step(st, Start(name, attrs)), root, node, stack)
  {
    root := root0;
    node := new XmlNode(name);
    SetAttrs(node, attrs);
    ghost var more := ns + [node];
    ghost var now := Step(st, Start(name, attrs));
    forall i | 0 <= i < |ns| ensures Mirrors(more, ns[i], st.nodes[i]) {
      MirrorsMore(ns, node, ns[i], st.nodes[i]);
    }
    if current != null {
      node.parent := current;
      current.children := current.children + [node];
      assert Mirrors(more, current, now.nodes[st.current.value]);
    } else {
      root := node;
    }
    stack := stack0 + [current];
    assert Mirrors(more, node, now.nodes[|ns|]);
    StartFollows(ns, node, st, name, attrs, root0, current, stack0);
  }

  /** Character data: its trimmed text is added to the current node's. */
  method AddText(s: string, current: XmlNode?, ghost ns: seq<XmlNode>, ghost st: State, ghost root: XmlNode?, ghost stack: seq<XmlNode?>)
    requires Keeps(st) && Follows(ns, st, root, current, stack)
    modifies current
    ensures Follows(ns, Step(st, Chars(s)), root, current, stack)
  {
    if current != null {
      ghost var c := st.current.value;
      var content := TrimSpace(s);
      if content != "" {
        if current.content == "" {
          current.content := content;
        } else {
          current.content := current.content + content;
        }
      }
      assert Mirrors(ns, current, Step(st, Chars(s)).nodes[c]);
      forall i | 0 <= i < |ns| ensures Mirrors(ns, ns[i], Step(st, Chars(s)).nodes[i]) {
      }
    }
  }

  lemma EndFollows(ns: seq<XmlNode>, st: State, root: XmlNode?, current: XmlNode?, stack: seq<XmlNode?>)
    requires Follows(ns, st, root, current, stack) && Keeps(st)
    ensures stack == [] ==> Follows(ns, Step(st, End), root, current, stack)
    ensures stack != [] ==> Follows(ns, Step(st, End), root, stack[|stack| - 1], stack[..|stack| - 1])
  {
    EndKeeps(st);
  }

  lemma RunFirst(st: State, es: seq<Event>)
    requires Keeps(st) && es != []
    ensures Keeps(Step(st, es[0])) && Run(st, es) == Run(Step(st, es[0]), es[1..])
  {
    StepKeeps(st, es[0]);
  }

  /** The body of the loop. */
  method OnEvent(e: Event, root0: XmlNode?, current0: XmlNode?, stack0: seq<XmlNode?>, ghost ns0: seq<XmlNode>, ghost st: State)
    returns (root: XmlNode?, current: XmlNode?, stack: seq<XmlNode?>, ghost ns: seq<XmlNode>)
    requires Keeps(st) && Follows(ns0, st, root0, current0, stack0)
    modifies current0
    ensures Follows(ns, Step(st, e), root, current, stack)
    ensures ns0 <= ns && forall i :: |ns0| <= i < |ns| ==> fresh(ns[i])
  {
    root, current, stack, ns := root0, current0, stack0, ns0;
    match e {
      case Start(name, attrs) =>
        root, current, stack := StartElement(name, attrs, root, current, stack, ns, st);
        ns := ns + [current];
      case End =>
        EndFollows(ns, st, root, current, stack);
        if |stack| > 0 {
          current := stack[|stack| - 1];
          stack := stack[..|stack| - 1];
        }
      case Chars(s) =>
        AddText(s, current, ns, st, root, stack);
      case Other =>
    }
  }

  /** parseXML, over the tokens the decoder delivers before it ends or fails. */
  method ParseXml(events: seq<Event>) returns (root: XmlNode?, ghost ns: seq<XmlNode>)
    ensures Keeps(InitialState())
    ensures var st := Run(InitialState(), events);
      && AllMirror(ns, st.nodes)
      && (st.root.Some? ==> st.root.value < |ns|) && root == At(ns, st.root)
    ensures fresh(ns)
  {
    root := null;
    ns := [];
    var current: XmlNode? := null;
    var stack: seq<XmlNode?> := [];
    ghost var st := InitialState();
    for k := 0 to |events|
      invariant Keeps(st) && Run(st, events[k..]) == Run(InitialState(), events)
      invariant Follows(ns, st, root, current, stack)
      invariant fresh(ns)
    {
      RunFirst(st, events[k..]);
      assert events[k..][1..] == events[k + 1..];
      root, current, stack, ns := OnEvent(events[k], root, current, stack, ns, st);
      st := Step(st, events[k]);
    }
    assert events[|events|..] == [];
  }

  method SetAttrs(node: XmlNode, attrs: seq<(string, string)>)
    modifies node`attrs
    requires node.attrs == map[]
    ensures node.attrs == AttrMap(attrs)
  {
    for i := 0 to |attrs|
      invariant node.attrs == AttrMap(attrs[..i])
    {
      assert attrs[..i + 1][..i] == attrs[..i];
      node.attrs := node.attrs[attrs[i].0 := attrs[i].1];
    }
    assert attrs[..|attrs|] == attrs;
  }

  // ----- findNode -----

  /** The first of these nodes with a name. */
  function FirstNamed(nodes: seq<ANode>, ks: seq<nat>, name: string): (k: Option<nat>)
    requires forall j :: 0 <= j < |ks| ==> ks[j] < |nodes|
    ensures k.Some? ==> k.value < |nodes|
  {
    if ks == [] then None else if nodes[ks[0]].name == name then Some(ks[0]) else FirstNamed(nodes, ks[1..], name)
  }

  function Descend(nodes: seq<ANode>, i: nat, part: string): (k: Option<nat>)
    requires Linked(nodes) && i < |nodes|
    ensures k.Some? ==> k.value < |nodes|
  {
    assert LinkedDown(nodes, i);
    if part == "" then Some(i) else FirstNamed(nodes, nodes[i].children, part)
  }

  /** The node a path leads to. */
  function Find(nodes: seq<ANode>, i: nat, parts: seq<string>): (k: Option<nat>)
    requires Linked(nodes) && i < |nodes|
    ensures k.Some? ==> k.value < |nodes|
    decreases |parts|
  {
    if parts == [] then Some(i)
    else
      var next := Descend(nodes, i, parts[0]);
      if next.None? then None else Find(nodes, next.value, parts[1..])
  }

  method FindNode(root: XmlNode, path: string, ghost ns: seq<XmlNode>, ghost nodes: seq<ANode>, ghost i: nat) returns (found: XmlNode?)
    requires AllMirror(ns, nodes) && Linked(nodes) && i < |ns| && root == ns[i]
    ensures found == At(ns, Find(nodes, i, Split(path, '/')))
  {
    var parts := Split(path, '/');
    if path == "" || path == "/" {
      EmptyPath(nodes, i, path);
      return root;
    }
    var current: XmlNode := root;
    ghost var at: nat := i;
    for n := 0 to |parts|
      invariant at < |ns| && current == ns[at]
      invariant Find(nodes, at, parts[n..]) == Find(nodes, i, parts)
    {
      var part := parts[n];
      assert parts[n..][0] == part && parts[n..][1..] == parts[n + 1..];
      if part == "" {
        continue;
      }
      var child := FirstChild(current, part, ns, nodes, at);
      if child == null { return null; }
      current := child;
      at := Descend(nodes, at, part).value;
    }
    assert parts[|parts|..] == [];
    return current;
  }

  lemma EmptyPath(nodes: seq<ANode>, i: nat, path: string)
    requires Linked(nodes) && i < |nodes| && (path == "" || path == "/")
    ensures Find(nodes, i, Split(path, '/')) == Some(i)
  {
    if path == "" {
      assert [""][1..] == [] && Split(path, '/') == [""];
    } else {
      assert "/"[1..] == "" && Split("", '/') == [""] && Split(path, '/') == [""] + [""];
      assert (["", ""])[1..] == [""] && [""][1..] == [];
    }
  }

  /** The loop over the children. */
  method FirstChild(current: XmlNode, part: string, ghost ns: seq<XmlNode>, ghost nodes: seq<ANode>, ghost i: nat) returns (child: XmlNode?)
    requires AllMirror(ns, nodes) && Linked(nodes) && i < |ns| && current == ns[i] && part != ""
    ensures child == At(ns, Descend(nodes, i, part))
  {
    ghost var ks := nodes[i].children;
    assert Mirrors(ns, current, nodes[i]) && LinkedDown(nodes, i);
    for j := 0 to |current.children|
      invariant FirstNamed(nodes, ks[j..], part) == Descend(nodes, i, part)
    {
      assert ks[j..][0] == ks[j] && ks[j..][1..] == ks[j + 1..];
      assert Mirrors(ns, ns[ks[j]], nodes[ks[j]]);
      if current.children[j].name == part { return current.children[j]; }
    }
    return null;
  }

  /** The same walk on a tree. */
  function FindIn(t: XTree, parts: seq<string>): (r: Option<XTree>)
    decreases |parts|
  {
    if parts == [] then Some(t)
    else if parts[0] == "" then FindIn(t, parts[1..])
    else
      var child := FirstTree(t.children, parts[0]);
      if child.None? then None else FindIn(child.value, parts[1..])
  }

  function FirstTree(ts: seq<XTree>, name: string): (r: Option<XTree>) {
    if ts == [] then None
    else
      var before := FirstTree(ts[..|ts| - 1], name);
      if before.Some? then before
      else if ts[|ts| - 1].name == name then Some(ts[|ts| - 1])
      else None
  }

  lemma {:induction false} FirstNamedLast(nodes: seq<ANode>, ks: seq<nat>, name: string)
    requires ks != [] && forall j :: 0 <= j < |ks| ==> ks[j] < |nodes|
    ensures var n := |ks| - 1;
      FirstNamed(nodes, ks, name) ==
        if FirstNamed(nodes, ks[..n], name).Some? then FirstNamed(nodes, ks[..n], name)
        else if nodes[ks[n]].name == name then Some(ks[n])
        else None
  {
    if |ks| > 1 {
      FirstNamedLast(nodes, ks[1..], name);
      assert ks[1..][..|ks| - 2] == ks[..|ks| - 1][1..];
    } else {
      assert ks[..0] == [] && ks[1..] == [];
    }
  }

  lemma {:induction false} FirstAgrees(nodes: seq<ANode>, above: nat, ks: seq<nat>, name: string)
    requires Linked(nodes) && above < |nodes| && forall j :: 0 <= j < |ks| ==> above < ks[j] < |nodes|
    ensures FirstTree(TreesAt(nodes, above, ks), name) ==
      if FirstNamed(nodes, ks, name).None? then None else Some(TreeAt(nodes, FirstNamed(nodes, ks, name).value))
  {
    if ks != [] {
      FirstAgrees(nodes, above, ks[..|ks| - 1], name);
      FirstNamedLast(nodes, ks, name);
    }
  }

  /** A path found in the linked nodes is the path found in the tree they stand for. */
  lemma {:induction false} FindAgrees(nodes: seq<ANode>, i: nat, parts: seq<string>)
    requires Linked(nodes) && i < |nodes|
    ensures FindIn(TreeAt(nodes, i), parts) ==
      if Find(nodes, i, parts).None? then None else Some(TreeAt(nodes, Find(nodes, i, parts).value))
    decreases |parts|
  {
    if parts != [] {
      assert LinkedDown(nodes, i);
      FirstAgrees(nodes, i, nodes[i].children, parts[0]);
      var next := Descend(nodes, i, parts[0]);
      if next.Some? { FindAgrees(nodes, next.value, parts[1..]); }
    }
  }
}
