/** BuildTree (internal/bindings/tree.go): an adjacency list of database rows made into a forest. */
module RowTree {
  import opened Text

  /** A column value: NULL, or a value with its %v text. Values of different types may share a text. */
  datatype Value = Null | Value(goType: string, text: string)

  type Row = map<string, Value>

  datatype Link = Link(idField: string, parentField: string, labelField: string)

  function Field(row: Row, name: string): (r: Value) { if name in row then row[name] else Null }

  function IdKey(v: Value): (r: string) { if v.Null? then "" else v.text }

  /** A row as the tree sees it: its key and its parent's key, "" for none. */
  datatype Ref = Ref(id: string, parent: string)

  function RefOf(link: Link, row: Row): (r: Ref) {
    Ref(IdKey(Field(row, link.idField)), IdKey(Field(row, link.parentField)))
  }

  function RefsOf(link: Link, rows: seq<Row>): (g: seq<Ref>)
    ensures |g| == |rows|
    ensures forall i :: 0 <= i < |rows| ==> g[i] == RefOf(link, rows[i])
  {
    if rows == [] then [] else RefsOf(link, rows[..|rows| - 1]) + [RefOf(link, rows[|rows| - 1])]
  }

  // ----- Who is whose child -----

  predicate InRange(g: seq<Ref>, rows: seq<nat>) { forall j :: 0 <= j < |rows| ==> rows[j] < |g| }

  /** The rows with this parent key, in row order. */
  function KidsOf(g: seq<Ref>, key: string): (kids: seq<nat>)
    ensures InRange(g, kids)
    ensures forall k :: k in kids <==> 0 <= k < |g| && g[k].parent == key
    ensures forall i, j :: 0 <= i < j < |kids| ==> kids[i] < kids[j]
  {
    if g == [] then []
    else
      var n := |g| - 1;
      var before := KidsOf(g[..n], key);
      var kids := if g[n].parent == key then before + [n] else before;
      assert forall k :: k in kids <==> k in before || (k == n && g[n].parent == key);
      assert forall k :: 0 <= k < n ==> g[..n][k] == g[k];
      kids
  }

  function Kids(g: seq<Ref>, i: nat): (kids: seq<nat>)
    requires i < |g|
    ensures InRange(g, kids)
  {
    if g[i].id == "" then [] else KidsOf(g, g[i].id)
  }

  predicate HasId(g: seq<Ref>, key: string) { exists i :: 0 <= i < |g| && g[i].id == key }

  predicate IsRoot(g: seq<Ref>, i: nat)
    requires i < |g|
  {
    g[i].parent == "" || !HasId(g, g[i].parent)
  }

  /** The first n rows' roots, in row order. */
  function RootsTo(g: seq<Ref>, n: nat): (roots: seq<nat>)
    requires n <= |g|
    ensures forall j :: 0 <= j < |roots| ==> roots[j] < n
    ensures forall i :: i in roots <==> 0 <= i < n && IsRoot(g, i)
    ensures forall i, j :: 0 <= i < j < |roots| ==> roots[i] < roots[j]
  {
    if n == 0 then []
    else
      var before := RootsTo(g, n - 1);
      var roots := if IsRoot(g, n - 1) then before + [n - 1] else before;
      assert forall i :: i in roots <==> i in before || (i == n - 1 && IsRoot(g, n - 1));
      roots
  }

  function Roots(g: seq<Ref>): (roots: seq<nat>)
    ensures InRange(g, roots)
    ensures forall i :: i in roots <==> 0 <= i < |g| && IsRoot(g, i)
    ensures forall i, j :: 0 <= i < j < |roots| ==> roots[i] < roots[j]
  {
    RootsTo(g, |g|)
  }

  // ----- The recursion, and when it ends -----

  /** A built tree, by row numbers. */
  datatype Shape = Shape(row: nat, kids: seq<Shape>)

  /** s is what build(i) makes: the row, then everything built from its children in row order. */
  predicate Builds(g: seq<Ref>, i: nat, s: Shape)
    decreases s, 1
  {
    i < |g| && s.row == i && AllBuild(g, Kids(g, i), s.kids)
  }

  predicate AllBuild(g: seq<Ref>, rows: seq<nat>, ss: seq<Shape>)
    decreases ss, 0
  {
    |rows| == |ss| && (ss == [] || (Builds(g, rows[0], ss[0]) && AllBuild(g, rows[1..], ss[1..])))
  }

  lemma {:induction false} BuildsOnce(g: seq<Ref>, i: nat, s: Shape, u: Shape)
    requires Builds(g, i, s) && Builds(g, i, u)
    ensures s == u
    decreases s, 1
  {
    AllBuildOnce(g, Kids(g, i), s.kids, u.kids);
  }

  lemma {:induction false} AllBuildOnce(g: seq<Ref>, rows: seq<nat>, ss: seq<Shape>, us: seq<Shape>)
    requires AllBuild(g, rows, ss) && AllBuild(g, rows, us)
    ensures ss == us
    decreases ss, 0
  {
    if ss != [] {
      BuildsOnce(g, rows[0], ss[0], us[0]);
      AllBuildOnce(g, rows[1..], ss[1..], us[1..]);
      assert ss == [ss[0]] + ss[1..] && us == [us[0]] + us[1..];
    }
  }

  function Indices(g: seq<Ref>): (all: set<nat>)
    ensures |all| == |g|
    ensures forall i :: i in all <==> 0 <= i < |g|
  {
    UpTo(|g|)
  }

  function UpTo(n: nat): (all: set<nat>)
    ensures |all| == n
    ensures forall i :: i in all <==> 0 <= i < n
  {
    if n == 0 then {} else UpTo(n - 1) + {n - 1}
  }

  lemma {:induction false} Room(above: set<nat>, all: set<nat>, i: nat)
    requires above <= all && i in all - above
    ensures above + {i} <= all && |above| < |all|
  {
    assert |all| == |above| + |all - above|;
  }

  /** The recursion from row i, below the rows already entered, never enters one of them again. */
  predicate Ends(g: seq<Ref>, i: nat, above: set<nat>)
    requires i < |g| && above <= Indices(g)
    decreases |g| - |above|, 0
  {
    i !in above && (Room(above, Indices(g), i); AllEnd(g, Kids(g, i), above + {i}))
  }

  predicate AllEnd(g: seq<Ref>, rows: seq<nat>, above: set<nat>)
    requires InRange(g, rows) && above <= Indices(g)
    decreases |g| - |above|, 1, |rows|
  {
    rows == [] || (Ends(g, rows[0], above) && AllEnd(g, rows[1..], above))
  }

  function Built(g: seq<Ref>, i: nat, above: set<nat>): (r: Shape)
    requires i < |g| && above <= Indices(g) && Ends(g, i, above)
    decreases |g| - |above|, 0
  {
    Room(above, Indices(g), i);
    Shape(i, AllBuilt(g, Kids(g, i), above + {i}))
  }

  function AllBuilt(g: seq<Ref>, rows: seq<nat>, above: set<nat>): (r: seq<Shape>)
    requires InRange(g, rows) && above <= Indices(g) && AllEnd(g, rows, above)
    decreases |g| - |above|, 1, |rows|
  {
    if rows == [] then [] else [Built(g, rows[0], above)] + AllBuilt(g, rows[1..], above)
  }

  lemma {:induction false} EndsBuilds(g: seq<Ref>, i: nat, above: set<nat>)
    requires i < |g| && above <= Indices(g) && Ends(g, i, above)
    ensures Builds(g, i, Built(g, i, above))
    decreases |g| - |above|, 0
  {
    Room(above, Indices(g), i);
    AllEndBuild(g, Kids(g, i), above + {i});
  }

  lemma {:induction false} AllEndBuild(g: seq<Ref>, rows: seq<nat>, above: set<nat>)
    requires InRange(g, rows) && above <= Indices(g) && AllEnd(g, rows, above)
    ensures AllBuild(g, rows, AllBuilt(g, rows, above))
    decreases |g| - |above|, 1, |rows|
  {
    if rows != [] {
      EndsBuilds(g, rows[0], above);
      AllEndBuild(g, rows[1..], above);
    }
  }

  /** A descent: each row is a child of the one before. */
  ghost predicate IsDescent(g: seq<Ref>, p: seq<nat>) {
    p != [] && InRange(g, p) && forall n :: 0 <= n < |p| - 1 ==> p[n + 1] in Kids(g, p[n])
  }

  /** Some descent from row i comes back to a row it has passed. */
  ghost predicate Revisits(g: seq<Ref>, i: nat) {
    exists p :: IsDescent(g, p) && p[0] == i && p[|p| - 1] in p[..|p| - 1]
  }

  lemma DescentTail(g: seq<Ref>, p: seq<nat>)
    requires IsDescent(g, p) && |p| > 1
    ensures IsDescent(g, p[1..]) && p[1] in Kids(g, p[0])
  {
    var rest := p[1..];
    forall n | 0 <= n < |rest| - 1 ensures rest[n + 1] in Kids(g, rest[n]) {
      assert p[n + 1 + 1] in Kids(g, p[n + 1]);
    }
    assert p[0 + 1] in Kids(g, p[0]);
  }

  lemma DescentLonger(g: seq<Ref>, i: nat, p: seq<nat>)
    requires i < |g| && IsDescent(g, p) && p[0] in Kids(g, i)
    ensures IsDescent(g, [i] + p)
  {
    var q := [i] + p;
    forall n | 0 <= n < |q| - 1 ensures q[n + 1] in Kids(g, q[n]) {
      if n > 0 { assert p[n - 1 + 1] in Kids(g, p[n - 1]); }
    }
  }

  lemma {:induction false} AllEndHas(g: seq<Ref>, rows: seq<nat>, above: set<nat>, j: nat)
    requires InRange(g, rows) && above <= Indices(g) && AllEnd(g, rows, above) && j < |rows|
    ensures Ends(g, rows[j], above)
  {
    if j > 0 { AllEndHas(g, rows[1..], above, j - 1); }
  }

  /** A descent out of a recursion that ends meets neither the rows above nor itself. */
  lemma {:induction false} EndsNoRevisit(g: seq<Ref>, p: seq<nat>, above: set<nat>)
    requires IsDescent(g, p) && above <= Indices(g) && Ends(g, p[0], above)
    ensures p[|p| - 1] !in above && p[|p| - 1] !in p[..|p| - 1]
    decreases |p|
  {
    if |p| > 1 {
      DescentTail(g, p);
      Room(above, Indices(g), p[0]);
      var j :| 0 <= j < |Kids(g, p[0])| && Kids(g, p[0])[j] == p[1];
      AllEndHas(g, Kids(g, p[0]), above + {p[0]}, j);
      EndsNoRevisit(g, p[1..], above + {p[0]});
      assert p[..|p| - 1] == [p[0]] + p[1..][..|p| - 2];
    }
  }

  lemma {:induction false} StuckDescends(g: seq<Ref>, i: nat, above: set<nat>) returns (p: seq<nat>)
    requires i < |g| && above <= Indices(g) && !Ends(g, i, above)
    ensures IsDescent(g, p) && p[0] == i
    ensures p[|p| - 1] in above || p[|p| - 1] in p[..|p| - 1]
    decreases |g| - |above|, 0
  {
    if i in above { return [i]; }
    Room(above, Indices(g), i);
    var j := StuckKid(g, Kids(g, i), above + {i});
    var q := StuckDescends(g, Kids(g, i)[j], above + {i});
    DescentLonger(g, i, q);
    p := [i] + q;
    LongerRevisits(i, q, above);
  }

  lemma LongerRevisits(i: nat, q: seq<nat>, above: set<nat>)
    requires q != [] && (q[|q| - 1] in above + {i} || q[|q| - 1] in q[..|q| - 1])
    ensures var p := [i] + q; p[|p| - 1] in above || p[|p| - 1] in p[..|p| - 1]
  {
    var p := [i] + q;
    assert p[..|p| - 1] == [i] + q[..|q| - 1];
    assert i in [i];
  }

  lemma {:induction false} StuckKid(g: seq<Ref>, rows: seq<nat>, above: set<nat>) returns (j: nat)
    requires InRange(g, rows) && above <= Indices(g) && !AllEnd(g, rows, above)
    ensures j < |rows| && !Ends(g, rows[j], above)
  {
    if !Ends(g, rows[0], above) {
      j := 0;
    } else {
      j := StuckKid(g, rows[1..], above);
      j := j + 1;
    }
  }

  /** build(i) makes a finite tree exactly when no descent from row i comes back to a row it has passed. */
  lemma EndsIffNoRevisit(g: seq<Ref>, i: nat)
    requires i < |g|
    ensures Ends(g, i, {}) <==> !Revisits(g, i)
    ensures Ends(g, i, {}) ==> Builds(g, i, Built(g, i, {}))
  {
    if Ends(g, i, {}) {
      EndsBuilds(g, i, {});
      forall p | IsDescent(g, p) && p[0] == i ensures p[|p| - 1] !in p[..|p| - 1] {
        EndsNoRevisit(g, p, {});
      }
    } else {
      var p := StuckDescends(g, i, {});
    }
  }

  /** And nothing else is finite: a tree that build(i) could return rules out every revisit. */
  lemma {:induction false} BuildsEnds(g: seq<Ref>, i: nat, s: Shape, above: set<nat>)
    requires Builds(g, i, s) && above <= Indices(g)
    requires forall a, u :: a in above && Builds(g, a, u) ==> Size(u) > Size(s)
    ensures Ends(g, i, above)
    decreases s, 1
  {
    assert i !in above;
    Room(above, Indices(g), i);
    forall a, u | a in above + {i} && Builds(g, a, u) ensures Size(u) > Sizes(s.kids) {
      if a == i { BuildsOnce(g, i, s, u); }
    }
    AllBuildsEnd(g, Kids(g, i), s.kids, above + {i});
  }

  lemma {:induction false} AllBuildsEnd(g: seq<Ref>, rows: seq<nat>, ss: seq<Shape>, above: set<nat>)
    requires InRange(g, rows) && AllBuild(g, rows, ss) && above <= Indices(g)
    requires forall a, u :: a in above && Builds(g, a, u) ==> Size(u) > Sizes(ss)
    ensures AllEnd(g, rows, above)
    decreases ss, 0
  {
    if ss != [] {
      BuildsEnds(g, rows[0], ss[0], above);
      AllBuildsEnd(g, rows[1..], ss[1..], above);
    }
  }

  function Size(s: Shape): (r: nat)
    decreases s, 1
  {
    1 + Sizes(s.kids)
  }

  function Sizes(ss: seq<Shape>): (r: nat)
    decreases ss, 0
  {
    if ss == [] then 0 else Size(ss[0]) + Sizes(ss[1..])
  }

  /** build(i) returns. */
  ghost predicate Returns(g: seq<Ref>, i: nat) { exists s :: Builds(g, i, s) }

  /** build(i) returns exactly when no descent from row i comes back to a row it has passed. */
  lemma ReturnsIffNoRevisit(g: seq<Ref>, i: nat)
    requires i < |g|
    ensures Returns(g, i) <==> !Revisits(g, i)
  {
    EndsIffNoRevisit(g, i);
    if Returns(g, i) {
      var s :| Builds(g, i, s);
      BuildsEnds(g, i, s, {});
    }
  }

  // ----- Distinct ids: every row once, in its place -----

  /** No two rows share an id; rows without one do not matter. */
  predicate Distinct(g: seq<Ref>) {
    forall i, j :: 0 <= i < j < |g| && g[i].id == g[j].id ==> g[i].id == ""
  }

  function Holder(g: seq<Ref>, key: string): (i: Option<nat>)
    ensures i.None? <==> !HasId(g, key)
    ensures i.Some? ==> i.value < |g| && g[i.value].id == key
  {
    if g == [] then None
    else
      var n := |g| - 1;
      if g[n].id == key then Some(n)
      else
        var i := Holder(g[..n], key);
        assert HasId(g, key) ==> HasId(g[..n], key) by {
          if k :| 0 <= k < |g| && g[k].id == key { assert g[..n][k].id == key; }
        }
        assert i.Some? ==> g[..n][i.value].id == key;
        i
  }

  function ParentRow(g: seq<Ref>, i: nat): (p: Option<nat>)
    requires i < |g|
    ensures p.None? <==> IsRoot(g, i)
    ensures p.Some? ==> p.value < |g|
  {
    if g[i].parent == "" then None else Holder(g, g[i].parent)
  }

  lemma KidIff(g: seq<Ref>, i: nat, k: nat)
    requires Distinct(g) && i < |g| && k < |g|
    ensures k in Kids(g, i) <==> ParentRow(g, k) == Some(i)
  {
    if k in Kids(g, i) {
      var p := ParentRow(g, k).value;
      assert g[p].id == g[i].id;
    }
  }

  function Ancestor(g: seq<Ref>, x: nat, n: nat): (a: Option<nat>)
    requires x < |g|
    ensures a.Some? ==> a.value < |g|
    decreases n
  {
    if n == 0 then Some(x)
    else
      var p := ParentRow(g, x);
      if p.None? then None else Ancestor(g, p.value, n - 1)
  }

  lemma {:induction false} AncestorStep(g: seq<Ref>, x: nat, n: nat)
    requires x < |g|
    ensures Ancestor(g, x, n + 1) ==
      if Ancestor(g, x, n).None? then None else ParentRow(g, Ancestor(g, x, n).value)
    decreases n
  {
    var p := ParentRow(g, x);
    if n > 0 && p.Some? { AncestorStep(g, p.value, n - 1); }
  }

  /** Climbing n parents from x reaches a root. */
  predicate IsDepth(g: seq<Ref>, x: nat, n: nat)
    requires x < |g|
  {
    Ancestor(g, x, n).Some? && IsRoot(g, Ancestor(g, x, n).value)
  }

  lemma {:induction false} DepthOnce(g: seq<Ref>, x: nat, m: nat, n: nat)
    requires x < |g| && IsDepth(g, x, m) && IsDepth(g, x, n)
    ensures m == n
    decreases m
  {
    if m > 0 && n > 0 { DepthOnce(g, ParentRow(g, x).value, m - 1, n - 1); }
  }

  /** The row's chain of parents ends: at a row without a parent, or with one that was not loaded. */
  ghost predicate Anchored(g: seq<Ref>, x: nat)
    requires x < |g|
  {
    exists n: nat :: IsDepth(g, x, n)
  }

  lemma KidDepth(g: seq<Ref>, i: nat, k: nat, d: nat)
    requires Distinct(g) && i < |g| && k in Kids(g, i) && IsDepth(g, i, d)
    ensures k < |g| && IsDepth(g, k, d + 1)
  {
    KidIff(g, i, k);
  }

  function Members(s: Shape): (r: multiset<nat>)
    decreases s, 1
  {
    multiset{s.row} + AllMembers(s.kids)
  }

  function AllMembers(ss: seq<Shape>): (r: multiset<nat>)
    decreases ss, 0
  {
    if ss == [] then multiset{} else Members(ss[0]) + AllMembers(ss[1..])
  }

  lemma OneOfRows(rows: seq<nat>, r: Option<nat>)
    requires rows != [] && forall a, b :: 0 <= a < b < |rows| ==> rows[a] != rows[b]
    ensures (r.Some? && r.value in rows) <==> r == Some(rows[0]) || (r.Some? && r.value in rows[1..])
    ensures rows[0] !in rows[1..]
  {
    HeadAndTail(rows);
  }

  /** x is at depth e; c is the row of its ancestor line at depth d, if the line reaches so deep. */
  function LineAt(g: seq<Ref>, x: nat, e: nat, d: nat): (r: Option<nat>)
    requires x < |g|
  {
    if d <= e then Ancestor(g, x, e - d) else None
  }

  lemma {:induction false} CountOf(g: seq<Ref>, i: nat, s: Shape, d: nat, x: nat, e: nat)
    requires Distinct(g) && Builds(g, i, s) && IsDepth(g, i, d)
    requires x < |g| && IsDepth(g, x, e)
    ensures Members(s)[x] == if LineAt(g, x, e, d) == Some(i) then 1 else 0
    decreases s, 1
  {
    KidsDepth(g, i, d);
    KidsDistinct(g, i);
    AllCountOf(g, Kids(g, i), s.kids, d + 1, x, e);
    LineSplit(g, i, d, x, e);
  }

  lemma KidsDepth(g: seq<Ref>, i: nat, d: nat)
    requires Distinct(g) && i < |g| && IsDepth(g, i, d)
    ensures forall j :: 0 <= j < |Kids(g, i)| ==> IsDepth(g, Kids(g, i)[j], d + 1)
  {
    forall j | 0 <= j < |Kids(g, i)| ensures IsDepth(g, Kids(g, i)[j], d + 1) {
      KidDepth(g, i, Kids(g, i)[j], d);
    }
  }

  /** The line above x passes through row i exactly when x is that row or the line passes through one of
      its children. */
  lemma LineSplit(g: seq<Ref>, i: nat, d: nat, x: nat, e: nat)
    requires Distinct(g) && i < |g| && IsDepth(g, i, d) && x < |g| && IsDepth(g, x, e)
    ensures LineAt(g, x, e, d) == Some(i) <==>
      x == i || (LineAt(g, x, e, d + 1).Some? && LineAt(g, x, e, d + 1).value in Kids(g, i))
    ensures x == i ==> LineAt(g, x, e, d + 1).None?
  {
    if x == i { DepthOnce(g, x, d, e); }
    LineCases(g, i, d, x, e);
  }

  lemma LineCases(g: seq<Ref>, i: nat, d: nat, x: nat, e: nat)
    requires Distinct(g) && i < |g| && x < |g| && (x == i ==> d == e)
    ensures LineAt(g, x, e, d) == Some(i) <==>
      x == i || (LineAt(g, x, e, d + 1).Some? && LineAt(g, x, e, d + 1).value in Kids(g, i))
    ensures x == i ==> LineAt(g, x, e, d + 1).None?
  {
    if d < e {
      var n := e - d - 1;
      StepSplit(g, i, x, n);
      assert LineAt(g, x, e, d) == Ancestor(g, x, n + 1) && LineAt(g, x, e, d + 1) == Ancestor(g, x, n);
    } else if d == e {
      assert LineAt(g, x, e, d) == Some(x);
    }
  }

  lemma StepSplit(g: seq<Ref>, i: nat, x: nat, n: nat)
    requires Distinct(g) && i < |g| && x < |g|
    ensures Ancestor(g, x, n + 1) == Some(i) <==> Ancestor(g, x, n).Some? && Ancestor(g, x, n).value in Kids(g, i)
  {
    AncestorStep(g, x, n);
    var c := Ancestor(g, x, n);
    if c.Some? { KidIff(g, i, c.value); }
  }

  lemma KidsDistinct(g: seq<Ref>, i: nat)
    requires i < |g|
    ensures forall a, b :: 0 <= a < b < |Kids(g, i)| ==> Kids(g, i)[a] != Kids(g, i)[b]
  {
  }

  lemma {:induction false} AllCountOf(g: seq<Ref>, rows: seq<nat>, ss: seq<Shape>, d: nat, x: nat, e: nat)
    requires Distinct(g) && InRange(g, rows) && AllBuild(g, rows, ss)
    requires forall j :: 0 <= j < |rows| ==> IsDepth(g, rows[j], d)
    requires forall a, b :: 0 <= a < b < |rows| ==> rows[a] != rows[b]
    requires x < |g| && IsDepth(g, x, e)
    ensures AllMembers(ss)[x] == if LineAt(g, x, e, d).Some? && LineAt(g, x, e, d).value in rows then 1 else 0
    decreases ss, 0
  {
    if ss != [] {
      CountOf(g, rows[0], ss[0], d, x, e);
      AllCountOf(g, rows[1..], ss[1..], d, x, e);
      OneOfRows(rows, LineAt(g, x, e, d));
    }
  }

  lemma {:induction false} MembersAnchored(g: seq<Ref>, i: nat, s: Shape, d: nat, x: nat)
    requires Distinct(g) && Builds(g, i, s) && IsDepth(g, i, d) && x in Members(s)
    ensures x < |g| && Anchored(g, x)
    decreases s, 1
  {
    if x != i {
      forall j | 0 <= j < |Kids(g, i)| ensures IsDepth(g, Kids(g, i)[j], d + 1) {
        KidDepth(g, i, Kids(g, i)[j], d);
      }
      AllMembersAnchored(g, Kids(g, i), s.kids, d + 1, x);
    }
  }

  lemma {:induction false} AllMembersAnchored(g: seq<Ref>, rows: seq<nat>, ss: seq<Shape>, d: nat, x: nat)
    requires Distinct(g) && InRange(g, rows) && AllBuild(g, rows, ss) && x in AllMembers(ss)
    requires forall j :: 0 <= j < |rows| ==> IsDepth(g, rows[j], d)
    ensures x < |g| && Anchored(g, x)
    decreases ss, 0
  {
    if x in Members(ss[0]) {
      MembersAnchored(g, rows[0], ss[0], d, x);
    } else {
      AllMembersAnchored(g, rows[1..], ss[1..], d, x);
    }
  }

  lemma RootInForest(g: seq<Ref>, roots: seq<nat>, forest: seq<Shape>, x: nat, e: nat)
    requires Distinct(g) && InRange(g, roots) && AllBuild(g, roots, forest)
    requires forall j :: 0 <= j < |roots| ==> IsDepth(g, roots[j], 0)
    requires forall a, b :: 0 <= a < b < |roots| ==> roots[a] != roots[b]
    requires forall i :: i in roots <==> 0 <= i < |g| && IsRoot(g, i)
    requires x < |g| && IsDepth(g, x, e)
    ensures AllMembers(forest)[x] == 1
  {
    AllCountOf(g, roots, forest, 0, x, e);
    assert LineAt(g, x, e, 0) == Ancestor(g, x, e);
  }

  /** In the forest built from distinct ids, each anchored row appears exactly once and no other row
      appears at all. */
  lemma EachRowOnce(g: seq<Ref>, forest: seq<Shape>, x: nat)
    requires Distinct(g) && AllBuild(g, Roots(g), forest)
    ensures AllMembers(forest)[x] == if x < |g| && Anchored(g, x) then 1 else 0
  {
    var roots := Roots(g);
    forall j | 0 <= j < |roots| ensures IsDepth(g, roots[j], 0) {
      assert roots[j] in roots;
    }
    if x < |g| && Anchored(g, x) {
      var e: nat :| IsDepth(g, x, e);
      RootInForest(g, roots, forest, x, e);
    } else if x in AllMembers(forest) {
      AllMembersAnchored(g, roots, forest, 0, x);
    }
  }

  lemma {:induction false} DescentDepth(g: seq<Ref>, p: seq<nat>, d: nat, k: nat)
    requires Distinct(g) && IsDescent(g, p) && IsDepth(g, p[0], d) && k < |p|
    ensures IsDepth(g, p[k], d + k)
    decreases k
  {
    if k > 0 {
      DescentTail(g, p);
      KidDepth(g, p[0], p[1], d);
      DescentDepth(g, p[1..], d + 1, k - 1);
      assert p[1..][k - 1] == p[k];
    }
  }

  lemma DescentDiffers(g: seq<Ref>, p: seq<nat>, k: nat)
    requires Distinct(g) && IsDescent(g, p) && IsDepth(g, p[0], 0) && k < |p| - 1
    ensures p[k] != p[|p| - 1]
  {
    var last := |p| - 1;
    DescentDepth(g, p, 0, k);
    DescentDepth(g, p, 0, last);
    if p[k] == p[last] { DepthOnce(g, p[last], k, last); }
  }

  lemma NeverBack(g: seq<Ref>, p: seq<nat>)
    requires Distinct(g) && IsDescent(g, p) && IsDepth(g, p[0], 0)
    ensures p[|p| - 1] !in p[..|p| - 1]
  {
    forall k | 0 <= k < |p| - 1 ensures p[k] != p[|p| - 1] {
      DescentDiffers(g, p, k);
    }
  }

  /** With distinct ids the recursion ends from every root, whatever cycles the other rows form. */
  lemma DistinctReturns(g: seq<Ref>, r: nat)
    requires Distinct(g) && r < |g| && IsRoot(g, r)
    ensures Returns(g, r) && Ends(g, r, {})
  {
    forall p | IsDescent(g, p) && p[0] == r ensures p[|p| - 1] !in p[..|p| - 1] {
      NeverBack(g, p);
    }
    EndsIffNoRevisit(g, r);
    ReturnsIffNoRevisit(g, r);
  }

  /** Climbing from x comes back to a row it has passed: x is on a parent cycle, or below one. */
  ghost predicate OnOrBelowCycle(g: seq<Ref>, x: nat)
    requires x < |g|
  {
    exists m: nat, n: nat :: ClimbsBack(g, x, m, n)
  }

  predicate ClimbsBack(g: seq<Ref>, x: nat, m: nat, n: nat)
    requires x < |g|
  {
    m < n && Ancestor(g, x, m).Some? && Ancestor(g, x, m) == Ancestor(g, x, n)
  }

  lemma {:induction false} AncestorDepth(g: seq<Ref>, x: nat, e: nat, n: nat)
    requires x < |g| && IsDepth(g, x, e) && Ancestor(g, x, n).Some?
    ensures n <= e && IsDepth(g, Ancestor(g, x, n).value, e - n)
    decreases n
  {
    if n > 0 { AncestorDepth(g, ParentRow(g, x).value, e - 1, n - 1); }
  }

  function Line(g: seq<Ref>, x: nat, n: nat): (line: seq<Option<nat>>)
    requires x < |g|
    ensures |line| == n && forall k :: 0 <= k < n ==> line[k] == Ancestor(g, x, k)
  {
    if n == 0 then [] else Line(g, x, n - 1) + [Ancestor(g, x, n - 1)]
  }

  lemma {:induction false} Pigeonhole(line: seq<Option<nat>>, all: set<nat>) returns (m: nat, n: nat)
    requires |line| > |all|
    requires forall k :: 0 <= k < |line| ==> line[k].Some? && line[k].value in all
    ensures m < n < |line| && line[m] == line[n]
    decreases |line|
  {
    var last := |line| - 1;
    if k :| 0 <= k < last && line[k] == line[last] {
      return k, last;
    }
    m, n := Pigeonhole(line[..last], all - {line[last].value});
  }

  lemma {:induction false} UnanchoredClimbs(g: seq<Ref>, x: nat, n: nat)
    requires x < |g| && !Anchored(g, x)
    ensures Ancestor(g, x, n).Some?
  {
    if n > 0 {
      UnanchoredClimbs(g, x, n - 1);
      AncestorStep(g, x, n - 1);
      assert !IsDepth(g, x, n - 1);
    }
  }

  /** The rows that are lost are exactly those on or below a parent cycle. */
  lemma LostIffCycle(g: seq<Ref>, x: nat)
    requires x < |g|
    ensures Anchored(g, x) <==> !OnOrBelowCycle(g, x)
  {
    if Anchored(g, x) && OnOrBelowCycle(g, x) {
      var e: nat :| IsDepth(g, x, e);
      var m: nat, n: nat :| ClimbsBack(g, x, m, n);
      AncestorDepth(g, x, e, m);
      AncestorDepth(g, x, e, n);
      DepthOnce(g, Ancestor(g, x, m).value, e - m, e - n);
    }
    if !Anchored(g, x) {
      var line := Line(g, x, |g| + 1);
      forall k | 0 <= k < |line| ensures line[k].Some? && line[k].value in Indices(g) {
        UnanchoredClimbs(g, x, k);
      }
      var m, n := Pigeonhole(line, Indices(g));
      assert ClimbsBack(g, x, m, n);
    }
  }

  /** A repeated id breaks the guarantee: below the root 1, row 2 is a child of 1, and the second row
      with id 1 a child of 2. */
  lemma RepeatedIdNeverReturns()
    ensures var g := [Ref("1", ""), Ref("2", "1"), Ref("1", "2")]; IsRoot(g, 0) && !Returns(g, 0)
  {
    var g := [Ref("1", ""), Ref("2", "1"), Ref("1", "2")];
    var p: seq<nat> := [0, 1, 2, 1];
    assert 1 in Kids(g, 0) && 2 in Kids(g, 1) && 1 in Kids(g, 2);
    forall n | 0 <= n < |p| - 1 ensures p[n + 1] in Kids(g, p[n]) {
      assert n == 0 || n == 1 || n == 2;
    }
    assert IsDescent(g, p);
    assert p[..3][1] == p[3];
    ReturnsIffNoRevisit(g, 0);
  }

  // ----- BuildTree -----

  const CHILDREN := "_children"

  /** A node table: every column, the normalized keys over them, and the child nodes, which take the place of
      a column named _children; a leaf keeps that column. */
  datatype Node = Node(fields: map<string, Value>, children: seq<Node>)

  function NodeFields(link: Link, row: Row): (r: map<string, Value>) {
    row["id" := Field(row, link.idField)]["parent_id" := Field(row, link.parentField)]["label" := Field(row, link.labelField)]
  }

  /** The nodes of a shape. */
  function NodeOf(link: Link, rows: seq<Row>, s: Shape): (r: Node)
    decreases s, 1
  {
    var fields := NodeFields(link, if s.row < |rows| then rows[s.row] else map[]);
    Node(if s.kids == [] then fields else fields - {CHILDREN}, NodesOf(link, rows, s.kids))
  }

  function NodesOf(link: Link, rows: seq<Row>, ss: seq<Shape>): (nodes: seq<Node>)
    ensures |nodes| == |ss|
    decreases ss, 0
  {
    if ss == [] then [] else [NodeOf(link, rows, ss[0])] + NodesOf(link, rows, ss[1..])
  }

  function Lookup(m: map<string, seq<nat>>, key: string): (r: seq<nat>) { if key in m then m[key] else [] }

  /** The child lists of the rows of g. */
  ghost predicate Indexed(g: seq<Ref>, children: map<string, seq<nat>>) {
    "" !in children && forall key :: key != "" ==> Lookup(children, key) == KidsOf(g, key)
  }

  method IndexChildren(link: Link, rows: seq<Row>) returns (children: map<string, seq<nat>>)
    ensures Indexed(RefsOf(link, rows), children)
  {
    ghost var g := RefsOf(link, rows);
    children := map[];
    for i := 0 to |rows|
      invariant Indexed(g[..i], children)
    {
      var pk := IdKey(Field(rows[i], link.parentField));
      IndexStep(g, i, children);
      if pk != "" {
        children := children[pk := Lookup(children, pk) + [i]];
      }
    }
    assert g[..|rows|] == g;
  }

  lemma IndexStep(g: seq<Ref>, i: nat, children: map<string, seq<nat>>)
    requires i < |g| && Indexed(g[..i], children)
    ensures Indexed(g[..i + 1], if g[i].parent == "" then children else children[g[i].parent := Lookup(children, g[i].parent) + [i]])
  {
    var pk := g[i].parent;
    var now := if pk == "" then children else children[pk := Lookup(children, pk) + [i]];
    forall key | key != "" ensures Lookup(now, key) == KidsOf(g[..i + 1], key) {
      KidsStep(g, i, key);
    }
  }

  lemma KidsStep(g: seq<Ref>, i: nat, key: string)
    requires i < |g|
    ensures KidsOf(g[..i + 1], key) == if g[i].parent == key then KidsOf(g[..i], key) + [i] else KidsOf(g[..i], key)
  {
    assert g[..i + 1][..i] == g[..i] && g[..i + 1][i] == g[i];
  }

  /** The ids of the loaded rows. */
  method IndexIds(link: Link, rows: seq<Row>) returns (byId: map<string, nat>)
    ensures forall key :: key in byId <==> HasId(RefsOf(link, rows), key)
  {
    ghost var g := RefsOf(link, rows);
    byId := map[];
    for i := 0 to |rows|
      invariant forall key :: key in byId <==> HasId(g[..i], key)
    {
      assert g[..i + 1] == g[..i] + [g[i]];
      forall key ensures HasId(g[..i + 1], key) <==> HasId(g[..i], key) || key == g[i].id {
        HasIdAnother(g[..i], g[i], key);
      }
      byId := byId[IdKey(Field(rows[i], link.idField)) := i];
    }
    assert g[..|rows|] == g;
  }

  method FindRoots(link: Link, rows: seq<Row>) returns (roots: seq<nat>)
    ensures roots == Roots(RefsOf(link, rows))
  {
    ghost var g := RefsOf(link, rows);
    var byId := IndexIds(link, rows);
    roots := [];
    for i := 0 to |rows|
      invariant roots == RootsTo(g, i)
    {
      var pk := IdKey(Field(rows[i], link.parentField));
      assert IsRoot(g, i) <==> pk == "" || pk !in byId;
      if pk == "" {
        roots := roots + [i];
        continue;
      }
      if pk !in byId {
        roots := roots + [i];
      }
    }
  }

  lemma HasIdAnother(g: seq<Ref>, r: Ref, key: string)
    ensures HasId(g + [r], key) <==> HasId(g, key) || key == r.id
  {
    if k :| 0 <= k < |g| && g[k].id == key { assert (g + [r])[k].id == key; }
    if key == r.id { assert (g + [r])[|g|].id == key; }
  }

  /** build(idx). The shape s is the recursion tree, known to be finite. */
  method Build(link: Link, rows: seq<Row>, children: map<string, seq<nat>>, i: nat, ghost s: Shape) returns (node: Node)
    requires Indexed(RefsOf(link, rows), children) && Builds(RefsOf(link, rows), i, s)
    ensures node == NodeOf(link, rows, s)
    decreases s
  {
    var row := rows[i];
    var fields := row["id" := Field(row, link.idField)];
    fields := fields["parent_id" := Field(row, link.parentField)];
    fields := fields["label" := Field(row, link.labelField)];
    var kids := Lookup(children, IdKey(Field(row, link.idField)));
    ghost var g := RefsOf(link, rows);
    assert kids == Kids(g, i);
    var nodes: seq<Node> := [];
    for j := 0 to |kids|
      invariant nodes == NodesOf(link, rows, s.kids[..j])
    {
      BuildAt(g, kids, s.kids, j);
      var node := Build(link, rows, children, kids[j], s.kids[j]);
      AnotherNode(link, rows, s.kids[..j], s.kids[j]);
      assert s.kids[..j + 1] == s.kids[..j] + [s.kids[j]];
      nodes := nodes + [node];
    }
    assert s.kids[..|kids|] == s.kids;
    if |kids| > 0 { fields := fields - {CHILDREN}; }
    return Node(fields, nodes);
  }

  lemma {:induction false} BuildAt(g: seq<Ref>, rows: seq<nat>, ss: seq<Shape>, j: nat)
    requires AllBuild(g, rows, ss) && j < |rows|
    ensures Builds(g, rows[j], ss[j])
  {
    if j > 0 { BuildAt(g, rows[1..], ss[1..], j - 1); }
  }

  lemma {:induction false} AnotherNode(link: Link, rows: seq<Row>, ss: seq<Shape>, s: Shape)
    ensures NodesOf(link, rows, ss + [s]) == NodesOf(link, rows, ss) + [NodeOf(link, rows, s)]
  {
    if ss != [] {
      assert (ss + [s])[1..] == ss[1..] + [s];
      AnotherNode(link, rows, ss[1..], s);
    }
  }

  /** BuildTree, wherever it returns: the nodes of the forest grown from the roots, and the row count. */
  method BuildTree(link: Link, rows: seq<Row>, ghost forest: seq<Shape>) returns (nodes: seq<Node>, count: nat)
    requires AllBuild(RefsOf(link, rows), Roots(RefsOf(link, rows)), forest)
    ensures nodes == NodesOf(link, rows, forest) && count == |rows|
    ensures Distinct(RefsOf(link, rows)) ==>
      forall x: nat :: AllMembers(forest)[x] == if x < |rows| && !OnOrBelowCycle(RefsOf(link, rows), x) then 1 else 0
  {
    ghost var g := RefsOf(link, rows);
    var children := IndexChildren(link, rows);
    var roots := FindRoots(link, rows);
    nodes := [];
    for j := 0 to |roots|
      invariant nodes == NodesOf(link, rows, forest[..j])
    {
      BuildAt(g, roots, forest, j);
      var node := Build(link, rows, children, roots[j], forest[j]);
      AnotherNode(link, rows, forest[..j], forest[j]);
      assert forest[..j + 1] == forest[..j] + [forest[j]];
      nodes := nodes + [node];
    }
    assert forest[..|roots|] == forest;
    count := |rows|;
    if Distinct(g) { ForestCounts(g, forest); }
  }

  lemma ForestCounts(g: seq<Ref>, forest: seq<Shape>)
    requires Distinct(g) && AllBuild(g, Roots(g), forest)
    ensures forall x: nat :: AllMembers(forest)[x] == if x < |g| && !OnOrBelowCycle(g, x) then 1 else 0
  {
    forall x: nat ensures AllMembers(forest)[x] == if x < |g| && !OnOrBelowCycle(g, x) then 1 else 0 {
      EachRowOnce(g, forest, x);
      if x < |g| { LostIffCycle(g, x); }
    }
  }

  /** With distinct ids there is such a forest. */
  lemma DistinctBuilds(g: seq<Ref>) returns (forest: seq<Shape>)
    requires Distinct(g)
    ensures AllBuild(g, Roots(g), forest)
  {
    forall r | r in Roots(g) ensures Ends(g, r, {}) {
      DistinctReturns(g, r);
    }
    AllEndFrom(g, Roots(g));
    AllEndBuild(g, Roots(g), {});
    forest := AllBuilt(g, Roots(g), {});
  }

  lemma {:induction false} AllEndFrom(g: seq<Ref>, rows: seq<nat>)
    requires InRange(g, rows) && forall r :: r in rows ==> Ends(g, r, {})
    ensures AllEnd(g, rows, {})
  {
    if rows != [] { AllEndFrom(g, rows[1..]); }
  }
}
