/** Laying one keyed, ordered list over another: an element of the upper list is merged into the last
    element of the lower list with the same key, or appended when there is none; elements without a key
    in the upper list are ignored. MergeDocument does this for forms, controls and cells. */
module Overlay {
  import opened Text

  function Keys<T>(key: T -> string, xs: seq<T>): (ks: seq<string>)
    ensures |ks| == |xs|
    ensures forall i :: 0 <= i < |xs| ==> ks[i] == key(xs[i])
  {
    seq(|xs|, i requires 0 <= i < |xs| => key(xs[i]))
  }

  ghost predicate Distinct(ks: seq<string>) {
    forall i, j :: 0 <= i < j < |ks| ==> ks[i] != ks[j]
  }

  /** The last position with the key, |xs| when there is none. */
  function LastIndex<T>(key: T -> string, xs: seq<T>, k: string): (i: nat)
    ensures i <= |xs|
    ensures i < |xs| ==> key(xs[i]) == k
    ensures forall j :: 0 <= j < |xs| && (i == |xs| || i < j) ==> key(xs[j]) != k
  {
    if xs == [] then 0
    else
      var n := |xs| - 1;
      if key(xs[n]) == k then n
      else
        var i := LastIndex(key, xs[..n], k);
        if i == n then |xs| else i
  }

  function Lookup<T>(key: T -> string, xs: seq<T>, k: string): (r: Option<T>) {
    var i := LastIndex(key, xs, k);
    if i < |xs| then Some(xs[i]) else None
  }

  function Upsert<T>(key: T -> string, merge: (T, T) -> T, xs: seq<T>, g: T): (r: seq<T>) {
    if key(g) == "" then xs
    else
      var i := LastIndex(key, xs, key(g));
      if i < |xs| then xs[i := merge(xs[i], g)] else xs + [g]
  }

  function Over<T>(key: T -> string, merge: (T, T) -> T, base: seq<T>, gen: seq<T>): (r: seq<T>) {
    if gen == [] then base
    else Upsert(key, merge, Over(key, merge, base, gen[..|gen| - 1]), gen[|gen| - 1])
  }

  /** The names of ks that are new: not in seen, not empty, first occurrences only, in order. */
  function Fresh(seen: seq<string>, ks: seq<string>): (r: seq<string>) {
    if ks == [] then []
    else
      var before, k := Fresh(seen, ks[..|ks| - 1]), ks[|ks| - 1];
      if k == "" || k in seen || k in before then before else before + [k]
  }

  lemma {:induction false} FreshHas(seen: seq<string>, ks: seq<string>, k: string)
    ensures k in Fresh(seen, ks) <==> k in ks && k != "" && k !in seen
  {
    if ks != [] {
      var before, last := ks[..|ks| - 1], ks[|ks| - 1];
      FreshHas(seen, before, k);
      FreshHas(seen, before, last);
      assert ks == before + [last];
    }
  }

  lemma {:induction false} FreshDistinct(seen: seq<string>, ks: seq<string>)
    ensures Distinct(Fresh(seen, ks))
  {
    if ks != [] {
      FreshDistinct(seen, ks[..|ks| - 1]);
    }
  }

  function Combine<T>(merge: (T, T) -> T, x: Option<T>, y: Option<T>): (r: Option<T>) {
    if x.None? then y else if y.None? then x else Some(merge(x.value, y.value))
  }

  /** Merging two elements with one key gives an element with that key, and keeps validity. */
  ghost predicate KeepsKey<T(!new)>(key: T -> string, merge: (T, T) -> T, valid: T -> bool) {
    forall x, y :: valid(x) && valid(y) && key(x) == key(y) ==> key(merge(x, y)) == key(y) && valid(merge(x, y))
  }

  ghost predicate All<T>(valid: T -> bool, xs: seq<T>) {
    forall x :: x in xs ==> valid(x)
  }

  lemma InKeys<T>(key: T -> string, xs: seq<T>, k: string)
    ensures k in Keys(key, xs) <==> LastIndex(key, xs, k) < |xs|
  {
    if LastIndex(key, xs, k) < |xs| {
      assert Keys(key, xs)[LastIndex(key, xs, k)] == k;
    }
  }

  lemma LastIndexIs<T>(key: T -> string, xs: seq<T>, k: string, i: nat)
    requires i < |xs| && key(xs[i]) == k
    requires forall j :: i < j < |xs| ==> key(xs[j]) != k
    ensures LastIndex(key, xs, k) == i
  {
  }

  lemma UpsertKeys<T(!new)>(key: T -> string, merge: (T, T) -> T, valid: T -> bool, xs: seq<T>, g: T)
    requires KeepsKey(key, merge, valid) && All(valid, xs) && valid(g)
    ensures All(valid, Upsert(key, merge, xs, g))
    ensures Keys(key, Upsert(key, merge, xs, g)) ==
      if key(g) == "" || key(g) in Keys(key, xs) then Keys(key, xs) else Keys(key, xs) + [key(g)]
  {
    InKeys(key, xs, key(g));
    var i := LastIndex(key, xs, key(g));
    if key(g) != "" && i < |xs| {
      assert valid(xs[i]) && key(merge(xs[i], g)) == key(g);
    }
  }

  lemma UpsertLookup<T(!new)>(key: T -> string, merge: (T, T) -> T, valid: T -> bool, xs: seq<T>, g: T, k: string)
    requires KeepsKey(key, merge, valid) && All(valid, xs) && valid(g)
    ensures Lookup(key, Upsert(key, merge, xs, g), k) ==
      if k == key(g) && k != "" then Combine(merge, Lookup(key, xs, k), Some(g)) else Lookup(key, xs, k)
  {
    var i := LastIndex(key, xs, key(g));
    if key(g) != "" {
      if i < |xs| {
        assert valid(xs[i]) && key(merge(xs[i], g)) == key(g);
        ReplacedLookup(key, xs, merge(xs[i], g), i, k);
      } else {
        AppendedLookup(key, xs, g, k);
      }
    }
  }

  lemma ReplacedLookup<T>(key: T -> string, xs: seq<T>, y: T, i: nat, k: string)
    requires i < |xs| && key(y) == key(xs[i]) && i == LastIndex(key, xs, key(y))
    ensures Lookup(key, xs[i := y], k) == if k == key(y) then Some(y) else Lookup(key, xs, k)
  {
    var j := LastIndex(key, xs, k);
    if k == key(y) {
      LastIndexIs(key, xs[i := y], k, i);
    } else if j < |xs| {
      LastIndexIs(key, xs[i := y], k, j);
    }
  }

  lemma AppendedLookup<T>(key: T -> string, xs: seq<T>, g: T, k: string)
    ensures Lookup(key, xs + [g], k) == if k == key(g) then Some(g) else Lookup(key, xs, k)
  {
    var j := LastIndex(key, xs, k);
    if k == key(g) {
      LastIndexIs(key, xs + [g], k, |xs|);
    } else if j < |xs| {
      LastIndexIs(key, xs + [g], k, j);
    }
  }

  lemma {:induction false} OverKeys<T(!new)>(key: T -> string, merge: (T, T) -> T, valid: T -> bool, base: seq<T>, gen: seq<T>)
    requires KeepsKey(key, merge, valid) && All(valid, base) && All(valid, gen)
    ensures All(valid, Over(key, merge, base, gen))
    ensures Keys(key, Over(key, merge, base, gen)) == Keys(key, base) + Fresh(Keys(key, base), Keys(key, gen))
  {
    if gen != [] {
      var n := |gen| - 1;
      FreshHas(Keys(key, base), Keys(key, gen[..n]), key(gen[n]));
      OverKeys(key, merge, valid, base, gen[..n]);
      UpsertKeys(key, merge, valid, Over(key, merge, base, gen[..n]), gen[n]);
      assert Keys(key, gen)[..n] == Keys(key, gen[..n]);
    }
  }

  lemma {:induction false} OverLookup<T(!new)>(key: T -> string, merge: (T, T) -> T, valid: T -> bool, base: seq<T>, gen: seq<T>, k: string)
    requires KeepsKey(key, merge, valid) && All(valid, base) && All(valid, gen)
    requires Distinct(Keys(key, gen)) && k != ""
    ensures Lookup(key, Over(key, merge, base, gen), k) == Combine(merge, Lookup(key, base, k), Lookup(key, gen, k))
  {
    if gen != [] {
      var n := |gen| - 1;
      assert Keys(key, gen[..n]) == Keys(key, gen)[..n];
      OverKeys(key, merge, valid, base, gen[..n]);
      OverLookup(key, merge, valid, base, gen[..n], k);
      UpsertLookup(key, merge, valid, Over(key, merge, base, gen[..n]), gen[n], k);
      if key(gen[n]) == k {
        assert forall j :: 0 <= j < n ==> Keys(key, gen)[j] != Keys(key, gen)[n];
        assert LastIndex(key, gen[..n], k) == n;
      }
    }
  }

  /** Lists with the same distinct keys in the same order and the same element under each are equal. */
  lemma SameByKey<T>(key: T -> string, xs: seq<T>, ys: seq<T>)
    requires Distinct(Keys(key, xs)) && Keys(key, xs) == Keys(key, ys)
    requires forall k :: k in Keys(key, xs) ==> Lookup(key, xs, k) == Lookup(key, ys, k)
    ensures xs == ys
  {
    forall i | 0 <= i < |xs| ensures xs[i] == ys[i] {
      var k := Keys(key, xs)[i];
      assert key(xs[i]) == k && key(ys[i]) == Keys(key, ys)[i];
      forall j | i < j < |xs| ensures key(xs[j]) != k && key(ys[j]) != k {
        assert Keys(key, xs)[i] != Keys(key, xs)[j];
        assert Keys(key, ys)[j] == Keys(key, xs)[j];
      }
      LastIndexIs(key, xs, k, i);
      LastIndexIs(key, ys, k, i);
      assert Lookup(key, xs, k) == Some(xs[i]) && Lookup(key, ys, k) == Some(ys[i]);
    }
  }

  lemma FreshStep(seen: seq<string>, ks: seq<string>, k: string)
    ensures Fresh(seen, ks + [k]) ==
      if k == "" || k in seen || k in Fresh(seen, ks) then Fresh(seen, ks) else Fresh(seen, ks) + [k]
  {
    assert (ks + [k])[..|ks|] == ks;
  }

  lemma {:induction false} FreshTwice(a: seq<string>, b: seq<string>, c: seq<string>)
    ensures Fresh(a, b) + Fresh(a + Fresh(a, b), c) == Fresh(a, b + Fresh(b, c))
  {
    if c == [] {
      assert b + Fresh(b, c) == b;
    } else {
      var before, k := c[..|c| - 1], c[|c| - 1];
      FreshTwice(a, b, before);
      FreshTwiceStep(a, b, before, k);
      assert c == before + [k];
    }
  }

  lemma FreshTwiceStep(a: seq<string>, b: seq<string>, c: seq<string>, k: string)
    requires Fresh(a, b) + Fresh(a + Fresh(a, b), c) == Fresh(a, b + Fresh(b, c))
    ensures Fresh(a, b) + Fresh(a + Fresh(a, b), c + [k]) == Fresh(a, b + Fresh(b, c + [k]))
  {
    var f, g := Fresh(b, c), a + Fresh(a, b);
    FreshStep(b, c, k);
    FreshStep(g, c, k);
    FreshStep(a, b + f, k);
    FreshHas(b, c, k);
    FreshHas(g, c, k);
    FreshHas(a, b, k);
    FreshHas(a, b + f, k);
    assert b + (f + [k]) == b + f + [k];
    assert Fresh(a, b) + (Fresh(g, c) + [k]) == Fresh(a, b) + Fresh(g, c) + [k];
  }

  /** A valid list: every element valid and keyed, no key twice. */
  ghost predicate WellKeyed<T>(key: T -> string, valid: T -> bool, xs: seq<T>) {
    All(valid, xs) && Distinct(Keys(key, xs)) && "" !in Keys(key, xs)
  }

  lemma OverWellKeyed<T(!new)>(key: T -> string, merge: (T, T) -> T, valid: T -> bool, base: seq<T>, gen: seq<T>)
    requires KeepsKey(key, merge, valid) && WellKeyed(key, valid, base) && All(valid, gen)
    ensures WellKeyed(key, valid, Over(key, merge, base, gen))
  {
    OverKeys(key, merge, valid, base, gen);
    var ks, ls := Keys(key, base), Keys(key, gen);
    FreshDistinct(ks, ls);
    FreshHas(ks, ls, "");
    forall i | 0 <= i < |Fresh(ks, ls)| ensures Fresh(ks, ls)[i] !in ks {
      FreshHas(ks, ls, Fresh(ks, ls)[i]);
    }
  }

  ghost predicate Associates<T(!new)>(key: T -> string, merge: (T, T) -> T, valid: T -> bool) {
    forall x, y, z :: valid(x) && valid(y) && valid(z) && key(x) == key(y) == key(z) ==>
      merge(merge(x, y), z) == merge(x, merge(y, z))
  }

  lemma LookupValid<T>(key: T -> string, valid: T -> bool, xs: seq<T>, k: string)
    requires All(valid, xs)
    ensures Keyed(key, valid, Lookup(key, xs, k), k)
  {
  }

  /** Laying lists over one another is associative when merging elements is. */
  lemma OverAssociates<T(!new)>(key: T -> string, merge: (T, T) -> T, valid: T -> bool, a: seq<T>, b: seq<T>, c: seq<T>)
    requires KeepsKey(key, merge, valid) && Associates(key, merge, valid)
    requires WellKeyed(key, valid, a) && WellKeyed(key, valid, b) && WellKeyed(key, valid, c)
    ensures Over(key, merge, Over(key, merge, a, b), c) == Over(key, merge, a, Over(key, merge, b, c))
  {
    var ab, bc := Over(key, merge, a, b), Over(key, merge, b, c);
    OverWellKeyed(key, merge, valid, a, b);
    OverWellKeyed(key, merge, valid, b, c);
    OverWellKeyed(key, merge, valid, ab, c);
    OverKeysAssociate(key, merge, valid, a, b, c);
    forall k | k in Keys(key, Over(key, merge, ab, c))
      ensures Lookup(key, Over(key, merge, ab, c), k) == Lookup(key, Over(key, merge, a, bc), k)
    {
      OverLookup(key, merge, valid, a, b, k);
      OverLookup(key, merge, valid, b, c, k);
      OverLookup(key, merge, valid, ab, c, k);
      OverLookup(key, merge, valid, a, bc, k);
      LookupValid(key, valid, a, k);
      LookupValid(key, valid, b, k);
      LookupValid(key, valid, c, k);
      CombineAssociates(key, merge, valid, Lookup(key, a, k), Lookup(key, b, k), Lookup(key, c, k), k);
    }
    SameByKey(key, Over(key, merge, ab, c), Over(key, merge, a, bc));
  }

  lemma OverKeysAssociate<T(!new)>(key: T -> string, merge: (T, T) -> T, valid: T -> bool, a: seq<T>, b: seq<T>, c: seq<T>)
    requires KeepsKey(key, merge, valid) && All(valid, a) && All(valid, b) && All(valid, c)
    ensures Keys(key, Over(key, merge, Over(key, merge, a, b), c)) == Keys(key, Over(key, merge, a, Over(key, merge, b, c)))
  {
    var ks, ls, ms := Keys(key, a), Keys(key, b), Keys(key, c);
    OverKeys(key, merge, valid, a, b);
    OverKeys(key, merge, valid, b, c);
    OverKeys(key, merge, valid, Over(key, merge, a, b), c);
    OverKeys(key, merge, valid, a, Over(key, merge, b, c));
    NamesAssociate(ks, ls, ms);
  }

  lemma NamesAssociate(a: seq<string>, b: seq<string>, c: seq<string>)
    ensures (a + Fresh(a, b)) + Fresh(a + Fresh(a, b), c) == a + Fresh(a, b + Fresh(b, c))
  {
    FreshTwice(a, b, c);
  }

  ghost predicate Keyed<T>(key: T -> string, valid: T -> bool, x: Option<T>, k: string) {
    x.Some? ==> valid(x.value) && key(x.value) == k
  }

  lemma CombineAssociates<T(!new)>(key: T -> string, merge: (T, T) -> T, valid: T -> bool, x: Option<T>, y: Option<T>, z: Option<T>, k: string)
    requires Associates(key, merge, valid)
    requires Keyed(key, valid, x, k) && Keyed(key, valid, y, k) && Keyed(key, valid, z, k)
    ensures Combine(merge, Combine(merge, x, y), z) == Combine(merge, x, Combine(merge, y, z))
  {
  }

  /** Merging the same thing again changes nothing, and a thing merged into itself is itself. */
  ghost predicate Absorbs<T(!new)>(key: T -> string, merge: (T, T) -> T, valid: T -> bool) {
    && (forall x, y :: valid(x) && valid(y) && key(x) == key(y) ==> merge(merge(x, y), y) == merge(x, y))
    && (forall y :: valid(y) ==> merge(y, y) == y)
  }

  lemma OverAbsorbs<T(!new)>(key: T -> string, merge: (T, T) -> T, valid: T -> bool, a: seq<T>, g: seq<T>)
    requires KeepsKey(key, merge, valid) && Absorbs(key, merge, valid)
    requires WellKeyed(key, valid, a) && WellKeyed(key, valid, g)
    ensures Over(key, merge, Over(key, merge, a, g), g) == Over(key, merge, a, g)
  {
    var ag := Over(key, merge, a, g);
    var agg := Over(key, merge, ag, g);
    OverWellKeyed(key, merge, valid, a, g);
    OverKeys(key, merge, valid, a, g);
    OverKeys(key, merge, valid, ag, g);
    forall k | k in Keys(key, g) ensures k in Keys(key, ag) {
      FreshHas(Keys(key, a), Keys(key, g), k);
    }
    NothingFresh(Keys(key, ag), Keys(key, g));
    forall k | k in Keys(key, agg) ensures Lookup(key, agg, k) == Lookup(key, ag, k) {
      OverLookup(key, merge, valid, a, g, k);
      OverLookup(key, merge, valid, ag, g, k);
      LookupValid(key, valid, a, k);
      LookupValid(key, valid, g, k);
    }
    SameByKey(key, agg, ag);
  }

  lemma {:induction false} NothingFresh(seen: seq<string>, ks: seq<string>)
    requires forall k :: k in ks ==> k in seen
    ensures Fresh(seen, ks) == []
  {
    if ks != [] {
      NothingFresh(seen, ks[..|ks| - 1]);
    }
  }

  /** An element whose key is new is appended. */
  lemma UpsertNew<T>(key: T -> string, merge: (T, T) -> T, xs: seq<T>, g: T)
    requires key(g) != "" && key(g) !in Keys(key, xs)
    ensures Upsert(key, merge, xs, g) == xs + [g]
  {
    InKeys(key, xs, key(g));
  }

  lemma OverLast<T>(key: T -> string, merge: (T, T) -> T, base: seq<T>, xs: seq<T>, g: T)
    ensures Over(key, merge, base, xs + [g]) == Upsert(key, merge, Over(key, merge, base, xs), g)
  {
    assert (xs + [g])[..|xs|] == xs;
  }

  /** Of a well keyed list, what precedes the last is well keyed, and does not have its key. */
  lemma LastIsNew<T>(key: T -> string, xs: seq<T>, g: T)
    requires Distinct(Keys(key, xs + [g])) && "" !in Keys(key, xs + [g])
    ensures Distinct(Keys(key, xs)) && "" !in Keys(key, xs) && key(g) != "" && key(g) !in Keys(key, xs)
  {
    var ks, before := Keys(key, xs + [g]), Keys(key, xs);
    assert ks == before + [key(g)] && ks[|xs|] == key(g) && key(g) in ks;
    forall i | 0 <= i < |xs| ensures before[i] == ks[i] && before[i] != key(g) && before[i] != "" {
      assert ks[i] != ks[|xs|] && ks[i] in ks;
    }
  }

  /** A well keyed list laid over nothing is itself. */
  lemma {:induction false} OverNothing<T(!new)>(key: T -> string, merge: (T, T) -> T, gen: seq<T>)
    requires Distinct(Keys(key, gen)) && "" !in Keys(key, gen)
    ensures Over(key, merge, [], gen) == gen
  {
    if gen != [] {
      var before, last := gen[..|gen| - 1], gen[|gen| - 1];
      InitAndLast(gen);
      LastIsNew(key, before, last);
      OverNothing(key, merge, before);
      OverLast(key, merge, [], before, last);
      UpsertNew(key, merge, before, last);
    }
  }

  function Map<T>(f: T -> T, xs: seq<T>): (ys: seq<T>)
    ensures |ys| == |xs|
    ensures forall i :: 0 <= i < |xs| ==> ys[i] == f(xs[i])
  {
    seq(|xs|, i requires 0 <= i < |xs| => f(xs[i]))
  }

  /** f forgets part of an element, and merging cannot tell the difference. */
  ghost predicate Forgets<T(!new)>(key: T -> string, merge: (T, T) -> T, less: (T, T) -> T, f: T -> T) {
    && (forall x :: key(f(x)) == key(x))
    && (forall x, y :: f(merge(x, y)) == less(f(x), f(y)))
  }

  lemma {:induction false} OverForgets<T(!new)>(key: T -> string, merge: (T, T) -> T, less: (T, T) -> T, f: T -> T, base: seq<T>, gen: seq<T>)
    requires Forgets(key, merge, less, f)
    ensures Map(f, Over(key, merge, base, gen)) == Over(key, less, Map(f, base), Map(f, gen))
  {
    if gen != [] {
      var n := |gen| - 1;
      OverForgets(key, merge, less, f, base, gen[..n]);
      assert Map(f, gen)[..n] == Map(f, gen[..n]);
      UpsertForgets(key, merge, less, f, Over(key, merge, base, gen[..n]), gen[n]);
    }
  }

  lemma {:induction false} LastIndexForgets<T(!new)>(key: T -> string, f: T -> T, xs: seq<T>, k: string)
    requires forall x :: key(f(x)) == key(x)
    ensures LastIndex(key, Map(f, xs), k) == LastIndex(key, xs, k)
  {
    var i := LastIndex(key, xs, k);
    if i < |xs| {
      LastIndexIs(key, Map(f, xs), k, i);
    }
  }

  lemma UpsertForgets<T(!new)>(key: T -> string, merge: (T, T) -> T, less: (T, T) -> T, f: T -> T, xs: seq<T>, g: T)
    requires Forgets(key, merge, less, f)
    ensures Map(f, Upsert(key, merge, xs, g)) == Upsert(key, less, Map(f, xs), f(g))
  {
    LastIndexForgets(key, f, xs, key(g));
  }
}
