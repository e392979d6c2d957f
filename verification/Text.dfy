/** Text helpers the other modules share: the library string functions the repository calls
    (sort.Strings, strings.Join, strings.Split, strings.TrimSpace, strconv.Itoa, strconv.Atoi),
    each with the laws the round trips need. Strings are sequences of characters. */
module Text {

  datatype Option<+T> = None | Some(value: T)

  // ----- Byte order and sort.Strings -----

  predicate Leq(a: string, b: string) {
    a == [] || (b != [] && (a[0] < b[0] || (a[0] == b[0] && Leq(a[1..], b[1..]))))
  }

  lemma {:induction false} LeqTotal(a: string, b: string)
    ensures Leq(a, b) || Leq(b, a)
  {
    if a != [] && b != [] && a[0] == b[0] {
      LeqTotal(a[1..], b[1..]);
    }
  }

  lemma {:induction false} LeqAntisymmetric(a: string, b: string)
    requires Leq(a, b) && Leq(b, a)
    ensures a == b
  {
    if a != [] {
      LeqAntisymmetric(a[1..], b[1..]);
      assert a == [a[0]] + a[1..] && b == [b[0]] + b[1..];
    }
  }

  lemma {:induction false} LeqTransitive(a: string, b: string, c: string)
    requires Leq(a, b) && Leq(b, c)
    ensures Leq(a, c)
  {
    if a != [] && a[0] == b[0] && b[0] == c[0] {
      LeqTransitive(a[1..], b[1..], c[1..]);
    }
  }

  predicate IsLeast(m: string, names: multiset<string>) {
    m in names && forall x :: x in names ==> Leq(m, x)
  }

  lemma {:induction false} LeastExists(names: multiset<string>)
    requires |names| > 0
    ensures exists m :: IsLeast(m, names)
    decreases |names|
  {
    var x :| x in names;
    LeqTotal(x, x);
    var rest := names - multiset{x};
    if |rest| == 0 {
      assert names == multiset{x};
      assert IsLeast(x, names);
    } else {
      LeastExists(rest);
      var y :| IsLeast(y, rest);
      var m := if Leq(x, y) then x else y;
      LeqTotal(x, y);
      forall z | z in names ensures Leq(m, z) {
        if z in rest {
          assert Leq(y, z);
          if m == x { LeqTransitive(x, y, z); }
        }
      }
      assert IsLeast(m, names);
    }
  }

  lemma LeastIsUnique(a: string, b: string, names: multiset<string>)
    requires IsLeast(a, names) && IsLeast(b, names)
    ensures a == b
  {
    LeqAntisymmetric(a, b);
  }

  function Least(names: multiset<string>): (m: string)
    requires |names| > 0
    ensures IsLeast(m, names)
  {
    LeastExists(names);
    assert forall a, b :: IsLeast(a, names) && IsLeast(b, names) ==> a == b by {
      forall a, b | IsLeast(a, names) && IsLeast(b, names) ensures a == b {
        LeastIsUnique(a, b, names);
      }
    }
    var m :| m in names && IsLeast(m, names);
    m
  }

  ghost predicate Sorted(names: seq<string>) {
    forall i, j :: 0 <= i < j < |names| ==> Leq(names[i], names[j])
  }

  /** sort.Strings: the ascending listing of a bag of names. Go collects the names in map iteration
      order first; that order cannot matter, since the result depends on the bag alone. */
  function Sort(names: multiset<string>): (sorted: seq<string>)
    ensures multiset(sorted) == names
    ensures Sorted(sorted)
    decreases |names|
  {
    if |names| == 0 then []
    else
      var m := Least(names);
      var rest := Sort(names - multiset{m});
      SortedCons(m, rest, names);
      [m] + rest
  }

  lemma SortedCons(m: string, rest: seq<string>, names: multiset<string>)
    requires IsLeast(m, names)
    requires multiset(rest) == names - multiset{m}
    requires Sorted(rest)
    ensures Sorted([m] + rest)
    ensures multiset([m] + rest) == names
  {
    forall j | 0 <= j < |rest| ensures Leq(m, rest[j]) {
      assert rest[j] in multiset(rest);
    }
  }

  lemma FirstIsLeast(a: seq<string>, x: string)
    requires Sorted(a) && x in a
    ensures Leq(a[0], x)
  {
    LeqTotal(x, x);
    var i :| 0 <= i < |a| && a[i] == x;
    if i > 0 { assert Leq(a[0], a[i]); }
  }

  lemma TailBag(a: seq<string>)
    requires a != []
    ensures multiset(a[1..]) == multiset(a) - multiset{a[0]}
    ensures Sorted(a) ==> Sorted(a[1..])
  {
    assert a == [a[0]] + a[1..];
  }

  lemma SameBag(a: seq<string>, b: seq<string>, x: string)
    requires multiset(a) == multiset(b)
    ensures |a| == |b| && (x in a <==> x in b)
  {
    assert |multiset(a)| == |a| && |multiset(b)| == |b|;
    assert x in multiset(a) <==> x in multiset(b);
  }

  lemma SameFirst(a: seq<string>, b: seq<string>)
    requires a != [] && Sorted(a) && Sorted(b) && multiset(a) == multiset(b)
    ensures b != [] && a[0] == b[0]
  {
    SameBag(a, b, a[0]);
    SameBag(a, b, b[0]);
    FirstIsLeast(b, a[0]);
    FirstIsLeast(a, b[0]);
    LeqAntisymmetric(a[0], b[0]);
  }

  lemma {:induction false} SortedIsUnique(a: seq<string>, b: seq<string>)
    requires Sorted(a) && Sorted(b) && multiset(a) == multiset(b)
    ensures a == b
    decreases |a|
  {
    if a == [] {
      SameBag(a, b, "");
    } else {
      SameFirst(a, b);
      TailBag(a);
      TailBag(b);
      SortedIsUnique(a[1..], b[1..]);
      HeadAndTail(a);
      HeadAndTail(b);
    }
  }

  /** The sorted key list of a map: every key exactly once. */
  function SortedKeys(keys: set<string>): (sorted: seq<string>)
    ensures forall k :: k in sorted <==> k in keys
    ensures forall i, j :: 0 <= i < j < |sorted| ==> sorted[i] != sorted[j]
  {
    var sorted := Sort(multiset(keys));
    assert forall k :: k in sorted <==> k in multiset(sorted);
    DistinctFromBag(sorted, keys);
    sorted
  }

  lemma DistinctFromBag(names: seq<string>, keys: set<string>)
    requires multiset(names) == multiset(keys)
    ensures forall i, j :: 0 <= i < j < |names| ==> names[i] != names[j]
  {
    forall i, j | 0 <= i < j < |names| ensures names[i] != names[j] {
      TwiceInBag(names, i, j);
    }
  }

  lemma TwiceInBag(names: seq<string>, i: nat, j: nat)
    requires i < j < |names|
    ensures names[i] == names[j] ==> multiset(names)[names[i]] >= 2
  {
    var front, back := names[..j], names[j..];
    assert names == front + back;
    assert front[i] in multiset(front) && back[0] in multiset(back);
  }

  // ----- Concatenation -----

  lemma Assoc<T>(a: seq<T>, b: seq<T>, c: seq<T>)
    ensures a + (b + c) == a + b + c
  {
  }

  lemma HeadAndTail<T>(s: seq<T>)
    requires s != []
    ensures [s[0]] + s[1..] == s
  {
  }

  lemma InitAndLast<T>(s: seq<T>)
    requires s != []
    ensures s[..|s| - 1] + [s[|s| - 1]] == s
  {
  }

  lemma NextSlice<T>(s: seq<T>, i: nat)
    requires i < |s|
    ensures s[..i + 1] == s[..i] + [s[i]]
  {
  }

  lemma CutHead<T>(a: seq<T>, b: seq<T>, j: nat)
    requires j <= |a|
    ensures (a + b)[j..] == a[j..] + b
  {
  }

  lemma CutTwice<T>(s: seq<T>, w: nat, n: nat)
    requires w + n <= |s|
    ensures s[..w + n] == s[..w] + s[w..][..n] && s[w..][n..] == s[w + n..]
  {
  }

  lemma CutAgain<T>(s: seq<T>, n: nat, a: nat, b: nat)
    requires a <= b && n + b <= |s|
    ensures s[n..][a..b] == s[n + a..n + b] && s[n..][b..] == s[n + b..]
  {
  }

  lemma Regroup(a: string, b: string, c: string, d: string)
    ensures a + b + c + d == a + (b + (c + d))
  {
  }

  // ----- strings.Join and strings.Split -----

  function Join(parts: seq<string>, sep: string): (r: string) {
    if parts == [] then ""
    else if |parts| == 1 then parts[0]
    else parts[0] + sep + Join(parts[1..], sep)
  }

  /** strings.Split on a one-character separator: always at least one piece. */
  function Split(s: string, sep: char): (pieces: seq<string>)
    ensures |pieces| >= 1
    ensures forall p :: p in pieces ==> sep !in p
    ensures sep !in s ==> pieces == [s]
  {
    if s == [] then [""]
    else
      var rest := Split(s[1..], sep);
      assert sep !in s ==> sep !in s[1..] && s == [s[0]] + s[1..];
      if s[0] == sep then [""] + rest
      else [[s[0]] + rest[0]] + rest[1..]
  }

  lemma SplitFirst(c: char, t: string, sep: char)
    ensures Split([c] + t, sep) ==
      if c == sep then [""] + Split(t, sep) else [[c] + Split(t, sep)[0]] + Split(t, sep)[1..]
  {
    assert ([c] + t)[1..] == t;
  }

  lemma {:induction false} SplitPiece(p: string, rest: string, sep: char)
    requires sep !in p
    ensures Split(p + [sep] + rest, sep) == [p] + Split(rest, sep)
  {
    if p == [] {
      SplitFirst(sep, rest, sep);
      assert p + [sep] + rest == [sep] + rest;
    } else {
      SplitPiece(p[1..], rest, sep);
      SplitFirst(p[0], p[1..] + [sep] + rest, sep);
      HeadAndTail(p);
      Assoc([p[0]], p[1..], [sep]);
      Assoc([p[0]], p[1..] + [sep], rest);
    }
  }

  /** strings.IndexByte, as the length of what stands before the byte. */
  function Until(s: string, c: char): (n: nat)
    ensures n <= |s| && c !in s[..n]
    ensures n < |s| ==> s[n] == c
  {
    if s == "" || s[0] == c then 0
    else
      var n := 1 + Until(s[1..], c);
      assert s[..n] == [s[0]] + s[1..][..n - 1];
      n
  }

  // ----- strings.TrimSpace -----

  /** unicode.IsSpace. */
  predicate IsSpace(c: char) {
    c in "\t\n\U{B}\U{C}\r \U{85}\U{A0}\U{1680}\U{2028}\U{2029}\U{202F}\U{205F}\U{3000}"
    || '\U{2000}' <= c <= '\U{200A}'
  }

  function TrimLeft(s: string): (t: string)
    ensures |t| <= |s|
    ensures forall c :: c in t ==> c in s
    ensures t == [] || !IsSpace(t[0])
  {
    if s != [] && IsSpace(s[0]) then TrimLeft(s[1..]) else s
  }

  function TrimRight(s: string): (t: string)
    ensures |t| <= |s| && t == s[..|t|]
    ensures t == [] || !IsSpace(t[|t| - 1])
  {
    if s != [] && IsSpace(s[|s| - 1]) then TrimRight(s[..|s| - 1]) else s
  }

  function TrimSpace(s: string): (t: string)
    ensures |t| <= |s|
    ensures forall c :: c in t ==> c in s
    ensures IsTrimmed(t)
    ensures IsTrimmed(s) ==> t == s
  {
    var left := TrimLeft(s);
    var t := TrimRight(left);
    assert forall c :: c in t ==> c in left;
    t
  }

  predicate IsTrimmed(s: string) {
    s == [] || (!IsSpace(s[0]) && !IsSpace(s[|s| - 1]))
  }

  // ----- Characters -----

  predicate IsBlank(c: char) { c == ' ' || c == '\t' || c == '\n' || c == '\r' }

  predicate IsDigit(c: char) { '0' <= c <= '9' }

  predicate IsWordChar(c: char) { 'a' <= c <= 'z' || 'A' <= c <= 'Z' || IsDigit(c) || c == '_' }

  // ----- strconv.Itoa and strconv.Atoi -----

  predicate AllDigits(s: string) { forall c :: c in s ==> IsDigit(c) }

  /** The number of digits at the head of a text. */
  function DigitRun(s: string): (n: nat)
    ensures n <= |s|
    ensures s != [] && IsDigit(s[0]) ==> n > 0
  {
    if s != [] && IsDigit(s[0]) then 1 + DigitRun(s[1..]) else 0
  }

  lemma {:induction false} DigitRunIsDigits(s: string)
    ensures AllDigits(s[..DigitRun(s)])
    ensures DigitRun(s[..DigitRun(s)]) == DigitRun(s)
    ensures DigitRun(s) < |s| ==> !IsDigit(s[DigitRun(s)])
  {
    var n := DigitRun(s);
    if n > 0 {
      DigitRunIsDigits(s[1..]);
      assert s[..n] == [s[0]] + s[1..][..n - 1];
      assert s[..n][1..] == s[1..][..n - 1];
    }
  }

  function HexDigit(d: nat): (r: char)
    requires d < 16
  {
    if d < 10 then '0' + d as char else 'a' + (d - 10) as char
  }

  function DigitChar(d: nat): (c: char)
    requires d < 10
    ensures IsDigit(c)
  {
    '0' + d as char
  }

  function DigitValue(c: char): (r: nat)
    requires IsDigit(c)
  {
    (c - '0') as nat
  }

  function NatText(n: nat): (s: string)
    ensures s != [] && AllDigits(s)
    ensures |s| > 1 ==> s[0] != '0'
  {
    if n < 10 then [DigitChar(n)] else NatText(n / 10) + [DigitChar(n % 10)]
  }

  function IntText(n: int): (r: string) {
    if n < 0 then "-" + NatText(-n) else NatText(n)
  }

  function NatValue(s: string): (r: nat)
    requires AllDigits(s)
  {
    if s == [] then 0 else 10 * NatValue(s[..|s| - 1]) + DigitValue(s[|s| - 1])
  }

  lemma {:induction false} NatValueOfText(n: nat)
    ensures NatValue(NatText(n)) == n
  {
    if n >= 10 {
      NatValueOfText(n / 10);
      var s := NatText(n);
      assert s[..|s| - 1] == NatText(n / 10);
    } else {
      var s := [DigitChar(n)];
      assert s[..|s| - 1] == [];
      assert DigitValue(DigitChar(n)) == n;
    }
  }

  /** strconv.Atoi: a sign is allowed. */
  function Atoi(s: string): (r: Option<int>) {
    var n := if s != "" && (s[0] == '-' || s[0] == '+') then s[1..] else s;
    if n == "" || !AllDigits(n) then None
    else if s[0] == '-' then Some(0 - NatValue(n))
    else Some(NatValue(n) as int)
  }

  lemma AtoiOfText(n: nat)
    ensures Atoi(NatText(n)) == Some(n as int)
  {
    NatValueOfText(n);
    var s := NatText(n);
    assert s[0] in s && !IsDigit('-') && !IsDigit('+');
  }
}
