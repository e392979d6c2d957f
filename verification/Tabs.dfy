/** Inserting and removing tabs in place (internal/bindings/tab.go), on the array part of a Lua table. */
module Tabs {
  import opened LuaHeap

  /** The tabs: the entries up to the table's length. */
  function Live(slots: seq<LValue>): (r: seq<LValue>) { slots[..Len(slots)] }

  /** LTable.RawSetInt on the array part: a key beyond the end fills up with nil. */
  function RawSetInt(slots: seq<LValue>, key: nat, v: LValue): (after: seq<LValue>)
    requires key >= 1
    ensures |after| == (if key <= |slots| then |slots| else key) && after[key - 1] == v
    ensures forall i :: 0 <= i < |slots| && i != key - 1 ==> after[i] == slots[i]
    decreases key - |slots|
  {
    if key <= |slots| then slots[key - 1 := v]
    else if key == |slots| + 1 then slots + [v]
    else RawSetInt(slots + [LNil], key, v)
  }

  lemma {:induction false} LenIs(slots: seq<LValue>, n: nat)
    requires n <= |slots| && (n > 0 ==> slots[n - 1] != LNil) && forall i :: n <= i < |slots| ==> slots[i] == LNil
    ensures Len(slots) == n
  {
    if |slots| > n { LenIs(slots[..|slots| - 1], n); }
  }

  /** The tabs after the first i have moved down by one. */
  ghost predicate Shifted(was: seq<LValue>, slots: seq<LValue>, n: nat, i: nat) {
    && n <= |was| && i <= n && |slots| >= n && (i < n ==> |slots| >= n + 1)
    && (forall k :: 0 <= k < i ==> slots[k] == was[k])
    && (forall k :: i < k < |slots| && k <= n ==> slots[k] == if i < n then was[k - 1] else LNil)
    && (forall k :: n < k < |slots| ==> slots[k] == LNil)
    && (i == n < |slots| ==> slots[n] == LNil)
  }

  lemma ShiftStep(was: seq<LValue>, before: seq<LValue>, slots: seq<LValue>, n: nat, i: nat)
    requires 0 < i && Shifted(was, before, n, i) && slots == RawSetInt(before, i + 1, before[i - 1])
    ensures Shifted(was, slots, n, i - 1)
  {
  }

  lemma Inserted(was: seq<LValue>, room: seq<LValue>, slots: seq<LValue>, n: nat, index: nat, tab: LValue)
    requires 1 <= index <= n + 1 && n == Len(was) && Shifted(was, room, n, index - 1) && tab != LNil
    requires slots == RawSetInt(room, index, tab)
    ensures Live(slots) == Live(was)[..index - 1] + [tab] + Live(was)[index - 1..]
  {
    assert slots[n] == if index == n + 1 then tab else was[n - 1];
    LenIs(slots, n + 1);
    InsertedTabs(was[..n], slots[..n + 1], index - 1, tab);
  }

  lemma InsertedTabs(was: seq<LValue>, slots: seq<LValue>, i: nat, tab: LValue)
    requires i <= |was| && |slots| == |was| + 1 && slots[i] == tab
    requires forall k :: 0 <= k < i ==> slots[k] == was[k]
    requires forall k :: i < k < |slots| ==> slots[k] == was[k - 1]
    ensures slots == was[..i] + [tab] + was[i..]
  {
  }

  /** A gap just before place i; the tabs before the gap have moved up past index. */
  ghost predicate GapAt(was: seq<LValue>, slots: seq<LValue>, n: nat, index: nat, i: nat) {
    && 1 <= index < i <= n + 1 && n == Len(was) <= |was| == |slots|
    && (forall k :: 0 <= k < index - 1 ==> slots[k] == was[k])
    && (forall k :: index - 1 <= k < i - 2 ==> slots[k] == was[k + 1])
    && slots[i - 2] == LNil
    && (forall k :: i - 1 <= k < |slots| ==> slots[k] == was[k])
  }

  lemma GapLen(was: seq<LValue>, slots: seq<LValue>, n: nat, index: nat, i: nat)
    requires GapAt(was, slots, n, index, i)
    ensures i <= n <==> i <= Len(slots)
  {
    if i <= n { LenIs(slots, n); }
  }

  lemma GapStart(was: seq<LValue>, slots: seq<LValue>, n: nat, index: nat)
    requires 1 <= index <= n == Len(was) && slots == was[index - 1 := LNil]
    ensures GapAt(was, slots, n, index, index + 1)
  {
  }

  lemma GapStep(was: seq<LValue>, before: seq<LValue>, slots: seq<LValue>, n: nat, index: nat, i: nat)
    requires GapAt(was, before, n, index, i) && i <= n
    requires slots == MovedUp(before, i)
    ensures GapAt(was, slots, n, index, i + 1)
  {
  }

  /** One turn of the removing loop. */
  function MovedUp(slots: seq<LValue>, i: nat): (after: seq<LValue>)
    requires 2 <= i <= |slots|
  {
    if slots[i - 1] == LNil then slots else slots[i - 2 := slots[i - 1]][i - 1 := LNil]
  }

  /** The slots before the turn for place i. */
  function Moved(was: seq<LValue>, index: nat, i: nat): (slots: seq<LValue>)
    requires 1 <= index < i <= |was| + 1
    ensures |slots| == |was|
  {
    if i == index + 1 then was[index - 1 := LNil] else MovedUp(Moved(was, index, i - 1), i - 1)
  }

  lemma {:induction false} MovedHasGap(was: seq<LValue>, index: nat, i: nat)
    requires 1 <= index < i <= Len(was) + 1
    ensures GapAt(was, Moved(was, index, i), Len(was), index, i)
  {
    if i == index + 1 {
      GapStart(was, Moved(was, index, i), Len(was), index);
    } else {
      MovedHasGap(was, index, i - 1);
      GapStep(was, Moved(was, index, i - 1), Moved(was, index, i), Len(was), index, i - 1);
    }
  }

  lemma MovedLen(was: seq<LValue>, index: nat, i: nat)
    requires 1 <= index < i <= Len(was) + 1
    ensures i <= Len(was) <==> i <= Len(Moved(was, index, i))
  {
    MovedHasGap(was, index, i);
    GapLen(was, Moved(was, index, i), Len(was), index, i);
  }

  lemma AllMoved(was: seq<LValue>, index: nat)
    requires 1 <= index <= Len(was)
    ensures IsWithout(was, Moved(was, index, Len(was) + 1), index)
  {
    MovedHasGap(was, index, Len(was) + 1);
    Removed(was, Moved(was, index, Len(was) + 1), Len(was), index);
  }

  /** The slots left when the tab at index goes: the others in order, and nothing after them. */
  ghost predicate IsWithout(was: seq<LValue>, slots: seq<LValue>, index: nat)
    requires 1 <= index <= Len(was)
  {
    var n := Len(was);
    && |slots| == |was|
    && slots[..n - 1] == Live(was)[..index - 1] + Live(was)[index..]
    && forall k :: n - 1 <= k < |slots| ==> slots[k] == LNil
  }

  lemma Removed(was: seq<LValue>, slots: seq<LValue>, n: nat, index: nat)
    requires GapAt(was, slots, n, index, n + 1)
    ensures IsWithout(was, slots, index)
  {
    assert forall k :: 0 <= k < n ==> Live(was)[k] == was[k];
  }

  class TabTable {
    var slots: seq<LValue>

    constructor (tabs: seq<LValue>)
      ensures slots == tabs
    {
      slots := tabs;
    }

    /** k.tab.insert_tab: the tabs from index on move down by one. */
    method InsertTab(index: int, tab: LValue) returns (ok: bool)
      requires tab != LNil
      modifies this
      ensures ok <==> 1 <= index <= Len(old(slots)) + 1
      ensures !ok ==> slots == old(slots)
      ensures ok ==> Live(slots) == Live(old(slots))[..index - 1] + [tab] + Live(old(slots))[index - 1..]
    {
      if index < 1 { return false; }
      if index > Len(slots) + 1 { return false; }
      var n := Len(slots);
      ghost var was := slots;
      var i := n;
      while i >= index
        invariant index - 1 <= i <= n
        invariant Shifted(was, slots, n, i)
      {
        ghost var before := slots;
        slots := RawSetInt(slots, i + 1, slots[i - 1]);
        ShiftStep(was, before, slots, n, i);
        i := i - 1;
      }
      ghost var room := slots;
      slots := RawSetInt(slots, index, tab);
      Inserted(was, room, slots, n, index, tab);
      return true;
    }

    /** k.tab.remove_tab: the tabs after index move up by one, missing ones too. */
    method RemoveTab(index: int) returns (ok: bool)
      modifies this
      ensures ok <==> index >= 1
      ensures !ok || index > Len(old(slots)) ==> slots == old(slots)
      ensures 1 <= index <= Len(old(slots)) ==> IsWithout(old(slots), slots, index)
    {
      if index < 1 { return false; }
      if index > Len(slots) { return true; }
      AllMoved(slots, index);
      CloseGap(index);
      return true;
    }

    /** The place emptied and the loop over those after it, the length read again before every step. */
    method CloseGap(index: nat)
      requires 1 <= index <= Len(slots)
      modifies this
      ensures slots == Moved(old(slots), index, Len(old(slots)) + 1)
    {
      ghost var n, was := Len(slots), slots;
      EmptyPlace(index);
      var i := index + 1;
      while i <= Len(slots)
        invariant index < i <= n + 1 && |slots| == |was| && slots == Moved(was, index, i)
        decreases n + 1 - i
      {
        MovedLen(was, index, i);
        MoveUp(i, was, index);
        i := i + 1;
      }
      MovedLen(was, index, i);
    }

    method EmptyPlace(index: nat)
      requires 1 <= index <= |slots|
      modifies this
      ensures slots == Moved(old(slots), index, index + 1)
    {
      slots := RawSetInt(slots, index, LNil);
    }

    /** The body of the loop: a tab that is there moves up, and leaves its place empty. */
    method MoveUp(i: nat, ghost was: seq<LValue>, ghost index: nat)
      requires 1 <= index < i <= |was| == |slots| && slots == Moved(was, index, i)
      modifies this
      ensures slots == Moved(was, index, i + 1)
    {
      var v := slots[i - 1];
      if v != LNil {
        slots := RawSetInt(slots, i - 1, v);
        slots := RawSetInt(slots, i, LNil);
      }
    }

    /** Removing a tab just inserted gives the tabs back, missing ones where they were. */
    method InsertThenRemove(index: int, tab: LValue) returns (ok: bool)
      requires tab != LNil
      modifies this
      ensures ok <==> 1 <= index <= Len(old(slots)) + 1
      ensures Live(slots) == Live(old(slots))
    {
      ghost var was := slots;
      ok := InsertTab(index, tab);
      if ok {
        ghost var more := slots;
        ok := RemoveTab(index);
        InsertUndone(was, more, slots, index, tab);
      }
    }

    /** Inserting a tab just removed gives the tabs back, unless that place was empty, or it was the last
        and the place before it is empty: then the list has become too short for the index. */
    method RemoveThenInsert(index: int) returns (ok: bool)
      modifies this
      ensures !(1 <= index <= Len(old(slots))) ==> slots == old(slots)
      ensures 1 <= index <= Len(old(slots)) ==>
        (Live(slots) == Live(old(slots)) <==> Reinsertable(old(slots), index))
    {
      if index < 1 || index > Len(slots) { return false; }
      ghost var was := slots;
      var tab := slots[index - 1];
      ok := RemoveTab(index);
      ghost var fewer := slots;
      RemainingLen(was, fewer, index);
      if tab != LNil {
        ok := InsertTab(index, tab);
        if ok { RemoveUndone(was, fewer, slots, index); }
      }
    }
  }

  /** Whether the tab at index is there, and is not the last after an empty place. */
  predicate Reinsertable(slots: seq<LValue>, index: int)
    requires 1 <= index <= Len(slots)
  {
    slots[index - 1] != LNil && (index < Len(slots) || index == 1 || slots[index - 2] != LNil)
  }

  lemma CutBack(tabs: seq<LValue>, more: seq<LValue>, i: nat, tab: LValue)
    requires i <= |tabs| && more == tabs[..i] + [tab] + tabs[i..]
    ensures more[..i] + more[i + 1..] == tabs
  {
    assert more[..i] == tabs[..i];
    assert more[i + 1..] == tabs[i..];
  }

  lemma LiveIs(was: seq<LValue>, slots: seq<LValue>)
    requires |slots| >= Len(was) && slots[..Len(was)] == Live(was)
    requires forall k :: Len(was) <= k < |slots| ==> slots[k] == LNil
    ensures Live(slots) == Live(was)
  {
    var n := Len(was);
    if n > 0 { assert slots[..n][n - 1] == was[..n][n - 1]; }
    LenIs(slots, n);
  }

  lemma InsertUndone(was: seq<LValue>, more: seq<LValue>, slots: seq<LValue>, index: nat, tab: LValue)
    requires 1 <= index <= Len(was) + 1 && Len(more) == Len(was) + 1
    requires Live(more) == Live(was)[..index - 1] + [tab] + Live(was)[index - 1..]
    requires IsWithout(more, slots, index)
    ensures Live(slots) == Live(was)
  {
    CutBack(Live(was), Live(more), index - 1, tab);
    LiveIs(was, slots);
  }

  lemma WithoutAt(was: seq<LValue>, fewer: seq<LValue>, index: nat, k: nat)
    requires 1 <= index <= Len(was) && IsWithout(was, fewer, index) && k < Len(was) - 1
    ensures fewer[k] == if k < index - 1 then was[k] else was[k + 1]
  {
    Skipped(Live(was), index - 1, k);
    assert fewer[k] == fewer[..Len(was) - 1][k];
  }

  lemma Skipped(tabs: seq<LValue>, i: nat, k: nat)
    requires i < |tabs| && k < |tabs| - 1
    ensures (tabs[..i] + tabs[i + 1..])[k] == if k < i then tabs[k] else tabs[k + 1]
  {
  }

  lemma EndsAt(slots: seq<LValue>, n: nat)
    requires n <= |slots| && forall k :: n <= k < |slots| ==> slots[k] == LNil
    ensures Len(slots) <= n && (n > 0 ==> (Len(slots) == n <==> slots[n - 1] != LNil))
  {
    if n > 0 && slots[n - 1] != LNil { LenIs(slots, n); }
  }

  lemma RemainingLen(was: seq<LValue>, fewer: seq<LValue>, index: nat)
    requires 1 <= index <= Len(was) && IsWithout(was, fewer, index)
    ensures Len(fewer) <= Len(was) - 1
    ensures was[index - 1] != LNil ==> (Len(fewer) + 1 >= index <==> Reinsertable(was, index))
    ensures index < Len(was) ==> Len(fewer) == Len(was) - 1
  {
    var n := Len(was);
    EndsAt(fewer, n - 1);
    if n > 1 { WithoutAt(was, fewer, index, n - 2); }
  }

  lemma PutBack(tabs: seq<LValue>, fewer: seq<LValue>, i: nat)
    requires i < |tabs| && fewer == tabs[..i] + tabs[i + 1..]
    ensures fewer[..i] + [tabs[i]] + fewer[i..] == tabs
  {
    assert fewer[..i] == tabs[..i];
    assert fewer[i..] == tabs[i + 1..];
  }

  lemma RemoveUndone(was: seq<LValue>, fewer: seq<LValue>, slots: seq<LValue>, index: nat)
    requires 1 <= index <= Len(was) && IsWithout(was, fewer, index) && index <= Len(fewer) + 1 <= Len(was)
    requires index < Len(was) ==> Len(fewer) == Len(was) - 1
    requires Live(slots) == Live(fewer)[..index - 1] + [was[index - 1]] + Live(fewer)[index - 1..]
    ensures Live(slots) == Live(was)
  {
    PutBack(Live(was), Live(fewer), index - 1);
  }
}
