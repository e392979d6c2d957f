/** MQTT topic filters (internal/bindings/mqtt.go), against the level-wise definition of section 4.7.1 of
    MQTT Version 3.1.1. */
module Mqtt {
  import opened Text

  // ----- The definition, level by level -----

  /** "#" stands for all remaining levels, none included; "+" for one level, whatever it is. */
  predicate Matches(filter: seq<string>, topic: seq<string>) {
    if filter == [] then topic == []
    else if filter[0] == "#" then true
    else topic != [] && (filter[0] == "+" || filter[0] == topic[0]) && Matches(filter[1..], topic[1..])
  }

  predicate IsPlain(level: string) { '#' !in level && '+' !in level }

  /** A filter: each level is plain or a whole "+", and "#" may stand as the last. */
  predicate IsFilter(levels: seq<string>) {
    && levels != []
    && (forall i :: 0 <= i < |levels| - 1 ==> IsPlain(levels[i]) || levels[i] == "+")
    && (IsPlain(levels[|levels| - 1]) || levels[|levels| - 1] == "+" || levels[|levels| - 1] == "#")
  }

  // ----- The code -----

  method ValidateMqttPattern(p: string) returns (ok: bool)
    ensures ok <==> p != "" && IsFilter(Split(p, '/'))
  {
    if p == "" { return false; }
    var segs := Split(p, '/');
    for i := 0 to |segs|
      invariant forall k :: 0 <= k < i ==> IsPlain(segs[k]) || segs[k] == "+" || (segs[k] == "#" && k == |segs| - 1)
    {
      var s := segs[i];
      if s == "#" {
        if i != |segs| - 1 { return false; }
        continue;
      }
      if '#' in s {
        assert s != "+";
        return false;
      }
      if '+' in s && s != "+" { return false; }
    }
    return true;
  }

  method MqttTopicMatch(filter: string, topic: string) returns (matched: bool)
    ensures matched <==> Matches(Split(filter, '/'), Split(topic, '/'))
  {
    if filter == topic {
      EqualMatches(Split(filter, '/'));
      return true;
    }
    var fSegs, tSegs := Split(filter, '/'), Split(topic, '/');
    for i := 0 to |fSegs|
      invariant i <= |tSegs|
      invariant Matches(fSegs[i..], tSegs[i..]) <==> Matches(fSegs, tSegs)
    {
      var f := fSegs[i];
      assert fSegs[i..][0] == f && fSegs[i..][1..] == fSegs[i + 1..];
      if f == "#" { return true; }
      if i >= |tSegs| { return false; }
      assert tSegs[i..][1..] == tSegs[i + 1..];
      if f == "+" { continue; }
      if f != tSegs[i] { return false; }
    }
    return |fSegs| == |tSegs|;
  }

  /** The equality shortcut never changes the answer: a topic that reads like the filter is matched by it. */
  lemma {:induction false} EqualMatches(levels: seq<string>)
    ensures Matches(levels, levels)
  {
    if levels != [] { EqualMatches(levels[1..]); }
  }

  /** For an accepted filter: with a final "#", the topic has the levels before it at least; without, it
      has as many levels; and each plain level is the topic's own. */
  lemma {:induction false} MatchesIff(filter: seq<string>, topic: seq<string>)
    requires IsFilter(filter)
    ensures Matches(filter, topic) <==>
      var open := filter[|filter| - 1] == "#";
      var n := if open then |filter| - 1 else |filter|;
      && (if open then n <= |topic| else n == |topic|)
      && (forall i :: 0 <= i < n && i < |topic| && IsPlain(filter[i]) ==> filter[i] == topic[i])
  {
    if filter[0] != "#" && topic != [] {
      if |filter| == 1 {
        assert filter[1..] == [];
      } else {
        assert IsFilter(filter[1..]) by {
          forall i | 0 <= i < |filter[1..]| - 1 ensures IsPlain(filter[1..][i]) || filter[1..][i] == "+" {
            assert filter[1..][i] == filter[i + 1];
          }
        }
        MatchesIff(filter[1..], topic[1..]);
        assert forall i :: 1 <= i < |filter| ==> filter[i] == filter[1..][i - 1];
        assert forall i :: 1 <= i < |topic| ==> topic[i] == topic[1..][i - 1];
      }
    }
  }

  /** Weakening a level to "+" only adds topics. */
  lemma {:induction false} PlusMatchesMore(filter: seq<string>, topic: seq<string>, i: nat)
    requires i < |filter| && filter[i] != "#" && Matches(filter, topic)
    ensures Matches(filter[i := "+"], topic)
  {
    if i > 0 && filter[0] != "#" {
      PlusMatchesMore(filter[1..], topic[1..], i - 1);
      assert filter[i := "+"][1..] == filter[1..][i - 1 := "+"];
    } else if i == 0 {
      assert filter[0 := "+"][1..] == filter[1..];
    }
  }

  /** Weakening the levels from one on to "#" only adds topics. */
  lemma {:induction false} HashMatchesMore(filter: seq<string>, topic: seq<string>, i: nat)
    requires i <= |filter| && Matches(filter, topic)
    ensures Matches(filter[..i] + ["#"], topic)
  {
    var open := filter[..i] + ["#"];
    if i > 0 && filter[0] != "#" {
      HashMatchesMore(filter[1..], topic[1..], i - 1);
      assert open[1..] == filter[1..][..i - 1] + ["#"];
    }
  }

  /** A topic whose levels begin with those of a filter "a/#" is matched, "a" itself included. */
  lemma {:induction false} PrefixMatches(levels: seq<string>, more: seq<string>)
    ensures Matches(levels + ["#"], levels + more)
  {
    if levels != [] {
      PrefixMatches(levels[1..], more);
      assert (levels + ["#"])[1..] == levels[1..] + ["#"] && (levels + more)[1..] == levels[1..] + more;
    }
  }
}
