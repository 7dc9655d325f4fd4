/** Facts about sequences of any kind, for places where the solver does not see them by itself. */
module Sequences {

  lemma Assoc<T>(a: seq<T>, b: seq<T>, c: seq<T>)
    ensures (a + b) + c == a + (b + c)
  {
  }

  lemma SameElements<T>(s: seq<T>, t: seq<T>)
    requires |s| == |t| && forall i :: 0 <= i < |s| ==> s[i] == t[i]
    ensures s == t
  {
  }

  lemma {:induction false} IncreasingIsShort(s: seq<nat>, n: nat)
    requires forall i :: 0 <= i < |s| ==> s[i] < n
    requires forall i, j :: 0 <= i < j < |s| ==> s[i] < s[j]
    ensures |s| <= n
  {
    if s != [] {
      IncreasingIsShort(s[..|s| - 1], s[|s| - 1]);
    }
  }

  /** The sub-sequence of the elements satisfying `p`. */
  function Keep<T(!new)>(s: seq<T>, p: T -> bool): (r: seq<T>)
    ensures forall x :: x in r <==> x in s && p(x)
  {
    if s == [] then []
    else
      var init := Keep(s[..|s| - 1], p);
      assert s == s[..|s| - 1] + [s[|s| - 1]];
      if p(s[|s| - 1]) then init + [s[|s| - 1]] else init
  }

  lemma KeepSnoc<T(!new)>(s: seq<T>, x: T, p: T -> bool)
    ensures Keep(s + [x], p) == Keep(s, p) + if p(x) then [x] else []
  {
    assert (s + [x])[..|s|] == s;
  }

  /** `r` is the elements of `s` at just these positions, in order. */
  ghost predicate Picks<T>(s: seq<T>, r: seq<T>, positions: seq<nat>) {
    && |positions| == |r|
    && (forall i :: 0 <= i < |r| ==> positions[i] < |s| && r[i] == s[positions[i]])
    && (forall i, j :: 0 <= i < j < |r| ==> positions[i] < positions[j])
  }

  lemma PicksMore<T>(s: seq<T>, x: T, r: seq<T>, positions: seq<nat>)
    requires Picks(s, r, positions)
    ensures Picks(s + [x], r, positions) && Picks(s + [x], r + [x], positions + [|s|])
  {
  }

  /** The elements kept are those satisfying `p`, each as often as it occurs, in order. */
  lemma {:induction false} KeepAt<T(!new)>(s: seq<T>, p: T -> bool) returns (positions: seq<nat>)
    ensures Picks(s, Keep(s, p), positions)
    ensures forall j: nat :: j < |s| ==> (p(s[j]) <==> j in positions)
  {
    if s == [] {
      positions := [];
    } else {
      var n: nat, init := |s| - 1, s[..|s| - 1];
      var before := KeepAt(init, p);
      PicksMore(init, s[n], Keep(init, p), before);
      assert init + [s[n]] == s;
      positions := if p(s[n]) then before + [n] else before;
      NewPosition(before, n);
      assert forall j: nat :: j < n ==> init[j] == s[j];
    }
  }

  lemma NewPosition(positions: seq<nat>, n: nat)
    ensures forall j: nat :: j in positions + [n] <==> j in positions || j == n
  {
  }
}
