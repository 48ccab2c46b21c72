/** Counting facts about short lists of positions. */
module Finite {

  ghost function Elements<T>(s: seq<T>): set<T> {
    set x | x in s
  }

  ghost predicate NoDuplicates<T>(s: seq<T>) {
    forall i, j :: 0 <= i < j < |s| ==> s[i] != s[j]
  }

  lemma ElementsOfTail<T>(s: seq<T>)
    requires s != []
    ensures Elements(s) == {s[0]} + Elements(s[1..])
  {
  }

  lemma {:induction false} ElementsSize<T>(s: seq<T>)
    ensures |Elements(s)| <= |s|
    ensures NoDuplicates(s) ==> |Elements(s)| == |s|
  {
    if s != [] {
      ElementsSize(s[1..]);
      ElementsOfTail(s);
      if NoDuplicates(s) {
        assert s[0] !in s[1..];
      }
    }
  }

  ghost function Interval(first: nat, n: nat): (i: set<nat>)
    ensures forall k :: k in i <==> first <= k < first + n
    ensures |i| == n
  {
    if n == 0 then {} else Interval(first, n - 1) + {first + n - 1}
  }

  lemma SubsetOfSameSize<T>(a: set<T>, b: set<T>)
    requires a <= b && |b| <= |a|
    ensures a == b
  {
    assert b == a + (b - a);
    assert |b| == |a| + |b - a|;
  }

  /** A list as long as an interval that covers it lists exactly the interval. */
  lemma CoveringIsExact(s: seq<nat>, first: nat)
    requires forall k :: first <= k < first + |s| ==> k in s
    ensures forall k :: k in s ==> first <= k < first + |s|
  {
    ElementsSize(s);
    assert Interval(first, |s|) <= Elements(s);
    SubsetOfSameSize(Interval(first, |s|), Elements(s));
    assert forall k :: k in s ==> k in Elements(s);
  }

  /** Distinct positions inside an interval of their own number fill it. */
  lemma DistinctFills(s: seq<nat>, first: nat)
    requires NoDuplicates(s)
    requires forall k :: k in s ==> first <= k < first + |s|
    ensures forall k :: first <= k < first + |s| ==> k in s
  {
    ElementsSize(s);
    assert Elements(s) <= Interval(first, |s|);
    SubsetOfSameSize(Elements(s), Interval(first, |s|));
    forall k | first <= k < first + |s| ensures k in s {
      assert k in Interval(first, |s|);
      assert k in Elements(s);
    }
  }
}
