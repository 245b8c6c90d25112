/** Sorting as JavaScript's arrays do it: least key first, and equals as they were. */
module Sorting {

  function Placed<T>(v: T, s: seq<T>, key: T -> real): seq<T> {
    if s == [] || key(v) <= key(s[0]) then [v] + s else [s[0]] + Placed(v, s[1..], key)
  }

  function Sorted<T>(s: seq<T>, key: T -> real): seq<T> {
    if s == [] then [] else Placed(s[0], Sorted(s[1..], key), key)
  }

  ghost predicate Rising<T>(s: seq<T>, key: T -> real) {
    forall i, j :: 0 <= i < j < |s| ==> key(s[i]) <= key(s[j])
  }

  /** Those with one key, in order. */
  function Having<T>(s: seq<T>, key: T -> real, k: real): seq<T> {
    if s == [] then [] else (if key(s[0]) == k then [s[0]] else []) + Having(s[1..], key, k)
  }

  lemma {:induction false} PlacedAmong<T>(v: T, s: seq<T>, key: T -> real)
    ensures multiset(Placed(v, s, key)) == multiset([v]) + multiset(s)
  {
    if s != [] && key(v) > key(s[0]) {
      PlacedAmong(v, s[1..], key);
      assert s == [s[0]] + s[1..];
    }
  }

  lemma RisingOn<T>(v: T, s: seq<T>, key: T -> real)
    requires Rising(s, key) && forall i :: 0 <= i < |s| ==> key(v) <= key(s[i])
    ensures Rising([v] + s, key)
  {
  }

  lemma {:induction false} PlacedRising<T>(v: T, s: seq<T>, key: T -> real)
    requires Rising(s, key)
    ensures Rising(Placed(v, s, key), key)
  {
    if s != [] && key(v) > key(s[0]) {
      var rest := s[1..];
      assert forall i :: 0 <= i < |rest| ==> rest[i] == s[i + 1];
      PlacedRising(v, rest, key);
      PlacedAmong(v, rest, key);
      var after := Placed(v, rest, key);
      forall i | 0 <= i < |after|
        ensures key(s[0]) <= key(after[i])
      {
        assert after[i] in multiset(after);
        assert after[i] == v || after[i] in rest;
      }
      RisingOn(s[0], after, key);
    } else if s != [] {
      forall i | 0 <= i < |s|
        ensures key(v) <= key(s[i])
      {
      }
      RisingOn(v, s, key);
    }
  }

  lemma HavingOn<T>(v: T, s: seq<T>, key: T -> real, k: real)
    ensures Having([v] + s, key, k) == (if key(v) == k then [v] else []) + Having(s, key, k)
  {
    assert ([v] + s)[1..] == s;
  }

  lemma {:induction false} PlacedStably<T>(v: T, s: seq<T>, key: T -> real, k: real)
    ensures Having(Placed(v, s, key), key, k) == (if key(v) == k then [v] else []) + Having(s, key, k)
  {
    if s != [] && key(v) > key(s[0]) {
      var rest := s[1..];
      PlacedStably(v, rest, key, k);
      assert s == [s[0]] + rest;
      var after := Placed(v, rest, key);
      assert Placed(v, s, key) == [s[0]] + after;
      hide Having, Placed;
      HavingOn(s[0], rest, key, k);
      HavingOn(s[0], after, key, k);
    } else {
      HavingOn(v, s, key, k);
    }
  }

  lemma {:induction false} SortedAmong<T>(s: seq<T>, key: T -> real)
    ensures multiset(Sorted(s, key)) == multiset(s)
    ensures |Sorted(s, key)| == |s|
  {
    if s != [] {
      SortedAmong(s[1..], key);
      PlacedAmong(s[0], Sorted(s[1..], key), key);
      assert s == [s[0]] + s[1..];
    }
    assert |multiset(Sorted(s, key))| == |multiset(s)|;
  }

  lemma {:induction false} SortedRises<T>(s: seq<T>, key: T -> real)
    ensures Rising(Sorted(s, key), key)
  {
    if s != [] {
      SortedRises(s[1..], key);
      PlacedRising(s[0], Sorted(s[1..], key), key);
    }
  }

  lemma SameOnes<T>(s: seq<T>, t: seq<T>)
    requires multiset(s) == multiset(t)
    ensures forall v :: v in s <==> v in t
  {
    forall v
      ensures v in s <==> v in t
    {
      assert v in multiset(s) <==> v in multiset(t);
    }
  }

  /** Those with equal keys stay in order. */
  lemma {:induction false} SortedStays<T>(s: seq<T>, key: T -> real, k: real)
    ensures Having(Sorted(s, key), key, k) == Having(s, key, k)
  {
    if s != [] {
      SortedStays(s[1..], key, k);
      PlacedStably(s[0], Sorted(s[1..], key), key, k);
    }
  }

  /** The same ones, least key first. */
  lemma SortedSorts<T>(s: seq<T>, key: T -> real)
    ensures Rising(Sorted(s, key), key) && multiset(Sorted(s, key)) == multiset(s)
    ensures |Sorted(s, key)| == |s| && forall v :: v in Sorted(s, key) <==> v in s
  {
    hide Sorted, Rising;
    SortedRises(s, key);
    SortedAmong(s, key);
    SameOnes(Sorted(s, key), s);
  }
}
