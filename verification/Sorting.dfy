/** The sorted list of a set of integers, and the rank of an integer in a set. */
module Sorting {
  predicate StrictlyIncreasing(s: seq<int>) {
    forall i, j :: 0 <= i < j < |s| ==> s[i] < s[j]
  }

  ghost predicate IsSorted(s: seq<int>, ids: set<int>) {
    StrictlyIncreasing(s) && (forall x :: x in s <==> x in ids)
  }

  ghost function Rank(x: int, ids: set<int>): nat { |set y | y in ids && y < x| }

  lemma Member<T>(s: set<T>) returns (x: T)
    requires s != {}
    ensures x in s
  {
    x :| x in s;
  }

  method Any<T>(s: set<T>) returns (x: T)
    requires s != {}
    ensures x in s
  {
    x :| x in s;
  }

  lemma {:induction false} SortedUnique(s: seq<int>, t: seq<int>, ids: set<int>)
    requires IsSorted(s, ids) && IsSorted(t, ids)
    ensures s == t
  {
    SortedEmpty(s, ids);
    SortedEmpty(t, ids);
    if s != [] {
      assert s[0] in s && s[0] in t;
      assert t[0] in t && t[0] in s;
      assert s[0] == t[0];
      TailSorted(s, ids);
      TailSorted(t, ids);
      SortedUnique(s[1..], t[1..], ids - {s[0]});
      assert s == [s[0]] + s[1..] && t == [t[0]] + t[1..];
    }
  }

  lemma SortedEmpty(s: seq<int>, ids: set<int>)
    requires IsSorted(s, ids)
    ensures s == [] <==> ids == {}
  {
    if s != [] { assert s[0] in s; }
    if ids != {} { var x := Member(ids); assert x in s; }
  }

  lemma TailSorted(s: seq<int>, ids: set<int>)
    requires IsSorted(s, ids) && s != []
    ensures IsSorted(s[1..], ids - {s[0]})
  {
    forall x ensures x in s[1..] <==> x in ids - {s[0]} {
      if x in s && x != s[0] {
        var i :| 0 <= i < |s| && s[i] == x;
        assert s[1..][i - 1] == x;
      }
      if x in s[1..] {
        var i :| 0 <= i < |s[1..]| && s[1..][i] == x;
        assert s[i + 1] == x;
      }
    }
  }

  // The position of an id in the sorted list is the number of smaller ids.
  lemma {:induction false} PositionIsRank(s: seq<int>, ids: set<int>, i: nat)
    requires IsSorted(s, ids) && i < |s|
    ensures Rank(s[i], ids) == i
  {
    var below := set y | y in ids && y < s[i];
    if i == 0 {
      forall y | y in ids ensures y >= s[0] { assert y in s; }
      assert below == {};
    } else {
      TailSorted(s, ids);
      PositionIsRank(s[1..], ids - {s[0]}, i - 1);
      assert s[0] in s;
      assert below == (set y | y in ids - {s[0]} && y < s[i]) + {s[0]};
    }
  }

  lemma RankWithout(x: int, gone: int, ids: set<int>)
    requires gone in ids
    ensures Rank(x, ids - {gone}) == Rank(x, ids) - (if gone < x then 1 else 0)
  {
    var below := set y | y in ids && y < x;
    assert (set y | y in ids - {gone} && y < x) == below - {gone};
  }

  lemma {:induction false} SortedExists(ids: set<int>) returns (s: seq<int>)
    ensures IsSorted(s, ids)
    decreases |ids|
  {
    if ids == {} {
      s := [];
    } else {
      var least := Least(ids);
      var rest := SortedExists(ids - {least});
      s := [least] + rest;
      forall i | 0 <= i < |rest| ensures least < rest[i] { assert rest[i] in rest; }
      forall x ensures x in s <==> x in ids { assert x in s <==> x == least || x in rest; }
    }
  }

  lemma {:induction false} Least(ids: set<int>) returns (least: int)
    requires ids != {}
    ensures least in ids && forall x :: x in ids ==> least <= x
    decreases |ids|
  {
    least := Member(ids);
    var rest := ids - {least};
    if rest == {} {
      forall x | x in ids ensures least <= x { assert x == least || x in rest; }
    } else {
      var other := Least(rest);
      if other < least {
        forall x | x in ids ensures other <= x { assert x == least || x in rest; }
        least := other;
      } else {
        forall x | x in ids ensures least <= x { assert x == least || x in rest; }
      }
    }
  }

  method Sorted(ids: set<int>) returns (s: seq<int>)
    ensures IsSorted(s, ids)
    ensures |s| == |ids|
  {
    s := [];
    var rest := ids;
    while rest != {}
      invariant rest <= ids
      invariant IsSorted(s, ids - rest)
      invariant forall i, y :: 0 <= i < |s| && y in rest ==> s[i] < y
      invariant |s| + |rest| == |ids|
      decreases |rest|
    {
      var least := Minimum(rest);
      assert forall x :: x in ids - (rest - {least}) <==> x in ids - rest || x == least;
      s, rest := s + [least], rest - {least};
    }
    assert ids - rest == ids;
  }

  method Minimum(ids: set<int>) returns (least: int)
    requires ids != {}
    ensures least in ids && forall x :: x in ids ==> least <= x
  {
    least := Any(ids);
    var rest := ids - {least};
    while rest != {}
      invariant rest <= ids && least in ids
      invariant forall x :: x in ids && x !in rest ==> least <= x
      decreases |rest|
    {
      var x := Any(rest);
      if x < least { least := x; }
      rest := rest - {x};
    }
  }
}
