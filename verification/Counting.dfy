/** Counting the elements of a sequence that satisfy a predicate, and sorting. */
module Counting {
  function Count<T>(s: seq<T>, p: T -> bool): (n: nat)
    ensures n <= |s|
  {
    if s == [] then 0 else Count(s[..|s| - 1], p) + (if p(s[|s| - 1]) then 1 else 0)
  }

  function Not<T>(p: T -> bool): T -> bool {
    x => !p(x)
  }

  lemma {:induction false} YesAndNo<T>(s: seq<T>, p: T -> bool)
    ensures Count(s, p) + Count(s, Not(p)) == |s|
  {
    if s != [] {
      YesAndNo(s[..|s| - 1], p);
    }
  }

  /** If the elements with a property fall into two disjoint cases, their counts add up. */
  lemma {:induction false} CountSplits<T>(s: seq<T>, p: T -> bool, q: T -> bool, whole: T -> bool)
    requires forall x :: x in s ==> (whole(x) <==> p(x) || q(x)) && !(p(x) && q(x))
    ensures Count(s, p) + Count(s, q) == Count(s, whole)
  {
    if s != [] {
      CountSplits(s[..|s| - 1], p, q, whole);
      assert s[|s| - 1] in s;
    }
  }

  lemma {:induction false} CountSame<T>(s: seq<T>, p: T -> bool, q: T -> bool)
    requires forall x :: x in s ==> (p(x) <==> q(x))
    ensures Count(s, p) == Count(s, q)
  {
    if s != [] {
      CountSame(s[..|s| - 1], p, q);
      assert s[|s| - 1] in s;
    }
  }

  lemma {:induction false} CountAll<T>(s: seq<T>, p: T -> bool)
    requires forall x :: x in s ==> p(x)
    ensures Count(s, p) == |s|
  {
    if s != [] {
      CountAll(s[..|s| - 1], p);
      assert s[|s| - 1] in s;
    }
  }

  lemma {:induction false} CountNone<T>(s: seq<T>)
    ensures Count(s, (x: T) => false) == 0
  {
    if s != [] {
      CountNone(s[..|s| - 1]);
    }
  }

  /** The count is the number of places whose element has the property. */
  lemma {:induction false} CountIsCardinality<T>(s: seq<T>, p: T -> bool, places: set<int>)
    requires forall i :: i in places <==> 0 <= i < |s| && p(s[i])
    ensures Count(s, p) == |places|
  {
    if s != [] {
      var n := |s| - 1;
      CountIsCardinality(s[..n], p, places - {n});
    } else {
      assert forall i :: i !in places;
      assert places == {};
    }
  }

  ghost predicate Ordered(s: seq<real>) {
    forall i, j :: 0 <= i <= j < |s| ==> s[i] <= s[j]
  }

  function Insert(s: seq<real>, x: real): seq<real> {
    if s == [] || s[|s| - 1] <= x then s + [x] else Insert(s[..|s| - 1], x) + [s[|s| - 1]]
  }

  function Sorted(s: seq<real>): seq<real> {
    if s == [] then [] else Insert(Sorted(s[..|s| - 1]), s[|s| - 1])
  }

  lemma {:induction false} InsertKeepsAll(s: seq<real>, x: real)
    ensures multiset(Insert(s, x)) == multiset(s) + multiset{x} && |Insert(s, x)| == |s| + 1
  {
    if s != [] && s[|s| - 1] > x {
      var n := |s| - 1;
      assert s == s[..n] + [s[n]];
      InsertKeepsAll(s[..n], x);
    }
  }

  lemma {:induction false} InsertKeepsOrder(s: seq<real>, x: real)
    requires Ordered(s)
    ensures Ordered(Insert(s, x))
    ensures forall y :: y in Insert(s, x) ==> y in s || y == x
  {
    if s != [] && s[|s| - 1] > x {
      var n := |s| - 1;
      InsertKeepsOrder(s[..n], x);
      var t := Insert(s[..n], x);
      forall i | 0 <= i < |t|
        ensures t[i] <= s[n]
      {
        assert t[i] in t;
      }
    }
  }

  lemma {:induction false} SortedIsSorted(s: seq<real>)
    ensures Ordered(Sorted(s)) && multiset(Sorted(s)) == multiset(s) && |Sorted(s)| == |s|
  {
    if s != [] {
      var n := |s| - 1;
      assert s == s[..n] + [s[n]];
      SortedIsSorted(s[..n]);
      InsertKeepsOrder(Sorted(s[..n]), s[n]);
      InsertKeepsAll(Sorted(s[..n]), s[n]);
    }
  }

  lemma {:induction false} CountInOrder(s: seq<real>, v: real, k: nat)
    requires Ordered(s) && k < |s| && s[k] == v
    ensures Count(s, (x: real) => x < v) <= k && Count(s, (x: real) => x <= v) > k
  {
    var n := |s| - 1;
    if k < n {
      CountInOrder(s[..n], v, k);
    } else {
      CountAtMost(s, v);
    }
  }

  lemma {:induction false} CountAtMost(s: seq<real>, v: real)
    requires s != [] && Ordered(s) && s[|s| - 1] <= v
    ensures Count(s, (x: real) => x <= v) == |s|
    ensures s[|s| - 1] == v ==> Count(s, (x: real) => x < v) < |s|
  {
    CountAll(s, (x: real) => x <= v);
  }

  lemma {:induction false} CountInserted(s: seq<real>, x: real, p: real -> bool)
    ensures Count(Insert(s, x), p) == Count(s, p) + (if p(x) then 1 else 0)
  {
    if s != [] && s[|s| - 1] > x {
      CountInserted(s[..|s| - 1], x, p);
    }
  }

  lemma {:induction false} CountSorted(s: seq<real>, p: real -> bool)
    ensures Count(Sorted(s), p) == Count(s, p)
  {
    if s != [] {
      CountSorted(s[..|s| - 1], p);
      CountInserted(Sorted(s[..|s| - 1]), s[|s| - 1], p);
    }
  }

  lemma {:induction false} CountUpTo(s: seq<real>, p: real -> bool, k: nat)
    requires k <= |s|
    ensures (forall i :: 0 <= i < k ==> p(s[i])) ==> Count(s, p) >= k
    ensures (forall i :: k <= i < |s| ==> !p(s[i])) ==> Count(s, p) <= k
  {
    if k < |s| {
      CountUpTo(s[..|s| - 1], p, k);
    } else if k > 0 {
      CountUpTo(s[..k - 1], p, k - 1);
    }
  }

  lemma RankIsUnique(s: seq<real>, v: real, k: nat)
    requires Ordered(s) && k < |s| && v != s[k]
    ensures !(Count(s, (x: real) => x < v) <= k && Count(s, (x: real) => x <= v) > k)
  {
    if v < s[k] {
      CountUpTo(s, (x: real) => x <= v, k);
    } else {
      CountUpTo(s, (x: real) => x < v, k + 1);
    }
  }
}
