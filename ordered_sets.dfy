/** Ascending enumeration of finite sets of identifiers.

    The containers of the modelled system (sets of variables, sets of
    constraints, maps keyed by variable) are ordered containers: they are
    visited in ascending order of the identifiers they hold.  This module
    gives that order as a sequence. */
module OrderedSets {

  /** The least strict upper bound: 0 for the empty set, one more than
      the largest element otherwise. */
  predicate IsBound(s: set<nat>, n: nat)
  {
    (forall x :: x in s ==> x < n) && (n == 0 || n - 1 in s)
  }

  lemma {:induction false} HasBound(s: set<nat>)
    ensures exists n: nat :: IsBound(s, n)
  {
    if s != {} {
      var x :| x in s;
      HasBound(s - {x});
      var n: nat :| IsBound(s - {x}, n);
      var n': nat := if x + 1 > n then x + 1 else n;
      forall y | y in s
        ensures y < n'
      {
        if y != x {
          assert y in s - {x};
        }
      }
      assert n' - 1 in s;
      assert IsBound(s, n');
    } else {
      assert IsBound(s, 0);
    }
  }

  /** A strict upper bound of `s`, the least one. */
  function Bound(s: set<nat>): (n: nat)
    ensures forall x :: x in s ==> x < n
  {
    HasBound(s);
    var n: nat :| IsBound(s, n);
    n
  }

  /** The elements of `s` in [lo, hi), ascending. */
  function Range(s: set<nat>, lo: nat, hi: nat): seq<nat>
    decreases hi - lo
  {
    if hi <= lo then []
    else if lo in s then [lo] + Range(s, lo + 1, hi)
    else Range(s, lo + 1, hi)
  }

  /** Strictly ascending, hence free of duplicates. */
  predicate Ascending(r: seq<nat>)
  {
    forall i, j :: 0 <= i < j < |r| ==> r[i] < r[j]
  }

  /** The elements of `s` in ascending order: the iteration order of an
      ordered container holding `s`. */
  function Sorted(s: set<nat>): seq<nat>
  {
    Range(s, 0, Bound(s))
  }

  lemma {:induction false} RangeSpec(s: set<nat>, lo: nat, hi: nat)
    ensures forall x :: x in Range(s, lo, hi) <==> x in s && lo <= x < hi
    ensures Ascending(Range(s, lo, hi))
    decreases hi - lo
  {
    if lo < hi {
      var rest := Range(s, lo + 1, hi);
      RangeSpec(s, lo + 1, hi);
      if lo in s {
        var r := Range(s, lo, hi);
        assert r == [lo] + rest;
        forall i, j | 0 <= i < j < |r|
          ensures r[i] < r[j]
        {
          assert r[j] == rest[j - 1] && rest[j - 1] in rest;
          if i > 0 {
            assert r[i] == rest[i - 1];
          }
        }
      }
    }
  }

  /** Only the elements in [lo, hi) matter to the enumeration. */
  lemma {:induction false} RangeAgree(s: set<nat>, t: set<nat>, lo: nat, hi: nat)
    requires forall x :: lo <= x < hi ==> (x in s <==> x in t)
    ensures Range(s, lo, hi) == Range(t, lo, hi)
    decreases hi - lo
  {
    if lo < hi {
      RangeAgree(s, t, lo + 1, hi);
    }
  }

  /** A set lying within [lo, hi) is enumerated once per element. */
  lemma {:induction false} RangeCard(s: set<nat>, lo: nat, hi: nat)
    requires forall x :: x in s ==> lo <= x < hi
    ensures |Range(s, lo, hi)| == |s|
    decreases hi - lo
  {
    if hi <= lo {
      assert s == {} by {
        forall x | x in s
          ensures false
        {
        }
      }
    } else if lo in s {
      RangeAgree(s, s - {lo}, lo + 1, hi);
      RangeCard(s - {lo}, lo + 1, hi);
    } else {
      RangeCard(s, lo + 1, hi);
    }
  }

  /** The enumeration holds exactly the elements of `s`, ascending, one
      for each. */
  lemma SortedSpec(s: set<nat>)
    ensures forall x :: x in s <==> x in Sorted(s)
    ensures Ascending(Sorted(s))
    ensures |Sorted(s)| == |s|
  {
    RangeSpec(s, 0, Bound(s));
    RangeCard(s, 0, Bound(s));
  }

  /** The least element of a nonempty set: the first one visited. */
  function MinOf(s: set<nat>): (m: nat)
    requires s != {}
    ensures m in s
    ensures forall x :: x in s ==> m <= x
  {
    SortedSpec(s);
    var r := Sorted(s);
    assert forall x :: x in s ==> exists i :: 0 <= i < |r| && r[i] == x;
    r[0]
  }
}
