/** Small facts about slices, used by the loops that walk a sequence. */
module Seqs {
  import OrderedSets

  /** Dropping one more element from a suffix. */
  lemma DropStep<T>(s: seq<T>, i: nat)
    requires i < |s|
    ensures s[i..][1..] == s[i + 1..] && s[i..][0] == s[i]
  {
  }

  /** Taking one more element into a prefix. */
  lemma TakeStep<T>(s: seq<T>, i: nat)
    requires i < |s|
    ensures s[..i + 1] == s[..i] + [s[i]]
  {
  }

  lemma TakeAll<T>(s: seq<T>)
    ensures s[..|s|] == s
  {
  }

  lemma AppendAssoc<T>(a: seq<T>, b: seq<T>, c: seq<T>)
    ensures (a + b) + c == a + (b + c)
  {
  }

  /** The elements of `s` that `keep` admits, in their order in `s`: the
      vector a rebuilding loop pushes them onto. */
  function Filter<T>(s: seq<T>, keep: T -> bool): seq<T>
  {
    if s == [] then []
    else Filter(s[..|s| - 1], keep) + (if keep(s[|s| - 1]) then [s[|s| - 1]] else [])
  }

  /** The positions in `s` of the elements `keep` admits. */
  function Kept<T>(s: seq<T>, keep: T -> bool): seq<nat>
  {
    if s == [] then []
    else Kept(s[..|s| - 1], keep) + (if keep(s[|s| - 1]) then [|s| - 1] else [])
  }

  /** The filter is order-preserving and exact: its k-th element is the
      element at the k-th admitted position, the positions ascend, and a
      position is listed exactly when its element is admitted. */
  lemma {:induction false} FilterSpec<T>(s: seq<T>, keep: T -> bool)
    ensures |Filter(s, keep)| == |Kept(s, keep)|
    ensures forall k :: 0 <= k < |Kept(s, keep)| ==>
      Kept(s, keep)[k] < |s| && Filter(s, keep)[k] == s[Kept(s, keep)[k]]
    ensures OrderedSets.Ascending(Kept(s, keep))
    ensures forall i :: 0 <= i < |s| ==> (keep(s[i]) <==> i in Kept(s, keep))
  {
    if s != [] {
      var p := s[..|s| - 1];
      FilterSpec(p, keep);
      var r := Kept(s, keep);
      assert r == Kept(p, keep) + (if keep(s[|s| - 1]) then [|s| - 1] else []);
      forall i | 0 <= i < |s|
        ensures keep(s[i]) <==> i in r
      {
        if i < |p| {
          assert s[i] == p[i];
        }
      }
    }
  }

  /** Every element the filter keeps comes from `s` and is admitted. */
  lemma FilterMembers<T>(s: seq<T>, keep: T -> bool)
    ensures forall x :: x in Filter(s, keep) ==> x in s && keep(x)
  {
    FilterSpec(s, keep);
    forall x | x in Filter(s, keep)
      ensures x in s && keep(x)
    {
      var k :| 0 <= k < |Filter(s, keep)| && Filter(s, keep)[k] == x;
      assert keep(s[Kept(s, keep)[k]]);
    }
  }

  lemma FilterPush<T>(s: seq<T>, x: T, keep: T -> bool)
    ensures Filter(s + [x], keep) == Filter(s, keep) + (if keep(x) then [x] else [])
  {
    assert (s + [x])[..|s|] == s;
  }

  /** A filter that admits everything changes nothing. */
  lemma {:induction false} FilterAll<T>(s: seq<T>, keep: T -> bool)
    requires forall i :: 0 <= i < |s| ==> keep(s[i])
    ensures Filter(s, keep) == s
  {
    if s != [] {
      FilterAll(s[..|s| - 1], keep);
    }
  }

  /** A filter that admits nothing leaves nothing. */
  lemma {:induction false} FilterNone<T>(s: seq<T>, keep: T -> bool)
    requires forall i :: 0 <= i < |s| ==> !keep(s[i])
    ensures Filter(s, keep) == []
  {
    if s != [] {
      FilterNone(s[..|s| - 1], keep);
    }
  }
}
