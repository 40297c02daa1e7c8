/** Ordering helpers for the grouping step: `np.argsort(-pzz)`, the positions
    of pzz from the largest value to the smallest, and the values gathered in
    that order (`np.sort(pzz)[::-1]`). numpy's default sort is not stable, so
    ties may come out in any order; the model fixes one admissible order
    (ties by increasing position). */
module Sorting {
  import opened Common

  /** Every entry of ks is a position of a sequence of length n. */
  predicate Positions(ks: seq<int>, n: int)
  {
    forall i :: 0 <= i < |ks| ==> 0 <= ks[i] < n
  }

  /** p at positions ks, `p[ks]` in numpy. */
  function Gather(p: seq<real>, ks: seq<int>): (v: seq<real>)
    requires Positions(ks, |p|)
    ensures |v| == |ks| && forall i :: 0 <= i < |ks| ==> v[i] == p[ks[i]]
  {
    seq(|ks|, i requires 0 <= i < |ks| => p[ks[i]])
  }

  /** Neighbouring positions of ks never go up in p. */
  predicate DescendingAt(p: seq<real>, ks: seq<int>)
    requires Positions(ks, |p|)
  {
    forall i :: 0 <= i < |ks| - 1 ==> p[ks[i]] >= p[ks[i + 1]]
  }

  /** Non-increasing. */
  predicate NonIncreasing(v: seq<real>)
  {
    forall i, j :: 0 <= i < j < |v| ==> v[i] >= v[j]
  }

  /** Insert position k into ks after every position whose value is at least
      p[k]. */
  function InsertDescending(p: seq<real>, ks: seq<int>, k: int): (r: seq<int>)
    requires Positions(ks, |p|) && 0 <= k < |p|
    ensures Positions(r, |p|) && |r| == |ks| + 1
    ensures multiset(r) == multiset(ks) + multiset{k}
    ensures r[0] == k || (|ks| > 0 && r[0] == ks[0])
    ensures DescendingAt(p, ks) ==> DescendingAt(p, r)
    decreases |ks|
  {
    if |ks| == 0 then [k]
    else if p[ks[0]] >= p[k] then
      var rest := InsertDescending(p, ks[1..], k);
      assert ks == [ks[0]] + ks[1..];
      [ks[0]] + rest
    else [k] + ks
  }

  /** `np.argsort(-p[..n])` with ties kept in position order. */
  function ArgSortDescendingPrefix(p: seq<real>, n: nat): (ks: seq<int>)
    requires n <= |p|
    ensures |ks| == n && Positions(ks, n) && Positions(ks, |p|)
    ensures multiset(ks) == multiset(Range(0, n))
    ensures DescendingAt(p, ks)
  {
    if n == 0 then []
    else
      var ks := InsertDescending(p, ArgSortDescendingPrefix(p, n - 1), n - 1);
      RangeSnoc(n);
      PermutationPositions(ks, n);
      ks
  }

  /** `np.argsort(-p)`: a permutation of the positions of p, largest value
      first. */
  function ArgSortDescending(p: seq<real>): (ks: seq<int>)
    ensures |ks| == |p| && Positions(ks, |p|)
    ensures multiset(ks) == multiset(Range(0, |p|))
    ensures DescendingAt(p, ks)
  {
    ArgSortDescendingPrefix(p, |p|)
  }

  /** Adjacent order gives order between any two entries. */
  lemma {:induction false} DescendingAtGathered(p: seq<real>, ks: seq<int>)
    requires Positions(ks, |p|) && DescendingAt(p, ks)
    ensures NonIncreasing(Gather(p, ks))
    decreases |ks|
  {
    if |ks| > 1 {
      var tail := ks[1..];
      assert Positions(tail, |p|) && DescendingAt(p, tail) by {
        forall i | 0 <= i < |tail| - 1
          ensures p[tail[i]] >= p[tail[i + 1]]
        {
          assert tail[i] == ks[i + 1] && tail[i + 1] == ks[i + 2];
        }
      }
      DescendingAtGathered(p, tail);
      var v, w := Gather(p, ks), Gather(p, tail);
      forall i, j | 0 <= i < j < |v|
        ensures v[i] >= v[j]
      {
        if i > 0 {
          assert v[i] == w[i - 1] && v[j] == w[j - 1];
        } else if j > 1 {
          assert v[1] == w[0] && v[j] == w[j - 1];
        }
      }
    }
  }

  /** `np.sort(p)[::-1]`, the values of p from largest to smallest, is p
      gathered at `np.argsort(-p)`: it holds exactly the values of p and
      never goes up. */
  lemma SortedValues(p: seq<real>)
    ensures var v := Gather(p, ArgSortDescending(p));
      |v| == |p| && NonIncreasing(v) && multiset(v) == multiset(p)
  {
    var ks := ArgSortDescending(p);
    DescendingAtGathered(p, ks);
    GatherPermutation(p, ks, |p|);
    assert p[..|p|] == p;
  }

  /** Dropping entry i removes one copy of it from the multiset. */
  lemma RemoveAt(ks: seq<int>, i: int)
    requires 0 <= i < |ks|
    ensures multiset(ks[..i] + ks[i + 1..]) == multiset(ks) - multiset{ks[i]}
  {
    assert ks == ks[..i] + [ks[i]] + ks[i + 1..];
    assert multiset(ks) == multiset(ks[..i]) + multiset{ks[i]} + multiset(ks[i + 1..]);
  }

  /** Gathering at a permutation of all positions keeps the multiset. */
  lemma {:induction false} GatherPermutation(p: seq<real>, ks: seq<int>, n: nat)
    requires n <= |p| && Positions(ks, |p|) && multiset(ks) == multiset(Range(0, n))
    ensures multiset(Gather(p, ks)) == multiset(p[..n])
    decreases n
  {
    if n == 0 {
      assert |multiset(ks)| == 0;
    } else {
      var i := FindLast(ks, n);
      GatherRemove(p, ks, i);
      GatherPermutation(p, ks[..i] + ks[i + 1..], n - 1);
      GatherPermutationStep(p, ks, n, i);
    }
  }

  /** A permutation of 0 .. n - 1 holds n - 1 somewhere, and without it is a
      permutation of 0 .. n - 2. */
  lemma FindLast(ks: seq<int>, n: int) returns (i: int)
    requires n >= 1 && multiset(ks) == multiset(Range(0, n))
    ensures 0 <= i < |ks| && ks[i] == n - 1
    ensures multiset(ks[..i] + ks[i + 1..]) == multiset(Range(0, n - 1))
  {
    RangeSnoc(n);
    assert n - 1 in multiset(ks);
    i :| 0 <= i < |ks| && ks[i] == n - 1;
    RemoveLast(ks, n, i);
  }

  lemma RemoveLast(ks: seq<int>, n: int, i: int)
    requires n >= 1 && 0 <= i < |ks| && ks[i] == n - 1
    requires multiset(ks) == multiset(Range(0, n - 1)) + multiset{n - 1}
    ensures multiset(ks[..i] + ks[i + 1..]) == multiset(Range(0, n - 1))
  {
    RemoveAt(ks, i);
  }

  /** A permutation of 0 .. n - 1 holds positions of a sequence of length n. */
  lemma PermutationPositions(ks: seq<int>, n: int)
    requires multiset(ks) == multiset(Range(0, n))
    ensures Positions(ks, n)
  {
    forall i | 0 <= i < |ks|
      ensures 0 <= ks[i] < n
    {
      assert ks[i] in multiset(Range(0, n));
    }
  }

  lemma RangeSnoc(n: int)
    requires n >= 1
    ensures multiset(Range(0, n)) == multiset(Range(0, n - 1)) + multiset{n - 1}
  {
    assert Range(0, n) == Range(0, n - 1) + [n - 1];
  }

  /** Putting position n - 1 back adds p[n - 1] to both sides. */
  lemma GatherPermutationStep(p: seq<real>, ks: seq<int>, n: int, i: int)
    requires 0 < n <= |p| && Positions(ks, |p|) && 0 <= i < |ks| && ks[i] == n - 1
    requires Positions(ks[..i] + ks[i + 1..], |p|)
    requires multiset(Gather(p, ks[..i] + ks[i + 1..])) == multiset(p[..n - 1])
    ensures multiset(Gather(p, ks)) == multiset(p[..n])
  {
    var g := Gather(p, ks);
    GatherRemove(p, ks, i);
    RemoveAtReal(g, i);
    PrefixSnoc(p, n);
  }

  lemma GatherRemove(p: seq<real>, ks: seq<int>, i: int)
    requires Positions(ks, |p|) && 0 <= i < |ks|
    ensures Positions(ks[..i] + ks[i + 1..], |p|)
    ensures Gather(p, ks[..i] + ks[i + 1..]) == Gather(p, ks)[..i] + Gather(p, ks)[i + 1..]
  {
  }

  lemma PrefixSnoc(p: seq<real>, n: int)
    requires 0 < n <= |p|
    ensures multiset(p[..n]) == multiset(p[..n - 1]) + multiset{p[n - 1]}
  {
    assert p[..n] == p[..n - 1] + [p[n - 1]];
  }

  lemma RemoveAtReal(v: seq<real>, i: int)
    requires 0 <= i < |v|
    ensures multiset(v) == multiset(v[..i] + v[i + 1..]) + multiset{v[i]}
  {
    assert v == v[..i] + [v[i]] + v[i + 1..];
    assert multiset(v) == multiset(v[..i]) + multiset{v[i]} + multiset(v[i + 1..]);
  }
}
