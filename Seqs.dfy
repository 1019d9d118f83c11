/** Sequence operations the board uses: the order-preserving selection an
    append loop builds, and Swift's `Array.remove(at:)`. */
module Seqs {

  /** The elements of `s` that satisfy `p`, in their order in `s`. It is
      defined from the back, the way a loop that appends builds it. */
  function Filter<T(!new)>(s: seq<T>, p: T -> bool): (r: seq<T>)
    ensures |r| <= |s|
    ensures forall x :: x in r <==> x in s && p(x)
  {
    if s == [] then []
    else
      var front := Filter(s[..|s| - 1], p);
      assert s == s[..|s| - 1] + [s[|s| - 1]];
      if p(s[|s| - 1]) then front + [s[|s| - 1]] else front
  }

  /** The positions of `s` whose element satisfies `p`, in increasing order. */
  function Kept<T>(s: seq<T>, p: T -> bool): (idx: seq<nat>)
    ensures forall k :: 0 <= k < |idx| ==> idx[k] < |s| && p(s[idx[k]])
    ensures forall k, l :: 0 <= k < l < |idx| ==> idx[k] < idx[l]
  {
    if s == [] then []
    else
      var front := Kept(s[..|s| - 1], p);
      assert forall k :: 0 <= k < |front| ==> s[..|s| - 1][front[k]] == s[front[k]];
      front + (if p(s[|s| - 1]) then [|s| - 1] else [])
  }

  /** The selection takes, one for one, the elements at the kept positions. */
  lemma {:induction false} KeptMatchesFilter<T(!new)>(s: seq<T>, p: T -> bool)
    ensures |Kept(s, p)| == |Filter(s, p)|
    ensures forall k :: 0 <= k < |Kept(s, p)| ==> Filter(s, p)[k] == s[Kept(s, p)[k]]
  {
    if s != [] {
      var front := s[..|s| - 1];
      var n := |s| - 1;
      KeptMatchesFilter(front, p);
      var K, F := Kept(s, p), Filter(s, p);
      var K', F' := Kept(front, p), Filter(front, p);
      assert K == K' + (if p(s[n]) then [n] else []);
      assert F == F' + (if p(s[n]) then [s[n]] else []);
      forall k | 0 <= k < |K|
        ensures F[k] == s[K[k]]
      {
        if k < |K'| {
          assert K[k] == K'[k] && F[k] == F'[k];
          assert front[K'[k]] == s[K'[k]];
        } else {
          assert K[k] == n && F[k] == s[n];
        }
      }
    }
  }

  /** Every position whose element satisfies `p` is kept. */
  lemma {:induction false} KeptIsComplete<T>(s: seq<T>, p: T -> bool)
    ensures forall i :: 0 <= i < |s| && p(s[i]) ==> i in Kept(s, p)
  {
    if s != [] {
      var front := s[..|s| - 1];
      KeptIsComplete(front, p);
      forall i | 0 <= i < |s| - 1 && p(s[i])
        ensures i in Kept(s, p)
      {
        assert front[i] == s[i];
      }
    }
  }

  /** `Filter(s, p)` is exactly the elements of `s` at the positions that
      satisfy `p`, taken in increasing order of position: the selection is
      stable and misses nothing. */
  lemma FilterIsStableSelection<T(!new)>(s: seq<T>, p: T -> bool)
    ensures |Kept(s, p)| == |Filter(s, p)|
    ensures forall k :: 0 <= k < |Kept(s, p)| ==>
              Kept(s, p)[k] < |s| && Filter(s, p)[k] == s[Kept(s, p)[k]]
    ensures forall k, l :: 0 <= k < l < |Kept(s, p)| ==> Kept(s, p)[k] < Kept(s, p)[l]
    ensures forall i :: 0 <= i < |s| ==> (p(s[i]) <==> i in Kept(s, p))
  {
    KeptMatchesFilter(s, p);
    KeptIsComplete(s, p);
  }

  /** Swift's `remove(at:)`: `s` without its element at position `i`. */
  function RemoveAt<T>(s: seq<T>, i: nat): (r: seq<T>)
    requires i < |s|
    ensures |r| == |s| - 1
    ensures forall k :: 0 <= k < |r| ==> r[k] == if k < i then s[k] else s[k + 1]
    ensures multiset(r) + multiset{s[i]} == multiset(s)
  {
    assert s == s[..i] + [s[i]] + s[i + 1..];
    s[..i] + s[i + 1..]
  }

  /** What remains after a removal was already in the sequence. */
  lemma RemoveAtSubset<T>(s: seq<T>, i: nat, x: T)
    requires i < |s| && x in RemoveAt(s, i)
    ensures x in s
  {
    assert x in multiset(RemoveAt(s, i));
  }
}
