/**
 * Filtering a sequence while keeping its order. Both feeds of the catalog
 * service are built this way: a loop over a listing (or a walk) that appends
 * one entry for every element that passes a test and skips the others.
 */
module Seqs {

  /** The positions of `s` whose element passes `keep`, in increasing order. */
  function KeptIndices<T>(s: seq<T>, keep: T -> bool): (ix: seq<nat>)
    ensures |ix| <= |s|
    ensures forall k :: 0 <= k < |ix| ==> ix[k] < |s| && keep(s[ix[k]])
    ensures forall k, l :: 0 <= k < l < |ix| ==> ix[k] < ix[l]
    ensures forall i {:trigger i in ix} :: 0 <= i < |s| && keep(s[i]) ==> i in ix
  {
    if s == [] then []
    else
      var front := KeptIndices(s[..|s| - 1], keep);
      assert forall k :: 0 <= k < |front| ==> s[..|s| - 1][front[k]] == s[front[k]];
      front + (if keep(s[|s| - 1]) then [|s| - 1] else [])
  }

  /**
   * The image under `f` of the elements of `s` that pass `keep`, in the
   * order of `s`: the list a loop builds by appending `f(x)` for each kept `x`.
   */
  function FilterMap<T, U>(s: seq<T>, keep: T -> bool, f: T -> U): seq<U> {
    if s == [] then []
    else FilterMap(s[..|s| - 1], keep, f) + (if keep(s[|s| - 1]) then [f(s[|s| - 1])] else [])
  }

  /** FilterMap yields `f` of the kept elements, one each, in their order in `s`. */
  lemma {:induction false} FilterMapByIndices<T, U>(s: seq<T>, keep: T -> bool, f: T -> U)
    ensures |FilterMap(s, keep, f)| == |KeptIndices(s, keep)|
    ensures forall k :: 0 <= k < |FilterMap(s, keep, f)| ==>
      FilterMap(s, keep, f)[k] == f(s[KeptIndices(s, keep)[k]])
  {
    if s != [] {
      var n := |s| - 1;
      FilterMapByIndices(s[..n], keep, f);
      var front := FilterMap(s[..n], keep, f);
      var frontIx := KeptIndices(s[..n], keep);
      assert KeptIndices(s, keep) == frontIx + (if keep(s[n]) then [n] else []);
      forall k | 0 <= k < |front| ensures front[k] == f(s[frontIx[k]]) {
        assert s[..n][frontIx[k]] == s[frontIx[k]];
      }
    }
  }

  /** Extending the input by one element extends the output by at most one. */
  lemma FilterMapSnoc<T, U>(s: seq<T>, x: T, keep: T -> bool, f: T -> U)
    ensures FilterMap(s + [x], keep, f) == FilterMap(s, keep, f) + (if keep(x) then [f(x)] else [])
  {
    assert (s + [x])[..|s + [x]| - 1] == s;
  }
}
