/**
 * The "loop over a list, append to an output list when a condition holds"
 * pattern that both the candidate filter and the per-region loop follow,
 * stated once as a function on sequences.
 */
module Sequences {
  import opened Wrappers

  /** The values `f` yields, in the order of the elements of `s` that yield one. */
  function FilterMap<A, B>(s: seq<A>, f: A -> Option<B>): (r: seq<B>)
    ensures |r| <= |s|
    ensures s == [] ==> r == []
  {
    if s == [] then []
    else
      var rest := FilterMap(s[..|s| - 1], f);
      match f(s[|s| - 1])
      case Some(y) => rest + [y]
      case None => rest
  }

  ghost predicate StrictlyIncreasing(idx: seq<nat>) {
    forall k, l :: 0 <= k < l < |idx| ==> idx[k] < idx[l]
  }

  /**
   * Where each value of `FilterMap(s, f)` came from: the positions of `s`
   * that yield a value, in increasing order, one per output element.
   */
  function Origins<A, B>(s: seq<A>, f: A -> Option<B>): (idx: seq<nat>)
    ensures |idx| == |FilterMap(s, f)|
    ensures StrictlyIncreasing(idx)
    ensures forall k :: 0 <= k < |idx| ==> idx[k] < |s| && f(s[idx[k]]) == Some(FilterMap(s, f)[k])
    ensures forall j :: 0 <= j < |s| && f(s[j]).Some? ==> j in idx
  {
    if s == [] then []
    else
      var rest := Origins(s[..|s| - 1], f);
      if f(s[|s| - 1]).Some? then rest + [|s| - 1] else rest
  }

  /** Elements are handled independently: splitting the input splits the output. */
  lemma {:induction false} FilterMapAppend<A, B>(s: seq<A>, t: seq<A>, f: A -> Option<B>)
    ensures FilterMap(s + t, f) == FilterMap(s, f) + FilterMap(t, f)
    decreases |t|
  {
    if t == [] {
      assert s + t == s;
    } else {
      var t' := t[..|t| - 1];
      assert (s + t)[..|s + t| - 1] == s + t';
      assert (s + t)[|s + t| - 1] == t[|t| - 1];
      FilterMapAppend(s, t', f);
    }
  }
}
