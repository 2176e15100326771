/** `Array.prototype.filter`, the one list operation both ingestion and
    rendering use, with what it keeps and in which order. */
module Seqs {

  /** The elements of `s` that satisfy `p`, in their original order. */
  function Filter<T>(s: seq<T>, p: T -> bool): (r: seq<T>)
    ensures |r| <= |s|
    ensures forall x :: x in r ==> x in s && p(x)
  {
    if s == [] then []
    else Filter(s[..|s| - 1], p) + (if p(s[|s| - 1]) then [s[|s| - 1]] else [])
  }

  /** Nothing that satisfies `p` is dropped. */
  lemma {:induction false} FilterMembership<T>(s: seq<T>, p: T -> bool, x: T)
    ensures x in Filter(s, p) <==> x in s && p(x)
  {
    if s != [] {
      var init := s[..|s| - 1];
      FilterMembership(init, p, x);
      assert s == init + [s[|s| - 1]];
    }
  }

  /** When every element satisfies `p`, filtering returns the input unchanged. */
  lemma {:induction false} FilterKeepsAll<T>(s: seq<T>, p: T -> bool)
    requires forall k :: 0 <= k < |s| ==> p(s[k])
    ensures Filter(s, p) == s
  {
    if s != [] {
      var init := s[..|s| - 1];
      forall k | 0 <= k < |init| ensures p(init[k]) {
        assert init[k] == s[k];
      }
      FilterKeepsAll(init, p);
      assert s == init + [s[|s| - 1]];
    }
  }

  /** The positions in `s` of the elements `Filter(s, p)` keeps: one per kept
      element, pointing at it, strictly increasing, and covering every position
      whose element satisfies `p`. */
  function FilterPositions<T>(s: seq<T>, p: T -> bool): (pos: seq<nat>)
    ensures |pos| == |Filter(s, p)|
    ensures forall k :: 0 <= k < |pos| ==> pos[k] < |s| && s[pos[k]] == Filter(s, p)[k]
    ensures forall k1, k2 :: 0 <= k1 < k2 < |pos| ==> pos[k1] < pos[k2]
    ensures forall j :: 0 <= j < |s| && p(s[j]) ==> j in pos
  {
    if s == [] then []
    else
      var init := s[..|s| - 1];
      var rest := FilterPositions(init, p);
      assert forall j :: 0 <= j < |init| ==> init[j] == s[j];
      rest + (if p(s[|s| - 1]) then [|s| - 1] else [])
  }
}
