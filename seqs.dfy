/**
 * Sequence helpers shared by the simulation steps: the `filter` the game
 * applies to its bullet and enemy lists, and what it means for one list to be
 * a subsequence of another.
 */
module Seqs {

  /** Keeps, in their original order, the elements of `s` that satisfy `p`. */
  function Filter<T(!new)>(p: T -> bool, s: seq<T>): (r: seq<T>)
    ensures |r| <= |s|
    ensures forall x :: x in r <==> x in s && p(x)
    decreases |s|
  {
    if s == [] then []
    else
      var init := s[..|s| - 1];
      assert s == init + [s[|s| - 1]];
      var kept := Filter(p, init);
      if p(s[|s| - 1]) then kept + [s[|s| - 1]] else kept
  }

  /** `idx` lists, in increasing order, positions of `s` whose elements spell out `r`. */
  ghost predicate Embeds<T(!new)>(r: seq<T>, s: seq<T>, idx: seq<int>)
  {
    && |idx| == |r|
    && (forall k :: 0 <= k < |idx| ==> 0 <= idx[k] < |s| && r[k] == s[idx[k]])
    && (forall k, l :: 0 <= k < l < |idx| ==> idx[k] < idx[l])
  }

  /** `r` is obtained from `s` by deleting elements, without reordering the rest. */
  ghost predicate IsSubsequence<T(!new)>(r: seq<T>, s: seq<T>)
  {
    exists idx :: Embeds(r, s, idx)
  }

  /** The positions of `s` that `Filter(p, s)` keeps. */
  function KeptPositions<T(!new)>(p: T -> bool, s: seq<T>): seq<int>
    decreases |s|
  {
    if s == [] then []
    else
      var rest := KeptPositions(p, s[..|s| - 1]);
      if p(s[|s| - 1]) then rest + [|s| - 1] else rest
  }

  lemma {:induction false} FilterEmbeds<T(!new)>(p: T -> bool, s: seq<T>)
    ensures Embeds(Filter(p, s), s, KeptPositions(p, s))
    decreases |s|
  {
    if s != [] {
      var n := |s|;
      var init := s[..n - 1];
      FilterEmbeds(p, init);
      var kept, idx := Filter(p, init), KeptPositions(p, init);
      assert forall k :: 0 <= k < |idx| ==> 0 <= idx[k] < n - 1 && kept[k] == s[idx[k]];
    }
  }

  /** Filtering deletes elements and never reorders the ones it keeps. */
  lemma FilterIsSubsequence<T(!new)>(p: T -> bool, s: seq<T>)
    ensures IsSubsequence(Filter(p, s), s)
  {
    FilterEmbeds(p, s);
  }

  /** The positions of `s` whose element fails `p`, i.e. the ones `Filter` drops. */
  ghost function DroppedPositions<T(!new)>(p: T -> bool, s: seq<T>): set<int>
  {
    set i | 0 <= i < |s| && !p(s[i])
  }

  /**
   * `Filter` drops exactly one element per position whose element fails `p`:
   * the length lost is the number of such positions.
   */
  lemma {:induction false} FilterDropCount<T(!new)>(p: T -> bool, s: seq<T>)
    ensures |s| - |Filter(p, s)| == |DroppedPositions(p, s)|
    decreases |s|
  {
    if s == [] {
      assert DroppedPositions(p, s) == {};
    } else {
      var n := |s|;
      var init := s[..n - 1];
      FilterDropCount(p, init);
      var before := DroppedPositions(p, init);
      assert n - 1 !in before;
      if p(s[n - 1]) {
        assert DroppedPositions(p, s) == before;
      } else {
        assert DroppedPositions(p, s) == before + {n - 1};
      }
    }
  }

  /** Filtering one more element at the end extends the filtered prefix by at most that element. */
  lemma FilterSnoc<T(!new)>(p: T -> bool, s: seq<T>, x: T)
    ensures Filter(p, s + [x]) == if p(x) then Filter(p, s) + [x] else Filter(p, s)
  {
    assert (s + [x])[..|s + [x]| - 1] == s;
  }
}
