/**
 * numpy boolean-mask indexing `xs[mask]`: the elements whose mask entry is
 * true, in their original order. The same mask applied to two parallel arrays
 * keeps them in correspondence.
 */
module Masks {

  /** `xs[mask]`, built the way an append loop builds it: one index at a time. */
  function ApplyMask<T>(xs: seq<T>, mask: seq<bool>): (r: seq<T>)
    requires |xs| == |mask|
    decreases |xs|
  {
    if xs == [] then []
    else
      var n := |xs| - 1;
      ApplyMask(xs[..n], mask[..n]) + (if mask[n] then [xs[n]] else [])
  }

  /** The indices whose mask entry is true, collected in the same order. */
  function Selected(mask: seq<bool>): (r: seq<nat>)
    decreases |mask|
  {
    if mask == [] then []
    else
      var n := |mask| - 1;
      Selected(mask[..n]) + (if mask[n] then [n] else [])
  }

  /** Every selected index is in range and has a true mask entry. */
  lemma {:induction false} SelectedSound(mask: seq<bool>)
    ensures forall k :: 0 <= k < |Selected(mask)| ==> Selected(mask)[k] < |mask| && mask[Selected(mask)[k]]
    decreases |mask|
  {
    if mask != [] {
      var n := |mask| - 1;
      SelectedSound(mask[..n]);
      var s := Selected(mask[..n]);
      forall k | 0 <= k < |s| ensures s[k] < |mask| && mask[s[k]] {
        assert mask[..n][s[k]] == mask[s[k]];
      }
    }
  }

  /** Selected indices are strictly increasing: the original order is kept. */
  lemma {:induction false} SelectedIncreasing(mask: seq<bool>)
    ensures forall k, l :: 0 <= k < l < |Selected(mask)| ==> Selected(mask)[k] < Selected(mask)[l]
    decreases |mask|
  {
    if mask != [] {
      var n := |mask| - 1;
      SelectedIncreasing(mask[..n]);
      SelectedSound(mask[..n]);
    }
  }

  /** Every index with a true mask entry is selected. */
  lemma {:induction false} SelectedComplete(mask: seq<bool>, i: nat)
    requires i < |mask| && mask[i]
    ensures i in Selected(mask)
    decreases |mask|
  {
    var n := |mask| - 1;
    if i < n {
      assert mask[..n][i];
      SelectedComplete(mask[..n], i);
    }
  }

  /**
   * The k-th element of `xs[mask]` is `xs[i]` for the k-th selected index `i`:
   * the result is `xs` read at strictly increasing indices (a subsequence in
   * the original order), one per true mask entry.
   */
  lemma {:induction false} ApplyMaskAt<T>(xs: seq<T>, mask: seq<bool>)
    requires |xs| == |mask|
    ensures |ApplyMask(xs, mask)| == |Selected(mask)|
    ensures forall k :: 0 <= k < |Selected(mask)| ==> Selected(mask)[k] < |xs| && ApplyMask(xs, mask)[k] == xs[Selected(mask)[k]]
    decreases |xs|
  {
    if xs != [] {
      var n := |xs| - 1;
      ApplyMaskAt(xs[..n], mask[..n]);
      SelectedSound(mask[..n]);
      var a, s := ApplyMask(xs[..n], mask[..n]), Selected(mask[..n]);
      assert ApplyMask(xs, mask) == a + (if mask[n] then [xs[n]] else []);
      assert Selected(mask) == s + (if mask[n] then [n] else []);
      forall k | 0 <= k < |s| ensures ApplyMask(xs, mask)[k] == xs[Selected(mask)[k]] {
        assert a[k] == xs[..n][s[k]];
      }
    }
  }

  /** An element is kept iff it sits at some index whose mask entry is true. */
  lemma ApplyMaskMember<T>(xs: seq<T>, mask: seq<bool>, x: T)
    requires |xs| == |mask|
    ensures x in ApplyMask(xs, mask) <==> exists i :: 0 <= i < |xs| && mask[i] && xs[i] == x
  {
    ApplyMaskAt(xs, mask);
    SelectedSound(mask);
    var r, s := ApplyMask(xs, mask), Selected(mask);
    if x in r {
      var k :| 0 <= k < |r| && r[k] == x;
      assert mask[s[k]] && xs[s[k]] == x;
    }
    if exists i :: 0 <= i < |xs| && mask[i] && xs[i] == x {
      var i :| 0 <= i < |xs| && mask[i] && xs[i] == x;
      SelectedComplete(mask, i);
      var k :| 0 <= k < |s| && s[k] == i;
      assert r[k] == x;
    }
  }

  /**
   * Parallel arrays under one mask: both results have the same length, and at
   * every position they hold the elements of one original index.
   */
  lemma Lockstep<A, B>(xs: seq<A>, ys: seq<B>, mask: seq<bool>)
    requires |xs| == |mask| && |ys| == |mask|
    ensures |ApplyMask(xs, mask)| == |ApplyMask(ys, mask)|
    ensures forall k :: 0 <= k < |ApplyMask(xs, mask)| ==>
      exists i :: 0 <= i < |mask| && mask[i] && ApplyMask(xs, mask)[k] == xs[i] && ApplyMask(ys, mask)[k] == ys[i]
  {
    ApplyMaskAt(xs, mask);
    ApplyMaskAt(ys, mask);
    SelectedSound(mask);
    var s := Selected(mask);
    forall k | 0 <= k < |ApplyMask(xs, mask)|
      ensures exists i :: 0 <= i < |mask| && mask[i] && ApplyMask(xs, mask)[k] == xs[i] && ApplyMask(ys, mask)[k] == ys[i]
    {
      var i := s[k];
      assert mask[i] && ApplyMask(xs, mask)[k] == xs[i] && ApplyMask(ys, mask)[k] == ys[i];
    }
  }

  /** One step of an append loop: extending the input by one index. */
  lemma ApplyMaskSnoc<T>(xs: seq<T>, mask: seq<bool>, i: nat)
    requires |xs| == |mask| && i < |xs|
    ensures ApplyMask(xs[..i + 1], mask[..i + 1]) ==
      ApplyMask(xs[..i], mask[..i]) + (if mask[i] then [xs[i]] else [])
  {
    assert xs[..i + 1][..i] == xs[..i];
    assert mask[..i + 1][..i] == mask[..i];
  }
}
