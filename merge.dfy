/**
 * Pointwise merging of step functions: every function of a collection is
 * sampled at a sorted set of positions, the samples are combined, and
 * positions where the combination does not change are dropped.  Binary
 * operators (over the union of both operands' breakpoints) and `aggregate`
 * (over that union or over explicit sample points) are both built on it.
 */
module Merging {
  import opened StepFunction
  import opened SortedPoints

  /** The value every function of the collection takes from p on (its right limit). */
  function ValuesAfter(fs: seq<StepFn>, p: real): (r: seq<real>)
    ensures |r| == |fs|
  {
    seq(|fs|, i requires 0 <= i < |fs| => Lookup(fs[i].initial, fs[i].steps, p, true))
  }

  /** The value every function of the collection takes at x (`inclusive` decides a breakpoint at x). */
  function ValuesAt(fs: seq<StepFn>, x: real, inclusive: bool): (r: seq<real>)
    ensures |r| == |fs|
  {
    seq(|fs|, i requires 0 <= i < |fs| => Lookup(fs[i].initial, fs[i].steps, x, inclusive))
  }

  /** The value every function of the collection takes at -inf. */
  function Initials(fs: seq<StepFn>): (r: seq<real>)
    ensures |r| == |fs|
  {
    seq(|fs|, i requires 0 <= i < |fs| => fs[i].initial)
  }

  function Samples(fs: seq<StepFn>, func: seq<real> -> real, pts: seq<real>): (t: seq<Step>)
    ensures |t| == |pts|
    ensures forall k :: 0 <= k < |t| ==> t[k].point == pts[k]
  {
    seq(|pts|, k requires 0 <= k < |pts| => Step(pts[k], func(ValuesAfter(fs, pts[k]))))
  }

  /** The merge of a collection: `func` of the initial values, then `func` of the samples at each position. */
  function Merge(fs: seq<StepFn>, func: seq<real> -> real, pts: seq<real>, closed: Side): StepFn
    requires Sorted(pts)
  {
    var init := func(Initials(fs));
    StepFn(init, closed, Prune(init, Samples(fs, func, pts)))
  }

  /** Every breakpoint of every function of the collection is one of pts. */
  predicate SampledAtAllPoints(fs: seq<StepFn>, pts: seq<real>)
  {
    forall i, k :: 0 <= i < |fs| && 0 <= k < |fs[i].steps| ==> fs[i].steps[k].point in pts
  }

  lemma MergeCanonical(fs: seq<StepFn>, func: seq<real> -> real, pts: seq<real>, closed: Side)
    requires Sorted(pts)
    ensures Canonical(Merge(fs, func, pts, closed))
    ensures Merge(fs, func, pts, closed).closed == closed
    ensures forall k :: 0 <= k < |Merge(fs, func, pts, closed).steps| ==> Merge(fs, func, pts, closed).steps[k].point in pts
  {
    var init := func(Initials(fs));
    var t := Samples(fs, func, pts);
    PruneCanonical(init, t);
    PruneSubset(init, t);
    var m := Merge(fs, func, pts, closed);
    forall k | 0 <= k < |m.steps| ensures m.steps[k].point in pts {
      assert m.steps[k] in t;
      var j :| 0 <= j < |t| && t[j] == m.steps[k];
      assert pts[j] == m.steps[k].point;
    }
  }

  /** Before the first sample position the merge takes `func` of the initial values. */
  lemma MergeBeforeFirst(fs: seq<StepFn>, func: seq<real> -> real, pts: seq<real>, closed: Side, x: real, inclusive: bool)
    requires Sorted(pts)
    requires forall i :: 0 <= i < |pts| ==> !Covered(pts[i], x, inclusive)
    ensures var m := Merge(fs, func, pts, closed);
      Lookup(m.initial, m.steps, x, inclusive) == func(Initials(fs))
  {
    var init := func(Initials(fs));
    var t := Samples(fs, func, pts);
    PrunePreservesValues(init, t, x, inclusive);
    LookupNoneCovered(init, t, x, inclusive);
  }

  /** From the i-th sample position up to the next one the merge holds `func` of the samples there. */
  lemma MergeHeld(fs: seq<StepFn>, func: seq<real> -> real, pts: seq<real>, closed: Side, i: nat, x: real, inclusive: bool)
    requires Sorted(pts) && i < |pts|
    requires Covered(pts[i], x, inclusive)
    requires i + 1 == |pts| || !Covered(pts[i + 1], x, inclusive)
    ensures var m := Merge(fs, func, pts, closed);
      Lookup(m.initial, m.steps, x, inclusive) == func(ValuesAfter(fs, pts[i]))
  {
    var init := func(Initials(fs));
    var t := Samples(fs, func, pts);
    PrunePreservesValues(init, t, x, inclusive);
    LookupIsLastCovered(init, t, x, inclusive);
    CoverCountSplits(t, x, inclusive);
    var c := CoverCount(t, x, inclusive);
    assert t[i].point == pts[i];
    assert i < c;
    if i + 1 < |pts| {
      assert t[i + 1].point == pts[i + 1];
    }
  }

  /** A store takes at x the value it takes from the last covered position q on, if no breakpoint lies past q and before x. */
  lemma NoPointBetween(init: real, s: seq<Step>, q: real, x: real, inclusive: bool)
    requires Covered(q, x, inclusive)
    requires forall k :: 0 <= k < |s| && q < s[k].point ==> !Covered(s[k].point, x, inclusive)
    ensures Lookup(init, s, q, true) == Lookup(init, s, x, inclusive)
  {
    LookupCongruent(init, s, q, true, x, inclusive);
  }

  /** Sampled at all of their breakpoints, the merge takes at every x `func` of the values there. */
  lemma MergeExact(fs: seq<StepFn>, func: seq<real> -> real, pts: seq<real>, closed: Side, x: real, inclusive: bool)
    requires Sorted(pts) && SampledAtAllPoints(fs, pts)
    ensures var m := Merge(fs, func, pts, closed);
      Lookup(m.initial, m.steps, x, inclusive) == func(ValuesAt(fs, x, inclusive))
  {
    var init := func(Initials(fs));
    var t := Samples(fs, func, pts);
    CoverCountSplits(t, x, inclusive);
    var c := CoverCount(t, x, inclusive);
    if c == 0 {
      forall i | 0 <= i < |fs| ensures ValuesAt(fs, x, inclusive)[i] == Initials(fs)[i] {
        forall k | 0 <= k < |fs[i].steps| ensures !Covered(fs[i].steps[k].point, x, inclusive) {
          var j :| 0 <= j < |pts| && pts[j] == fs[i].steps[k].point;
          assert t[j].point == pts[j];
        }
        LookupNoneCovered(fs[i].initial, fs[i].steps, x, inclusive);
      }
      assert ValuesAt(fs, x, inclusive) == Initials(fs);
      forall i | 0 <= i < |pts| ensures !Covered(pts[i], x, inclusive) {
        assert t[i].point == pts[i];
      }
      MergeBeforeFirst(fs, func, pts, closed, x, inclusive);
    } else {
      var q := pts[c - 1];
      assert t[c - 1].point == q;
      forall i | 0 <= i < |fs| ensures ValuesAt(fs, x, inclusive)[i] == ValuesAfter(fs, q)[i] {
        forall k | 0 <= k < |fs[i].steps| && q < fs[i].steps[k].point
          ensures !Covered(fs[i].steps[k].point, x, inclusive)
        {
          var j :| 0 <= j < |pts| && pts[j] == fs[i].steps[k].point;
          assert t[j].point == pts[j];
          assert c - 1 < j;
        }
        NoPointBetween(fs[i].initial, fs[i].steps, q, x, inclusive);
      }
      assert ValuesAt(fs, x, inclusive) == ValuesAfter(fs, q);
      assert Covered(pts[c - 1], x, inclusive);
      if c < |pts| {
        assert t[c].point == pts[c];
        assert !Covered(pts[c], x, inclusive);
      }
      MergeHeld(fs, func, pts, closed, c - 1, x, inclusive);
    }
  }
}
