/**
 * `aggregate(collection, func, points)`: a function of a whole collection
 * of step functions, sampled at the union of their breakpoints or at
 * explicit sample points.
 */
module Aggregation {
  import opened StepFunction
  import opened SortedPoints
  import opened Merging

  function Sum(v: seq<real>): real
    decreases |v|
  {
    if v == [] then 0.0 else v[0] + Sum(v[1..])
  }

  /** `np.mean`; the mean of no values is taken to be 0. */
  function MeanOf(v: seq<real>): real
  {
    if |v| == 0 then 0.0 else Sum(v) / (|v| as real)
  }

  lemma {:induction false} SumBounds(v: seq<real>, lo: real, hi: real)
    requires forall i :: 0 <= i < |v| ==> lo <= v[i] <= hi
    ensures lo * (|v| as real) <= Sum(v) <= hi * (|v| as real)
    decreases |v|
  {
    if v != [] {
      SumBounds(v[1..], lo, hi);
      assert lo * (|v| as real) == lo + lo * (|v[1..]| as real);
      assert hi * (|v| as real) == hi + hi * (|v[1..]| as real);
    }
  }

  /** The mean of a non-empty collection of values lies between any bounds of those values. */
  lemma MeanOfBounds(v: seq<real>, lo: real, hi: real)
    requires |v| > 0
    requires forall i :: 0 <= i < |v| ==> lo <= v[i] <= hi
    ensures lo <= MeanOf(v) <= hi
    ensures MeanOf(v) * (|v| as real) == Sum(v)
  {
    var n := |v| as real;
    SumBounds(v, lo, hi);
    QuotientBounds(Sum(v), n, lo, hi);
  }

  lemma QuotientBounds(s: real, n: real, lo: real, hi: real)
    requires n > 0.0 && lo * n <= s <= hi * n
    ensures lo <= s / n <= hi && (s / n) * n == s
  {
    var q := s / n;
    assert q * n == s;
  }

  /** The orientation of an aggregate: that of the first function, left-closed for an empty collection. */
  function Orientation(fs: seq<StepFn>): Side
  {
    if fs == [] then Left else fs[0].closed
  }

  /** The positions an aggregate is sampled at: the union of breakpoints, or the given points as a sorted set. */
  function SamplePoints(fs: seq<StepFn>, points: Option<seq<real>>): (r: seq<real>)
    ensures Sorted(r)
  {
    if points.None? then UnionOfPoints(fs) else SortedSet(points.value)
  }

  function Aggregate(fs: seq<StepFn>, func: seq<real> -> real, points: Option<seq<real>>): StepFn
  {
    Merge(fs, func, SamplePoints(fs, points), Orientation(fs))
  }

  /** Without sample points the aggregate is, at every x and from either side, `func` of the collection's values there. */
  lemma AggregatePointwise(fs: seq<StepFn>, func: seq<real> -> real, x: real, inclusive: bool)
    ensures Canonical(Aggregate(fs, func, None)) && Aggregate(fs, func, None).closed == Orientation(fs)
    ensures forall k :: 0 <= k < |Aggregate(fs, func, None).steps| ==>
      exists i :: 0 <= i < |fs| && Aggregate(fs, func, None).steps[k].point in Points(fs[i].steps)
    ensures Lookup(Aggregate(fs, func, None).initial, Aggregate(fs, func, None).steps, x, inclusive)
         == func(ValuesAt(fs, x, inclusive))
  {
    var pts := UnionOfPoints(fs);
    MergeCanonical(fs, func, pts, Orientation(fs));
    forall i, k | 0 <= i < |fs| && 0 <= k < |fs[i].steps| ensures fs[i].steps[k].point in pts {
      assert Points(fs[i].steps)[k] == fs[i].steps[k].point;
    }
    MergeExact(fs, func, pts, Orientation(fs), x, inclusive);
  }

  /**
   * With sample points the aggregate changes only at sample points; from the
   * last sample point in effect at x it holds `func` of the collection's
   * values just after that point, and before every sample point it holds
   * `func` of the initial values.
   */
  lemma AggregateAtSamplePoints(fs: seq<StepFn>, func: seq<real> -> real, points: seq<real>, x: real, inclusive: bool)
    ensures Canonical(Aggregate(fs, func, Some(points)))
    ensures forall k :: 0 <= k < |Aggregate(fs, func, Some(points)).steps| ==> Aggregate(fs, func, Some(points)).steps[k].point in points
    ensures (forall p :: p in points ==> !Covered(p, x, inclusive)) ==>
      Lookup(Aggregate(fs, func, Some(points)).initial, Aggregate(fs, func, Some(points)).steps, x, inclusive) == func(Initials(fs))
    ensures forall p :: p in points && Covered(p, x, inclusive) && (forall q :: q in points && p < q ==> !Covered(q, x, inclusive)) ==>
      Lookup(Aggregate(fs, func, Some(points)).initial, Aggregate(fs, func, Some(points)).steps, x, inclusive) == func(ValuesAfter(fs, p))
  {
    var pts := SortedSet(points);
    var closed := Orientation(fs);
    MergeCanonical(fs, func, pts, closed);
    if forall p :: p in points ==> !Covered(p, x, inclusive) {
      MergeBeforeFirst(fs, func, pts, closed, x, inclusive);
    }
    forall p | p in points && Covered(p, x, inclusive) && (forall q :: q in points && p < q ==> !Covered(q, x, inclusive))
      ensures Lookup(Aggregate(fs, func, Some(points)).initial, Aggregate(fs, func, Some(points)).steps, x, inclusive) == func(ValuesAfter(fs, p))
    {
      var i :| 0 <= i < |pts| && pts[i] == p;
      if i + 1 < |pts| {
        assert pts[i + 1] in points && p < pts[i + 1];
      }
      MergeHeld(fs, func, pts, closed, i, x, inclusive);
    }
  }

  /** The aggregate of fs without sample points is h when h is canonical and has the aggregate's values. */
  ghost predicate AggregatesTo(fs: seq<StepFn>, func: seq<real> -> real, h: StepFn)
  {
    forall x :: func(ValuesAt(fs, x, true)) == Lookup(h.initial, h.steps, x, true)
  }

  lemma AggregateIs(fs: seq<StepFn>, func: seq<real> -> real, h: StepFn)
    requires Canonical(h) && h.closed == Orientation(fs)
    requires AggregatesTo(fs, func, h)
    ensures Aggregate(fs, func, None) == h
  {
    var m := Aggregate(fs, func, None);
    forall x ensures Lookup(m.initial, m.steps, x, true) == Lookup(h.initial, h.steps, x, true) {
      AggregatePointwise(fs, func, x, true);
    }
    AggregatePointwise(fs, func, 0.0, true);
    UniqueRepresentation(m.initial, m.steps, h.initial, h.steps);
  }
}
