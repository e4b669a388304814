/**
 * The fixtures IS1 and IS2 of the date-axis tests, with the days of January
 * 2020 as the axis (day d at d.0, d 12:00 at d.5), and the results the tests
 * assert for `_get_union_of_points`, `_min_pair`, `_max_pair` and `aggregate`.
 */
module DateFixtures {
  import opened StepFunction
  import opened Layering
  import opened SortedPoints
  import opened Merging
  import opened Algebra
  import opened Aggregation
  import opened StairsObject

  /** The layers that build IS1 and IS2, in order. */
  function IS1Starts(): seq<Option<real>> { [Some(1.0), Some(3.0), Some(6.0), Some(7.0)] }
  function IS1Ends(): seq<Option<real>> { [Some(10.0), Some(5.0), Some(7.0), Some(10.0)] }
  function IS1Values(): seq<real> { [2.0, 2.5, -2.5, -2.5] }
  function IS2Starts(): seq<Option<real>> { [Some(1.0), Some(8.0), Some(2.0), Some(2.5)] }
  function IS2Ends(): seq<Option<real>> { [Some(7.0), Some(10.0), Some(5.0), Some(4.0)] }
  function IS2Values(): seq<real> { [-2.5, 5.0, 4.5, -2.5] }

  /** IS1 in canonical form: no breakpoint at day 7, where the two layers meet with equal values. */
  function IS1(closed: Side): StepFn
  {
    StepFn(0.0, closed, [Step(1.0, 2.0), Step(3.0, 4.5), Step(5.0, 2.0), Step(6.0, -0.5), Step(10.0, 0.0)])
  }

  function IS2(closed: Side): StepFn
  {
    StepFn(0.0, closed, [Step(1.0, -2.5), Step(2.0, 2.0), Step(2.5, -0.5), Step(4.0, 2.0), Step(5.0, -2.5), Step(7.0, 0.0), Step(8.0, 5.0), Step(10.0, 0.0)])
  }

  /** The pointwise minimum, maximum and mean of IS1 and IS2. */
  function MinIS(closed: Side): StepFn
  {
    StepFn(0.0, closed, [Step(1.0, -2.5), Step(2.0, 2.0), Step(2.5, -0.5), Step(4.0, 2.0), Step(5.0, -2.5), Step(7.0, -0.5), Step(10.0, 0.0)])
  }

  function MaxIS(closed: Side): StepFn
  {
    StepFn(0.0, closed, [Step(1.0, 2.0), Step(3.0, 4.5), Step(5.0, 2.0), Step(6.0, -0.5), Step(7.0, 0.0), Step(8.0, 5.0), Step(10.0, 0.0)])
  }

  function MeanIS(closed: Side): StepFn
  {
    StepFn(0.0, closed, [Step(1.0, -0.25), Step(2.0, 2.0), Step(2.5, 0.75), Step(3.0, 2.0), Step(4.0, 3.25),
                         Step(5.0, -0.25), Step(6.0, -1.5), Step(7.0, -0.25), Step(8.0, 2.25), Step(10.0, 0.0)])
  }

  // Values from the right, interval by interval.

  function IS1Value(x: real): real
  {
    if x < 1.0 then 0.0 else if x < 3.0 then 2.0 else if x < 5.0 then 4.5 else if x < 6.0 then 2.0
    else if x < 10.0 then -0.5 else 0.0
  }

  function IS2Value(x: real): real
  {
    if x < 1.0 then 0.0 else if x < 2.0 then -2.5 else if x < 2.5 then 2.0 else if x < 4.0 then -0.5
    else if x < 5.0 then 2.0 else if x < 7.0 then -2.5 else if x < 8.0 then 0.0 else if x < 10.0 then 5.0 else 0.0
  }

  lemma IS1At(closed: Side, x: real)
    ensures Lookup(IS1(closed).initial, IS1(closed).steps, x, true) == IS1Value(x)
  {
    var s := IS1(closed).steps;
    assert s[1..][1..][1..][1..][1..] == [];
  }

  lemma IS2At(closed: Side, x: real)
    ensures Lookup(IS2(closed).initial, IS2(closed).steps, x, true) == IS2Value(x)
  {
    var s := IS2(closed).steps;
    assert s[1..][1..][1..][1..][1..][1..][1..][1..] == [];
  }

  lemma MinISAt(closed: Side, x: real)
    ensures Lookup(MinIS(closed).initial, MinIS(closed).steps, x, true) == Apply(MinOf, IS1Value(x), IS2Value(x))
  {
    var s := MinIS(closed).steps;
    assert s[1..][1..][1..][1..][1..][1..][1..] == [];
  }

  lemma MaxISAt(closed: Side, x: real)
    ensures Lookup(MaxIS(closed).initial, MaxIS(closed).steps, x, true) == Apply(MaxOf, IS1Value(x), IS2Value(x))
  {
    var s := MaxIS(closed).steps;
    assert s[1..][1..][1..][1..][1..][1..][1..] == [];
  }

  function MeanValue(x: real): real
  {
    if x < 1.0 then 0.0 else if x < 2.0 then -0.25 else if x < 2.5 then 2.0 else if x < 3.0 then 0.75
    else if x < 4.0 then 2.0 else if x < 5.0 then 3.25 else if x < 6.0 then -0.25 else if x < 7.0 then -1.5
    else if x < 8.0 then -0.25 else if x < 10.0 then 2.25 else 0.0
  }

  /** The breakpoints of MeanIS from day 6 on. */
  function MeanTail(): seq<Step>
  {
    [Step(6.0, -1.5), Step(7.0, -0.25), Step(8.0, 2.25), Step(10.0, 0.0)]
  }

  lemma MeanISHead(closed: Side, x: real)
    ensures Lookup(MeanIS(closed).initial, MeanIS(closed).steps, x, true)
         == if x < 5.0 then MeanValue(x) else Lookup(-0.25, MeanTail(), x, true)
  {
    var s := MeanIS(closed).steps;
    assert s[1..][1..][1..][1..][1..][1..] == MeanTail();
  }

  lemma MeanISTail(x: real)
    requires 5.0 <= x
    ensures Lookup(-0.25, MeanTail(), x, true) == MeanValue(x)
  {
    var s := MeanTail();
    assert s[1..][1..][1..][1..] == [];
  }

  lemma MeanISAt(closed: Side, x: real)
    ensures Lookup(MeanIS(closed).initial, MeanIS(closed).steps, x, true) == MeanValue(x)
  {
    MeanISHead(closed, x);
    if 5.0 <= x {
      MeanISTail(x);
    }
  }

  lemma MeanValueIsMean(x: real)
    ensures MeanValue(x) == (IS1Value(x) + IS2Value(x)) / 2.0
  {
  }

  lemma IS1Sum(x: real)
    ensures LayerSum(x, IS1Starts(), IS1Ends(), IS1Values(), true) == IS1Value(x)
  {
    var st, en, va := IS1Starts(), IS1Ends(), IS1Values();
    assert st[1..][1..][1..][1..] == [];
    assert en[1..][1..][1..][1..] == [];
    assert va[1..][1..][1..][1..] == [];
  }

  lemma IS2Sum(x: real)
    ensures LayerSum(x, IS2Starts(), IS2Ends(), IS2Values(), true) == IS2Value(x)
  {
    var st, en, va := IS2Starts(), IS2Ends(), IS2Values();
    assert st[1..][1..][1..][1..] == [];
    assert en[1..][1..][1..][1..] == [];
    assert va[1..][1..][1..][1..] == [];
  }

  lemma IS1LayersAt(closed: Side, x: real)
    ensures Lookup(Constant(0.0, closed).initial, Constant(0.0, closed).steps, x, true) + LayerSum(x, IS1Starts(), IS1Ends(), IS1Values(), true)
         == Lookup(IS1(closed).initial, IS1(closed).steps, x, true)
  {
    IS1Sum(x);
    IS1At(closed, x);
  }

  lemma IS1LayersTo(closed: Side)
    ensures LayersTo(Constant(0.0, closed), IS1Starts(), IS1Ends(), IS1Values(), IS1(closed))
  {
    forall x
      ensures Lookup(Constant(0.0, closed).initial, Constant(0.0, closed).steps, x, true) + LayerSum(x, IS1Starts(), IS1Ends(), IS1Values(), true)
           == Lookup(IS1(closed).initial, IS1(closed).steps, x, true)
    {
      IS1LayersAt(closed, x);
    }
  }

  lemma IS2LayersAt(closed: Side, x: real)
    ensures Lookup(Constant(0.0, closed).initial, Constant(0.0, closed).steps, x, true) + LayerSum(x, IS2Starts(), IS2Ends(), IS2Values(), true)
         == Lookup(IS2(closed).initial, IS2(closed).steps, x, true)
  {
    IS2Sum(x);
    IS2At(closed, x);
  }

  lemma IS2LayersTo(closed: Side)
    ensures LayersTo(Constant(0.0, closed), IS2Starts(), IS2Ends(), IS2Values(), IS2(closed))
  {
    forall x
      ensures Lookup(Constant(0.0, closed).initial, Constant(0.0, closed).steps, x, true) + LayerSum(x, IS2Starts(), IS2Ends(), IS2Values(), true)
           == Lookup(IS2(closed).initial, IS2(closed).steps, x, true)
    {
      IS2LayersAt(closed, x);
    }
  }

  /** Layering IS1's triples onto Stairs(0) gives exactly this store (the jumps at day 7 cancel). */
  lemma IS1Layered(closed: Side)
    ensures LayerAll(Constant(0.0, closed), IS1Starts(), IS1Ends(), IS1Values()) == IS1(closed)
  {
    IS1LayersTo(closed);
    LayeredIs(Constant(0.0, closed), IS1Starts(), IS1Ends(), IS1Values(), IS1(closed));
  }

  /** Layering IS2's triples onto Stairs(0) gives exactly this store. */
  lemma IS2Layered(closed: Side)
    ensures LayerAll(Constant(0.0, closed), IS2Starts(), IS2Ends(), IS2Values()) == IS2(closed)
  {
    IS2LayersTo(closed);
    LayeredIs(Constant(0.0, closed), IS2Starts(), IS2Ends(), IS2Values(), IS2(closed));
  }

  /** Successive `layer` calls with is1's triples amount to layering them all. */
  lemma IS1Calls(f0: StepFn, f1: StepFn, f2: StepFn, f3: StepFn, f4: StepFn)
    requires f1 == LayerFn(f0, Some(1.0), Some(10.0), 2.0)
    requires f2 == LayerFn(f1, Some(3.0), Some(5.0), 2.5)
    requires f3 == LayerFn(f2, Some(6.0), Some(7.0), -2.5)
    requires f4 == LayerFn(f3, Some(7.0), Some(10.0), -2.5)
    ensures LayerAll(f0, IS1Starts(), IS1Ends(), IS1Values()) == f4
  {
    var st, en, va := IS1Starts(), IS1Ends(), IS1Values();
    assert LayerAll(f3, st[3..], en[3..], va[3..]) == f4;
    assert LayerAll(f2, st[2..], en[2..], va[2..]) == f4;
    assert LayerAll(f1, st[1..], en[1..], va[1..]) == f4;
    assert LayerAll(f0, st, en, va) == f4;
  }

  /** The IS1 fixture as the test builds it: four `layer` calls on `Stairs(0)`. */
  method BuildIS1(closed: Side) returns (s: Stairs)
    ensures fresh(s) && s.Valid() && s.Model() == IS1(closed)
  {
    s := new Stairs(0.0, closed);
    ghost var f0 := s.Model();
    s.Layer(Some(1.0), Some(10.0), 2.0);
    ghost var f1 := s.Model();
    s.Layer(Some(3.0), Some(5.0), 2.5);
    ghost var f2 := s.Model();
    s.Layer(Some(6.0), Some(7.0), -2.5);
    ghost var f3 := s.Model();
    s.Layer(Some(7.0), Some(10.0), -2.5);
    IS1Calls(f0, f1, f2, f3, s.Model());
    IS1Layered(closed);
  }

  /** Successive `layer` calls with is2's triples amount to layering them all. */
  lemma IS2Calls(f0: StepFn, f1: StepFn, f2: StepFn, f3: StepFn, f4: StepFn)
    requires f1 == LayerFn(f0, Some(1.0), Some(7.0), -2.5)
    requires f2 == LayerFn(f1, Some(8.0), Some(10.0), 5.0)
    requires f3 == LayerFn(f2, Some(2.0), Some(5.0), 4.5)
    requires f4 == LayerFn(f3, Some(2.5), Some(4.0), -2.5)
    ensures LayerAll(f0, IS2Starts(), IS2Ends(), IS2Values()) == f4
  {
    var st, en, va := IS2Starts(), IS2Ends(), IS2Values();
    assert LayerAll(f3, st[3..], en[3..], va[3..]) == f4;
    assert LayerAll(f2, st[2..], en[2..], va[2..]) == f4;
    assert LayerAll(f1, st[1..], en[1..], va[1..]) == f4;
    assert LayerAll(f0, st, en, va) == f4;
  }

  /** The IS2 fixture as the test builds it. */
  method BuildIS2(closed: Side) returns (s: Stairs)
    ensures fresh(s) && s.Valid() && s.Model() == IS2(closed)
  {
    s := new Stairs(0.0, closed);
    ghost var f0 := s.Model();
    s.Layer(Some(1.0), Some(7.0), -2.5);
    ghost var f1 := s.Model();
    s.Layer(Some(8.0), Some(10.0), 5.0);
    ghost var f2 := s.Model();
    s.Layer(Some(2.0), Some(5.0), 4.5);
    ghost var f3 := s.Model();
    s.Layer(Some(2.5), Some(4.0), -2.5);
    IS2Calls(f0, f1, f2, f3, s.Model());
    IS2Layered(closed);
  }

  /** The union of two functions' breakpoints is any sorted sequence with the same members. */
  lemma UnionOfTwo(f: StepFn, g: StepFn, u: seq<real>)
    requires Sorted(u)
    requires forall y :: y in u <==> y in Points(f.steps) || y in Points(g.steps)
    ensures UnionOfPoints([f, g]) == u
    ensures GetUnionOfPoints([f, g]) == Anchored(u)
  {
    var fs := [f, g];
    forall y ensures y in UnionOfPoints(fs) <==> y in u {
      if y in Points(f.steps) {
        assert 0 < |fs| && y in Points(fs[0].steps);
      } else if y in Points(g.steps) {
        assert 1 < |fs| && y in Points(fs[1].steps);
      }
    }
    SortedUnique(UnionOfPoints(fs), u);
  }

  lemma PointsIS(closed: Side)
    ensures Points(IS1(closed).steps) == [1.0, 3.0, 5.0, 6.0, 10.0]
    ensures Points(IS2(closed).steps) == [1.0, 2.0, 2.5, 4.0, 5.0, 7.0, 8.0, 10.0]
  {
  }

  lemma UnionMembers()
    ensures forall y :: (y in [1.0, 2.0, 2.5, 3.0, 4.0, 5.0, 6.0, 7.0, 8.0, 10.0]
                         <==> y in [1.0, 3.0, 5.0, 6.0, 10.0] || y in [1.0, 2.0, 2.5, 4.0, 5.0, 7.0, 8.0, 10.0])
  {
  }

  lemma AnchoredUnion()
    ensures Anchored([1.0, 2.0, 2.5, 3.0, 4.0, 5.0, 6.0, 7.0, 8.0, 10.0])
         == [NegInf, At(1.0), At(2.0), At(2.5), At(3.0), At(4.0), At(5.0), At(6.0), At(7.0), At(8.0), At(10.0)]
  {
  }

  /** `_get_union_of_points([IS1, IS2])`: the anchor, then the ten breakpoints of either. */
  lemma UnionIS(closed: Side)
    ensures UnionOfPoints([IS1(closed), IS2(closed)]) == [1.0, 2.0, 2.5, 3.0, 4.0, 5.0, 6.0, 7.0, 8.0, 10.0]
    ensures GetUnionOfPoints([IS1(closed), IS2(closed)])
         == [NegInf, At(1.0), At(2.0), At(2.5), At(3.0), At(4.0), At(5.0), At(6.0), At(7.0), At(8.0), At(10.0)]
  {
    PointsIS(closed);
    UnionMembers();
    AnchoredUnion();
    UnionOfTwo(IS1(closed), IS2(closed), [1.0, 2.0, 2.5, 3.0, 4.0, 5.0, 6.0, 7.0, 8.0, 10.0]);
  }

  lemma MinPairValues(closed: Side)
    ensures CombinesTo(IS1(closed), IS2(closed), MinOf, MinIS(closed))
  {
    forall x ensures Apply(MinOf, Lookup(0.0, IS1(closed).steps, x, true), Lookup(0.0, IS2(closed).steps, x, true)) == Lookup(0.0, MinIS(closed).steps, x, true) {
      IS1At(closed, x);
      IS2At(closed, x);
      MinISAt(closed, x);
    }
  }

  lemma MaxPairValues(closed: Side)
    ensures CombinesTo(IS1(closed), IS2(closed), MaxOf, MaxIS(closed))
  {
    forall x ensures Apply(MaxOf, Lookup(0.0, IS1(closed).steps, x, true), Lookup(0.0, IS2(closed).steps, x, true)) == Lookup(0.0, MaxIS(closed).steps, x, true) {
      IS1At(closed, x);
      IS2At(closed, x);
      MaxISAt(closed, x);
    }
  }

  lemma MinISChanges(closed: Side)
    ensures StepChanges(MinIS(closed)) == [Change(1.0, -2.5), Change(2.0, 4.5), Change(2.5, -2.5), Change(4.0, 2.5), Change(5.0, -4.5), Change(7.0, 2.0), Change(10.0, 0.5)]
  {
  }

  lemma MaxISChanges(closed: Side)
    ensures StepChanges(MaxIS(closed)) == [Change(1.0, 2.0), Change(3.0, 2.5), Change(5.0, -2.5), Change(6.0, -2.5), Change(7.0, 0.5), Change(8.0, 5.0), Change(10.0, -5.0)]
  {
  }

  lemma MeanISChanges(closed: Side)
    ensures StepChanges(MeanIS(closed)) == [Change(1.0, -0.25), Change(2.0, 2.25), Change(2.5, -1.25), Change(3.0, 1.25), Change(4.0, 1.25),
                                            Change(5.0, -3.5), Change(6.0, -1.25), Change(7.0, 1.25), Change(8.0, 2.5), Change(10.0, -2.25)]
  {
  }

  /** `_min_pair(IS1, IS2)` and its `step_changes`; Jan 3, 6 and 8 are union points without a change. */
  lemma MinPairIS(closed: Side)
    ensures Combine(IS1(closed), IS2(closed), MinOf) == MinIS(closed)
    ensures StepChanges(Combine(IS1(closed), IS2(closed), MinOf))
         == [Change(1.0, -2.5), Change(2.0, 4.5), Change(2.5, -2.5), Change(4.0, 2.5), Change(5.0, -4.5), Change(7.0, 2.0), Change(10.0, 0.5)]
  {
    MinISChanges(closed);
    MinPairValues(closed);
    CombineIs(IS1(closed), IS2(closed), MinOf, MinIS(closed));
  }

  /** `_max_pair(IS1, IS2)` and its `step_changes`. */
  lemma MaxPairIS(closed: Side)
    ensures Combine(IS1(closed), IS2(closed), MaxOf) == MaxIS(closed)
    ensures StepChanges(Combine(IS1(closed), IS2(closed), MaxOf))
         == [Change(1.0, 2.0), Change(3.0, 2.5), Change(5.0, -2.5), Change(6.0, -2.5), Change(7.0, 0.5), Change(8.0, 5.0), Change(10.0, -5.0)]
  {
    MaxISChanges(closed);
    MaxPairValues(closed);
    CombineIs(IS1(closed), IS2(closed), MaxOf, MaxIS(closed));
  }

  lemma MeanOfPair(a: real, b: real)
    ensures MeanOf([a, b]) == (a + b) / 2.0
  {
    assert [a, b][1..] == [b] && [b][1..] == [];
    assert Sum([b]) == b;
    assert Sum([a, b]) == a + b;
  }

  lemma MeanValues(closed: Side)
    ensures AggregatesTo([IS1(closed), IS2(closed)], MeanOf, MeanIS(closed))
  {
    var fs := [IS1(closed), IS2(closed)];
    forall x ensures MeanOf(ValuesAt(fs, x, true)) == Lookup(MeanIS(closed).initial, MeanIS(closed).steps, x, true) {
      IS1At(closed, x);
      IS2At(closed, x);
      MeanISAt(closed, x);
      MeanValueIsMean(x);
      assert ValuesAt(fs, x, true) == [IS1Value(x), IS2Value(x)];
      MeanOfPair(IS1Value(x), IS2Value(x));
    }
  }

  /** `aggregate([IS1, IS2], mean)` and its `step_changes`, one entry per union point. */
  lemma AggregateMeanIS(closed: Side)
    ensures Aggregate([IS1(closed), IS2(closed)], MeanOf, None) == MeanIS(closed)
    ensures StepChanges(Aggregate([IS1(closed), IS2(closed)], MeanOf, None))
         == [Change(1.0, -0.25), Change(2.0, 2.25), Change(2.5, -1.25), Change(3.0, 1.25), Change(4.0, 1.25),
             Change(5.0, -3.5), Change(6.0, -1.25), Change(7.0, 1.25), Change(8.0, 2.5), Change(10.0, -2.25)]
  {
    MeanISChanges(closed);
    MeanValues(closed);
    AggregateIs([IS1(closed), IS2(closed)], MeanOf, MeanIS(closed));
  }

  /** A merge over given samples is the pruned samples after `func` of the initial values. */
  lemma MergeOfSamples(fs: seq<StepFn>, func: seq<real> -> real, pts: seq<real>, closed: Side, init: real, t: seq<Step>)
    requires Sorted(pts)
    requires func(Initials(fs)) == init && Samples(fs, func, pts) == t
    ensures Merge(fs, func, pts, closed) == StepFn(init, closed, Prune(init, t))
  {
  }

  lemma SamplesIS(closed: Side)
    ensures Samples([IS1(closed), IS2(closed)], MeanOf, [3.0, 5.0, 7.0, 9.0])
         == [Step(3.0, 2.0), Step(5.0, -0.25), Step(7.0, -0.25), Step(9.0, 2.25)]
  {
    var fs := [IS1(closed), IS2(closed)];
    var pts := [3.0, 5.0, 7.0, 9.0];
    var t := Samples(fs, MeanOf, pts);
    forall k | 0 <= k < 4 ensures t[k] == Step(pts[k], (IS1Value(pts[k]) + IS2Value(pts[k])) / 2.0) {
      IS1At(closed, pts[k]);
      IS2At(closed, pts[k]);
      assert ValuesAfter(fs, pts[k]) == [IS1Value(pts[k]), IS2Value(pts[k])];
      MeanOfPair(IS1Value(pts[k]), IS2Value(pts[k]));
    }
  }

  /**
   * `aggregate([IS1, IS2], mean, [Jan 3, Jan 5, Jan 7, Jan 9])`: steps only at
   * sample points, Jan 7 dropped (the mean does not change there), and the
   * value at Jan 9 held to +inf.
   */
  lemma AggregateAtPointsIS(closed: Side)
    ensures Aggregate([IS1(closed), IS2(closed)], MeanOf, Some([3.0, 5.0, 7.0, 9.0]))
         == StepFn(0.0, closed, [Step(3.0, 2.0), Step(5.0, -0.25), Step(9.0, 2.25)])
    ensures StepChanges(Aggregate([IS1(closed), IS2(closed)], MeanOf, Some([3.0, 5.0, 7.0, 9.0])))
         == [Change(3.0, 2.0), Change(5.0, -2.25), Change(9.0, 2.5)]
  {
    var fs := [IS1(closed), IS2(closed)];
    var pts := [3.0, 5.0, 7.0, 9.0];
    SortedUnique(SortedSet(pts), pts);
    assert Initials(fs) == [0.0, 0.0];
    MeanOfPair(0.0, 0.0);
    SamplesIS(closed);
    var t := [Step(3.0, 2.0), Step(5.0, -0.25), Step(7.0, -0.25), Step(9.0, 2.25)];
    MergeOfSamples(fs, MeanOf, pts, closed, 0.0, t);
    assert Prune(0.0, t) == [Step(3.0, 2.0), Step(5.0, -0.25), Step(9.0, 2.25)];
  }
}
