/**
 * The fixture s1 (five layers on a zero function) and the statistics the
 * test suite asserts for it, stated on its canonical store.
 */
module Fixtures {
  import opened StepFunction
  import opened Layering
  import opened Sampling
  import opened Integration
  import opened SortedPoints
  import opened Algebra
  import opened StairsObject

  /** The layers that build s1, in order. */
  function S1Starts(): seq<Option<real>> { [Some(1.0), Some(-4.0), Some(3.0), Some(6.0), Some(7.0)] }
  function S1Ends(): seq<Option<real>> { [Some(10.0), Some(5.0), Some(5.0), Some(7.0), Some(10.0)] }
  function S1Values(): seq<real> { [2.0, -1.75, 2.5, -2.5, -2.5] }

  /** s1 in canonical form, for either orientation. */
  function S1(closed: Side): StepFn
  {
    StepFn(0.0, closed, [Step(-4.0, -1.75), Step(1.0, 0.25), Step(3.0, 2.75), Step(5.0, 2.0), Step(6.0, -0.5), Step(10.0, 0.0)])
  }

  /** The value of s1 at x, interval by interval (`inclusive` decides a breakpoint at x). */
  function S1Value(x: real, inclusive: bool): real
  {
    if !Covered(-4.0, x, inclusive) then 0.0 else if !Covered(1.0, x, inclusive) then -1.75
    else if !Covered(3.0, x, inclusive) then 0.25 else if !Covered(5.0, x, inclusive) then 2.75
    else if !Covered(6.0, x, inclusive) then 2.0 else if !Covered(10.0, x, inclusive) then -0.5 else 0.0
  }

  lemma S1Sum(x: real, inclusive: bool)
    ensures LayerSum(x, S1Starts(), S1Ends(), S1Values(), inclusive) == S1Value(x, inclusive)
  {
    var st, en, va := S1Starts(), S1Ends(), S1Values();
    assert st[1..][1..][1..][1..][1..] == [];
    assert en[1..][1..][1..][1..][1..] == [];
    assert va[1..][1..][1..][1..][1..] == [];
  }

  lemma S1At(closed: Side, x: real, inclusive: bool)
    ensures Lookup(S1(closed).initial, S1(closed).steps, x, inclusive) == S1Value(x, inclusive)
  {
    var s := S1(closed).steps;
    assert s[1..][1..][1..][1..][1..][1..] == [];
  }

  lemma S1ValueAt(x: real, inclusive: bool)
    ensures LayerSum(x, S1Starts(), S1Ends(), S1Values(), inclusive) == Lookup(0.0, S1(Left).steps, x, inclusive)
  {
    S1Sum(x, inclusive);
    S1At(Left, x, inclusive);
  }

  lemma S1Canonical(closed: Side)
    ensures Canonical(S1(closed))
  {
  }

  /** Layering s1's triples onto Stairs(0) gives exactly this store. */
  lemma S1Layered(closed: Side)
    ensures LayerAll(Constant(0.0, closed), S1Starts(), S1Ends(), S1Values()) == S1(closed)
  {
    var g := LayerAll(Constant(0.0, closed), S1Starts(), S1Ends(), S1Values());
    forall x ensures Eval(g, x) == Eval(S1(closed), x) {
      LayerAllValues(Constant(0.0, closed), S1Starts(), S1Ends(), S1Values(), x, closed == Left);
      S1ValueAt(x, closed == Left);
    }
    LayerAllValues(Constant(0.0, closed), S1Starts(), S1Ends(), S1Values(), 0.0, true);
    S1Canonical(closed);
    Extensionality(g, S1(closed));
  }

  /** Successive `layer` calls with s1's triples amount to layering them all. */
  lemma S1Calls(f0: StepFn, f1: StepFn, f2: StepFn, f3: StepFn, f4: StepFn, f5: StepFn)
    requires f1 == LayerFn(f0, Some(1.0), Some(10.0), 2.0)
    requires f2 == LayerFn(f1, Some(-4.0), Some(5.0), -1.75)
    requires f3 == LayerFn(f2, Some(3.0), Some(5.0), 2.5)
    requires f4 == LayerFn(f3, Some(6.0), Some(7.0), -2.5)
    requires f5 == LayerFn(f4, Some(7.0), Some(10.0), -2.5)
    ensures LayerAll(f0, S1Starts(), S1Ends(), S1Values()) == f5
  {
    var st, en, va := S1Starts(), S1Ends(), S1Values();
    assert LayerAll(f4, st[4..], en[4..], va[4..]) == f5;
    assert LayerAll(f3, st[3..], en[3..], va[3..]) == f5;
    assert LayerAll(f2, st[2..], en[2..], va[2..]) == f5;
    assert LayerAll(f1, st[1..], en[1..], va[1..]) == f5;
    assert LayerAll(f0, st, en, va) == f5;
  }

  /** The s1 fixture as the test builds it: five `layer` calls on `Stairs(0)`. */
  method BuildS1(closed: Side) returns (s: Stairs)
    ensures fresh(s) && s.Valid() && s.Model() == S1(closed)
  {
    s := new Stairs(0.0, closed);
    ghost var f0 := s.Model();
    s.Layer(Some(1.0), Some(10.0), 2.0);
    ghost var f1 := s.Model();
    s.Layer(Some(-4.0), Some(5.0), -1.75);
    ghost var f2 := s.Model();
    s.Layer(Some(3.0), Some(5.0), 2.5);
    ghost var f3 := s.Model();
    s.Layer(Some(6.0), Some(7.0), -2.5);
    ghost var f4 := s.Model();
    s.Layer(Some(7.0), Some(10.0), -2.5);
    S1Calls(f0, f1, f2, f3, f4, s.Model());
    S1Layered(closed);
  }

  /** `integral()`, `integral((-1, 5.5))` and `mean((2, 8))` of s1. */
  lemma S1Integrals()
    ensures Integral(S1(Left), None) == Some(-2.75)
    ensures Integral(S1(Left), Some((-1.0, 5.5))) == Some(3.5)
    ensures Mean(S1(Left), Some((2.0, 8.0))) == Some(1.125)
  {
  }

  /** `mean()` of s1: the integral -2.75 over the domain [-4, 10]. */
  lemma S1Mean()
    ensures Mean(S1(Left), None) == Some(-11.0 / 56.0)
  {
  }

  /** `limit([-4, -2, 1, 3], side)` of s1 from the right and from the left. */
  lemma S1Limits()
    ensures [LimitAt(S1(Left), -4.0, Right), LimitAt(S1(Left), -2.0, Right), LimitAt(S1(Left), 1.0, Right), LimitAt(S1(Left), 3.0, Right)]
         == [-1.75, -1.75, 0.25, 2.75]
    ensures [LimitAt(S1(Left), -4.0, Left), LimitAt(S1(Left), -2.0, Left), LimitAt(S1(Left), 1.0, Left), LimitAt(S1(Left), 3.0, Left)]
         == [0.0, -1.75, -1.75, 0.25]
  {
    S1Tails();
  }

  /** The breakpoints of s1 after the first k, for unfolding the recursions over them. */
  lemma S1Tails()
    ensures S1(Left).steps[1..] == [Step(1.0, 0.25), Step(3.0, 2.75), Step(5.0, 2.0), Step(6.0, -0.5), Step(10.0, 0.0)]
    ensures S1(Left).steps[2..] == [Step(3.0, 2.75), Step(5.0, 2.0), Step(6.0, -0.5), Step(10.0, 0.0)]
    ensures S1(Left).steps[3..] == [Step(5.0, 2.0), Step(6.0, -0.5), Step(10.0, 0.0)]
    ensures S1(Left).steps[4..] == [Step(6.0, -0.5), Step(10.0, 0.0)]
    ensures S1(Left).steps[5..] == [Step(10.0, 0.0)]
  {
  }

  lemma S1Inside(a: real, b: real, expected: seq<real>)
    requires (a, b, expected) in {(-4.0, 10.0, [0.25, 2.75, 2.0, -0.5]), (1.0, 6.0, [2.75, 2.0]), (-4.0, 1.0, [])}
    ensures InsideValues(S1(Left).steps, a, b) == expected
  {
    S1Tails();
    var s := S1(Left).steps;
    assert s[1..][1..] == s[2..] && s[2..][1..] == s[3..] && s[3..][1..] == s[4..] && s[4..][1..] == s[5..];
  }

  lemma S1Endpoints()
    ensures Eval(S1(Left), 1.0) == 0.25 && Eval(S1(Left), 6.0) == -0.5
  {
    S1Tails();
  }

  lemma S1Range(closed: Side, a: real, b: real, side: Option<Side>, candidates: seq<real>, expected: seq<real>)
    requires a < b
    requires Candidates(S1(closed), Some((a, b)), Orientation(S1(closed), side)) == candidates
    requires Sorted(expected) && forall v :: v in candidates <==> v in expected
    ensures ValuesInRange(S1(closed), Some((a, b)), side) == expected
  {
    SortedUnique(ValuesInRange(S1(closed), Some((a, b)), side), expected);
  }

  lemma S1RangeLeftClosed()
    ensures ValuesInRange(S1(Left), Some((-4.0, 10.0)), None) == [-1.75, -0.5, 0.25, 2.0, 2.75]
  {
    S1Inside(-4.0, 10.0, [0.25, 2.75, 2.0, -0.5]);
    S1Range(Left, -4.0, 10.0, None, [-1.75, -1.75, 0.25, 2.75, 2.0, -0.5], [-1.75, -0.5, 0.25, 2.0, 2.75]);
  }

  lemma S1RangeMiddle()
    ensures ValuesInRange(S1(Left), Some((1.0, 6.0)), None) == [0.25, 2.0, 2.75]
  {
    S1Inside(1.0, 6.0, [2.75, 2.0]);
    S1Range(Left, 1.0, 6.0, None, [0.25, 0.25, 2.75, 2.0], [0.25, 2.0, 2.75]);
  }

  lemma S1RangeMiddleAsLeft()
    ensures ValuesInRange(S1(Right), Some((1.0, 6.0)), Some(Left)) == [-1.75, 0.25, 2.0, 2.75]
  {
    S1Inside(1.0, 6.0, [2.75, 2.0]);
    S1Range(Right, 1.0, 6.0, Some(Left), [-1.75, 0.25, 2.75, 2.0], [-1.75, 0.25, 2.0, 2.75]);
  }

  lemma S1RangeMiddleAsRight()
    ensures ValuesInRange(S1(Left), Some((1.0, 6.0)), Some(Right)) == [-0.5, 0.25, 2.0, 2.75]
  {
    S1Inside(1.0, 6.0, [2.75, 2.0]);
    S1Endpoints();
    S1Range(Left, 1.0, 6.0, Some(Right), [-0.5, 0.25, 2.75, 2.0], [-0.5, 0.25, 2.0, 2.75]);
  }

  lemma S1RangeLow()
    ensures ValuesInRange(S1(Left), Some((-4.0, 1.0)), None) == [-1.75]
  {
    S1Inside(-4.0, 1.0, []);
    S1Range(Left, -4.0, 1.0, None, [-1.75, -1.75], [-1.75]);
  }

  lemma S1RangeLowAsLeft()
    ensures ValuesInRange(S1(Right), Some((-4.0, 1.0)), Some(Left)) == [-1.75, 0.0]
  {
    S1Inside(-4.0, 1.0, []);
    S1Range(Right, -4.0, 1.0, Some(Left), [0.0, -1.75], [-1.75, 0.0]);
  }

  lemma S1RangeLowAsRight()
    ensures ValuesInRange(S1(Left), Some((-4.0, 1.0)), Some(Right)) == [-1.75, 0.25]
  {
    S1Inside(-4.0, 1.0, []);
    S1Endpoints();
    S1Range(Left, -4.0, 1.0, Some(Right), [0.25, -1.75], [-1.75, 0.25]);
  }

  lemma S1AllValues()
    ensures AllValues(S1(Left).steps) == [-1.75, 0.25, 2.75, 2.0, -0.5, 0.0]
  {
    var r := AllValues(S1(Left).steps);
    assert r[0] == -1.75 && r[1] == 0.25 && r[2] == 2.75 && r[3] == 2.0 && r[4] == -0.5 && r[5] == 0.0;
  }

  /** `values_in_range` of s1 for each orientation and domain the tests use. */
  lemma S1ValuesInRange()
    ensures ValuesInRange(S1(Left), None, None) == [-1.75, -0.5, 0.0, 0.25, 2.0, 2.75]
    ensures ValuesInRange(S1(Left), Some((-4.0, 10.0)), None) == [-1.75, -0.5, 0.25, 2.0, 2.75]
    ensures ValuesInRange(S1(Left), Some((1.0, 6.0)), None) == [0.25, 2.0, 2.75]
    ensures ValuesInRange(S1(Right), Some((1.0, 6.0)), Some(Left)) == [-1.75, 0.25, 2.0, 2.75]
    ensures ValuesInRange(S1(Left), Some((1.0, 6.0)), Some(Right)) == [-0.5, 0.25, 2.0, 2.75]
  {
    S1AllValues();
    SortedUnique(ValuesInRange(S1(Left), None, None), [-1.75, -0.5, 0.0, 0.25, 2.0, 2.75]);
    S1RangeLeftClosed();
    S1RangeMiddle();
    S1RangeMiddleAsLeft();
    S1RangeMiddleAsRight();
  }

  /** `min` of s1 for each orientation and domain the tests use. */
  lemma S1Minima()
    ensures Min(S1(Left), None, None) == Some(-1.75)
    ensures Min(S1(Left), Some((1.0, 6.0)), None) == Some(0.25)
    ensures Min(S1(Right), Some((1.0, 6.0)), Some(Left)) == Some(-1.75)
    ensures Min(S1(Left), Some((1.0, 6.0)), Some(Right)) == Some(-0.5)
  {
    S1ValuesInRange();
  }

  /** `max` of s1 for each orientation and domain the tests use. */
  lemma S1Maxima()
    ensures Max(S1(Left), None, None) == Some(2.75)
    ensures Max(S1(Left), Some((-4.0, 1.0)), None) == Some(-1.75)
    ensures Max(S1(Right), Some((-4.0, 1.0)), Some(Left)) == Some(0.0)
    ensures Max(S1(Left), Some((-4.0, 1.0)), Some(Right)) == Some(0.25)
  {
    S1ValuesInRange();
    S1RangeLow();
    S1RangeLowAsLeft();
    S1RangeLowAsRight();
  }

  /** `Stairs(0).layer(None, 0)`: the integral is 0 and the mean undefined. */
  lemma IntegralOfHalfLine()
    ensures Integral(LayerFn(Constant(0.0, Left), None, Some(0.0), 1.0), None) == Some(0.0)
    ensures Mean(LayerFn(Constant(0.0, Left), None, Some(0.0), 1.0), None) == None
  {
  }

  /** The chained `Stairs(initial_value=0).layer(None, 0)`, then `integral()` and `mean()` of that object. */
  method HalfLineStatistics() returns (integral: Option<real>, mean: Option<real>)
    ensures integral == Some(0.0) && mean == None
  {
    var s := new Stairs(0.0, Left);
    s.Layer(None, Some(0.0), 1.0);
    IntegralOfHalfLine();
    integral := Integral(s.Model(), None);
    mean := Mean(s.Model(), None);
  }

  /** `step_changes` of s1. */
  lemma S1StepChanges()
    ensures StepChanges(S1(Left)) == [Change(-4.0, -1.75), Change(1.0, 2.0), Change(3.0, 2.5), Change(5.0, -0.75), Change(6.0, -2.5), Change(10.0, 0.5)]
  {
  }

  /** `s1 * 3` scales every jump of s1 by 3. */
  lemma S1TimesThree()
    ensures StepChanges(Combine(S1(Left), Constant(3.0, Left), Mul))
         == [Change(-4.0, -5.25), Change(1.0, 6.0), Change(3.0, 7.5), Change(5.0, -2.25), Change(6.0, -7.5), Change(10.0, 1.5)]
  {
    S1Canonical(Left);
    S1StepChanges();
    MultiplyScalar(S1(Left), 3.0);
  }

  /** Dividing by 0.5 any canonical function whose jumps are those of s1 doubles them. */
  lemma DoubleJumpsOfS1(f: StepFn)
    requires Canonical(f)
    requires StepChanges(f) == [Change(-4.0, -1.75), Change(1.0, 2.0), Change(3.0, 2.5), Change(5.0, -0.75), Change(6.0, -2.5), Change(10.0, 0.5)]
    ensures Divide(f, Constant(0.5, f.closed)).Some?
    ensures StepChanges(Divide(f, Constant(0.5, f.closed)).value)
         == [Change(-4.0, -3.5), Change(1.0, 4.0), Change(3.0, 5.0), Change(5.0, -1.5), Change(6.0, -5.0), Change(10.0, 1.0)]
  {
    DivideScalar(f, 0.5);
  }

  /** `s1 / 0.5` is defined and doubles every jump of s1. */
  lemma S1OverHalf()
    ensures Divide(S1(Left), Constant(0.5, Left)).Some?
    ensures StepChanges(Divide(S1(Left), Constant(0.5, Left)).value)
         == [Change(-4.0, -3.5), Change(1.0, 4.0), Change(3.0, 5.0), Change(5.0, -1.5), Change(6.0, -5.0), Change(10.0, 1.0)]
  {
    S1Canonical(Left);
    S1StepChanges();
    DoubleJumpsOfS1(S1(Left));
  }

  /** `s1 + 3` keeps the jumps of s1 and starts at 3. */
  lemma S1PlusThree()
    ensures Evaluate(Combine(S1(Left), Constant(3.0, Left), Add), NegInf) == 3.0
    ensures StepChanges(Combine(S1(Left), Constant(3.0, Left), Add)) == StepChanges(S1(Left))
  {
    S1Canonical(Left);
    AddScalar(S1(Left), 3.0);
  }
}
