/**
 * The fixtures s2, s3 and s4 of the test suite: each is built by layering
 * onto a zero function, and each is stated here by its canonical store, by
 * its value from the right at every x, and by the `layer` calls that build it.
 * s3 and s4 take only the values 0 and 1.
 */
module OperandFixtures {
  import opened StepFunction
  import opened Layering
  import opened StairsObject
  import opened Integration

  /** The layers that build s2, in order. */
  function S2Starts(): seq<Option<real>> { [Some(1.0), Some(8.0), Some(2.0), Some(2.5), Some(-2.0)] }
  function S2Ends(): seq<Option<real>> { [Some(7.0), Some(10.0), Some(5.0), Some(4.0), Some(1.0)] }
  function S2Values(): seq<real> { [-2.5, 5.0, 4.5, -2.5, -1.75] }

  /** s2 in canonical form: the IS2 breakpoints with one more layer on [-2, 1). */
  function S2(closed: Side): StepFn
  {
    StepFn(0.0, closed, [Step(-2.0, -1.75), Step(1.0, -2.5), Step(2.0, 2.0), Step(2.5, -0.5), Step(4.0, 2.0),
                         Step(5.0, -2.5), Step(7.0, 0.0), Step(8.0, 5.0), Step(10.0, 0.0)])
  }

  /** The value of s2 from the right at x, interval by interval. */
  function S2Value(x: real): real
  {
    if x < -2.0 then 0.0 else if x < 1.0 then -1.75 else if x < 2.0 then -2.5 else if x < 2.5 then 2.0
    else if x < 4.0 then -0.5 else if x < 5.0 then 2.0 else if x < 7.0 then -2.5 else if x < 8.0 then 0.0
    else if x < 10.0 then 5.0 else 0.0
  }

  lemma S2Canonical(closed: Side)
    ensures Canonical(S2(closed))
  {
  }

  /** The breakpoints of S2 after the first 4. */
  function S2Tail(): seq<Step>
  {
    [Step(4.0, 2.0), Step(5.0, -2.5), Step(7.0, 0.0), Step(8.0, 5.0), Step(10.0, 0.0)]
  }

  lemma S2Head(closed: Side, x: real)
    ensures Lookup(S2(closed).initial, S2(closed).steps, x, true)
         == if x < 2.5 then S2Value(x) else Lookup(-0.5, S2Tail(), x, true)
  {
    var s := S2(closed).steps;
    assert s[1..][1..][1..][1..] == S2Tail();
  }

  lemma S2TailAt(x: real)
    requires 2.5 <= x
    ensures Lookup(-0.5, S2Tail(), x, true) == S2Value(x)
  {
    var s := S2Tail();
    assert s[1..][1..][1..][1..][1..] == [];
  }

  lemma S2At(closed: Side, x: real)
    ensures Lookup(S2(closed).initial, S2(closed).steps, x, true) == S2Value(x)
  {
    S2Head(closed, x);
    if 2.5 <= x {
      S2TailAt(x);
    }
  }

  lemma S2Sum(x: real)
    ensures LayerSum(x, S2Starts(), S2Ends(), S2Values(), true) == S2Value(x)
  {
    var st, en, va := S2Starts(), S2Ends(), S2Values();
    assert st[1..][1..][1..][1..][1..] == [];
    assert en[1..][1..][1..][1..][1..] == [];
    assert va[1..][1..][1..][1..][1..] == [];
  }

  lemma S2LayersAt(closed: Side, x: real)
    ensures Lookup(Constant(0.0, closed).initial, Constant(0.0, closed).steps, x, true) + LayerSum(x, S2Starts(), S2Ends(), S2Values(), true)
         == Lookup(S2(closed).initial, S2(closed).steps, x, true)
  {
    S2Sum(x);
    S2At(closed, x);
  }

  lemma S2LayersTo(closed: Side)
    ensures LayersTo(Constant(0.0, closed), S2Starts(), S2Ends(), S2Values(), S2(closed))
  {
    forall x
      ensures Lookup(Constant(0.0, closed).initial, Constant(0.0, closed).steps, x, true) + LayerSum(x, S2Starts(), S2Ends(), S2Values(), true)
           == Lookup(S2(closed).initial, S2(closed).steps, x, true)
    {
      S2LayersAt(closed, x);
    }
  }

  /** Layering s2's triples onto Stairs(0) gives exactly this store. */
  lemma S2Layered(closed: Side)
    ensures LayerAll(Constant(0.0, closed), S2Starts(), S2Ends(), S2Values()) == S2(closed)
  {
    S2Canonical(closed);
    S2LayersTo(closed);
    LayeredIs(Constant(0.0, closed), S2Starts(), S2Ends(), S2Values(), S2(closed));
  }

  /** Successive `layer` calls with s2's triples amount to layering them all. */
  lemma S2Calls(f0: StepFn, f1: StepFn, f2: StepFn, f3: StepFn, f4: StepFn, f5: StepFn)
    requires f1 == LayerFn(f0, Some(1.0), Some(7.0), -2.5)
    requires f2 == LayerFn(f1, Some(8.0), Some(10.0), 5.0)
    requires f3 == LayerFn(f2, Some(2.0), Some(5.0), 4.5)
    requires f4 == LayerFn(f3, Some(2.5), Some(4.0), -2.5)
    requires f5 == LayerFn(f4, Some(-2.0), Some(1.0), -1.75)
    ensures LayerAll(f0, S2Starts(), S2Ends(), S2Values()) == f5
  {
    var st, en, va := S2Starts(), S2Ends(), S2Values();
    assert LayerAll(f4, st[4..], en[4..], va[4..]) == f5;
    assert LayerAll(f3, st[3..], en[3..], va[3..]) == f5;
    assert LayerAll(f2, st[2..], en[2..], va[2..]) == f5;
    assert LayerAll(f1, st[1..], en[1..], va[1..]) == f5;
    assert LayerAll(f0, st, en, va) == f5;
  }

  /** The s2 fixture as the test builds it: 5 `layer` calls on `Stairs(0)`. */
  method BuildS2(closed: Side) returns (s: Stairs)
    ensures fresh(s) && s.Valid() && s.Model() == S2(closed)
  {
    s := new Stairs(0.0, closed);
    ghost var f0 := s.Model();
    s.Layer(Some(1.0), Some(7.0), -2.5);
    ghost var f1 := s.Model();
    s.Layer(Some(8.0), Some(10.0), 5.0);
    ghost var f2 := s.Model();
    s.Layer(Some(2.0), Some(5.0), 4.5);
    ghost var f3 := s.Model();
    s.Layer(Some(2.5), Some(4.0), -2.5);
    ghost var f4 := s.Model();
    s.Layer(Some(-2.0), Some(1.0), -1.75);
    S2Calls(f0, f1, f2, f3, f4, s.Model());
    S2Layered(closed);
  }

  /** The layers that build s3, in order. */
  function S3Starts(): seq<Option<real>> { [Some(-10.0), Some(-8.0), Some(-5.0), Some(0.5), Some(3.0), Some(7.0)] }
  function S3Ends(): seq<Option<real>> { [Some(10.0), Some(-7.0), Some(-2.0), Some(1.0), Some(3.5), Some(9.5)] }
  function S3Values(): seq<real> { [1.0, -1.0, -1.0, -1.0, -1.0, -1.0] }

  /** s3: 1 on [-10, 10) with five gaps. */
  function S3(closed: Side): StepFn
  {
    StepFn(0.0, closed, [Step(-10.0, 1.0), Step(-8.0, 0.0), Step(-7.0, 1.0), Step(-5.0, 0.0), Step(-2.0, 1.0),
                         Step(0.5, 0.0), Step(1.0, 1.0), Step(3.0, 0.0), Step(3.5, 1.0), Step(7.0, 0.0),
                         Step(9.5, 1.0), Step(10.0, 0.0)])
  }

  function S3Value(x: real): real
  {
    if x < -10.0 then 0.0 else if x < -8.0 then 1.0 else if x < -7.0 then 0.0 else if x < -5.0 then 1.0
    else if x < -2.0 then 0.0 else if x < 0.5 then 1.0 else if x < 1.0 then 0.0 else if x < 3.0 then 1.0
    else if x < 3.5 then 0.0 else if x < 7.0 then 1.0 else if x < 9.5 then 0.0 else if x < 10.0 then 1.0 else 0.0
  }

  lemma S3Canonical(closed: Side)
    ensures Canonical(S3(closed))
  {
  }

  /** The breakpoints of S3 after the first 6. */
  function S3Tail(): seq<Step>
  {
    [Step(1.0, 1.0), Step(3.0, 0.0), Step(3.5, 1.0), Step(7.0, 0.0), Step(9.5, 1.0),
     Step(10.0, 0.0)]
  }

  lemma S3Head(closed: Side, x: real)
    ensures Lookup(S3(closed).initial, S3(closed).steps, x, true)
         == if x < 0.5 then S3Value(x) else Lookup(0.0, S3Tail(), x, true)
  {
    var s := S3(closed).steps;
    assert s[1..][1..][1..][1..][1..][1..] == S3Tail();
  }

  lemma S3TailAt(x: real)
    requires 0.5 <= x
    ensures Lookup(0.0, S3Tail(), x, true) == S3Value(x)
  {
    var s := S3Tail();
    assert s[1..][1..][1..][1..][1..][1..] == [];
  }

  lemma S3At(closed: Side, x: real)
    ensures Lookup(S3(closed).initial, S3(closed).steps, x, true) == S3Value(x)
  {
    S3Head(closed, x);
    if 0.5 <= x {
      S3TailAt(x);
    }
  }

  lemma S3Sum(x: real)
    ensures LayerSum(x, S3Starts(), S3Ends(), S3Values(), true) == S3Value(x)
  {
    var st, en, va := S3Starts(), S3Ends(), S3Values();
    assert st[1..][1..][1..][1..][1..][1..] == [];
    assert en[1..][1..][1..][1..][1..][1..] == [];
    assert va[1..][1..][1..][1..][1..][1..] == [];
  }

  lemma S3LayersAt(closed: Side, x: real)
    ensures Lookup(Constant(0.0, closed).initial, Constant(0.0, closed).steps, x, true) + LayerSum(x, S3Starts(), S3Ends(), S3Values(), true)
         == Lookup(S3(closed).initial, S3(closed).steps, x, true)
  {
    S3Sum(x);
    S3At(closed, x);
  }

  lemma S3LayersTo(closed: Side)
    ensures LayersTo(Constant(0.0, closed), S3Starts(), S3Ends(), S3Values(), S3(closed))
  {
    forall x
      ensures Lookup(Constant(0.0, closed).initial, Constant(0.0, closed).steps, x, true) + LayerSum(x, S3Starts(), S3Ends(), S3Values(), true)
           == Lookup(S3(closed).initial, S3(closed).steps, x, true)
    {
      S3LayersAt(closed, x);
    }
  }

  /** Layering s3's triples onto Stairs(0) gives exactly this store. */
  lemma S3Layered(closed: Side)
    ensures LayerAll(Constant(0.0, closed), S3Starts(), S3Ends(), S3Values()) == S3(closed)
  {
    S3Canonical(closed);
    S3LayersTo(closed);
    LayeredIs(Constant(0.0, closed), S3Starts(), S3Ends(), S3Values(), S3(closed));
  }

  /** Successive `layer` calls with s3's triples amount to layering them all. */
  lemma S3Calls(f0: StepFn, f1: StepFn, f2: StepFn, f3: StepFn, f4: StepFn, f5: StepFn, f6: StepFn)
    requires f1 == LayerFn(f0, Some(-10.0), Some(10.0), 1.0)
    requires f2 == LayerFn(f1, Some(-8.0), Some(-7.0), -1.0)
    requires f3 == LayerFn(f2, Some(-5.0), Some(-2.0), -1.0)
    requires f4 == LayerFn(f3, Some(0.5), Some(1.0), -1.0)
    requires f5 == LayerFn(f4, Some(3.0), Some(3.5), -1.0)
    requires f6 == LayerFn(f5, Some(7.0), Some(9.5), -1.0)
    ensures LayerAll(f0, S3Starts(), S3Ends(), S3Values()) == f6
  {
    var st, en, va := S3Starts(), S3Ends(), S3Values();
    assert LayerAll(f5, st[5..], en[5..], va[5..]) == f6;
    assert LayerAll(f4, st[4..], en[4..], va[4..]) == f6;
    assert LayerAll(f3, st[3..], en[3..], va[3..]) == f6;
    assert LayerAll(f2, st[2..], en[2..], va[2..]) == f6;
    assert LayerAll(f1, st[1..], en[1..], va[1..]) == f6;
    assert LayerAll(f0, st, en, va) == f6;
  }

  /** The s3 fixture as the test builds it: 6 `layer` calls on `Stairs(0)`. */
  method BuildS3(closed: Side) returns (s: Stairs)
    ensures fresh(s) && s.Valid() && s.Model() == S3(closed)
  {
    s := new Stairs(0.0, closed);
    ghost var f0 := s.Model();
    s.Layer(Some(-10.0), Some(10.0), 1.0);
    ghost var f1 := s.Model();
    s.Layer(Some(-8.0), Some(-7.0), -1.0);
    ghost var f2 := s.Model();
    s.Layer(Some(-5.0), Some(-2.0), -1.0);
    ghost var f3 := s.Model();
    s.Layer(Some(0.5), Some(1.0), -1.0);
    ghost var f4 := s.Model();
    s.Layer(Some(3.0), Some(3.5), -1.0);
    ghost var f5 := s.Model();
    s.Layer(Some(7.0), Some(9.5), -1.0);
    S3Calls(f0, f1, f2, f3, f4, f5, s.Model());
    S3Layered(closed);
  }

  /** The layers that build s4, in order. */
  function S4Starts(): seq<Option<real>> { [Some(-11.0), Some(-9.5), Some(-7.5), Some(0.0), Some(6.0), Some(7.0)] }
  function S4Ends(): seq<Option<real>> { [Some(9.0), Some(-8.0), Some(-7.0), Some(3.0), Some(6.5), Some(8.5)] }
  function S4Values(): seq<real> { [1.0, -1.0, -1.0, -1.0, -1.0, -1.0] }

  /** s4: 1 on [-11, 9) with five gaps. */
  function S4(closed: Side): StepFn
  {
    StepFn(0.0, closed, [Step(-11.0, 1.0), Step(-9.5, 0.0), Step(-8.0, 1.0), Step(-7.5, 0.0), Step(-7.0, 1.0),
                         Step(0.0, 0.0), Step(3.0, 1.0), Step(6.0, 0.0), Step(6.5, 1.0), Step(7.0, 0.0),
                         Step(8.5, 1.0), Step(9.0, 0.0)])
  }

  function S4Value(x: real): real
  {
    if x < -11.0 then 0.0 else if x < -9.5 then 1.0 else if x < -8.0 then 0.0 else if x < -7.5 then 1.0
    else if x < -7.0 then 0.0 else if x < 0.0 then 1.0 else if x < 3.0 then 0.0 else if x < 6.0 then 1.0
    else if x < 6.5 then 0.0 else if x < 7.0 then 1.0 else if x < 8.5 then 0.0 else if x < 9.0 then 1.0 else 0.0
  }

  lemma S4Canonical(closed: Side)
    ensures Canonical(S4(closed))
  {
  }

  /** The breakpoints of S4 after the first 6. */
  function S4Tail(): seq<Step>
  {
    [Step(3.0, 1.0), Step(6.0, 0.0), Step(6.5, 1.0), Step(7.0, 0.0), Step(8.5, 1.0),
     Step(9.0, 0.0)]
  }

  lemma S4Head(closed: Side, x: real)
    ensures Lookup(S4(closed).initial, S4(closed).steps, x, true)
         == if x < 0.0 then S4Value(x) else Lookup(0.0, S4Tail(), x, true)
  {
    var s := S4(closed).steps;
    assert s[1..][1..][1..][1..][1..][1..] == S4Tail();
  }

  lemma S4TailAt(x: real)
    requires 0.0 <= x
    ensures Lookup(0.0, S4Tail(), x, true) == S4Value(x)
  {
    var s := S4Tail();
    assert s[1..][1..][1..][1..][1..][1..] == [];
  }

  lemma S4At(closed: Side, x: real)
    ensures Lookup(S4(closed).initial, S4(closed).steps, x, true) == S4Value(x)
  {
    S4Head(closed, x);
    if 0.0 <= x {
      S4TailAt(x);
    }
  }

  lemma S4Sum(x: real)
    ensures LayerSum(x, S4Starts(), S4Ends(), S4Values(), true) == S4Value(x)
  {
    var st, en, va := S4Starts(), S4Ends(), S4Values();
    assert st[1..][1..][1..][1..][1..][1..] == [];
    assert en[1..][1..][1..][1..][1..][1..] == [];
    assert va[1..][1..][1..][1..][1..][1..] == [];
  }

  lemma S4LayersAt(closed: Side, x: real)
    ensures Lookup(Constant(0.0, closed).initial, Constant(0.0, closed).steps, x, true) + LayerSum(x, S4Starts(), S4Ends(), S4Values(), true)
         == Lookup(S4(closed).initial, S4(closed).steps, x, true)
  {
    S4Sum(x);
    S4At(closed, x);
  }

  lemma S4LayersTo(closed: Side)
    ensures LayersTo(Constant(0.0, closed), S4Starts(), S4Ends(), S4Values(), S4(closed))
  {
    forall x
      ensures Lookup(Constant(0.0, closed).initial, Constant(0.0, closed).steps, x, true) + LayerSum(x, S4Starts(), S4Ends(), S4Values(), true)
           == Lookup(S4(closed).initial, S4(closed).steps, x, true)
    {
      S4LayersAt(closed, x);
    }
  }

  /** Layering s4's triples onto Stairs(0) gives exactly this store. */
  lemma S4Layered(closed: Side)
    ensures LayerAll(Constant(0.0, closed), S4Starts(), S4Ends(), S4Values()) == S4(closed)
  {
    S4Canonical(closed);
    S4LayersTo(closed);
    LayeredIs(Constant(0.0, closed), S4Starts(), S4Ends(), S4Values(), S4(closed));
  }

  /** Successive `layer` calls with s4's triples amount to layering them all. */
  lemma S4Calls(f0: StepFn, f1: StepFn, f2: StepFn, f3: StepFn, f4: StepFn, f5: StepFn, f6: StepFn)
    requires f1 == LayerFn(f0, Some(-11.0), Some(9.0), 1.0)
    requires f2 == LayerFn(f1, Some(-9.5), Some(-8.0), -1.0)
    requires f3 == LayerFn(f2, Some(-7.5), Some(-7.0), -1.0)
    requires f4 == LayerFn(f3, Some(0.0), Some(3.0), -1.0)
    requires f5 == LayerFn(f4, Some(6.0), Some(6.5), -1.0)
    requires f6 == LayerFn(f5, Some(7.0), Some(8.5), -1.0)
    ensures LayerAll(f0, S4Starts(), S4Ends(), S4Values()) == f6
  {
    var st, en, va := S4Starts(), S4Ends(), S4Values();
    assert LayerAll(f5, st[5..], en[5..], va[5..]) == f6;
    assert LayerAll(f4, st[4..], en[4..], va[4..]) == f6;
    assert LayerAll(f3, st[3..], en[3..], va[3..]) == f6;
    assert LayerAll(f2, st[2..], en[2..], va[2..]) == f6;
    assert LayerAll(f1, st[1..], en[1..], va[1..]) == f6;
    assert LayerAll(f0, st, en, va) == f6;
  }

  /** The s4 fixture as the test builds it: 6 `layer` calls on `Stairs(0)`. */
  method BuildS4(closed: Side) returns (s: Stairs)
    ensures fresh(s) && s.Valid() && s.Model() == S4(closed)
  {
    s := new Stairs(0.0, closed);
    ghost var f0 := s.Model();
    s.Layer(Some(-11.0), Some(9.0), 1.0);
    ghost var f1 := s.Model();
    s.Layer(Some(-9.5), Some(-8.0), -1.0);
    ghost var f2 := s.Model();
    s.Layer(Some(-7.5), Some(-7.0), -1.0);
    ghost var f3 := s.Model();
    s.Layer(Some(0.0), Some(3.0), -1.0);
    ghost var f4 := s.Model();
    s.Layer(Some(6.0), Some(6.5), -1.0);
    ghost var f5 := s.Model();
    s.Layer(Some(7.0), Some(8.5), -1.0);
    S4Calls(f0, f1, f2, f3, f4, f5, s.Model());
    S4Layered(closed);
  }

  /** The areas under s2 that its `integral` and `mean` tests use. */
  lemma S2Areas(closed: Side)
    ensures Area(0.0, S2(closed).steps, -2.0, 10.0) == -0.5
    ensures Area(0.0, S2(closed).steps, -1.0, 5.5) == -5.0
  {
    var s := S2(closed).steps;
    assert s[1..][1..][1..][1..][1..][1..][1..][1..][1..] == [];
  }

  lemma S2AreaBetween(closed: Side)
    ensures Area(0.0, S2(closed).steps, 2.0, 8.0) == -2.75
  {
    var s := S2(closed).steps;
    assert s[1..][1..][1..][1..][1..][1..][1..][1..][1..] == [];
  }

  /** `integral()` and `integral((-1, 5.5))` of s2. */
  lemma S2Integrals(closed: Side)
    ensures Integral(S2(closed), None) == Some(-0.5)
    ensures Integral(S2(closed), Some((-1.0, 5.5))) == Some(-5.0)
  {
    S2Areas(closed);
  }

  /** `mean()` of s2: the integral over its domain [-2, 10], divided by 12. */
  lemma S2Mean(closed: Side)
    ensures Mean(S2(closed), None) == Some(-1.0 / 24.0)
  {
    S2Areas(closed);
    assert Domain(S2(closed), None) == Some((-2.0, 10.0));
    assert -0.5 / (10.0 - -2.0) == -1.0 / 24.0;
  }

  /** `mean((2, 8))` of s2. */
  lemma S2MeanBetween(closed: Side)
    ensures Mean(S2(closed), Some((2.0, 8.0))) == Some(-11.0 / 24.0)
  {
    MeanOver(S2(closed), 2.0, 8.0);
    S2AreaBetween(closed);
    assert -2.75 / 6.0 == -11.0 / 24.0;
  }
}
