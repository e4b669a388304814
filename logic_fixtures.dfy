/**
 * The relational and boolean results the test suite asserts: s1 against s2
 * under `<`, `>`, `<=`, `>=`, `==` and `!=`, `make_boolean` and `~` of s2,
 * and s3 `&` / `|` s4.  Each expected function is the one the test builds
 * by `layer` calls, and each result is shown identical to it.
 */
module LogicFixtures {
  import opened StepFunction
  import opened Layering
  import opened Algebra
  import opened Fixtures
  import opened OperandFixtures

  /** The layers of the expected result of `s1 < s2` (all on a constant 0.0). */
  function S1LtS2ExpectedStarts(): seq<Option<real>> { [Some(-4.0), Some(2.0), Some(7.0)] }
  function S1LtS2ExpectedEnds(): seq<Option<real>> { [Some(-2.0), Some(2.5), Some(10.0)] }
  function S1LtS2ExpectedValues(): seq<real> { [1.0, 1.0, 1.0] }

  /** `s1 < s2` in canonical form. */
  function S1LtS2(closed: Side): StepFn
  {
    StepFn(0.0, closed, [Step(-4.0, 1.0), Step(-2.0, 0.0), Step(2.0, 1.0), Step(2.5, 0.0), Step(7.0, 1.0),
                         Step(10.0, 0.0)])
  }

  function S1LtS2Value(x: real): real
  {
    if x < -4.0 then 0.0 else if x < -2.0 then 1.0 else if x < 2.0 then 0.0 else if x < 2.5 then 1.0
    else if x < 7.0 then 0.0 else if x < 10.0 then 1.0 else 0.0
  }

  lemma S1LtS2Canonical(closed: Side)
    ensures Canonical(S1LtS2(closed))
  {
  }

  lemma S1LtS2At(closed: Side, x: real)
    ensures Lookup(S1LtS2(closed).initial, S1LtS2(closed).steps, x, true) == S1LtS2Value(x)
  {
    var s := S1LtS2(closed).steps;
    assert s[1..][1..][1..][1..][1..][1..] == [];
  }

  lemma S1LtS2Point(x: real)
    ensures Apply(Lt, S1Value(x, true), S2Value(x)) == S1LtS2Value(x)
  {
    if x < -4.0 {
    } else if x < -2.0 {
    } else if x < 1.0 {
    } else if x < 2.0 {
    } else if x < 2.5 {
    } else if x < 3.0 {
    } else if x < 4.0 {
    } else if x < 5.0 {
    } else if x < 6.0 {
    } else if x < 7.0 {
    } else if x < 8.0 {
    } else if x < 10.0 {
    } else {
    }
  }

  lemma S1LtS2Values(closed: Side)
    ensures CombinesTo(S1(closed), S2(closed), Lt, S1LtS2(closed))
  {
    forall x
      ensures Apply(Lt, Lookup(S1(closed).initial, S1(closed).steps, x, true), Lookup(S2(closed).initial, S2(closed).steps, x, true))
           == Lookup(S1LtS2(closed).initial, S1LtS2(closed).steps, x, true)
    {
      S1At(closed, x, true);
      S2At(closed, x);
      S1LtS2Point(x);
      S1LtS2At(closed, x);
    }
  }

  lemma S1LtS2Is(closed: Side)
    ensures Combine(S1(closed), S2(closed), Lt) == S1LtS2(closed)
  {
    S1LtS2Canonical(closed);
    S1LtS2Values(closed);
    CombineIs(S1(closed), S2(closed), Lt, S1LtS2(closed));
  }

  lemma S1LtS2ExpectedSum(x: real)
    ensures LayerSum(x, S1LtS2ExpectedStarts(), S1LtS2ExpectedEnds(), S1LtS2ExpectedValues(), true) == S1LtS2Value(x)
  {
    var st, en, va := S1LtS2ExpectedStarts(), S1LtS2ExpectedEnds(), S1LtS2ExpectedValues();
    assert st[1..][1..][1..] == [];
    assert en[1..][1..][1..] == [];
    assert va[1..][1..][1..] == [];
  }

  lemma S1LtS2ExpectedLayersAt(closed: Side, x: real)
    ensures Lookup(Constant(0.0, closed).initial, Constant(0.0, closed).steps, x, true) + LayerSum(x, S1LtS2ExpectedStarts(), S1LtS2ExpectedEnds(), S1LtS2ExpectedValues(), true)
         == Lookup(S1LtS2(closed).initial, S1LtS2(closed).steps, x, true)
  {
    S1LtS2ExpectedSum(x);
    S1LtS2At(closed, x);
  }

  lemma S1LtS2ExpectedLayersTo(closed: Side)
    ensures LayersTo(Constant(0.0, closed), S1LtS2ExpectedStarts(), S1LtS2ExpectedEnds(), S1LtS2ExpectedValues(), S1LtS2(closed))
  {
    forall x
      ensures Lookup(Constant(0.0, closed).initial, Constant(0.0, closed).steps, x, true) + LayerSum(x, S1LtS2ExpectedStarts(), S1LtS2ExpectedEnds(), S1LtS2ExpectedValues(), true)
           == Lookup(S1LtS2(closed).initial, S1LtS2(closed).steps, x, true)
    {
      S1LtS2ExpectedLayersAt(closed, x);
    }
  }

  /** The function the test builds for `s1 < s2` has this store. */
  lemma S1LtS2ExpectedLayered(closed: Side)
    ensures LayerAll(Constant(0.0, closed), S1LtS2ExpectedStarts(), S1LtS2ExpectedEnds(), S1LtS2ExpectedValues()) == S1LtS2(closed)
  {
    S1LtS2Canonical(closed);
    S1LtS2ExpectedLayersTo(closed);
    LayeredIs(Constant(0.0, closed), S1LtS2ExpectedStarts(), S1LtS2ExpectedEnds(), S1LtS2ExpectedValues(), S1LtS2(closed));
  }

  /** The layers of the expected result of `s1 > s2` (all on a constant 0.0). */
  function S1GtS2ExpectedStarts(): seq<Option<real>> { [Some(1.0), Some(2.5)] }
  function S1GtS2ExpectedEnds(): seq<Option<real>> { [Some(2.0), Some(7.0)] }
  function S1GtS2ExpectedValues(): seq<real> { [1.0, 1.0] }

  /** `s1 > s2` in canonical form. */
  function S1GtS2(closed: Side): StepFn
  {
    StepFn(0.0, closed, [Step(1.0, 1.0), Step(2.0, 0.0), Step(2.5, 1.0), Step(7.0, 0.0)])
  }

  function S1GtS2Value(x: real): real
  {
    if x < 1.0 then 0.0 else if x < 2.0 then 1.0 else if x < 2.5 then 0.0 else if x < 7.0 then 1.0 else 0.0
  }

  lemma S1GtS2Canonical(closed: Side)
    ensures Canonical(S1GtS2(closed))
  {
  }

  lemma S1GtS2At(closed: Side, x: real)
    ensures Lookup(S1GtS2(closed).initial, S1GtS2(closed).steps, x, true) == S1GtS2Value(x)
  {
    var s := S1GtS2(closed).steps;
    assert s[1..][1..][1..][1..] == [];
  }

  lemma S1GtS2Point(x: real)
    ensures Apply(Gt, S1Value(x, true), S2Value(x)) == S1GtS2Value(x)
  {
    if x < -4.0 {
    } else if x < -2.0 {
    } else if x < 1.0 {
    } else if x < 2.0 {
    } else if x < 2.5 {
    } else if x < 3.0 {
    } else if x < 4.0 {
    } else if x < 5.0 {
    } else if x < 6.0 {
    } else if x < 7.0 {
    } else if x < 8.0 {
    } else if x < 10.0 {
    } else {
    }
  }

  lemma S1GtS2Values(closed: Side)
    ensures CombinesTo(S1(closed), S2(closed), Gt, S1GtS2(closed))
  {
    forall x
      ensures Apply(Gt, Lookup(S1(closed).initial, S1(closed).steps, x, true), Lookup(S2(closed).initial, S2(closed).steps, x, true))
           == Lookup(S1GtS2(closed).initial, S1GtS2(closed).steps, x, true)
    {
      S1At(closed, x, true);
      S2At(closed, x);
      S1GtS2Point(x);
      S1GtS2At(closed, x);
    }
  }

  lemma S1GtS2Is(closed: Side)
    ensures Combine(S1(closed), S2(closed), Gt) == S1GtS2(closed)
  {
    S1GtS2Canonical(closed);
    S1GtS2Values(closed);
    CombineIs(S1(closed), S2(closed), Gt, S1GtS2(closed));
  }

  lemma S1GtS2ExpectedSum(x: real)
    ensures LayerSum(x, S1GtS2ExpectedStarts(), S1GtS2ExpectedEnds(), S1GtS2ExpectedValues(), true) == S1GtS2Value(x)
  {
    var st, en, va := S1GtS2ExpectedStarts(), S1GtS2ExpectedEnds(), S1GtS2ExpectedValues();
    assert st[1..][1..] == [];
    assert en[1..][1..] == [];
    assert va[1..][1..] == [];
  }

  lemma S1GtS2ExpectedLayersAt(closed: Side, x: real)
    ensures Lookup(Constant(0.0, closed).initial, Constant(0.0, closed).steps, x, true) + LayerSum(x, S1GtS2ExpectedStarts(), S1GtS2ExpectedEnds(), S1GtS2ExpectedValues(), true)
         == Lookup(S1GtS2(closed).initial, S1GtS2(closed).steps, x, true)
  {
    S1GtS2ExpectedSum(x);
    S1GtS2At(closed, x);
  }

  lemma S1GtS2ExpectedLayersTo(closed: Side)
    ensures LayersTo(Constant(0.0, closed), S1GtS2ExpectedStarts(), S1GtS2ExpectedEnds(), S1GtS2ExpectedValues(), S1GtS2(closed))
  {
    forall x
      ensures Lookup(Constant(0.0, closed).initial, Constant(0.0, closed).steps, x, true) + LayerSum(x, S1GtS2ExpectedStarts(), S1GtS2ExpectedEnds(), S1GtS2ExpectedValues(), true)
           == Lookup(S1GtS2(closed).initial, S1GtS2(closed).steps, x, true)
    {
      S1GtS2ExpectedLayersAt(closed, x);
    }
  }

  /** The function the test builds for `s1 > s2` has this store. */
  lemma S1GtS2ExpectedLayered(closed: Side)
    ensures LayerAll(Constant(0.0, closed), S1GtS2ExpectedStarts(), S1GtS2ExpectedEnds(), S1GtS2ExpectedValues()) == S1GtS2(closed)
  {
    S1GtS2Canonical(closed);
    S1GtS2ExpectedLayersTo(closed);
    LayeredIs(Constant(0.0, closed), S1GtS2ExpectedStarts(), S1GtS2ExpectedEnds(), S1GtS2ExpectedValues(), S1GtS2(closed));
  }

  /** The layers of the expected result of `s1 <= s2` (all on a constant 1.0). */
  function S1LeS2ExpectedStarts(): seq<Option<real>> { [Some(1.0), Some(2.5)] }
  function S1LeS2ExpectedEnds(): seq<Option<real>> { [Some(2.0), Some(7.0)] }
  function S1LeS2ExpectedValues(): seq<real> { [-1.0, -1.0] }

  /** `s1 <= s2` in canonical form. */
  function S1LeS2(closed: Side): StepFn
  {
    StepFn(1.0, closed, [Step(1.0, 0.0), Step(2.0, 1.0), Step(2.5, 0.0), Step(7.0, 1.0)])
  }

  function S1LeS2Value(x: real): real
  {
    if x < 1.0 then 1.0 else if x < 2.0 then 0.0 else if x < 2.5 then 1.0 else if x < 7.0 then 0.0 else 1.0
  }

  lemma S1LeS2Canonical(closed: Side)
    ensures Canonical(S1LeS2(closed))
  {
  }

  lemma S1LeS2At(closed: Side, x: real)
    ensures Lookup(S1LeS2(closed).initial, S1LeS2(closed).steps, x, true) == S1LeS2Value(x)
  {
    var s := S1LeS2(closed).steps;
    assert s[1..][1..][1..][1..] == [];
  }

  lemma S1LeS2Point(x: real)
    ensures Apply(Le, S1Value(x, true), S2Value(x)) == S1LeS2Value(x)
  {
    if x < -4.0 {
    } else if x < -2.0 {
    } else if x < 1.0 {
    } else if x < 2.0 {
    } else if x < 2.5 {
    } else if x < 3.0 {
    } else if x < 4.0 {
    } else if x < 5.0 {
    } else if x < 6.0 {
    } else if x < 7.0 {
    } else if x < 8.0 {
    } else if x < 10.0 {
    } else {
    }
  }

  lemma S1LeS2Values(closed: Side)
    ensures CombinesTo(S1(closed), S2(closed), Le, S1LeS2(closed))
  {
    forall x
      ensures Apply(Le, Lookup(S1(closed).initial, S1(closed).steps, x, true), Lookup(S2(closed).initial, S2(closed).steps, x, true))
           == Lookup(S1LeS2(closed).initial, S1LeS2(closed).steps, x, true)
    {
      S1At(closed, x, true);
      S2At(closed, x);
      S1LeS2Point(x);
      S1LeS2At(closed, x);
    }
  }

  lemma S1LeS2Is(closed: Side)
    ensures Combine(S1(closed), S2(closed), Le) == S1LeS2(closed)
  {
    S1LeS2Canonical(closed);
    S1LeS2Values(closed);
    CombineIs(S1(closed), S2(closed), Le, S1LeS2(closed));
  }

  lemma S1LeS2ExpectedSum(x: real)
    ensures 1.0 + LayerSum(x, S1LeS2ExpectedStarts(), S1LeS2ExpectedEnds(), S1LeS2ExpectedValues(), true) == S1LeS2Value(x)
  {
    var st, en, va := S1LeS2ExpectedStarts(), S1LeS2ExpectedEnds(), S1LeS2ExpectedValues();
    assert st[1..][1..] == [];
    assert en[1..][1..] == [];
    assert va[1..][1..] == [];
  }

  lemma S1LeS2ExpectedLayersAt(closed: Side, x: real)
    ensures Lookup(Constant(1.0, closed).initial, Constant(1.0, closed).steps, x, true) + LayerSum(x, S1LeS2ExpectedStarts(), S1LeS2ExpectedEnds(), S1LeS2ExpectedValues(), true)
         == Lookup(S1LeS2(closed).initial, S1LeS2(closed).steps, x, true)
  {
    S1LeS2ExpectedSum(x);
    S1LeS2At(closed, x);
  }

  lemma S1LeS2ExpectedLayersTo(closed: Side)
    ensures LayersTo(Constant(1.0, closed), S1LeS2ExpectedStarts(), S1LeS2ExpectedEnds(), S1LeS2ExpectedValues(), S1LeS2(closed))
  {
    forall x
      ensures Lookup(Constant(1.0, closed).initial, Constant(1.0, closed).steps, x, true) + LayerSum(x, S1LeS2ExpectedStarts(), S1LeS2ExpectedEnds(), S1LeS2ExpectedValues(), true)
           == Lookup(S1LeS2(closed).initial, S1LeS2(closed).steps, x, true)
    {
      S1LeS2ExpectedLayersAt(closed, x);
    }
  }

  /** The function the test builds for `s1 <= s2` has this store. */
  lemma S1LeS2ExpectedLayered(closed: Side)
    ensures LayerAll(Constant(1.0, closed), S1LeS2ExpectedStarts(), S1LeS2ExpectedEnds(), S1LeS2ExpectedValues()) == S1LeS2(closed)
  {
    S1LeS2Canonical(closed);
    S1LeS2ExpectedLayersTo(closed);
    LayeredIs(Constant(1.0, closed), S1LeS2ExpectedStarts(), S1LeS2ExpectedEnds(), S1LeS2ExpectedValues(), S1LeS2(closed));
  }

  /** The layers of the expected result of `s1 >= s2` (all on a constant 1.0). */
  function S1GeS2ExpectedStarts(): seq<Option<real>> { [Some(-4.0), Some(2.0), Some(7.0)] }
  function S1GeS2ExpectedEnds(): seq<Option<real>> { [Some(-2.0), Some(2.5), Some(10.0)] }
  function S1GeS2ExpectedValues(): seq<real> { [-1.0, -1.0, -1.0] }

  /** `s1 >= s2` in canonical form. */
  function S1GeS2(closed: Side): StepFn
  {
    StepFn(1.0, closed, [Step(-4.0, 0.0), Step(-2.0, 1.0), Step(2.0, 0.0), Step(2.5, 1.0), Step(7.0, 0.0),
                         Step(10.0, 1.0)])
  }

  function S1GeS2Value(x: real): real
  {
    if x < -4.0 then 1.0 else if x < -2.0 then 0.0 else if x < 2.0 then 1.0 else if x < 2.5 then 0.0
    else if x < 7.0 then 1.0 else if x < 10.0 then 0.0 else 1.0
  }

  lemma S1GeS2Canonical(closed: Side)
    ensures Canonical(S1GeS2(closed))
  {
  }

  lemma S1GeS2At(closed: Side, x: real)
    ensures Lookup(S1GeS2(closed).initial, S1GeS2(closed).steps, x, true) == S1GeS2Value(x)
  {
    var s := S1GeS2(closed).steps;
    assert s[1..][1..][1..][1..][1..][1..] == [];
  }

  lemma S1GeS2Point(x: real)
    ensures Apply(Ge, S1Value(x, true), S2Value(x)) == S1GeS2Value(x)
  {
    if x < -4.0 {
    } else if x < -2.0 {
    } else if x < 1.0 {
    } else if x < 2.0 {
    } else if x < 2.5 {
    } else if x < 3.0 {
    } else if x < 4.0 {
    } else if x < 5.0 {
    } else if x < 6.0 {
    } else if x < 7.0 {
    } else if x < 8.0 {
    } else if x < 10.0 {
    } else {
    }
  }

  lemma S1GeS2Values(closed: Side)
    ensures CombinesTo(S1(closed), S2(closed), Ge, S1GeS2(closed))
  {
    forall x
      ensures Apply(Ge, Lookup(S1(closed).initial, S1(closed).steps, x, true), Lookup(S2(closed).initial, S2(closed).steps, x, true))
           == Lookup(S1GeS2(closed).initial, S1GeS2(closed).steps, x, true)
    {
      S1At(closed, x, true);
      S2At(closed, x);
      S1GeS2Point(x);
      S1GeS2At(closed, x);
    }
  }

  lemma S1GeS2Is(closed: Side)
    ensures Combine(S1(closed), S2(closed), Ge) == S1GeS2(closed)
  {
    S1GeS2Canonical(closed);
    S1GeS2Values(closed);
    CombineIs(S1(closed), S2(closed), Ge, S1GeS2(closed));
  }

  lemma S1GeS2ExpectedSum(x: real)
    ensures 1.0 + LayerSum(x, S1GeS2ExpectedStarts(), S1GeS2ExpectedEnds(), S1GeS2ExpectedValues(), true) == S1GeS2Value(x)
  {
    var st, en, va := S1GeS2ExpectedStarts(), S1GeS2ExpectedEnds(), S1GeS2ExpectedValues();
    assert st[1..][1..][1..] == [];
    assert en[1..][1..][1..] == [];
    assert va[1..][1..][1..] == [];
  }

  lemma S1GeS2ExpectedLayersAt(closed: Side, x: real)
    ensures Lookup(Constant(1.0, closed).initial, Constant(1.0, closed).steps, x, true) + LayerSum(x, S1GeS2ExpectedStarts(), S1GeS2ExpectedEnds(), S1GeS2ExpectedValues(), true)
         == Lookup(S1GeS2(closed).initial, S1GeS2(closed).steps, x, true)
  {
    S1GeS2ExpectedSum(x);
    S1GeS2At(closed, x);
  }

  lemma S1GeS2ExpectedLayersTo(closed: Side)
    ensures LayersTo(Constant(1.0, closed), S1GeS2ExpectedStarts(), S1GeS2ExpectedEnds(), S1GeS2ExpectedValues(), S1GeS2(closed))
  {
    forall x
      ensures Lookup(Constant(1.0, closed).initial, Constant(1.0, closed).steps, x, true) + LayerSum(x, S1GeS2ExpectedStarts(), S1GeS2ExpectedEnds(), S1GeS2ExpectedValues(), true)
           == Lookup(S1GeS2(closed).initial, S1GeS2(closed).steps, x, true)
    {
      S1GeS2ExpectedLayersAt(closed, x);
    }
  }

  /** The function the test builds for `s1 >= s2` has this store. */
  lemma S1GeS2ExpectedLayered(closed: Side)
    ensures LayerAll(Constant(1.0, closed), S1GeS2ExpectedStarts(), S1GeS2ExpectedEnds(), S1GeS2ExpectedValues()) == S1GeS2(closed)
  {
    S1GeS2Canonical(closed);
    S1GeS2ExpectedLayersTo(closed);
    LayeredIs(Constant(1.0, closed), S1GeS2ExpectedStarts(), S1GeS2ExpectedEnds(), S1GeS2ExpectedValues(), S1GeS2(closed));
  }

  /** The layers of the expected result of `s1 == s2` (all on a constant 1.0). */
  function S1EqS2ExpectedStarts(): seq<Option<real>> { [Some(-4.0), Some(1.0)] }
  function S1EqS2ExpectedEnds(): seq<Option<real>> { [Some(-2.0), Some(10.0)] }
  function S1EqS2ExpectedValues(): seq<real> { [-1.0, -1.0] }

  /** `s1 == s2` in canonical form. */
  function S1EqS2(closed: Side): StepFn
  {
    StepFn(1.0, closed, [Step(-4.0, 0.0), Step(-2.0, 1.0), Step(1.0, 0.0), Step(10.0, 1.0)])
  }

  function S1EqS2Value(x: real): real
  {
    if x < -4.0 then 1.0 else if x < -2.0 then 0.0 else if x < 1.0 then 1.0 else if x < 10.0 then 0.0 else 1.0
  }

  lemma S1EqS2Canonical(closed: Side)
    ensures Canonical(S1EqS2(closed))
  {
  }

  lemma S1EqS2At(closed: Side, x: real)
    ensures Lookup(S1EqS2(closed).initial, S1EqS2(closed).steps, x, true) == S1EqS2Value(x)
  {
    var s := S1EqS2(closed).steps;
    assert s[1..][1..][1..][1..] == [];
  }

  lemma S1EqS2Point(x: real)
    ensures Apply(Eq, S1Value(x, true), S2Value(x)) == S1EqS2Value(x)
  {
    if x < -4.0 {
    } else if x < -2.0 {
    } else if x < 1.0 {
    } else if x < 2.0 {
    } else if x < 2.5 {
    } else if x < 3.0 {
    } else if x < 4.0 {
    } else if x < 5.0 {
    } else if x < 6.0 {
    } else if x < 7.0 {
    } else if x < 8.0 {
    } else if x < 10.0 {
    } else {
    }
  }

  lemma S1EqS2Values(closed: Side)
    ensures CombinesTo(S1(closed), S2(closed), Eq, S1EqS2(closed))
  {
    forall x
      ensures Apply(Eq, Lookup(S1(closed).initial, S1(closed).steps, x, true), Lookup(S2(closed).initial, S2(closed).steps, x, true))
           == Lookup(S1EqS2(closed).initial, S1EqS2(closed).steps, x, true)
    {
      S1At(closed, x, true);
      S2At(closed, x);
      S1EqS2Point(x);
      S1EqS2At(closed, x);
    }
  }

  lemma S1EqS2Is(closed: Side)
    ensures Combine(S1(closed), S2(closed), Eq) == S1EqS2(closed)
  {
    S1EqS2Canonical(closed);
    S1EqS2Values(closed);
    CombineIs(S1(closed), S2(closed), Eq, S1EqS2(closed));
  }

  lemma S1EqS2ExpectedSum(x: real)
    ensures 1.0 + LayerSum(x, S1EqS2ExpectedStarts(), S1EqS2ExpectedEnds(), S1EqS2ExpectedValues(), true) == S1EqS2Value(x)
  {
    var st, en, va := S1EqS2ExpectedStarts(), S1EqS2ExpectedEnds(), S1EqS2ExpectedValues();
    assert st[1..][1..] == [];
    assert en[1..][1..] == [];
    assert va[1..][1..] == [];
  }

  lemma S1EqS2ExpectedLayersAt(closed: Side, x: real)
    ensures Lookup(Constant(1.0, closed).initial, Constant(1.0, closed).steps, x, true) + LayerSum(x, S1EqS2ExpectedStarts(), S1EqS2ExpectedEnds(), S1EqS2ExpectedValues(), true)
         == Lookup(S1EqS2(closed).initial, S1EqS2(closed).steps, x, true)
  {
    S1EqS2ExpectedSum(x);
    S1EqS2At(closed, x);
  }

  lemma S1EqS2ExpectedLayersTo(closed: Side)
    ensures LayersTo(Constant(1.0, closed), S1EqS2ExpectedStarts(), S1EqS2ExpectedEnds(), S1EqS2ExpectedValues(), S1EqS2(closed))
  {
    forall x
      ensures Lookup(Constant(1.0, closed).initial, Constant(1.0, closed).steps, x, true) + LayerSum(x, S1EqS2ExpectedStarts(), S1EqS2ExpectedEnds(), S1EqS2ExpectedValues(), true)
           == Lookup(S1EqS2(closed).initial, S1EqS2(closed).steps, x, true)
    {
      S1EqS2ExpectedLayersAt(closed, x);
    }
  }

  /** The function the test builds for `s1 == s2` has this store. */
  lemma S1EqS2ExpectedLayered(closed: Side)
    ensures LayerAll(Constant(1.0, closed), S1EqS2ExpectedStarts(), S1EqS2ExpectedEnds(), S1EqS2ExpectedValues()) == S1EqS2(closed)
  {
    S1EqS2Canonical(closed);
    S1EqS2ExpectedLayersTo(closed);
    LayeredIs(Constant(1.0, closed), S1EqS2ExpectedStarts(), S1EqS2ExpectedEnds(), S1EqS2ExpectedValues(), S1EqS2(closed));
  }

  /** The layers of the expected result of `s1 != s2` (all on a constant 0.0). */
  function S1NeS2ExpectedStarts(): seq<Option<real>> { [Some(-4.0), Some(1.0)] }
  function S1NeS2ExpectedEnds(): seq<Option<real>> { [Some(-2.0), Some(10.0)] }
  function S1NeS2ExpectedValues(): seq<real> { [1.0, 1.0] }

  /** `s1 != s2` in canonical form. */
  function S1NeS2(closed: Side): StepFn
  {
    StepFn(0.0, closed, [Step(-4.0, 1.0), Step(-2.0, 0.0), Step(1.0, 1.0), Step(10.0, 0.0)])
  }

  function S1NeS2Value(x: real): real
  {
    if x < -4.0 then 0.0 else if x < -2.0 then 1.0 else if x < 1.0 then 0.0 else if x < 10.0 then 1.0 else 0.0
  }

  lemma S1NeS2Canonical(closed: Side)
    ensures Canonical(S1NeS2(closed))
  {
  }

  lemma S1NeS2At(closed: Side, x: real)
    ensures Lookup(S1NeS2(closed).initial, S1NeS2(closed).steps, x, true) == S1NeS2Value(x)
  {
    var s := S1NeS2(closed).steps;
    assert s[1..][1..][1..][1..] == [];
  }

  lemma S1NeS2Point(x: real)
    ensures Apply(Ne, S1Value(x, true), S2Value(x)) == S1NeS2Value(x)
  {
    if x < -4.0 {
    } else if x < -2.0 {
    } else if x < 1.0 {
    } else if x < 2.0 {
    } else if x < 2.5 {
    } else if x < 3.0 {
    } else if x < 4.0 {
    } else if x < 5.0 {
    } else if x < 6.0 {
    } else if x < 7.0 {
    } else if x < 8.0 {
    } else if x < 10.0 {
    } else {
    }
  }

  lemma S1NeS2Values(closed: Side)
    ensures CombinesTo(S1(closed), S2(closed), Ne, S1NeS2(closed))
  {
    forall x
      ensures Apply(Ne, Lookup(S1(closed).initial, S1(closed).steps, x, true), Lookup(S2(closed).initial, S2(closed).steps, x, true))
           == Lookup(S1NeS2(closed).initial, S1NeS2(closed).steps, x, true)
    {
      S1At(closed, x, true);
      S2At(closed, x);
      S1NeS2Point(x);
      S1NeS2At(closed, x);
    }
  }

  lemma S1NeS2Is(closed: Side)
    ensures Combine(S1(closed), S2(closed), Ne) == S1NeS2(closed)
  {
    S1NeS2Canonical(closed);
    S1NeS2Values(closed);
    CombineIs(S1(closed), S2(closed), Ne, S1NeS2(closed));
  }

  lemma S1NeS2ExpectedSum(x: real)
    ensures LayerSum(x, S1NeS2ExpectedStarts(), S1NeS2ExpectedEnds(), S1NeS2ExpectedValues(), true) == S1NeS2Value(x)
  {
    var st, en, va := S1NeS2ExpectedStarts(), S1NeS2ExpectedEnds(), S1NeS2ExpectedValues();
    assert st[1..][1..] == [];
    assert en[1..][1..] == [];
    assert va[1..][1..] == [];
  }

  lemma S1NeS2ExpectedLayersAt(closed: Side, x: real)
    ensures Lookup(Constant(0.0, closed).initial, Constant(0.0, closed).steps, x, true) + LayerSum(x, S1NeS2ExpectedStarts(), S1NeS2ExpectedEnds(), S1NeS2ExpectedValues(), true)
         == Lookup(S1NeS2(closed).initial, S1NeS2(closed).steps, x, true)
  {
    S1NeS2ExpectedSum(x);
    S1NeS2At(closed, x);
  }

  lemma S1NeS2ExpectedLayersTo(closed: Side)
    ensures LayersTo(Constant(0.0, closed), S1NeS2ExpectedStarts(), S1NeS2ExpectedEnds(), S1NeS2ExpectedValues(), S1NeS2(closed))
  {
    forall x
      ensures Lookup(Constant(0.0, closed).initial, Constant(0.0, closed).steps, x, true) + LayerSum(x, S1NeS2ExpectedStarts(), S1NeS2ExpectedEnds(), S1NeS2ExpectedValues(), true)
           == Lookup(S1NeS2(closed).initial, S1NeS2(closed).steps, x, true)
    {
      S1NeS2ExpectedLayersAt(closed, x);
    }
  }

  /** The function the test builds for `s1 != s2` has this store. */
  lemma S1NeS2ExpectedLayered(closed: Side)
    ensures LayerAll(Constant(0.0, closed), S1NeS2ExpectedStarts(), S1NeS2ExpectedEnds(), S1NeS2ExpectedValues()) == S1NeS2(closed)
  {
    S1NeS2Canonical(closed);
    S1NeS2ExpectedLayersTo(closed);
    LayeredIs(Constant(0.0, closed), S1NeS2ExpectedStarts(), S1NeS2ExpectedEnds(), S1NeS2ExpectedValues(), S1NeS2(closed));
  }

  /** The layers of the expected result of `s3 & s4` (all on a constant 0.0). */
  function S3AndS4ExpectedStarts(): seq<Option<real>> { [Some(-10.0), Some(-7.0), Some(-2.0), Some(3.5), Some(6.5)] }
  function S3AndS4ExpectedEnds(): seq<Option<real>> { [Some(-9.5), Some(-5.0), Some(0.0), Some(6.0), Some(7.0)] }
  function S3AndS4ExpectedValues(): seq<real> { [1.0, 1.0, 1.0, 1.0, 1.0] }

  /** `s3 & s4` in canonical form. */
  function S3AndS4(closed: Side): StepFn
  {
    StepFn(0.0, closed, [Step(-10.0, 1.0), Step(-9.5, 0.0), Step(-7.0, 1.0), Step(-5.0, 0.0), Step(-2.0, 1.0),
                         Step(0.0, 0.0), Step(3.5, 1.0), Step(6.0, 0.0), Step(6.5, 1.0), Step(7.0, 0.0)])
  }

  function S3AndS4Value(x: real): real
  {
    if x < -10.0 then 0.0 else if x < -9.5 then 1.0 else if x < -7.0 then 0.0 else if x < -5.0 then 1.0
    else if x < -2.0 then 0.0 else if x < 0.0 then 1.0 else if x < 3.5 then 0.0 else if x < 6.0 then 1.0
    else if x < 6.5 then 0.0 else if x < 7.0 then 1.0 else 0.0
  }

  lemma S3AndS4Canonical(closed: Side)
    ensures Canonical(S3AndS4(closed))
  {
  }

  /** The breakpoints of S3AndS4 after the first 5. */
  function S3AndS4Tail(): seq<Step>
  {
    [Step(0.0, 0.0), Step(3.5, 1.0), Step(6.0, 0.0), Step(6.5, 1.0), Step(7.0, 0.0)]
  }

  lemma S3AndS4Head(closed: Side, x: real)
    ensures Lookup(S3AndS4(closed).initial, S3AndS4(closed).steps, x, true)
         == if x < -2.0 then S3AndS4Value(x) else Lookup(1.0, S3AndS4Tail(), x, true)
  {
    var s := S3AndS4(closed).steps;
    assert s[1..][1..][1..][1..][1..] == S3AndS4Tail();
  }

  lemma S3AndS4TailAt(x: real)
    requires -2.0 <= x
    ensures Lookup(1.0, S3AndS4Tail(), x, true) == S3AndS4Value(x)
  {
    var s := S3AndS4Tail();
    assert s[1..][1..][1..][1..][1..] == [];
  }

  lemma S3AndS4At(closed: Side, x: real)
    ensures Lookup(S3AndS4(closed).initial, S3AndS4(closed).steps, x, true) == S3AndS4Value(x)
  {
    S3AndS4Head(closed, x);
    if -2.0 <= x {
      S3AndS4TailAt(x);
    }
  }

  lemma S3AndS4Point(x: real)
    ensures Apply(And, S3Value(x), S4Value(x)) == S3AndS4Value(x)
  {
    if x < -11.0 {
    } else if x < -10.0 {
    } else if x < -9.5 {
    } else if x < -8.0 {
    } else if x < -7.5 {
    } else if x < -7.0 {
    } else if x < -5.0 {
    } else if x < -2.0 {
    } else if x < 0.0 {
    } else if x < 0.5 {
    } else if x < 1.0 {
    } else if x < 3.0 {
    } else if x < 3.5 {
    } else if x < 6.0 {
    } else if x < 6.5 {
    } else if x < 7.0 {
    } else if x < 8.5 {
    } else if x < 9.0 {
    } else if x < 9.5 {
    } else if x < 10.0 {
    } else {
    }
  }

  lemma S3AndS4Values(closed: Side)
    ensures CombinesTo(S3(closed), S4(closed), And, S3AndS4(closed))
  {
    forall x
      ensures Apply(And, Lookup(S3(closed).initial, S3(closed).steps, x, true), Lookup(S4(closed).initial, S4(closed).steps, x, true))
           == Lookup(S3AndS4(closed).initial, S3AndS4(closed).steps, x, true)
    {
      S3At(closed, x);
      S4At(closed, x);
      S3AndS4Point(x);
      S3AndS4At(closed, x);
    }
  }

  lemma S3AndS4Is(closed: Side)
    ensures Combine(S3(closed), S4(closed), And) == S3AndS4(closed)
  {
    S3AndS4Canonical(closed);
    S3AndS4Values(closed);
    CombineIs(S3(closed), S4(closed), And, S3AndS4(closed));
  }

  lemma S3AndS4ExpectedSum(x: real)
    ensures LayerSum(x, S3AndS4ExpectedStarts(), S3AndS4ExpectedEnds(), S3AndS4ExpectedValues(), true) == S3AndS4Value(x)
  {
    var st, en, va := S3AndS4ExpectedStarts(), S3AndS4ExpectedEnds(), S3AndS4ExpectedValues();
    assert st[1..][1..][1..][1..][1..] == [];
    assert en[1..][1..][1..][1..][1..] == [];
    assert va[1..][1..][1..][1..][1..] == [];
  }

  lemma S3AndS4ExpectedLayersAt(closed: Side, x: real)
    ensures Lookup(Constant(0.0, closed).initial, Constant(0.0, closed).steps, x, true) + LayerSum(x, S3AndS4ExpectedStarts(), S3AndS4ExpectedEnds(), S3AndS4ExpectedValues(), true)
         == Lookup(S3AndS4(closed).initial, S3AndS4(closed).steps, x, true)
  {
    S3AndS4ExpectedSum(x);
    S3AndS4At(closed, x);
  }

  lemma S3AndS4ExpectedLayersTo(closed: Side)
    ensures LayersTo(Constant(0.0, closed), S3AndS4ExpectedStarts(), S3AndS4ExpectedEnds(), S3AndS4ExpectedValues(), S3AndS4(closed))
  {
    forall x
      ensures Lookup(Constant(0.0, closed).initial, Constant(0.0, closed).steps, x, true) + LayerSum(x, S3AndS4ExpectedStarts(), S3AndS4ExpectedEnds(), S3AndS4ExpectedValues(), true)
           == Lookup(S3AndS4(closed).initial, S3AndS4(closed).steps, x, true)
    {
      S3AndS4ExpectedLayersAt(closed, x);
    }
  }

  /** The function the test builds for `s3 & s4` has this store. */
  lemma S3AndS4ExpectedLayered(closed: Side)
    ensures LayerAll(Constant(0.0, closed), S3AndS4ExpectedStarts(), S3AndS4ExpectedEnds(), S3AndS4ExpectedValues()) == S3AndS4(closed)
  {
    S3AndS4Canonical(closed);
    S3AndS4ExpectedLayersTo(closed);
    LayeredIs(Constant(0.0, closed), S3AndS4ExpectedStarts(), S3AndS4ExpectedEnds(), S3AndS4ExpectedValues(), S3AndS4(closed));
  }

  /** The layers of the expected result of `s3 | s4` (all on a constant 0.0). */
  function S3OrS4ExpectedStarts(): seq<Option<real>> { [Some(-11.0), Some(-7.0), Some(1.0), Some(8.5), Some(9.5)] }
  function S3OrS4ExpectedEnds(): seq<Option<real>> { [Some(-7.5), Some(0.5), Some(7.0), Some(9.0), Some(10.0)] }
  function S3OrS4ExpectedValues(): seq<real> { [1.0, 1.0, 1.0, 1.0, 1.0] }

  /** `s3 | s4` in canonical form. */
  function S3OrS4(closed: Side): StepFn
  {
    StepFn(0.0, closed, [Step(-11.0, 1.0), Step(-7.5, 0.0), Step(-7.0, 1.0), Step(0.5, 0.0), Step(1.0, 1.0),
                         Step(7.0, 0.0), Step(8.5, 1.0), Step(9.0, 0.0), Step(9.5, 1.0), Step(10.0, 0.0)])
  }

  function S3OrS4Value(x: real): real
  {
    if x < -11.0 then 0.0 else if x < -7.5 then 1.0 else if x < -7.0 then 0.0 else if x < 0.5 then 1.0
    else if x < 1.0 then 0.0 else if x < 7.0 then 1.0 else if x < 8.5 then 0.0 else if x < 9.0 then 1.0
    else if x < 9.5 then 0.0 else if x < 10.0 then 1.0 else 0.0
  }

  lemma S3OrS4Canonical(closed: Side)
    ensures Canonical(S3OrS4(closed))
  {
  }

  /** The breakpoints of S3OrS4 after the first 5. */
  function S3OrS4Tail(): seq<Step>
  {
    [Step(7.0, 0.0), Step(8.5, 1.0), Step(9.0, 0.0), Step(9.5, 1.0), Step(10.0, 0.0)]
  }

  lemma S3OrS4Head(closed: Side, x: real)
    ensures Lookup(S3OrS4(closed).initial, S3OrS4(closed).steps, x, true)
         == if x < 1.0 then S3OrS4Value(x) else Lookup(1.0, S3OrS4Tail(), x, true)
  {
    var s := S3OrS4(closed).steps;
    assert s[1..][1..][1..][1..][1..] == S3OrS4Tail();
  }

  lemma S3OrS4TailAt(x: real)
    requires 1.0 <= x
    ensures Lookup(1.0, S3OrS4Tail(), x, true) == S3OrS4Value(x)
  {
    var s := S3OrS4Tail();
    assert s[1..][1..][1..][1..][1..] == [];
  }

  lemma S3OrS4At(closed: Side, x: real)
    ensures Lookup(S3OrS4(closed).initial, S3OrS4(closed).steps, x, true) == S3OrS4Value(x)
  {
    S3OrS4Head(closed, x);
    if 1.0 <= x {
      S3OrS4TailAt(x);
    }
  }

  lemma S3OrS4Point(x: real)
    ensures Apply(Or, S3Value(x), S4Value(x)) == S3OrS4Value(x)
  {
    if x < -11.0 {
    } else if x < -10.0 {
    } else if x < -9.5 {
    } else if x < -8.0 {
    } else if x < -7.5 {
    } else if x < -7.0 {
    } else if x < -5.0 {
    } else if x < -2.0 {
    } else if x < 0.0 {
    } else if x < 0.5 {
    } else if x < 1.0 {
    } else if x < 3.0 {
    } else if x < 3.5 {
    } else if x < 6.0 {
    } else if x < 6.5 {
    } else if x < 7.0 {
    } else if x < 8.5 {
    } else if x < 9.0 {
    } else if x < 9.5 {
    } else if x < 10.0 {
    } else {
    }
  }

  lemma S3OrS4Values(closed: Side)
    ensures CombinesTo(S3(closed), S4(closed), Or, S3OrS4(closed))
  {
    forall x
      ensures Apply(Or, Lookup(S3(closed).initial, S3(closed).steps, x, true), Lookup(S4(closed).initial, S4(closed).steps, x, true))
           == Lookup(S3OrS4(closed).initial, S3OrS4(closed).steps, x, true)
    {
      S3At(closed, x);
      S4At(closed, x);
      S3OrS4Point(x);
      S3OrS4At(closed, x);
    }
  }

  lemma S3OrS4Is(closed: Side)
    ensures Combine(S3(closed), S4(closed), Or) == S3OrS4(closed)
  {
    S3OrS4Canonical(closed);
    S3OrS4Values(closed);
    CombineIs(S3(closed), S4(closed), Or, S3OrS4(closed));
  }

  lemma S3OrS4ExpectedSum(x: real)
    ensures LayerSum(x, S3OrS4ExpectedStarts(), S3OrS4ExpectedEnds(), S3OrS4ExpectedValues(), true) == S3OrS4Value(x)
  {
    var st, en, va := S3OrS4ExpectedStarts(), S3OrS4ExpectedEnds(), S3OrS4ExpectedValues();
    assert st[1..][1..][1..][1..][1..] == [];
    assert en[1..][1..][1..][1..][1..] == [];
    assert va[1..][1..][1..][1..][1..] == [];
  }

  lemma S3OrS4ExpectedLayersAt(closed: Side, x: real)
    ensures Lookup(Constant(0.0, closed).initial, Constant(0.0, closed).steps, x, true) + LayerSum(x, S3OrS4ExpectedStarts(), S3OrS4ExpectedEnds(), S3OrS4ExpectedValues(), true)
         == Lookup(S3OrS4(closed).initial, S3OrS4(closed).steps, x, true)
  {
    S3OrS4ExpectedSum(x);
    S3OrS4At(closed, x);
  }

  lemma S3OrS4ExpectedLayersTo(closed: Side)
    ensures LayersTo(Constant(0.0, closed), S3OrS4ExpectedStarts(), S3OrS4ExpectedEnds(), S3OrS4ExpectedValues(), S3OrS4(closed))
  {
    forall x
      ensures Lookup(Constant(0.0, closed).initial, Constant(0.0, closed).steps, x, true) + LayerSum(x, S3OrS4ExpectedStarts(), S3OrS4ExpectedEnds(), S3OrS4ExpectedValues(), true)
           == Lookup(S3OrS4(closed).initial, S3OrS4(closed).steps, x, true)
    {
      S3OrS4ExpectedLayersAt(closed, x);
    }
  }

  /** The function the test builds for `s3 | s4` has this store. */
  lemma S3OrS4ExpectedLayered(closed: Side)
    ensures LayerAll(Constant(0.0, closed), S3OrS4ExpectedStarts(), S3OrS4ExpectedEnds(), S3OrS4ExpectedValues()) == S3OrS4(closed)
  {
    S3OrS4Canonical(closed);
    S3OrS4ExpectedLayersTo(closed);
    LayeredIs(Constant(0.0, closed), S3OrS4ExpectedStarts(), S3OrS4ExpectedEnds(), S3OrS4ExpectedValues(), S3OrS4(closed));
  }

  /** The layers of the expected result of `s2.make_boolean()` (all on a constant 0.0). */
  function S2BooleanExpectedStarts(): seq<Option<real>> { [Some(-2.0), Some(8.0)] }
  function S2BooleanExpectedEnds(): seq<Option<real>> { [Some(7.0), Some(10.0)] }
  function S2BooleanExpectedValues(): seq<real> { [1.0, 1.0] }

  /** `s2.make_boolean()` in canonical form. */
  function S2Boolean(closed: Side): StepFn
  {
    StepFn(0.0, closed, [Step(-2.0, 1.0), Step(7.0, 0.0), Step(8.0, 1.0), Step(10.0, 0.0)])
  }

  function S2BooleanValue(x: real): real
  {
    if x < -2.0 then 0.0 else if x < 7.0 then 1.0 else if x < 8.0 then 0.0 else if x < 10.0 then 1.0 else 0.0
  }

  lemma S2BooleanCanonical(closed: Side)
    ensures Canonical(S2Boolean(closed))
  {
  }

  lemma S2BooleanAt(closed: Side, x: real)
    ensures Lookup(S2Boolean(closed).initial, S2Boolean(closed).steps, x, true) == S2BooleanValue(x)
  {
    var s := S2Boolean(closed).steps;
    assert s[1..][1..][1..][1..] == [];
  }

  lemma S2BooleanPoint(x: real)
    ensures Indicator(S2Value(x) != 0.0) == S2BooleanValue(x)
  {
    if x < -2.0 {
    } else if x < 1.0 {
    } else if x < 2.0 {
    } else if x < 2.5 {
    } else if x < 4.0 {
    } else if x < 5.0 {
    } else if x < 7.0 {
    } else if x < 8.0 {
    } else if x < 10.0 {
    } else {
    }
  }

  lemma S2BooleanValues(closed: Side)
    ensures BooleanOf(S2(closed), S2Boolean(closed))
  {
    forall x ensures Indicator(Lookup(S2(closed).initial, S2(closed).steps, x, true) != 0.0) == Lookup(S2Boolean(closed).initial, S2Boolean(closed).steps, x, true) {
      S2At(closed, x);
      S2BooleanPoint(x);
      S2BooleanAt(closed, x);
    }
  }

  lemma S2BooleanIs(closed: Side)
    ensures MakeBoolean(S2(closed)) == S2Boolean(closed)
  {
    S2BooleanCanonical(closed);
    S2BooleanValues(closed);
    MakeBooleanIs(S2(closed), S2Boolean(closed));
  }

  lemma S2BooleanExpectedSum(x: real)
    ensures LayerSum(x, S2BooleanExpectedStarts(), S2BooleanExpectedEnds(), S2BooleanExpectedValues(), true) == S2BooleanValue(x)
  {
    var st, en, va := S2BooleanExpectedStarts(), S2BooleanExpectedEnds(), S2BooleanExpectedValues();
    assert st[1..][1..] == [];
    assert en[1..][1..] == [];
    assert va[1..][1..] == [];
  }

  lemma S2BooleanExpectedLayersAt(closed: Side, x: real)
    ensures Lookup(Constant(0.0, closed).initial, Constant(0.0, closed).steps, x, true) + LayerSum(x, S2BooleanExpectedStarts(), S2BooleanExpectedEnds(), S2BooleanExpectedValues(), true)
         == Lookup(S2Boolean(closed).initial, S2Boolean(closed).steps, x, true)
  {
    S2BooleanExpectedSum(x);
    S2BooleanAt(closed, x);
  }

  lemma S2BooleanExpectedLayersTo(closed: Side)
    ensures LayersTo(Constant(0.0, closed), S2BooleanExpectedStarts(), S2BooleanExpectedEnds(), S2BooleanExpectedValues(), S2Boolean(closed))
  {
    forall x
      ensures Lookup(Constant(0.0, closed).initial, Constant(0.0, closed).steps, x, true) + LayerSum(x, S2BooleanExpectedStarts(), S2BooleanExpectedEnds(), S2BooleanExpectedValues(), true)
           == Lookup(S2Boolean(closed).initial, S2Boolean(closed).steps, x, true)
    {
      S2BooleanExpectedLayersAt(closed, x);
    }
  }

  /** The function the test builds for `s2.make_boolean()` has this store. */
  lemma S2BooleanExpectedLayered(closed: Side)
    ensures LayerAll(Constant(0.0, closed), S2BooleanExpectedStarts(), S2BooleanExpectedEnds(), S2BooleanExpectedValues()) == S2Boolean(closed)
  {
    S2BooleanCanonical(closed);
    S2BooleanExpectedLayersTo(closed);
    LayeredIs(Constant(0.0, closed), S2BooleanExpectedStarts(), S2BooleanExpectedEnds(), S2BooleanExpectedValues(), S2Boolean(closed));
  }

  /** The layers of the expected result of `~s2` (all on a constant 1.0). */
  function S2InvertedExpectedStarts(): seq<Option<real>> { [Some(-2.0), Some(8.0)] }
  function S2InvertedExpectedEnds(): seq<Option<real>> { [Some(7.0), Some(10.0)] }
  function S2InvertedExpectedValues(): seq<real> { [-1.0, -1.0] }

  /** `~s2` in canonical form. */
  function S2Inverted(closed: Side): StepFn
  {
    StepFn(1.0, closed, [Step(-2.0, 0.0), Step(7.0, 1.0), Step(8.0, 0.0), Step(10.0, 1.0)])
  }

  function S2InvertedValue(x: real): real
  {
    if x < -2.0 then 1.0 else if x < 7.0 then 0.0 else if x < 8.0 then 1.0 else if x < 10.0 then 0.0 else 1.0
  }

  lemma S2InvertedCanonical(closed: Side)
    ensures Canonical(S2Inverted(closed))
  {
  }

  lemma S2InvertedAt(closed: Side, x: real)
    ensures Lookup(S2Inverted(closed).initial, S2Inverted(closed).steps, x, true) == S2InvertedValue(x)
  {
    var s := S2Inverted(closed).steps;
    assert s[1..][1..][1..][1..] == [];
  }

  lemma S2InvertedPoint(x: real)
    ensures Indicator(S2Value(x) == 0.0) == S2InvertedValue(x)
  {
    if x < -2.0 {
    } else if x < 1.0 {
    } else if x < 2.0 {
    } else if x < 2.5 {
    } else if x < 4.0 {
    } else if x < 5.0 {
    } else if x < 7.0 {
    } else if x < 8.0 {
    } else if x < 10.0 {
    } else {
    }
  }

  lemma S2InvertedValues(closed: Side)
    ensures InverseOf(S2(closed), S2Inverted(closed))
  {
    forall x ensures Indicator(Lookup(S2(closed).initial, S2(closed).steps, x, true) == 0.0) == Lookup(S2Inverted(closed).initial, S2Inverted(closed).steps, x, true) {
      S2At(closed, x);
      S2InvertedPoint(x);
      S2InvertedAt(closed, x);
    }
  }

  lemma S2InvertedIs(closed: Side)
    ensures Invert(S2(closed)) == S2Inverted(closed)
  {
    S2InvertedCanonical(closed);
    S2InvertedValues(closed);
    InvertIs(S2(closed), S2Inverted(closed));
  }

  lemma S2InvertedExpectedSum(x: real)
    ensures 1.0 + LayerSum(x, S2InvertedExpectedStarts(), S2InvertedExpectedEnds(), S2InvertedExpectedValues(), true) == S2InvertedValue(x)
  {
    var st, en, va := S2InvertedExpectedStarts(), S2InvertedExpectedEnds(), S2InvertedExpectedValues();
    assert st[1..][1..] == [];
    assert en[1..][1..] == [];
    assert va[1..][1..] == [];
  }

  lemma S2InvertedExpectedLayersAt(closed: Side, x: real)
    ensures Lookup(Constant(1.0, closed).initial, Constant(1.0, closed).steps, x, true) + LayerSum(x, S2InvertedExpectedStarts(), S2InvertedExpectedEnds(), S2InvertedExpectedValues(), true)
         == Lookup(S2Inverted(closed).initial, S2Inverted(closed).steps, x, true)
  {
    S2InvertedExpectedSum(x);
    S2InvertedAt(closed, x);
  }

  lemma S2InvertedExpectedLayersTo(closed: Side)
    ensures LayersTo(Constant(1.0, closed), S2InvertedExpectedStarts(), S2InvertedExpectedEnds(), S2InvertedExpectedValues(), S2Inverted(closed))
  {
    forall x
      ensures Lookup(Constant(1.0, closed).initial, Constant(1.0, closed).steps, x, true) + LayerSum(x, S2InvertedExpectedStarts(), S2InvertedExpectedEnds(), S2InvertedExpectedValues(), true)
           == Lookup(S2Inverted(closed).initial, S2Inverted(closed).steps, x, true)
    {
      S2InvertedExpectedLayersAt(closed, x);
    }
  }

  /** The function the test builds for `~s2` has this store. */
  lemma S2InvertedExpectedLayered(closed: Side)
    ensures LayerAll(Constant(1.0, closed), S2InvertedExpectedStarts(), S2InvertedExpectedEnds(), S2InvertedExpectedValues()) == S2Inverted(closed)
  {
    S2InvertedCanonical(closed);
    S2InvertedExpectedLayersTo(closed);
    LayeredIs(Constant(1.0, closed), S2InvertedExpectedStarts(), S2InvertedExpectedEnds(), S2InvertedExpectedValues(), S2Inverted(closed));
  }

  /** `s1 < s2` is identical to the expected function of the test. */
  lemma S1LtS2Matches(closed: Side)
    ensures Combine(S1(closed), S2(closed), Lt) == LayerAll(Constant(0.0, closed), S1LtS2ExpectedStarts(), S1LtS2ExpectedEnds(), S1LtS2ExpectedValues())
  {
    S1LtS2Is(closed);
    S1LtS2ExpectedLayered(closed);
  }

  /** `s1 > s2` is identical to the expected function of the test. */
  lemma S1GtS2Matches(closed: Side)
    ensures Combine(S1(closed), S2(closed), Gt) == LayerAll(Constant(0.0, closed), S1GtS2ExpectedStarts(), S1GtS2ExpectedEnds(), S1GtS2ExpectedValues())
  {
    S1GtS2Is(closed);
    S1GtS2ExpectedLayered(closed);
  }

  /** `s1 <= s2` is identical to the expected function of the test. */
  lemma S1LeS2Matches(closed: Side)
    ensures Combine(S1(closed), S2(closed), Le) == LayerAll(Constant(1.0, closed), S1LeS2ExpectedStarts(), S1LeS2ExpectedEnds(), S1LeS2ExpectedValues())
  {
    S1LeS2Is(closed);
    S1LeS2ExpectedLayered(closed);
  }

  /** `s1 >= s2` is identical to the expected function of the test. */
  lemma S1GeS2Matches(closed: Side)
    ensures Combine(S1(closed), S2(closed), Ge) == LayerAll(Constant(1.0, closed), S1GeS2ExpectedStarts(), S1GeS2ExpectedEnds(), S1GeS2ExpectedValues())
  {
    S1GeS2Is(closed);
    S1GeS2ExpectedLayered(closed);
  }

  /** `s1 == s2` is identical to the expected function of the test. */
  lemma S1EqS2Matches(closed: Side)
    ensures Combine(S1(closed), S2(closed), Eq) == LayerAll(Constant(1.0, closed), S1EqS2ExpectedStarts(), S1EqS2ExpectedEnds(), S1EqS2ExpectedValues())
  {
    S1EqS2Is(closed);
    S1EqS2ExpectedLayered(closed);
  }

  /** `s1 != s2` is identical to the expected function of the test. */
  lemma S1NeS2Matches(closed: Side)
    ensures Combine(S1(closed), S2(closed), Ne) == LayerAll(Constant(0.0, closed), S1NeS2ExpectedStarts(), S1NeS2ExpectedEnds(), S1NeS2ExpectedValues())
  {
    S1NeS2Is(closed);
    S1NeS2ExpectedLayered(closed);
  }

  /** `s3 & s4` is identical to the expected function of the test. */
  lemma S3AndS4Matches(closed: Side)
    ensures Combine(S3(closed), S4(closed), And) == LayerAll(Constant(0.0, closed), S3AndS4ExpectedStarts(), S3AndS4ExpectedEnds(), S3AndS4ExpectedValues())
  {
    S3AndS4Is(closed);
    S3AndS4ExpectedLayered(closed);
  }

  /** `s3 | s4` is identical to the expected function of the test. */
  lemma S3OrS4Matches(closed: Side)
    ensures Combine(S3(closed), S4(closed), Or) == LayerAll(Constant(0.0, closed), S3OrS4ExpectedStarts(), S3OrS4ExpectedEnds(), S3OrS4ExpectedValues())
  {
    S3OrS4Is(closed);
    S3OrS4ExpectedLayered(closed);
  }

  /** `s2.make_boolean()` is identical to the expected function of the test. */
  lemma S2BooleanMatches(closed: Side)
    ensures MakeBoolean(S2(closed)) == LayerAll(Constant(0.0, closed), S2BooleanExpectedStarts(), S2BooleanExpectedEnds(), S2BooleanExpectedValues())
  {
    S2BooleanIs(closed);
    S2BooleanExpectedLayered(closed);
  }

  /** `~s2` is identical to the expected function of the test. */
  lemma S2InvertedMatches(closed: Side)
    ensures Invert(S2(closed)) == LayerAll(Constant(1.0, closed), S2InvertedExpectedStarts(), S2InvertedExpectedEnds(), S2InvertedExpectedValues())
  {
    S2InvertedIs(closed);
    S2InvertedExpectedLayered(closed);
  }
}
