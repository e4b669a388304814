/**
 * The arithmetic results the test suite asserts for s1 and s2: the sum, the
 * product, the quotient by s2 + 1 and `diff(1)`, each as its canonical store
 * and its `step_changes`.
 */
module ArithmeticFixtures {
  import opened StepFunction
  import opened Algebra
  import opened Fixtures
  import opened OperandFixtures

  /** s1 + s2 in canonical form. */
  function S1PlusS2(closed: Side): StepFn
  {
    StepFn(0.0, closed, [Step(-4.0, -1.75), Step(-2.0, -3.5), Step(1.0, -2.25), Step(2.0, 2.25), Step(2.5, -0.25),
                         Step(3.0, 2.25), Step(4.0, 4.75), Step(5.0, -0.5), Step(6.0, -3.0), Step(7.0, -0.5),
                         Step(8.0, 4.5), Step(10.0, 0.0)])
  }

  function S1PlusS2Value(x: real): real
  {
    if x < -4.0 then 0.0 else if x < -2.0 then -1.75 else if x < 1.0 then -3.5 else if x < 2.0 then -2.25
    else if x < 2.5 then 2.25 else if x < 3.0 then -0.25 else if x < 4.0 then 2.25 else if x < 5.0 then 4.75
    else if x < 6.0 then -0.5 else if x < 7.0 then -3.0 else if x < 8.0 then -0.5 else if x < 10.0 then 4.5 else 0.0
  }

  lemma S1PlusS2Canonical(closed: Side)
    ensures Canonical(S1PlusS2(closed))
  {
  }

  /** The breakpoints of S1PlusS2 after the first 6. */
  function S1PlusS2Tail(): seq<Step>
  {
    [Step(4.0, 4.75), Step(5.0, -0.5), Step(6.0, -3.0), Step(7.0, -0.5), Step(8.0, 4.5),
     Step(10.0, 0.0)]
  }

  lemma S1PlusS2Head(closed: Side, x: real)
    ensures Lookup(S1PlusS2(closed).initial, S1PlusS2(closed).steps, x, true)
         == if x < 3.0 then S1PlusS2Value(x) else Lookup(2.25, S1PlusS2Tail(), x, true)
  {
    var s := S1PlusS2(closed).steps;
    assert s[1..][1..][1..][1..][1..][1..] == S1PlusS2Tail();
  }

  lemma S1PlusS2TailAt(x: real)
    requires 3.0 <= x
    ensures Lookup(2.25, S1PlusS2Tail(), x, true) == S1PlusS2Value(x)
  {
    var s := S1PlusS2Tail();
    assert s[1..][1..][1..][1..][1..][1..] == [];
  }

  lemma S1PlusS2At(closed: Side, x: real)
    ensures Lookup(S1PlusS2(closed).initial, S1PlusS2(closed).steps, x, true) == S1PlusS2Value(x)
  {
    S1PlusS2Head(closed, x);
    if 3.0 <= x {
      S1PlusS2TailAt(x);
    }
  }

  lemma S1PlusS2Changes(closed: Side)
    ensures StepChanges(S1PlusS2(closed))
         == [Change(-4.0, -1.75), Change(-2.0, -1.75), Change(1.0, 1.25), Change(2.0, 4.5), Change(2.5, -2.5),
            Change(3.0, 2.5), Change(4.0, 2.5), Change(5.0, -5.25), Change(6.0, -2.5), Change(7.0, 2.5),
            Change(8.0, 5.0), Change(10.0, -4.5)]
  {
  }

  /** s1 * s2 in canonical form. */
  function S1TimesS2(closed: Side): StepFn
  {
    StepFn(0.0, closed, [Step(-2.0, 3.0625), Step(1.0, -0.625), Step(2.0, 0.5), Step(2.5, -0.125), Step(3.0, -1.375),
                         Step(4.0, 5.5), Step(5.0, -5.0), Step(6.0, 1.25), Step(7.0, 0.0), Step(8.0, -2.5),
                         Step(10.0, 0.0)])
  }

  function S1TimesS2Value(x: real): real
  {
    if x < -2.0 then 0.0 else if x < 1.0 then 3.0625 else if x < 2.0 then -0.625 else if x < 2.5 then 0.5
    else if x < 3.0 then -0.125 else if x < 4.0 then -1.375 else if x < 5.0 then 5.5 else if x < 6.0 then -5.0
    else if x < 7.0 then 1.25 else if x < 8.0 then 0.0 else if x < 10.0 then -2.5 else 0.0
  }

  lemma S1TimesS2Canonical(closed: Side)
    ensures Canonical(S1TimesS2(closed))
  {
  }

  /** The breakpoints of S1TimesS2 after the first 5. */
  function S1TimesS2Tail(): seq<Step>
  {
    [Step(4.0, 5.5), Step(5.0, -5.0), Step(6.0, 1.25), Step(7.0, 0.0), Step(8.0, -2.5),
     Step(10.0, 0.0)]
  }

  lemma S1TimesS2Head(closed: Side, x: real)
    ensures Lookup(S1TimesS2(closed).initial, S1TimesS2(closed).steps, x, true)
         == if x < 3.0 then S1TimesS2Value(x) else Lookup(-1.375, S1TimesS2Tail(), x, true)
  {
    var s := S1TimesS2(closed).steps;
    assert s[1..][1..][1..][1..][1..] == S1TimesS2Tail();
  }

  lemma S1TimesS2TailAt(x: real)
    requires 3.0 <= x
    ensures Lookup(-1.375, S1TimesS2Tail(), x, true) == S1TimesS2Value(x)
  {
    var s := S1TimesS2Tail();
    assert s[1..][1..][1..][1..][1..][1..] == [];
  }

  lemma S1TimesS2At(closed: Side, x: real)
    ensures Lookup(S1TimesS2(closed).initial, S1TimesS2(closed).steps, x, true) == S1TimesS2Value(x)
  {
    S1TimesS2Head(closed, x);
    if 3.0 <= x {
      S1TimesS2TailAt(x);
    }
  }

  lemma S1TimesS2Changes(closed: Side)
    ensures StepChanges(S1TimesS2(closed))
         == [Change(-2.0, 3.0625), Change(1.0, -3.6875), Change(2.0, 1.125), Change(2.5, -0.625), Change(3.0, -1.25),
            Change(4.0, 6.875), Change(5.0, -10.5), Change(6.0, 6.25), Change(7.0, -1.25), Change(8.0, -2.5),
            Change(10.0, 2.5)]
  {
  }

  /** s2 + 1: every value of s2 moved up by 1, which is never 0. */
  function S2PlusOne(closed: Side): StepFn
  {
    StepFn(1.0, closed, [Step(-2.0, -0.75), Step(1.0, -1.5), Step(2.0, 3.0), Step(2.5, 0.5), Step(4.0, 3.0),
                         Step(5.0, -1.5), Step(7.0, 1.0), Step(8.0, 6.0), Step(10.0, 1.0)])
  }

  function S2PlusOneValue(x: real): real
  {
    if x < -2.0 then 1.0 else if x < 1.0 then -0.75 else if x < 2.0 then -1.5 else if x < 2.5 then 3.0
    else if x < 4.0 then 0.5 else if x < 5.0 then 3.0 else if x < 7.0 then -1.5 else if x < 8.0 then 1.0
    else if x < 10.0 then 6.0 else 1.0
  }

  lemma S2PlusOneCanonical(closed: Side)
    ensures Canonical(S2PlusOne(closed))
  {
  }

  /** The breakpoints of S2PlusOne after the first 4. */
  function S2PlusOneTail(): seq<Step>
  {
    [Step(4.0, 3.0), Step(5.0, -1.5), Step(7.0, 1.0), Step(8.0, 6.0), Step(10.0, 1.0)]
  }

  lemma S2PlusOneHead(closed: Side, x: real)
    ensures Lookup(S2PlusOne(closed).initial, S2PlusOne(closed).steps, x, true)
         == if x < 2.5 then S2PlusOneValue(x) else Lookup(0.5, S2PlusOneTail(), x, true)
  {
    var s := S2PlusOne(closed).steps;
    assert s[1..][1..][1..][1..] == S2PlusOneTail();
  }

  lemma S2PlusOneTailAt(x: real)
    requires 2.5 <= x
    ensures Lookup(0.5, S2PlusOneTail(), x, true) == S2PlusOneValue(x)
  {
    var s := S2PlusOneTail();
    assert s[1..][1..][1..][1..][1..] == [];
  }

  lemma S2PlusOneAt(closed: Side, x: real)
    ensures Lookup(S2PlusOne(closed).initial, S2PlusOne(closed).steps, x, true) == S2PlusOneValue(x)
  {
    S2PlusOneHead(closed, x);
    if 2.5 <= x {
      S2PlusOneTailAt(x);
    }
  }

  /** s1 / (s2 + 1) in canonical form, with exact quotients. */
  function S1OverS2PlusOne(closed: Side): StepFn
  {
    StepFn(0.0, closed, [Step(-4.0, -1.75), Step(-2.0, (7.0 / 3.0)), Step(1.0, (-1.0 / 6.0)), Step(2.0, (1.0 / 12.0)), Step(2.5, 0.5),
                         Step(3.0, 5.5), Step(4.0, (11.0 / 12.0)), Step(5.0, (-4.0 / 3.0)), Step(6.0, (1.0 / 3.0)), Step(7.0, -0.5),
                         Step(8.0, (-1.0 / 12.0)), Step(10.0, 0.0)])
  }

  function S1OverS2PlusOneValue(x: real): real
  {
    if x < -4.0 then 0.0 else if x < -2.0 then -1.75 else if x < 1.0 then (7.0 / 3.0) else if x < 2.0 then (-1.0 / 6.0)
    else if x < 2.5 then (1.0 / 12.0) else if x < 3.0 then 0.5 else if x < 4.0 then 5.5 else if x < 5.0 then (11.0 / 12.0)
    else if x < 6.0 then (-4.0 / 3.0) else if x < 7.0 then (1.0 / 3.0) else if x < 8.0 then -0.5 else if x < 10.0 then (-1.0 / 12.0) else 0.0
  }

  lemma S1OverS2PlusOneCanonical(closed: Side)
    ensures Canonical(S1OverS2PlusOne(closed))
  {
  }

  /** The breakpoints of S1OverS2PlusOne after the first 6. */
  function S1OverS2PlusOneTail(): seq<Step>
  {
    [Step(4.0, (11.0 / 12.0)), Step(5.0, (-4.0 / 3.0)), Step(6.0, (1.0 / 3.0)), Step(7.0, -0.5), Step(8.0, (-1.0 / 12.0)),
     Step(10.0, 0.0)]
  }

  lemma S1OverS2PlusOneHead(closed: Side, x: real)
    ensures Lookup(S1OverS2PlusOne(closed).initial, S1OverS2PlusOne(closed).steps, x, true)
         == if x < 3.0 then S1OverS2PlusOneValue(x) else Lookup(5.5, S1OverS2PlusOneTail(), x, true)
  {
    var s := S1OverS2PlusOne(closed).steps;
    assert s[1..][1..][1..][1..][1..][1..] == S1OverS2PlusOneTail();
  }

  lemma S1OverS2PlusOneTailAt(x: real)
    requires 3.0 <= x
    ensures Lookup(5.5, S1OverS2PlusOneTail(), x, true) == S1OverS2PlusOneValue(x)
  {
    var s := S1OverS2PlusOneTail();
    assert s[1..][1..][1..][1..][1..][1..] == [];
  }

  lemma S1OverS2PlusOneAt(closed: Side, x: real)
    ensures Lookup(S1OverS2PlusOne(closed).initial, S1OverS2PlusOne(closed).steps, x, true) == S1OverS2PlusOneValue(x)
  {
    S1OverS2PlusOneHead(closed, x);
    if 3.0 <= x {
      S1OverS2PlusOneTailAt(x);
    }
  }

  lemma S1OverS2PlusOneChanges(closed: Side)
    ensures StepChanges(S1OverS2PlusOne(closed))
         == [Change(-4.0, -1.75), Change(-2.0, (49.0 / 12.0)), Change(1.0, -2.5), Change(2.0, 0.25), Change(2.5, (5.0 / 12.0)),
            Change(3.0, 5.0), Change(4.0, (-55.0 / 12.0)), Change(5.0, -2.25), Change(6.0, (5.0 / 3.0)), Change(7.0, (-5.0 / 6.0)),
            Change(8.0, (5.0 / 12.0)), Change(10.0, (1.0 / 12.0))]
  {
  }

  /** s1.diff(1), that is x |-> s1(x) - s1(x - 1), in canonical form. */
  function S1Diff(closed: Side): StepFn
  {
    StepFn(0.0, closed, [Step(-4.0, -1.75), Step(-3.0, 0.0), Step(1.0, 2.0), Step(2.0, 0.0), Step(3.0, 2.5),
                         Step(4.0, 0.0), Step(5.0, -0.75), Step(6.0, -2.5), Step(7.0, 0.0), Step(10.0, 0.5),
                         Step(11.0, 0.0)])
  }

  function S1DiffValue(x: real): real
  {
    if x < -4.0 then 0.0 else if x < -3.0 then -1.75 else if x < 1.0 then 0.0 else if x < 2.0 then 2.0
    else if x < 3.0 then 0.0 else if x < 4.0 then 2.5 else if x < 5.0 then 0.0 else if x < 6.0 then -0.75
    else if x < 7.0 then -2.5 else if x < 10.0 then 0.0 else if x < 11.0 then 0.5 else 0.0
  }

  lemma S1DiffCanonical(closed: Side)
    ensures Canonical(S1Diff(closed))
  {
  }

  /** The breakpoints of S1Diff after the first 5. */
  function S1DiffTail(): seq<Step>
  {
    [Step(4.0, 0.0), Step(5.0, -0.75), Step(6.0, -2.5), Step(7.0, 0.0), Step(10.0, 0.5),
     Step(11.0, 0.0)]
  }

  lemma S1DiffHead(closed: Side, x: real)
    ensures Lookup(S1Diff(closed).initial, S1Diff(closed).steps, x, true)
         == if x < 3.0 then S1DiffValue(x) else Lookup(2.5, S1DiffTail(), x, true)
  {
    var s := S1Diff(closed).steps;
    assert s[1..][1..][1..][1..][1..] == S1DiffTail();
  }

  lemma S1DiffTailAt(x: real)
    requires 3.0 <= x
    ensures Lookup(2.5, S1DiffTail(), x, true) == S1DiffValue(x)
  {
    var s := S1DiffTail();
    assert s[1..][1..][1..][1..][1..][1..] == [];
  }

  lemma S1DiffAt(closed: Side, x: real)
    ensures Lookup(S1Diff(closed).initial, S1Diff(closed).steps, x, true) == S1DiffValue(x)
  {
    S1DiffHead(closed, x);
    if 3.0 <= x {
      S1DiffTailAt(x);
    }
  }

  lemma S1DiffChanges(closed: Side)
    ensures StepChanges(S1Diff(closed))
         == [Change(-4.0, -1.75), Change(-3.0, 1.75), Change(1.0, 2.0), Change(2.0, -2.0), Change(3.0, 2.5),
            Change(4.0, -2.5), Change(5.0, -0.75), Change(6.0, -1.75), Change(7.0, 2.5), Change(10.0, 0.5),
            Change(11.0, -0.5)]
  {
  }

  lemma S1PlusS2Point(x: real)
    ensures Apply(Add, S1Value(x, true), S2Value(x)) == S1PlusS2Value(x)
  {
    if x < -4.0 {
    } else if x < -2.0 {
    } else if x < 1.0 {
    } else if x < 2.0 {
    } else if x < 2.5 {
    } else if x < 3.0 {
    } else if x < 4.0 {
    } else if x < 5.0 {
    } else if x < 6.0 {
    } else if x < 7.0 {
    } else if x < 8.0 {
    } else if x < 10.0 {
    } else {
    }
  }

  lemma S1PlusS2Values(closed: Side)
    ensures CombinesTo(S1(closed), S2(closed), Add, S1PlusS2(closed))
  {
    forall x
      ensures Apply(Add, Lookup(S1(closed).initial, S1(closed).steps, x, true), Lookup(S2(closed).initial, S2(closed).steps, x, true))
           == Lookup(S1PlusS2(closed).initial, S1PlusS2(closed).steps, x, true)
    {
      S1At(closed, x, true);
      S2At(closed, x);
      S1PlusS2Point(x);
      S1PlusS2At(closed, x);
    }
  }

  lemma S1TimesS2Point(x: real)
    ensures Apply(Mul, S1Value(x, true), S2Value(x)) == S1TimesS2Value(x)
  {
    if x < -4.0 {
    } else if x < -2.0 {
    } else if x < 1.0 {
    } else if x < 2.0 {
    } else if x < 2.5 {
    } else if x < 3.0 {
    } else if x < 4.0 {
    } else if x < 5.0 {
    } else if x < 6.0 {
    } else if x < 7.0 {
    } else if x < 8.0 {
    } else if x < 10.0 {
    } else {
    }
  }

  lemma S1TimesS2Values(closed: Side)
    ensures CombinesTo(S1(closed), S2(closed), Mul, S1TimesS2(closed))
  {
    forall x
      ensures Apply(Mul, Lookup(S1(closed).initial, S1(closed).steps, x, true), Lookup(S2(closed).initial, S2(closed).steps, x, true))
           == Lookup(S1TimesS2(closed).initial, S1TimesS2(closed).steps, x, true)
    {
      S1At(closed, x, true);
      S2At(closed, x);
      S1TimesS2Point(x);
      S1TimesS2At(closed, x);
    }
  }

  lemma S2PlusOneValues(closed: Side)
    ensures CombinesTo(S2(closed), Constant(1.0, closed), Add, S2PlusOne(closed))
  {
    forall x
      ensures Apply(Add, Lookup(S2(closed).initial, S2(closed).steps, x, true), Lookup(Constant(1.0, closed).initial, Constant(1.0, closed).steps, x, true))
           == Lookup(S2PlusOne(closed).initial, S2PlusOne(closed).steps, x, true)
    {
      S2At(closed, x);
      S2PlusOneAt(closed, x);
    }
  }

  lemma S1OverS2PlusOnePoint(x: real)
    ensures Apply(Div, S1Value(x, true), S2PlusOneValue(x)) == S1OverS2PlusOneValue(x)
  {
    if x < -4.0 {
    } else if x < -2.0 {
    } else if x < 1.0 {
    } else if x < 2.0 {
    } else if x < 2.5 {
    } else if x < 3.0 {
    } else if x < 4.0 {
    } else if x < 5.0 {
    } else if x < 6.0 {
    } else if x < 7.0 {
    } else if x < 8.0 {
    } else if x < 10.0 {
    } else {
    }
  }

  lemma S1OverS2PlusOneValues(closed: Side)
    ensures CombinesTo(S1(closed), S2PlusOne(closed), Div, S1OverS2PlusOne(closed))
  {
    forall x
      ensures Apply(Div, Lookup(S1(closed).initial, S1(closed).steps, x, true), Lookup(S2PlusOne(closed).initial, S2PlusOne(closed).steps, x, true))
           == Lookup(S1OverS2PlusOne(closed).initial, S1OverS2PlusOne(closed).steps, x, true)
    {
      S1At(closed, x, true);
      S2PlusOneAt(closed, x);
      S1OverS2PlusOnePoint(x);
      S1OverS2PlusOneAt(closed, x);
    }
  }

  lemma S1DiffPoint(x: real)
    ensures Apply(Sub, S1Value(x, true), S1Value(x - 1.0, true)) == S1DiffValue(x)
  {
    if x < -4.0 {
    } else if x < -3.0 {
    } else if x < 1.0 {
    } else if x < 2.0 {
    } else if x < 3.0 {
    } else if x < 4.0 {
    } else if x < 5.0 {
    } else if x < 6.0 {
    } else if x < 7.0 {
    } else if x < 8.0 {
    } else if x < 10.0 {
    } else if x < 11.0 {
    } else {
    }
  }

  lemma S1DiffValues(closed: Side)
    ensures CombinesTo(S1(closed), Shift(S1(closed), 1.0), Sub, S1Diff(closed))
  {
    forall x
      ensures Apply(Sub, Lookup(S1(closed).initial, S1(closed).steps, x, true), Lookup(Shift(S1(closed), 1.0).initial, Shift(S1(closed), 1.0).steps, x, true))
           == Lookup(S1Diff(closed).initial, S1Diff(closed).steps, x, true)
    {
      S1Canonical(closed);
      S1At(closed, x, true);
      ShiftPointwise(S1(closed), 1.0, x, true);
      S1At(closed, x - 1.0, true);
      S1DiffPoint(x);
      S1DiffAt(closed, x);
    }
  }

  lemma S1PlusS2Is(closed: Side)
    ensures Combine(S1(closed), S2(closed), Add) == S1PlusS2(closed)
  {
    S1PlusS2Canonical(closed);
    S1PlusS2Values(closed);
    CombineIs(S1(closed), S2(closed), Add, S1PlusS2(closed));
  }

  lemma S1TimesS2Is(closed: Side)
    ensures Combine(S1(closed), S2(closed), Mul) == S1TimesS2(closed)
  {
    S1TimesS2Canonical(closed);
    S1TimesS2Values(closed);
    CombineIs(S1(closed), S2(closed), Mul, S1TimesS2(closed));
  }

  lemma S2PlusOneNeverZero(closed: Side)
    ensures Increasing(S2PlusOne(closed).steps) && NeverZero(S2PlusOne(closed))
  {
  }

  lemma S1OverS2PlusOneIs(closed: Side)
    ensures Combine(S1(closed), S2PlusOne(closed), Div) == S1OverS2PlusOne(closed)
  {
    S1OverS2PlusOneCanonical(closed);
    S1OverS2PlusOneValues(closed);
    CombineIs(S1(closed), S2PlusOne(closed), Div, S1OverS2PlusOne(closed));
  }

  lemma S1DiffIs(closed: Side)
    ensures Combine(S1(closed), Shift(S1(closed), 1.0), Sub) == S1Diff(closed)
  {
    S1DiffCanonical(closed);
    S1DiffValues(closed);
    CombineIs(S1(closed), Shift(S1(closed), 1.0), Sub, S1Diff(closed));
  }

  /** `s1 + s2`: a jump at every union point where the sum changes, and at no other. */
  lemma SumOfS1AndS2(closed: Side)
    ensures Combine(S1(closed), S2(closed), Add) == S1PlusS2(closed)
    ensures StepChanges(Combine(S1(closed), S2(closed), Add))
         == [Change(-4.0, -1.75), Change(-2.0, -1.75), Change(1.0, 1.25), Change(2.0, 4.5), Change(2.5, -2.5),
             Change(3.0, 2.5), Change(4.0, 2.5), Change(5.0, -5.25), Change(6.0, -2.5), Change(7.0, 2.5),
             Change(8.0, 5.0), Change(10.0, -4.5)]
  {
    S1PlusS2Is(closed);
    S1PlusS2Changes(closed);
  }

  /** `s1 * s2`: the union point -4 drops out, since s2 is 0 there. */
  lemma ProductOfS1AndS2(closed: Side)
    ensures Combine(S1(closed), S2(closed), Mul) == S1TimesS2(closed)
    ensures StepChanges(Combine(S1(closed), S2(closed), Mul))
         == [Change(-2.0, 3.0625), Change(1.0, -3.6875), Change(2.0, 1.125), Change(2.5, -0.625), Change(3.0, -1.25),
             Change(4.0, 6.875), Change(5.0, -10.5), Change(6.0, 6.25), Change(7.0, -1.25), Change(8.0, -2.5),
             Change(10.0, 2.5)]
  {
    S1TimesS2Is(closed);
    S1TimesS2Changes(closed);
  }

  /** `s2 + 1`, the divisor of the division test. */
  lemma S2PlusOneIs(closed: Side)
    ensures Combine(S2(closed), Constant(1.0, closed), Add) == S2PlusOne(closed)
  {
    S2PlusOneCanonical(closed);
    S2PlusOneValues(closed);
    CombineIs(S2(closed), Constant(1.0, closed), Add, S2PlusOne(closed));
  }

  /** `s1 / (s2 + 1)`: defined, since s2 + 1 is never 0, with these exact jumps. */
  lemma QuotientOfS1ByS2PlusOne(closed: Side)
    ensures Increasing(Combine(S2(closed), Constant(1.0, closed), Add).steps)
    ensures Divide(S1(closed), Combine(S2(closed), Constant(1.0, closed), Add)) == Some(S1OverS2PlusOne(closed))
    ensures StepChanges(S1OverS2PlusOne(closed))
         == [Change(-4.0, -1.75), Change(-2.0, 49.0 / 12.0), Change(1.0, -2.5), Change(2.0, 0.25), Change(2.5, 5.0 / 12.0),
             Change(3.0, 5.0), Change(4.0, -55.0 / 12.0), Change(5.0, -2.25), Change(6.0, 5.0 / 3.0), Change(7.0, -5.0 / 6.0),
             Change(8.0, 5.0 / 12.0), Change(10.0, 1.0 / 12.0)]
  {
    S2PlusOneIs(closed);
    S2PlusOneNeverZero(closed);
    S1OverS2PlusOneIs(closed);
    S1OverS2PlusOneChanges(closed);
  }

  /** `s1.diff(1)`: jumps at s1's points and at those points moved by 1. */
  lemma DiffOfS1(closed: Side)
    ensures Diff(S1(closed), 1.0) == S1Diff(closed)
    ensures StepChanges(Diff(S1(closed), 1.0))
         == [Change(-4.0, -1.75), Change(-3.0, 1.75), Change(1.0, 2.0), Change(2.0, -2.0), Change(3.0, 2.5),
             Change(4.0, -2.5), Change(5.0, -0.75), Change(6.0, -1.75), Change(7.0, 2.5), Change(10.0, 0.5),
             Change(11.0, -0.5)]
  {
    S1DiffIs(closed);
    S1DiffChanges(closed);
  }
}
