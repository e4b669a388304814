/**
 * Arithmetic, relational and boolean operators on step functions.  Every
 * binary operator samples both operands at the union of their breakpoints
 * and keeps the left operand's orientation; unary operators map the values
 * of one store.  Scalars enter as constant functions.
 */
module Algebra {
  import opened StepFunction
  import opened SortedPoints
  import opened Merging

  datatype BinOp = Add | Sub | Mul | Div | MinOf | MaxOf | Lt | Le | Gt | Ge | Eq | Ne | And | Or

  /** Relational and boolean results are 0/1-valued. */
  function Indicator(b: bool): real
  {
    if b then 1.0 else 0.0
  }

  /**
   * One operator on two values.  A zero divisor gives 0 here, but `Divide`
   * never applies Div where the divisor is zero.
   */
  function Apply(op: BinOp, a: real, b: real): real
  {
    match op
    case Add => a + b
    case Sub => a - b
    case Mul => a * b
    case Div => if b == 0.0 then 0.0 else a / b
    case MinOf => if a <= b then a else b
    case MaxOf => if a <= b then b else a
    case Lt => Indicator(a < b)
    case Le => Indicator(a <= b)
    case Gt => Indicator(a > b)
    case Ge => Indicator(a >= b)
    case Eq => Indicator(a == b)
    case Ne => Indicator(a != b)
    case And => Indicator(a != 0.0 && b != 0.0)
    case Or => Indicator(a != 0.0 || b != 0.0)
  }

  function Pairwise(op: BinOp): seq<real> -> real
  {
    (v: seq<real>) => if |v| == 2 then Apply(op, v[0], v[1]) else 0.0
  }

  /**
   * `f <op> g` (`+`, `-`, `*`, `_min_pair`, `_max_pair`, `<`, `<=`, `>`, `>=`,
   * `==`, `!=`, `&`, `|`): both operands sampled at the union of their points.
   */
  function Combine(f: StepFn, g: StepFn, op: BinOp): StepFn
  {
    Merge([f, g], Pairwise(op), UnionOfPoints([f, g]), f.closed)
  }

  /** The combination is canonical, keeps f's orientation and is the pointwise combination, from either side of every x. */
  lemma CombinePointwise(f: StepFn, g: StepFn, op: BinOp, x: real, inclusive: bool)
    ensures Canonical(Combine(f, g, op)) && Combine(f, g, op).closed == f.closed
    ensures Lookup(Combine(f, g, op).initial, Combine(f, g, op).steps, x, inclusive)
         == Apply(op, Lookup(f.initial, f.steps, x, inclusive), Lookup(g.initial, g.steps, x, inclusive))
  {
    var fs := [f, g];
    var pts := UnionOfPoints(fs);
    MergeCanonical(fs, Pairwise(op), pts, f.closed);
    forall i, k | 0 <= i < |fs| && 0 <= k < |fs[i].steps| ensures fs[i].steps[k].point in pts {
      assert Points(fs[i].steps)[k] == fs[i].steps[k].point;
    }
    MergeExact(fs, Pairwise(op), pts, f.closed, x, inclusive);
  }

  /** Breakpoints of the combination are union points; in canonical form none of them is a zero jump. */
  lemma CombineBreakpoints(f: StepFn, g: StepFn, op: BinOp)
    ensures forall k :: 0 <= k < |Combine(f, g, op).steps| ==>
      Combine(f, g, op).steps[k].point in StepPoints(f) || Combine(f, g, op).steps[k].point in StepPoints(g)
  {
    var fs := [f, g];
    var pts := UnionOfPoints(fs);
    MergeCanonical(fs, Pairwise(op), pts, f.closed);
    forall k | 0 <= k < |Combine(f, g, op).steps|
      ensures Combine(f, g, op).steps[k].point in StepPoints(f) || Combine(f, g, op).steps[k].point in StepPoints(g)
    {
      var y := Combine(f, g, op).steps[k].point;
      assert y in pts;
      var i :| 0 <= i < |fs| && y in Points(fs[i].steps);
      assert i == 0 || i == 1;
    }
  }

  /** For operands of one orientation the combination is pointwise in `f(x)` itself. */
  lemma CombineEval(f: StepFn, g: StepFn, op: BinOp, x: real)
    requires f.closed == g.closed
    ensures Eval(Combine(f, g, op), x) == Apply(op, Eval(f, x), Eval(g, x))
    ensures LimitAt(Combine(f, g, op), x, Left) == Apply(op, LimitAt(f, x, Left), LimitAt(g, x, Left))
    ensures LimitAt(Combine(f, g, op), x, Right) == Apply(op, LimitAt(f, x, Right), LimitAt(g, x, Right))
  {
    CombinePointwise(f, g, op, x, f.closed == Left);
    CombinePointwise(f, g, op, x, false);
    CombinePointwise(f, g, op, x, true);
  }

  predicate Symmetric(op: BinOp)
  {
    op.Add? || op.Mul? || op.MinOf? || op.MaxOf? || op.Eq? || op.Ne? || op.And? || op.Or?
  }

  lemma ApplySymmetric(op: BinOp, a: real, b: real)
    requires Symmetric(op)
    ensures Apply(op, a, b) == Apply(op, b, a)
  {
  }

  /** Symmetric operators commute when both operands share an orientation. */
  lemma CombineCommutes(f: StepFn, g: StepFn, op: BinOp)
    requires Symmetric(op)
    requires f.closed == g.closed
    ensures Combine(f, g, op) == Combine(g, f, op)
  {
    forall x ensures Eval(Combine(f, g, op), x) == Eval(Combine(g, f, op), x) {
      CombinePointwise(f, g, op, x, f.closed == Left);
      CombinePointwise(g, f, op, x, f.closed == Left);
      ApplySymmetric(op, Eval(f, x), Eval(g, x));
    }
    CombinePointwise(f, g, op, 0.0, true);
    CombinePointwise(g, f, op, 0.0, true);
    Extensionality(Combine(f, g, op), Combine(g, f, op));
  }

  /**
   * `_min_pair` and `_max_pair`: at every x the result is a lower (upper)
   * bound of both operands and equal to one of them.
   */
  lemma MinMaxPair(f: StepFn, g: StepFn, x: real, inclusive: bool)
    ensures var m := Lookup(Combine(f, g, MinOf).initial, Combine(f, g, MinOf).steps, x, inclusive);
      var u := Lookup(f.initial, f.steps, x, inclusive);
      var v := Lookup(g.initial, g.steps, x, inclusive);
      m <= u && m <= v && (m == u || m == v)
    ensures var m := Lookup(Combine(f, g, MaxOf).initial, Combine(f, g, MaxOf).steps, x, inclusive);
      var u := Lookup(f.initial, f.steps, x, inclusive);
      var v := Lookup(g.initial, g.steps, x, inclusive);
      m >= u && m >= v && (m == u || m == v)
  {
    CombinePointwise(f, g, MinOf, x, inclusive);
    CombinePointwise(f, g, MaxOf, x, inclusive);
  }

  // ---------------------------------------------------------------------
  // Division
  // ---------------------------------------------------------------------

  /** The divisor takes the value 0 nowhere, not even at -inf. */
  predicate NeverZero(g: StepFn)
  {
    g.initial != 0.0 && forall k :: 0 <= k < |g.steps| ==> g.steps[k].value != 0.0
  }

  lemma NeverZeroMeaning(g: StepFn)
    requires Increasing(g.steps)
    ensures NeverZero(g) <==> forall x, inclusive :: Lookup(g.initial, g.steps, x, inclusive) != 0.0
  {
    if NeverZero(g) {
      forall x, inclusive ensures Lookup(g.initial, g.steps, x, inclusive) != 0.0 {
        LookupIsLastCovered(g.initial, g.steps, x, inclusive);
      }
    } else if g.initial == 0.0 {
      var y := BelowAll(g.steps, g.steps);
      LookupNoneCovered(g.initial, g.steps, y, true);
    } else {
      var k :| 0 <= k < |g.steps| && g.steps[k].value == 0.0;
      var y := g.steps[k].point;
      CoverCountSplits(g.steps, y, true);
      LookupIsLastCovered(g.initial, g.steps, y, true);
      var c := CoverCount(g.steps, y, true);
      assert k < c;
      assert c == k + 1 by {
        assert k + 1 < |g.steps| ==> g.steps[k].point < g.steps[k + 1].point;
      }
    }
  }

  /** Where the divisor never vanishes, the quotient is pointwise, from either side of every x. */
  lemma DivideValues(f: StepFn, g: StepFn, x: real, inclusive: bool)
    requires Increasing(g.steps) && NeverZero(g)
    ensures Lookup(g.initial, g.steps, x, inclusive) != 0.0
    ensures Lookup(Combine(f, g, Div).initial, Combine(f, g, Div).steps, x, inclusive)
         == Lookup(f.initial, f.steps, x, inclusive) / Lookup(g.initial, g.steps, x, inclusive)
  {
    NeverZeroMeaning(g);
    CombinePointwise(f, g, Div, x, inclusive);
  }

  /** `f / g`: undefined (None) when the divisor takes the value 0 anywhere. */
  function Divide(f: StepFn, g: StepFn): (r: Option<StepFn>)
    requires Increasing(g.steps)
    ensures r.Some? <==> forall x, inclusive :: Lookup(g.initial, g.steps, x, inclusive) != 0.0
    ensures r.Some? ==> Canonical(r.value) && r.value.closed == f.closed
  {
    NeverZeroMeaning(g);
    CombinePointwise(f, g, Div, 0.0, true);
    if NeverZero(g) then Some(Combine(f, g, Div)) else None
  }

  // ---------------------------------------------------------------------
  // Unary operators: a map over the values of one store
  // ---------------------------------------------------------------------

  function MapSteps(s: seq<Step>, h: real -> real): (r: seq<Step>)
    ensures |r| == |s|
    ensures forall k :: 0 <= k < |s| ==> r[k] == Step(s[k].point, h(s[k].value))
  {
    seq(|s|, k requires 0 <= k < |s| => Step(s[k].point, h(s[k].value)))
  }

  lemma {:induction false} LookupMap(init: real, s: seq<Step>, h: real -> real, x: real, inclusive: bool)
    ensures Lookup(h(init), MapSteps(s, h), x, inclusive) == h(Lookup(init, s, x, inclusive))
    decreases |s|
  {
    if s != [] && Covered(s[0].point, x, inclusive) {
      assert MapSteps(s, h)[1..] == MapSteps(s[1..], h);
      LookupMap(s[0].value, s[1..], h, x, inclusive);
    }
  }

  /** h applied to every value, then pruned back to canonical form. */
  function MapValues(f: StepFn, h: real -> real): StepFn
  {
    var init := h(f.initial);
    StepFn(init, f.closed, Prune(init, MapSteps(f.steps, h)))
  }

  lemma MapValuesPointwise(f: StepFn, h: real -> real, x: real, inclusive: bool)
    requires Increasing(f.steps)
    ensures Canonical(MapValues(f, h)) && MapValues(f, h).closed == f.closed
    ensures Lookup(MapValues(f, h).initial, MapValues(f, h).steps, x, inclusive) == h(Lookup(f.initial, f.steps, x, inclusive))
  {
    var init := h(f.initial);
    var t := MapSteps(f.steps, h);
    assert Increasing(t);
    PruneCanonical(init, t);
    PrunePreservesValues(init, t, x, inclusive);
    LookupMap(f.initial, f.steps, h, x, inclusive);
  }

  /** `make_boolean()`: 1 where the function is non-zero, 0 where it is zero. */
  function MakeBoolean(f: StepFn): StepFn
  {
    MapValues(f, (v: real) => Indicator(v != 0.0))
  }

  /** `~f`: 1 where the function is zero, 0 elsewhere. */
  function Invert(f: StepFn): StepFn
  {
    MapValues(f, (v: real) => Indicator(v == 0.0))
  }

  lemma MakeBooleanPointwise(f: StepFn, x: real, inclusive: bool)
    requires Increasing(f.steps)
    ensures Canonical(MakeBoolean(f)) && MakeBoolean(f).closed == f.closed
    ensures Lookup(MakeBoolean(f).initial, MakeBoolean(f).steps, x, inclusive) == Indicator(Lookup(f.initial, f.steps, x, inclusive) != 0.0)
  {
    MapValuesPointwise(f, (v: real) => Indicator(v != 0.0), x, inclusive);
  }

  lemma InvertPointwise(f: StepFn, x: real, inclusive: bool)
    requires Increasing(f.steps)
    ensures Canonical(Invert(f)) && Invert(f).closed == f.closed
    ensures Lookup(Invert(f).initial, Invert(f).steps, x, inclusive) == Indicator(Lookup(f.initial, f.steps, x, inclusive) == 0.0)
  {
    MapValuesPointwise(f, (v: real) => Indicator(v == 0.0), x, inclusive);
  }

  /** `~f` is the complement of `f.make_boolean()`, and inverting twice gives `make_boolean()`. */
  lemma InvertComplementsMakeBoolean(f: StepFn)
    requires Increasing(f.steps)
    ensures forall x :: Eval(Invert(f), x) == 1.0 - Eval(MakeBoolean(f), x)
    ensures Invert(Invert(f)) == MakeBoolean(f)
  {
    forall x ensures Eval(Invert(f), x) == 1.0 - Eval(MakeBoolean(f), x)
      && Eval(Invert(Invert(f)), x) == Eval(MakeBoolean(f), x)
    {
      InvertPointwise(f, x, f.closed == Left);
      MakeBooleanPointwise(f, x, f.closed == Left);
      InvertPointwise(Invert(f), x, f.closed == Left);
    }
    InvertPointwise(f, 0.0, true);
    InvertPointwise(Invert(f), 0.0, true);
    MakeBooleanPointwise(f, 0.0, true);
    Extensionality(Invert(Invert(f)), MakeBoolean(f));
  }

  /** The relational operator pairs that are each other's complement. */
  predicate Complementary(op: BinOp, co: BinOp)
  {
    (op == Le && co == Gt) || (op == Ge && co == Lt) || (op == Ne && co == Eq)
  }

  lemma ComplementOf(f: StepFn, g: StepFn, op: BinOp, co: BinOp)
    requires Complementary(op, co)
    ensures Combine(f, g, op) == Invert(Combine(f, g, co))
  {
    var inc := f.closed == Left;
    CombinePointwise(f, g, op, 0.0, true);
    CombinePointwise(f, g, co, 0.0, true);
    InvertPointwise(Combine(f, g, co), 0.0, true);
    forall x ensures Eval(Combine(f, g, op), x) == Eval(Invert(Combine(f, g, co)), x) {
      CombinePointwise(f, g, op, x, inc);
      CombinePointwise(f, g, co, x, inc);
      InvertPointwise(Combine(f, g, co), x, inc);
    }
    Extensionality(Combine(f, g, op), Invert(Combine(f, g, co)));
  }

  /** `<=` is the complement of `>`, `>=` of `<`, and `!=` of `==`. */
  lemma RelationalComplements(f: StepFn, g: StepFn)
    ensures Combine(f, g, Le) == Invert(Combine(f, g, Gt))
    ensures Combine(f, g, Ge) == Invert(Combine(f, g, Lt))
    ensures Combine(f, g, Ne) == Invert(Combine(f, g, Eq))
  {
    ComplementOf(f, g, Le, Gt);
    ComplementOf(f, g, Ge, Lt);
    ComplementOf(f, g, Ne, Eq);
  }

  /** The logical operators and the extremum each one amounts to on booleans. */
  predicate LogicalExtremum(op: BinOp, ext: BinOp)
  {
    (op == And && ext == MinOf) || (op == Or && ext == MaxOf)
  }

  lemma LogicalAsExtremum(f: StepFn, g: StepFn, op: BinOp, ext: BinOp)
    requires Increasing(f.steps) && Increasing(g.steps)
    requires LogicalExtremum(op, ext)
    ensures Combine(f, g, op) == Combine(MakeBoolean(f), MakeBoolean(g), ext)
  {
    var inc := f.closed == Left;
    var bf, bg := MakeBoolean(f), MakeBoolean(g);
    MakeBooleanPointwise(f, 0.0, true);
    CombinePointwise(f, g, op, 0.0, true);
    CombinePointwise(bf, bg, ext, 0.0, true);
    forall x ensures Eval(Combine(f, g, op), x) == Eval(Combine(bf, bg, ext), x) {
      MakeBooleanPointwise(f, x, inc);
      MakeBooleanPointwise(g, x, inc);
      CombinePointwise(f, g, op, x, inc);
      CombinePointwise(bf, bg, ext, x, inc);
    }
    Extensionality(Combine(f, g, op), Combine(bf, bg, ext));
  }

  /** `&` is the minimum and `|` the maximum of the two operands made boolean. */
  lemma AndOrAreMinMaxOfBooleans(f: StepFn, g: StepFn)
    requires Increasing(f.steps) && Increasing(g.steps)
    ensures Combine(f, g, And) == Combine(MakeBoolean(f), MakeBoolean(g), MinOf)
    ensures Combine(f, g, Or) == Combine(MakeBoolean(f), MakeBoolean(g), MaxOf)
  {
    LogicalAsExtremum(f, g, And, MinOf);
    LogicalAsExtremum(f, g, Or, MaxOf);
  }

  // ---------------------------------------------------------------------
  // Scalar operands
  // ---------------------------------------------------------------------

  lemma MapStepsIncreasing(s: seq<Step>, h: real -> real)
    requires Increasing(s)
    ensures Increasing(MapSteps(s, h))
  {
  }

  /** A value map that separates every breakpoint's value from the one before it keeps the store free of redundant breakpoints. */
  lemma MapStepsNoRedundant(init: real, s: seq<Step>, h: real -> real)
    requires forall k :: 0 <= k < |s| ==> h(s[k].value) != h(Prev(init, s, k))
    ensures NoRedundant(h(init), MapSteps(s, h))
  {
    var e := MapSteps(s, h);
    forall k | 0 <= k < |e| ensures e[k].value != Prev(h(init), e, k) {
      if k > 0 {
        assert e[k - 1] == Step(s[k - 1].point, h(s[k - 1].value));
      }
    }
  }

  /**
   * Combining with a constant c through a value map h that keeps every jump
   * a jump keeps every breakpoint and maps every value by h.
   */
  lemma CombineWithConstant(f: StepFn, c: real, op: BinOp, h: real -> real)
    requires Canonical(f)
    requires forall v :: h(v) == Apply(op, v, c)
    requires forall k :: 0 <= k < |f.steps| ==> h(f.steps[k].value) != h(Prev(f.initial, f.steps, k))
    ensures Combine(f, Constant(c, f.closed), op).initial == h(f.initial)
    ensures Combine(f, Constant(c, f.closed), op).steps == MapSteps(f.steps, h)
  {
    var g := Constant(c, f.closed);
    var e := MapSteps(f.steps, h);
    var m := Combine(f, g, op);
    MapStepsIncreasing(f.steps, h);
    MapStepsNoRedundant(f.initial, f.steps, h);
    forall x ensures Lookup(m.initial, m.steps, x, true) == Lookup(h(f.initial), e, x, true) {
      CombinePointwise(f, g, op, x, true);
      LookupMap(f.initial, f.steps, h, x, true);
    }
    CombinePointwise(f, g, op, 0.0, true);
    UniqueRepresentation(m.initial, m.steps, h(f.initial), e);
  }

  /** `f + c`: the jumps are unchanged and the value at -inf moves by c. */
  lemma AddScalar(f: StepFn, c: real)
    requires Canonical(f)
    ensures Evaluate(Combine(f, Constant(c, f.closed), Add), NegInf) == f.initial + c
    ensures StepChanges(Combine(f, Constant(c, f.closed), Add)) == StepChanges(f)
  {
    var h := (v: real) => v + c;
    assert forall k :: 0 <= k < |f.steps| ==> h(f.steps[k].value) != h(Prev(f.initial, f.steps, k));
    CombineWithConstant(f, c, Add, h);
    var m := Combine(f, Constant(c, f.closed), Add);
    forall k | 0 <= k < |f.steps| ensures StepChanges(m)[k] == StepChanges(f)[k] {
      assert Prev(m.initial, m.steps, k) == Prev(f.initial, f.steps, k) + c;
    }
  }

  /** The jumps of a mapped store: at each breakpoint, h of the value minus h of the value before. */
  lemma StepChangesOfMap(f: StepFn, h: real -> real)
    ensures |StepChanges(StepFn(h(f.initial), f.closed, MapSteps(f.steps, h)))| == |f.steps|
    ensures forall k :: 0 <= k < |f.steps| ==>
      StepChanges(StepFn(h(f.initial), f.closed, MapSteps(f.steps, h)))[k]
        == Change(f.steps[k].point, h(f.steps[k].value) - h(Prev(f.initial, f.steps, k)))
  {
    var e := StepFn(h(f.initial), f.closed, MapSteps(f.steps, h));
    forall k | 0 <= k < |f.steps|
      ensures StepChanges(e)[k] == Change(f.steps[k].point, h(f.steps[k].value) - h(Prev(f.initial, f.steps, k)))
    {
      if k > 0 {
        assert e.steps[k - 1] == Step(f.steps[k - 1].point, h(f.steps[k - 1].value));
      }
    }
  }

  lemma ScaleArithmetic(u: real, p: real, c: real)
    requires c != 0.0
    ensures u != p ==> u * c != p * c
    ensures u * c - p * c == (u - p) * c
    ensures u != p ==> u / c != p / c
    ensures u / c - p / c == (u - p) / c
  {
    assert u * c - p * c == (u - p) * c;
    assert u / c - p / c == (u - p) / c;
  }

  function ScaleSteps(s: seq<Step>, c: real): (r: seq<Step>)
    ensures |r| == |s|
    ensures forall k :: 0 <= k < |s| ==> r[k] == Step(s[k].point, s[k].value * c)
  {
    seq(|s|, k requires 0 <= k < |s| => Step(s[k].point, s[k].value * c))
  }

  lemma {:induction false} LookupScale(init: real, s: seq<Step>, c: real, x: real, inclusive: bool)
    ensures Lookup(init * c, ScaleSteps(s, c), x, inclusive) == Lookup(init, s, x, inclusive) * c
    decreases |s|
  {
    if s != [] && Covered(s[0].point, x, inclusive) {
      forall k | 0 <= k < |s| - 1 ensures ScaleSteps(s, c)[1..][k] == ScaleSteps(s[1..], c)[k] {
        assert s[1..][k] == s[k + 1];
      }
      assert ScaleSteps(s, c)[1..] == ScaleSteps(s[1..], c);
      LookupScale(s[0].value, s[1..], c, x, inclusive);
    }
  }

  lemma ProductsDiffer(u: real, p: real, c: real)
    requires u != p && c != 0.0
    ensures u * c != p * c
  {
    assert u * c - p * c == (u - p) * c;
  }

  lemma ScaleStepsIncreasing(s: seq<Step>, c: real)
    requires Increasing(s)
    ensures Increasing(ScaleSteps(s, c))
  {
    var e := ScaleSteps(s, c);
    forall i, j | 0 <= i < j < |e| ensures e[i].point < e[j].point {
      assert e[i].point == s[i].point && e[j].point == s[j].point;
    }
  }

  lemma ScaledNotRedundant(init: real, s: seq<Step>, c: real, k: nat)
    requires k < |s| && s[k].value != Prev(init, s, k) && c != 0.0
    ensures ScaleSteps(s, c)[k].value != Prev(init * c, ScaleSteps(s, c), k)
  {
    var u, p := s[k].value, Prev(init, s, k);
    ProductsDiffer(u, p, c);
    assert ScaleSteps(s, c)[k].value == u * c;
    assert Prev(init * c, ScaleSteps(s, c), k) == p * c;
  }

  lemma ScaleStepsNoRedundant(init: real, s: seq<Step>, c: real)
    requires NoRedundant(init, s) && c != 0.0
    ensures NoRedundant(init * c, ScaleSteps(s, c))
  {
    forall k | 0 <= k < |s| ensures ScaleSteps(s, c)[k].value != Prev(init * c, ScaleSteps(s, c), k) {
      ScaledNotRedundant(init, s, c, k);
    }
  }

  /** Multiplying every value by c multiplies every jump by c. */
  lemma ScaledJumps(f: StepFn, c: real)
    requires c != 0.0
    ensures |StepChanges(StepFn(f.initial * c, f.closed, ScaleSteps(f.steps, c)))| == |StepChanges(f)|
    ensures forall k :: 0 <= k < |StepChanges(f)| ==>
      StepChanges(StepFn(f.initial * c, f.closed, ScaleSteps(f.steps, c)))[k]
        == Change(StepChanges(f)[k].point, StepChanges(f)[k].delta * c)
  {
    var m := StepFn(f.initial * c, f.closed, ScaleSteps(f.steps, c));
    forall k | 0 <= k < |f.steps|
      ensures StepChanges(m)[k] == Change(StepChanges(f)[k].point, StepChanges(f)[k].delta * c)
    {
      var u, p := f.steps[k].value, Prev(f.initial, f.steps, k);
      ScaleArithmetic(u, p, c);
      if k > 0 {
        assert m.steps[k - 1].value == f.steps[k - 1].value * c;
      }
      assert Prev(m.initial, m.steps, k) == p * c;
    }
  }

  /** Combining with a constant applies the operator to each value and that constant. */
  lemma CombineConstantValue(f: StepFn, c: real, op: BinOp, x: real)
    ensures Lookup(Combine(f, Constant(c, f.closed), op).initial, Combine(f, Constant(c, f.closed), op).steps, x, true)
         == Apply(op, Lookup(f.initial, f.steps, x, true), c)
  {
    CombinePointwise(f, Constant(c, f.closed), op, x, true);
  }

  lemma MultiplyScalarValue(f: StepFn, c: real, x: real)
    ensures Lookup(Combine(f, Constant(c, f.closed), Mul).initial, Combine(f, Constant(c, f.closed), Mul).steps, x, true)
         == Lookup(f.initial * c, ScaleSteps(f.steps, c), x, true)
  {
    CombineConstantValue(f, c, Mul, x);
    LookupScale(f.initial, f.steps, c, x, true);
  }

  /** `f * c` for c != 0: every value and every jump is multiplied by c. */
  lemma MultiplyScalar(f: StepFn, c: real)
    requires Canonical(f) && c != 0.0
    ensures Combine(f, Constant(c, f.closed), Mul) == StepFn(f.initial * c, f.closed, ScaleSteps(f.steps, c))
    ensures Evaluate(Combine(f, Constant(c, f.closed), Mul), NegInf) == f.initial * c
    ensures |StepChanges(Combine(f, Constant(c, f.closed), Mul))| == |StepChanges(f)|
    ensures forall k :: 0 <= k < |StepChanges(f)| ==>
      StepChanges(Combine(f, Constant(c, f.closed), Mul))[k] == Change(StepChanges(f)[k].point, StepChanges(f)[k].delta * c)
  {
    var g := Constant(c, f.closed);
    var m := Combine(f, g, Mul);
    var e := ScaleSteps(f.steps, c);
    ScaleStepsIncreasing(f.steps, c);
    ScaleStepsNoRedundant(f.initial, f.steps, c);
    forall x ensures Lookup(m.initial, m.steps, x, true) == Lookup(f.initial * c, e, x, true) {
      MultiplyScalarValue(f, c, x);
    }
    CombinePointwise(f, g, Mul, 0.0, true);
    UniqueRepresentation(m.initial, m.steps, f.initial * c, e);
    ScaledJumps(f, c);
  }

  /** `f * 0` is the constant 0: every breakpoint disappears. */
  lemma MultiplyByZero(f: StepFn)
    ensures Combine(f, Constant(0.0, f.closed), Mul) == Constant(0.0, f.closed)
  {
    var g := Constant(0.0, f.closed);
    var m := Combine(f, g, Mul);
    CombinePointwise(f, g, Mul, 0.0, true);
    forall x ensures Lookup(m.initial, m.steps, x, true) == Lookup(0.0, [], x, true) {
      CombinePointwise(f, g, Mul, x, true);
    }
    UniqueRepresentation(m.initial, m.steps, 0.0, []);
  }

  /** Division by the scalar c, as a map over values. */
  function DivBy(c: real): real -> real
    requires c != 0.0
  {
    (v: real) => v / c
  }

  /** `f / c` for c != 0 divides every value of the store by c. */
  lemma DivideScalarStore(f: StepFn, c: real)
    requires Canonical(f) && c != 0.0
    ensures NeverZero(Constant(c, f.closed))
    ensures Combine(f, Constant(c, f.closed), Div) == StepFn(DivBy(c)(f.initial), f.closed, MapSteps(f.steps, DivBy(c)))
  {
    var h := DivBy(c);
    forall k | 0 <= k < |f.steps| ensures h(f.steps[k].value) != h(Prev(f.initial, f.steps, k)) {
      ScaleArithmetic(f.steps[k].value, Prev(f.initial, f.steps, k), c);
    }
    CombineWithConstant(f, c, Div, h);
    assert NeverZero(Constant(c, f.closed));
  }

  /** `f / c` for c != 0: defined, and every jump is divided by c. */
  lemma DivideScalar(f: StepFn, c: real)
    requires Canonical(f) && c != 0.0
    ensures Divide(f, Constant(c, f.closed)).Some?
    ensures Divide(f, Constant(c, f.closed)).value.initial == f.initial / c
    ensures |StepChanges(Divide(f, Constant(c, f.closed)).value)| == |StepChanges(f)|
    ensures forall k :: 0 <= k < |StepChanges(f)| ==>
      StepChanges(Divide(f, Constant(c, f.closed)).value)[k] == Change(StepChanges(f)[k].point, StepChanges(f)[k].delta / c)
  {
    var h := DivBy(c);
    DivideScalarStore(f, c);
    StepChangesOfMap(f, h);
    var m := Combine(f, Constant(c, f.closed), Div);
    forall k | 0 <= k < |f.steps|
      ensures StepChanges(m)[k] == Change(StepChanges(f)[k].point, StepChanges(f)[k].delta / c)
    {
      ScaleArithmetic(f.steps[k].value, Prev(f.initial, f.steps, k), c);
    }
  }

  // ---------------------------------------------------------------------
  // Shift and diff
  // ---------------------------------------------------------------------

  function ShiftSteps(s: seq<Step>, d: real): (r: seq<Step>)
    ensures |r| == |s|
    ensures forall k :: 0 <= k < |s| ==> r[k] == Step(s[k].point + d, s[k].value)
  {
    seq(|s|, k requires 0 <= k < |s| => Step(s[k].point + d, s[k].value))
  }

  /** The function x |-> f(x - d): every breakpoint moved d to the right. */
  function Shift(f: StepFn, d: real): StepFn
  {
    StepFn(f.initial, f.closed, ShiftSteps(f.steps, d))
  }

  lemma {:induction false} LookupShift(init: real, s: seq<Step>, d: real, x: real, inclusive: bool)
    ensures Lookup(init, ShiftSteps(s, d), x, inclusive) == Lookup(init, s, x - d, inclusive)
    decreases |s|
  {
    if s != [] {
      assert ShiftSteps(s, d)[1..] == ShiftSteps(s[1..], d);
      LookupShift(s[0].value, s[1..], d, x, inclusive);
    }
  }

  lemma ShiftPointwise(f: StepFn, d: real, x: real, inclusive: bool)
    requires Canonical(f)
    ensures Canonical(Shift(f, d)) && Shift(f, d).closed == f.closed
    ensures Lookup(Shift(f, d).initial, Shift(f, d).steps, x, inclusive) == Lookup(f.initial, f.steps, x - d, inclusive)
  {
    LookupShift(f.initial, f.steps, d, x, inclusive);
  }

  /** `diff(d)`: the function x |-> f(x) - f(x - d). */
  function Diff(f: StepFn, d: real): StepFn
  {
    Combine(f, Shift(f, d), Sub)
  }

  lemma DiffPointwise(f: StepFn, d: real, x: real)
    requires Canonical(f)
    ensures Canonical(Diff(f, d)) && Diff(f, d).closed == f.closed
    ensures Eval(Diff(f, d), x) == Eval(f, x) - Eval(f, x - d)
    ensures LimitAt(Diff(f, d), x, Right) == LimitAt(f, x, Right) - LimitAt(f, x - d, Right)
    ensures LimitAt(Diff(f, d), x, Left) == LimitAt(f, x, Left) - LimitAt(f, x - d, Left)
  {
    CombinePointwise(f, Shift(f, d), Sub, x, f.closed == Left);
    CombinePointwise(f, Shift(f, d), Sub, x, true);
    CombinePointwise(f, Shift(f, d), Sub, x, false);
    ShiftPointwise(f, d, x, f.closed == Left);
    ShiftPointwise(f, d, x, true);
    ShiftPointwise(f, d, x, false);
  }

  /** f <op> g is h when h is canonical, has f's orientation and the pointwise combination's values. */
  ghost predicate CombinesTo(f: StepFn, g: StepFn, op: BinOp, h: StepFn)
  {
    forall x :: Apply(op, Lookup(f.initial, f.steps, x, true), Lookup(g.initial, g.steps, x, true)) == Lookup(h.initial, h.steps, x, true)
  }

  lemma CombineIs(f: StepFn, g: StepFn, op: BinOp, h: StepFn)
    requires Canonical(h) && h.closed == f.closed
    requires CombinesTo(f, g, op, h)
    ensures Combine(f, g, op) == h
  {
    var m := Combine(f, g, op);
    forall x ensures Lookup(m.initial, m.steps, x, true) == Lookup(h.initial, h.steps, x, true) {
      CombinePointwise(f, g, op, x, true);
    }
    CombinePointwise(f, g, op, 0.0, true);
    UniqueRepresentation(m.initial, m.steps, h.initial, h.steps);
  }

  /** make_boolean(f) is g when g is canonical, has f's orientation and is 1 exactly where f is non-zero. */
  ghost predicate BooleanOf(f: StepFn, g: StepFn)
  {
    forall x :: Indicator(Lookup(f.initial, f.steps, x, true) != 0.0) == Lookup(g.initial, g.steps, x, true)
  }

  lemma MakeBooleanIs(f: StepFn, g: StepFn)
    requires Increasing(f.steps) && Canonical(g) && g.closed == f.closed
    requires BooleanOf(f, g)
    ensures MakeBoolean(f) == g
  {
    var m := MakeBoolean(f);
    forall x ensures Lookup(m.initial, m.steps, x, true) == Lookup(g.initial, g.steps, x, true) {
      MakeBooleanPointwise(f, x, true);
    }
    MakeBooleanPointwise(f, 0.0, true);
    UniqueRepresentation(m.initial, m.steps, g.initial, g.steps);
  }

  /** ~f is g when g is canonical, has f's orientation and is 1 exactly where f is zero. */
  ghost predicate InverseOf(f: StepFn, g: StepFn)
  {
    forall x :: Indicator(Lookup(f.initial, f.steps, x, true) == 0.0) == Lookup(g.initial, g.steps, x, true)
  }

  lemma InvertIs(f: StepFn, g: StepFn)
    requires Increasing(f.steps) && Canonical(g) && g.closed == f.closed
    requires InverseOf(f, g)
    ensures Invert(f) == g
  {
    var m := Invert(f);
    forall x ensures Lookup(m.initial, m.steps, x, true) == Lookup(g.initial, g.steps, x, true) {
      InvertPointwise(f, x, true);
    }
    InvertPointwise(f, 0.0, true);
    UniqueRepresentation(m.initial, m.steps, g.initial, g.steps);
  }
}
