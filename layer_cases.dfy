/**
 * The canonical stores that layering produces in the basic cases: one
 * interval, two adjacent intervals, two overlapping and two nested intervals
 * on a fresh function.  Each is the exact breakpoint sequence, so the step
 * counts, step points and every value follow from it.
 */
module LayerCases {
  import opened StepFunction
  import opened Layering

  /** The store two successive layers on a fresh function produce. */
  function TwoLayers(init: real, closed: Side, a1: real, b1: real, v1: real, a2: real, b2: real, v2: real): StepFn
  {
    LayerFn(LayerFn(Constant(init, closed), Some(a1), Some(b1), v1), Some(a2), Some(b2), v2)
  }

  /** Two layers on a fresh function add, at every x, the values of the layers reaching it. */
  lemma TwoLayersValues(init: real, closed: Side, a1: real, b1: real, v1: real, a2: real, b2: real, v2: real, x: real)
    ensures Canonical(TwoLayers(init, closed, a1, b1, v1, a2, b2, v2))
    ensures Lookup(TwoLayers(init, closed, a1, b1, v1, a2, b2, v2).initial, TwoLayers(init, closed, a1, b1, v1, a2, b2, v2).steps, x, true)
         == init + (if a1 <= x < b1 then v1 else 0.0) + (if a2 <= x < b2 then v2 else 0.0)
  {
    var f := Constant(init, closed);
    var g1 := LayerFn(f, Some(a1), Some(b1), v1);
    LayerCanonical(f, Some(a1), Some(b1), v1);
    LayerCanonical(g1, Some(a2), Some(b2), v2);
    LayerValues(f, Some(a1), Some(b1), v1, x, true);
    LayerValues(g1, Some(a2), Some(b2), v2, x, true);
  }

  /** The value of a literal store of up to four breakpoints, case by case. */
  lemma LookupFour(init: real, e: seq<Step>, x: real)
    requires 1 <= |e| <= 4
    ensures Lookup(init, e, x, true) ==
      if x < e[0].point then init
      else if |e| == 1 || x < e[1].point then e[0].value
      else if |e| == 2 || x < e[2].point then e[1].value
      else if |e| == 3 || x < e[3].point then e[2].value
      else e[3].value
  {
    LookupCons(init, e[0], e[1..], x, true);
    if |e| > 1 {
      assert e[1..][0] == e[1] && e[1..][1..] == e[2..];
      LookupCons(e[0].value, e[1], e[2..], x, true);
      if |e| > 2 {
        assert e[2..][0] == e[2] && e[2..][1..] == e[3..];
        LookupCons(e[1].value, e[2], e[3..], x, true);
        if |e| > 3 {
          assert e[3..][0] == e[3] && e[3..][1..] == [];
          LookupCons(e[2].value, e[3], [], x, true);
        }
      }
    }
  }

  /** One layer over [a, end) of a fresh function. */
  lemma OneLayer(init: real, closed: Side, a: real, end: Option<real>, v: real)
    requires v != 0.0
    requires end.Some? ==> a < end.value
    ensures var g := LayerFn(Constant(init, closed), Some(a), end, v);
      && g.initial == init
      && g.steps == [Step(a, init + v)] + (if end.Some? then [Step(end.value, init)] else [])
      && NumberOfSteps(g) == (if end.Some? then 2 else 1)
      && Evaluate(g, NegInf) == init
      && Evaluate(g, PosInf) == (if end.Some? then init else init + v)
      && LimitAt(g, a, Right) == init + v
      && (end.Some? ==> LimitAt(g, end.value, Right) == init)
  {
    var f := Constant(init, closed);
    var g := LayerFn(f, Some(a), end, v);
    LayerCanonical(f, Some(a), end, v);
    var e := [Step(a, init + v)] + (if end.Some? then [Step(end.value, init)] else []);
    forall x ensures Lookup(g.initial, g.steps, x, true) == Lookup(init, e, x, true) {
      LayerValues(f, Some(a), end, v, x, true);
      LookupFour(init, e, x);
    }
    assert NoRedundant(init, e) by {
      assert e[0].value != Prev(init, e, 0);
      if end.Some? { assert e[1].value != Prev(init, e, 1); }
    }
    UniqueRepresentation(g.initial, g.steps, init, e);
    LookupFour(init, e, a);
    if end.Some? {
      LookupFour(init, e, end.value);
    }
  }

  /** Two adjacent layers with the same value merge: breakpoints (p1, p3) only. */
  lemma AdjacentSameValue(init: real, closed: Side, p1: real, p2: real, p3: real, v: real)
    requires p1 < p2 < p3 && v != 0.0
    ensures var g := TwoLayers(init, closed, p1, p2, v, p2, p3, v);
      g.initial == init && g.steps == [Step(p1, init + v), Step(p3, init)]
  {
    var g := TwoLayers(init, closed, p1, p2, v, p2, p3, v);
    var e := [Step(p1, init + v), Step(p3, init)];
    forall x ensures Lookup(g.initial, g.steps, x, true) == Lookup(init, e, x, true) {
      TwoLayersValues(init, closed, p1, p2, v, p2, p3, v, x);
      LookupFour(init, e, x);
    }
    TwoLayersValues(init, closed, p1, p2, v, p2, p3, v, p1);
    assert NoRedundant(init, e) by {
      assert e[0].value != Prev(init, e, 0);
      assert e[1].value != Prev(init, e, 1);
    }
    UniqueRepresentation(g.initial, g.steps, init, e);
  }

  /** Two adjacent layers with different values keep all three breakpoints. */
  lemma AdjacentDifferentValue(init: real, closed: Side, p1: real, p2: real, p3: real, v: real, d: real)
    requires p1 < p2 < p3 && v != 0.0 && d != 0.0 && v + d != 0.0
    ensures var g := TwoLayers(init, closed, p1, p2, v, p2, p3, v + d);
      g.initial == init && g.steps == [Step(p1, init + v), Step(p2, init + v + d), Step(p3, init)]
  {
    var g := TwoLayers(init, closed, p1, p2, v, p2, p3, v + d);
    var e := [Step(p1, init + v), Step(p2, init + v + d), Step(p3, init)];
    forall x ensures Lookup(g.initial, g.steps, x, true) == Lookup(init, e, x, true) {
      TwoLayersValues(init, closed, p1, p2, v, p2, p3, v + d, x);
      LookupFour(init, e, x);
    }
    TwoLayersValues(init, closed, p1, p2, v, p2, p3, v + d, p1);
    assert NoRedundant(init, e) by {
      assert e[0].value != Prev(init, e, 0);
      assert e[1].value != Prev(init, e, 1);
      assert e[2].value != Prev(init, e, 2);
    }
    UniqueRepresentation(g.initial, g.steps, init, e);
  }

  /** Overlapping layers [p1, p3) and [p2, p4): four breakpoints, deltas summed on the overlap. */
  lemma Overlapping(init: real, closed: Side, p1: real, p2: real, p3: real, p4: real, v: real, d: real)
    requires p1 < p2 < p3 < p4 && v != 0.0 && v + d != 0.0
    ensures var g := TwoLayers(init, closed, p1, p3, v, p2, p4, v + d);
      g.initial == init &&
      g.steps == [Step(p1, init + v), Step(p2, init + 2.0 * v + d), Step(p3, init + v + d), Step(p4, init)]
  {
    var g := TwoLayers(init, closed, p1, p3, v, p2, p4, v + d);
    var e := [Step(p1, init + v), Step(p2, init + 2.0 * v + d), Step(p3, init + v + d), Step(p4, init)];
    forall x ensures Lookup(g.initial, g.steps, x, true) == Lookup(init, e, x, true) {
      TwoLayersValues(init, closed, p1, p3, v, p2, p4, v + d, x);
      LookupFour(init, e, x);
    }
    TwoLayersValues(init, closed, p1, p3, v, p2, p4, v + d, p1);
    assert NoRedundant(init, e) by {
      assert e[0].value != Prev(init, e, 0);
      assert e[1].value != Prev(init, e, 1);
      assert e[2].value != Prev(init, e, 2);
      assert e[3].value != Prev(init, e, 3);
    }
    UniqueRepresentation(g.initial, g.steps, init, e);
  }

  /** A layer [p2, p3) nested in [p1, p4): four breakpoints, the inner one summed. */
  lemma Nested(init: real, closed: Side, p1: real, p2: real, p3: real, p4: real, v: real, d: real)
    requires p1 < p2 < p3 < p4 && v != 0.0 && v + d != 0.0
    ensures var g := TwoLayers(init, closed, p1, p4, v, p2, p3, v + d);
      g.initial == init &&
      g.steps == [Step(p1, init + v), Step(p2, init + 2.0 * v + d), Step(p3, init + v), Step(p4, init)]
  {
    var g := TwoLayers(init, closed, p1, p4, v, p2, p3, v + d);
    var e := [Step(p1, init + v), Step(p2, init + 2.0 * v + d), Step(p3, init + v), Step(p4, init)];
    forall x ensures Lookup(g.initial, g.steps, x, true) == Lookup(init, e, x, true) {
      TwoLayersValues(init, closed, p1, p4, v, p2, p3, v + d, x);
      LookupFour(init, e, x);
    }
    TwoLayersValues(init, closed, p1, p4, v, p2, p3, v + d, p1);
    assert NoRedundant(init, e) by {
      assert e[0].value != Prev(init, e, 0);
      assert e[1].value != Prev(init, e, 1);
      assert e[2].value != Prev(init, e, 2);
      assert e[3].value != Prev(init, e, 3);
    }
    UniqueRepresentation(g.initial, g.steps, init, e);
  }
}
