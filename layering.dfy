/**
 * `layer(start, end, value)`: adding a constant over an interval, the one
 * operation that changes a step function in place.  LayerFn is the new state
 * as a function of the old one; the Stairs class performs it in place.
 */
module Layering {
  import opened StepFunction

  /** A missing bound (None, NaN in the source) leaves that side unbounded. */
  predicate InRange(p: real, start: Option<real>, end: Option<real>)
  {
    (start.None? || start.value <= p) && (end.None? || p < end.value)
  }

  /**
   * Whether a layer reaches position x: [start, end) when a breakpoint
   * owns its jump (inclusive), (start, end] when it does not.
   */
  predicate InLayer(x: real, start: Option<real>, end: Option<real>, inclusive: bool)
  {
    if inclusive then (start.None? || start.value <= x) && (end.None? || x < end.value)
    else (start.None? || start.value < x) && (end.None? || x <= end.value)
  }

  /** propagate_forward: add v to the value of every breakpoint in [start, end). */
  function AddOnRange(s: seq<Step>, start: Option<real>, end: Option<real>, v: real): (r: seq<Step>)
    ensures |r| == |s| && forall k :: 0 <= k < |s| ==> r[k].point == s[k].point
  {
    seq(|s|, k requires 0 <= k < |s| =>
      if InRange(s[k].point, start, end) then Step(s[k].point, s[k].value + v) else s[k])
  }

  /** The store after inserting the finite bounds as breakpoints. */
  function WithBounds(f: StepFn, start: Option<real>, end: Option<real>): seq<Step>
  {
    var s1 := if start.Some? then InsertPoint(f.initial, f.steps, start.value) else f.steps;
    if end.Some? then InsertPoint(f.initial, s1, end.value) else s1
  }

  /** The state after `layer(start, end, v)`. */
  function LayerFn(f: StepFn, start: Option<real>, end: Option<real>, v: real): StepFn
  {
    var init := if start.None? then f.initial + v else f.initial;
    StepFn(init, f.closed, Prune(init, AddOnRange(WithBounds(f, start, end), start, end, v)))
  }

  lemma WithBoundsCorrect(f: StepFn, start: Option<real>, end: Option<real>)
    requires Increasing(f.steps)
    ensures Increasing(WithBounds(f, start, end))
    ensures start.Some? ==> start.value in Points(WithBounds(f, start, end))
    ensures end.Some? ==> end.value in Points(WithBounds(f, start, end))
    ensures forall x, inclusive :: Lookup(f.initial, WithBounds(f, start, end), x, inclusive) == Lookup(f.initial, f.steps, x, inclusive)
  {
    var s1 := if start.Some? then InsertPoint(f.initial, f.steps, start.value) else f.steps;
    if start.Some? {
      InsertPointIncreasing(f.initial, f.steps, start.value);
      InsertPointPoints(f.initial, f.steps, start.value);
      forall x, inclusive ensures Lookup(f.initial, s1, x, inclusive) == Lookup(f.initial, f.steps, x, inclusive) {
        InsertPointPreservesValues(f.initial, f.steps, start.value, x, inclusive);
      }
    }
    if end.Some? {
      InsertPointIncreasing(f.initial, s1, end.value);
      InsertPointPoints(f.initial, s1, end.value);
      forall x, inclusive ensures Lookup(f.initial, WithBounds(f, start, end), x, inclusive) == Lookup(f.initial, s1, x, inclusive) {
        InsertPointPreservesValues(f.initial, s1, end.value, x, inclusive);
      }
    }
  }

  /**
   * Once both finite bounds are breakpoints, adding v on the breakpoints in
   * [start, end) (and on the initial value when start is unbounded) adds v
   * exactly on the layered interval.
   */
  lemma AddOnRangeValues(init: real, s: seq<Step>, start: Option<real>, end: Option<real>, v: real, x: real, inclusive: bool)
    requires Increasing(s)
    requires start.Some? ==> start.value in Points(s)
    requires end.Some? ==> end.value in Points(s)
    ensures Lookup(if start.None? then init + v else init, AddOnRange(s, start, end, v), x, inclusive)
         == Lookup(init, s, x, inclusive) + (if InLayer(x, start, end, inclusive) then v else 0.0)
  {
    var r := AddOnRange(s, start, end, v);
    var init' := if start.None? then init + v else init;
    CoverCountSplits(s, x, inclusive);
    CoverCountSamePoints(s, r, x, inclusive);
    LookupIsLastCovered(init, s, x, inclusive);
    LookupIsLastCovered(init', r, x, inclusive);
    var c := CoverCount(s, x, inclusive);
    if start.Some? {
      var ka :| 0 <= ka < |s| && Points(s)[ka] == start.value;
      assert Covered(s[ka].point, x, inclusive) <==> ka < c;
      if c > 0 {
        assert ka < c ==> s[ka].point <= s[c - 1].point;
      }
    }
    if end.Some? {
      var kb :| 0 <= kb < |s| && Points(s)[kb] == end.value;
      assert Covered(s[kb].point, x, inclusive) <==> kb < c;
      if c > 0 {
        assert kb < c ==> s[kb].point <= s[c - 1].point;
        assert c - 1 < kb ==> s[c - 1].point < s[kb].point;
      }
    }
    if c > 0 {
      assert Covered(s[c - 1].point, x, inclusive);
    }
  }

  /** layer keeps the canonical form. */
  lemma LayerCanonical(f: StepFn, start: Option<real>, end: Option<real>, v: real)
    requires Increasing(f.steps)
    ensures Canonical(LayerFn(f, start, end, v))
  {
    WithBoundsCorrect(f, start, end);
    var s2 := WithBounds(f, start, end);
    var s3 := AddOnRange(s2, start, end, v);
    assert Increasing(s3) by {
      forall i, j | 0 <= i < j < |s3| ensures s3[i].point < s3[j].point {
        assert s2[i].point < s2[j].point;
      }
    }
    PruneCanonical(if start.None? then f.initial + v else f.initial, s3);
  }

  /** layer adds v exactly on the layered interval, seen from either side. */
  lemma LayerValues(f: StepFn, start: Option<real>, end: Option<real>, v: real, x: real, inclusive: bool)
    requires Increasing(f.steps)
    ensures Lookup(LayerFn(f, start, end, v).initial, LayerFn(f, start, end, v).steps, x, inclusive)
         == Lookup(f.initial, f.steps, x, inclusive) + (if InLayer(x, start, end, inclusive) then v else 0.0)
  {
    WithBoundsCorrect(f, start, end);
    var s2 := WithBounds(f, start, end);
    var s3 := AddOnRange(s2, start, end, v);
    var init := if start.None? then f.initial + v else f.initial;
    assert Increasing(s3) by {
      forall i, j | 0 <= i < j < |s3| ensures s3[i].point < s3[j].point {
        assert s2[i].point < s2[j].point;
      }
    }
    PrunePreservesValues(init, s3, x, inclusive);
    AddOnRangeValues(f.initial, s2, start, end, v, x, inclusive);
  }

  /**
   * `layer(start, end, value)` adds value on [start, end) for a left-closed
   * function and on (start, end] for a right-closed one, leaves every other
   * value as it was, and keeps the canonical form.
   */
  lemma LayerAddsOnInterval(f: StepFn, start: Option<real>, end: Option<real>, v: real, x: real)
    requires Canonical(f)
    ensures Canonical(LayerFn(f, start, end, v))
    ensures LayerFn(f, start, end, v).closed == f.closed
    ensures Eval(LayerFn(f, start, end, v), x) == Eval(f, x) + (if InLayer(x, start, end, f.closed == Left) then v else 0.0)
  {
    LayerCanonical(f, start, end, v);
    LayerValues(f, start, end, v, x, f.closed == Left);
  }

  /**
   * A layer whose finite end is not above its finite start covers no point:
   * it leaves a canonical function as it was (start == end and start > end alike).
   */
  lemma LayerEmptyIsIdentity(f: StepFn, a: real, b: real, v: real)
    requires Canonical(f) && b <= a
    ensures LayerFn(f, Some(a), Some(b), v) == f
  {
    var g := LayerFn(f, Some(a), Some(b), v);
    forall x ensures Eval(g, x) == Eval(f, x) {
      LayerAddsOnInterval(f, Some(a), Some(b), v, x);
    }
    LayerCanonical(f, Some(a), Some(b), v);
    Extensionality(g, f);
  }

  /** At -inf the layer counts only if it is unbounded below; at +inf only if unbounded above. */
  lemma LayerAtInfinity(f: StepFn, start: Option<real>, end: Option<real>, v: real)
    requires Canonical(f)
    ensures Evaluate(LayerFn(f, start, end, v), NegInf) == f.initial + (if start.None? then v else 0.0)
    ensures Evaluate(LayerFn(f, start, end, v), PosInf) == FinalValue(f) + (if end.None? then v else 0.0)
  {
    var g := LayerFn(f, start, end, v);
    LayerCanonical(f, start, end, v);
    var x := AboveAll(f.steps, g.steps);
    var y := if start.Some? && start.value >= x then start.value + 1.0 else x;
    var z := if end.Some? && end.value >= y then end.value + 1.0 else y;
    assert forall k :: 0 <= k < |f.steps| ==> Covered(f.steps[k].point, z, true);
    assert forall k :: 0 <= k < |g.steps| ==> Covered(g.steps[k].point, z, true);
    LookupBeyondAll(f, z, true);
    LookupBeyondAll(g, z, true);
    LayerValues(f, start, end, v, z, true);
  }

  /** Layers commute: the order in which intervals are layered does not matter. */
  lemma LayerCommutes(f: StepFn, a1: Option<real>, b1: Option<real>, v1: real,
                      a2: Option<real>, b2: Option<real>, v2: real)
    requires Canonical(f)
    ensures LayerFn(LayerFn(f, a1, b1, v1), a2, b2, v2) == LayerFn(LayerFn(f, a2, b2, v2), a1, b1, v1)
  {
    var g1, g2 := LayerFn(f, a1, b1, v1), LayerFn(f, a2, b2, v2);
    LayerCanonical(f, a1, b1, v1);
    LayerCanonical(f, a2, b2, v2);
    var h1, h2 := LayerFn(g1, a2, b2, v2), LayerFn(g2, a1, b1, v1);
    LayerCanonical(g1, a2, b2, v2);
    LayerCanonical(g2, a1, b1, v1);
    forall x ensures Lookup(h1.initial, h1.steps, x, true) == Lookup(h2.initial, h2.steps, x, true) {
      LayerValues(f, a1, b1, v1, x, true);
      LayerValues(f, a2, b2, v2, x, true);
      LayerValues(g1, a2, b2, v2, x, true);
      LayerValues(g2, a1, b1, v1, x, true);
    }
    UniqueRepresentation(h1.initial, h1.steps, h2.initial, h2.steps);
  }

  /** The vectorised `layer(starts, ends, values)`: each triple in turn. */
  function LayerAll(f: StepFn, starts: seq<Option<real>>, ends: seq<Option<real>>, values: seq<real>): StepFn
    requires |starts| == |ends| == |values|
    decreases |starts|
  {
    if starts == [] then f
    else LayerAll(LayerFn(f, starts[0], ends[0], values[0]), starts[1..], ends[1..], values[1..])
  }

  /** The total a list of layers contributes at x. */
  function LayerSum(x: real, starts: seq<Option<real>>, ends: seq<Option<real>>, values: seq<real>, inclusive: bool): real
    requires |starts| == |ends| == |values|
    decreases |starts|
  {
    if starts == [] then 0.0
    else
      var here := if InLayer(x, starts[0], ends[0], inclusive) then values[0] else 0.0;
      here + LayerSum(x, starts[1..], ends[1..], values[1..], inclusive)
  }

  /** Layering a list of triples adds, at every position, the sum of the layers reaching it. */
  lemma {:induction false} LayerAllValues(f: StepFn, starts: seq<Option<real>>, ends: seq<Option<real>>, values: seq<real>, x: real, inclusive: bool)
    requires Canonical(f)
    requires |starts| == |ends| == |values|
    ensures Canonical(LayerAll(f, starts, ends, values))
    ensures LayerAll(f, starts, ends, values).closed == f.closed
    ensures Lookup(LayerAll(f, starts, ends, values).initial, LayerAll(f, starts, ends, values).steps, x, inclusive)
         == Lookup(f.initial, f.steps, x, inclusive) + LayerSum(x, starts, ends, values, inclusive)
    decreases |starts|
  {
    if starts != [] {
      var g := LayerFn(f, starts[0], ends[0], values[0]);
      LayerCanonical(f, starts[0], ends[0], values[0]);
      LayerValues(f, starts[0], ends[0], values[0], x, inclusive);
      LayerAllValues(g, starts[1..], ends[1..], values[1..], x, inclusive);
    }
  }

  /** At every x, f plus the layers reaching x is h's value there. */
  ghost predicate LayersTo(f: StepFn, starts: seq<Option<real>>, ends: seq<Option<real>>, values: seq<real>, h: StepFn)
    requires |starts| == |ends| == |values|
  {
    forall x :: Lookup(f.initial, f.steps, x, true) + LayerSum(x, starts, ends, values, true) == Lookup(h.initial, h.steps, x, true)
  }

  lemma LayeredIs(f: StepFn, starts: seq<Option<real>>, ends: seq<Option<real>>, values: seq<real>, h: StepFn)
    requires Canonical(f) && Canonical(h) && h.closed == f.closed
    requires |starts| == |ends| == |values|
    requires LayersTo(f, starts, ends, values, h)
    ensures LayerAll(f, starts, ends, values) == h
  {
    var g := LayerAll(f, starts, ends, values);
    forall x ensures Lookup(g.initial, g.steps, x, true) == Lookup(h.initial, h.steps, x, true) {
      LayerAllValues(f, starts, ends, values, x, true);
    }
    LayerAllValues(f, starts, ends, values, 0.0, true);
    UniqueRepresentation(g.initial, g.steps, h.initial, h.steps);
  }
}
