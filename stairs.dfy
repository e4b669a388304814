/**
 * The `Stairs` object: a step function whose breakpoint store is updated in
 * place by `layer`.  Every other operation reads `Model()` and produces a new
 * value (see the Algebra, Aggregation, Sampling and Integration modules).
 */
module StairsObject {
  import opened StepFunction
  import opened Layering

  class Stairs {
    var initial: real
    var closed: Side
    var steps: seq<Step>

    /** The step function this object currently represents. */
    function Model(): StepFn
      reads this
    {
      StepFn(initial, closed, steps)
    }

    predicate Valid()
      reads this
    {
      Canonical(Model())
    }

    /** `Stairs(initial_value, closed)`. */
    constructor (initialValue: real, side: Side)
      ensures Valid() && Model() == Constant(initialValue, side)
    {
      initial, closed, steps := initialValue, side, [];
    }

    /** Wraps the canonical result of an operation in a new object. */
    constructor FromModel(f: StepFn)
      requires Canonical(f)
      ensures Valid() && Model() == f
    {
      initial, closed, steps := f.initial, f.closed, f.steps;
    }

    /** `copy()`: a new object with its own store and the same function. */
    method Copy() returns (c: Stairs)
      requires Valid()
      ensures fresh(c) && c.Valid() && c.Model() == Model()
    {
      c := new Stairs.FromModel(Model());
    }

    /**
     * `layer(start, end, value)`: adds value on [start, end) ((start, end] when
     * right-closed); a missing bound is unbounded on that side.
     */
    method Layer(start: Option<real>, end: Option<real>, value: real)
      requires Valid()
      modifies this
      ensures Valid() && Model() == LayerFn(old(Model()), start, end, value)
    {
      LayerCanonical(Model(), start, end, value);
      var s := WithBounds(Model(), start, end);
      ghost var s0 := s;
      // propagate the layer's value over the breakpoints it spans
      var i := 0;
      while i < |s|
        invariant 0 <= i <= |s| == |s0|
        invariant forall k :: 0 <= k < i ==> s[k] == AddOnRange(s0, start, end, value)[k]
        invariant forall k :: i <= k < |s| ==> s[k] == s0[k]
      {
        if InRange(s[i].point, start, end) {
          s := s[i := Step(s[i].point, s[i].value + value)];
        }
        i := i + 1;
      }
      assert s == AddOnRange(s0, start, end, value);
      if start.None? {
        initial := initial + value;
      }
      steps := Prune(initial, s);
    }

    /** The vectorised `layer(starts, ends, values)`, a missing bound meaning unbounded. */
    method LayerMany(starts: seq<Option<real>>, ends: seq<Option<real>>, values: seq<real>)
      requires Valid()
      requires |starts| == |ends| == |values|
      modifies this
      ensures Valid() && Model() == LayerAll(old(Model()), starts, ends, values)
    {
      var i := 0;
      while i < |starts|
        invariant 0 <= i <= |starts|
        invariant Valid()
        invariant LayerAll(Model(), starts[i..], ends[i..], values[i..]) == LayerAll(old(Model()), starts, ends, values)
      {
        assert starts[i..][1..] == starts[i + 1..] && ends[i..][1..] == ends[i + 1..] && values[i..][1..] == values[i + 1..];
        Layer(starts[i], ends[i], values[i]);
        i := i + 1;
      }
    }

    /** `self(x)`, with x = -inf and x = +inf allowed: a binary search over the breakpoints. */
    method Call(pos: Position) returns (r: real)
      requires Valid()
      ensures r == Evaluate(Model(), pos)
    {
      match pos {
        case NegInf =>
          r := initial;
        case PosInf =>
          r := if steps == [] then initial else steps[|steps| - 1].value;
        case At(x) =>
          var inclusive := closed == Left;
          ghost var c := CoverCount(steps, x, inclusive);
          CoverCountSplits(steps, x, inclusive);
          var lo, hi := 0, |steps|;
          while lo < hi
            invariant 0 <= lo <= c <= hi <= |steps|
          {
            var mid := (lo + hi) / 2;
            if Covered(steps[mid].point, x, inclusive) {
              lo := mid + 1;
            } else {
              hi := mid;
            }
          }
          LookupIsLastCovered(initial, steps, x, inclusive);
          r := if lo == 0 then initial else steps[lo - 1].value;
      }
    }
  }

  /** A copy is independent: layering it leaves the original as it was. */
  method CopyIsIndependent(s: Stairs) returns (c: Stairs)
    requires s.Valid()
    modifies {}
    ensures fresh(c) && c.Valid()
    ensures s.Model() == old(s.Model())
    ensures c.Model() == LayerFn(s.Model(), Some(1.0), Some(2.0), 1.0)
    ensures c.Model() != s.Model()
  {
    c := s.Copy();
    c.Layer(Some(1.0), Some(2.0), 1.0);
    LayerValues(s.Model(), Some(1.0), Some(2.0), 1.0, 1.0, s.closed == Left);
    LayerValues(s.Model(), Some(1.0), Some(2.0), 1.0, 2.0, s.closed == Left);
  }
}
