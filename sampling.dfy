/**
 * Sampling a step function: `limit(x, side)`, `values_in_range`, `min` and
 * `max`, with the domain given by `where` and the orientation by `closed`.
 */
module Sampling {
  import opened StepFunction
  import opened SortedPoints

  // ---------------------------------------------------------------------
  // Limits
  // ---------------------------------------------------------------------

  /** The last breakpoint below x, or x - 1 when there is none. */
  function NextBelow(s: seq<Step>, x: real): (r: real)
    requires Increasing(s)
    ensures r < x
    ensures forall k :: 0 <= k < |s| && s[k].point < x ==> s[k].point <= r
    decreases |s|
  {
    if s == [] then x - 1.0
    else if s[|s| - 1].point < x then s[|s| - 1].point
    else
      var r := NextBelow(s[..|s| - 1], x);
      assert forall k :: 0 <= k < |s| - 1 ==> s[k] == s[..|s| - 1][k];
      r
  }

  /** Just after x, up to the next breakpoint, the function holds its right limit at x. */
  lemma JustAfter(f: StepFn, a: real, x: real)
    requires Increasing(f.steps)
    requires a < x < NextAbove(f.steps, a)
    ensures Eval(f, x) == LimitAt(f, a, Right)
  {
    LookupCongruent(f.initial, f.steps, x, f.closed == Left, a, true);
  }

  /** Just before x, back to the previous breakpoint, the function holds its left limit at x. */
  lemma JustBefore(f: StepFn, a: real, x: real)
    requires Increasing(f.steps)
    requires NextBelow(f.steps, a) < x < a
    ensures Eval(f, x) == LimitAt(f, a, Left)
  {
    LookupCongruent(f.initial, f.steps, x, f.closed == Left, a, false);
  }

  /**
   * `limit(x, "right")` is the value just to the right of x, `limit(x, "left")`
   * the value just to the left; `f(x)` is one of the two, by orientation, and
   * the two limits differ only at a breakpoint.
   */
  lemma LimitMeaning(f: StepFn, x: real)
    requires Increasing(f.steps)
    ensures forall y :: x < y < NextAbove(f.steps, x) ==> Eval(f, y) == LimitAt(f, x, Right)
    ensures forall y :: NextBelow(f.steps, x) < y < x ==> Eval(f, y) == LimitAt(f, x, Left)
    ensures Eval(f, x) == LimitAt(f, x, if f.closed == Left then Right else Left)
    ensures LimitAt(f, x, Left) != LimitAt(f, x, Right) ==> x in StepPoints(f)
  {
    forall y | x < y < NextAbove(f.steps, x) ensures Eval(f, y) == LimitAt(f, x, Right) {
      JustAfter(f, x, y);
    }
    forall y | NextBelow(f.steps, x) < y < x ensures Eval(f, y) == LimitAt(f, x, Left) {
      JustBefore(f, x, y);
    }
    if LimitAt(f, x, Left) != LimitAt(f, x, Right) {
      if x !in StepPoints(f) {
        forall k | 0 <= k < |f.steps| ensures Covered(f.steps[k].point, x, true) <==> Covered(f.steps[k].point, x, false) {
          assert Points(f.steps)[k] == f.steps[k].point;
        }
        LookupCongruent(f.initial, f.steps, x, true, x, false);
      }
    }
  }

  /** A breakpoint's own value is the right limit there. */
  lemma StepValueIsRightLimit(f: StepFn, k: nat)
    requires Increasing(f.steps) && k < |f.steps|
    ensures LimitAt(f, f.steps[k].point, Right) == f.steps[k].value
  {
    var s := f.steps;
    CoverCountSplits(s, s[k].point, true);
    LookupIsLastCovered(f.initial, s, s[k].point, true);
    assert CoverCount(s, s[k].point, true) == k + 1 by {
      assert k + 1 < |s| ==> s[k].point < s[k + 1].point;
    }
  }

  // ---------------------------------------------------------------------
  // values_in_range, min, max
  // ---------------------------------------------------------------------

  /**
   * The domain of `where` under orientation `side`: `[a, b)` when left-closed,
   * `(a, b]` when right-closed, the whole line when there is no `where`.
   */
  predicate InDomain(x: real, where: Option<(real, real)>, side: Side)
  {
    where.None? ||
    (if side == Left then where.value.0 <= x < where.value.1 else where.value.0 < x <= where.value.1)
  }

  /** The orientation that decides the domain: the override, or the function's own. */
  function Orientation(f: StepFn, closed: Option<Side>): Side
  {
    if closed.Some? then closed.value else f.closed
  }

  function AllValues(s: seq<Step>): (r: seq<real>)
    ensures |r| == |s| && forall k :: 0 <= k < |s| ==> r[k] == s[k].value
  {
    seq(|s|, k requires 0 <= k < |s| => s[k].value)
  }

  /** The values of the breakpoints strictly inside (a, b). */
  function InsideValues(s: seq<Step>, a: real, b: real): (r: seq<real>)
    ensures forall v :: v in r <==> exists k :: 0 <= k < |s| && a < s[k].point < b && s[k].value == v
    decreases |s|
  {
    if s == [] then []
    else
      var rest := InsideValues(s[1..], a, b);
      assert forall k :: 1 <= k < |s| ==> s[k] == s[1..][k - 1];
      (if a < s[0].point < b then [s[0].value] else []) + rest
  }

  /**
   * The values a function can take on a domain: at the closed end, just
   * after the open start, and at every breakpoint strictly inside; on the
   * whole line, the initial value and every breakpoint's value.
   */
  function Candidates(f: StepFn, where: Option<(real, real)>, side: Side): seq<real>
  {
    if where.None? then [f.initial] + AllValues(f.steps)
    else if where.value.0 >= where.value.1 then []
    else
      [if side == Left then Eval(f, where.value.0) else Eval(f, where.value.1), LimitAt(f, where.value.0, Right)]
      + InsideValues(f.steps, where.value.0, where.value.1)
  }

  /** `values_in_range(where, closed)`: the sorted distinct values taken on the domain. */
  function ValuesInRange(f: StepFn, where: Option<(real, real)>, closed: Option<Side>): (r: seq<real>)
    ensures Sorted(r)
  {
    SortedSet(Candidates(f, where, Orientation(f, closed)))
  }

  ghost predicate Attained(f: StepFn, v: real, where: Option<(real, real)>, side: Side)
  {
    exists x :: InDomain(x, where, side) && Eval(f, x) == v
  }

  /** The right limit at any point of [a, b) is attained strictly inside (a', b) for every a' <= that point. */
  lemma RightLimitAttained(f: StepFn, y: real, b: real, where: Option<(real, real)>, side: Side)
    requires Increasing(f.steps)
    requires y < b
    requires where.None? || (where.value.0 <= y && where.value.1 == b)
    ensures Attained(f, LimitAt(f, y, Right), where, side)
  {
    var n := NextAbove(f.steps, y);
    var m := if n < b then n else b;
    var x := (y + m) / 2.0;
    JustAfter(f, y, x);
    assert InDomain(x, where, side);
  }

  /** Every candidate is attained on the domain. */
  lemma CandidatesAttained(f: StepFn, where: Option<(real, real)>, side: Side)
    requires Increasing(f.steps)
    ensures forall v :: v in Candidates(f, where, side) ==> Attained(f, v, where, side)
  {
    var s := f.steps;
    forall v | v in Candidates(f, where, side) ensures Attained(f, v, where, side) {
      if where.None? {
        if v == f.initial {
          var x := BelowAll(s, s);
          LookupNoneCovered(f.initial, s, x, f.closed == Left);
          assert InDomain(x, where, side);
        } else {
          var k :| 0 <= k < |s| && AllValues(s)[k] == v;
          StepValueIsRightLimit(f, k);
          RightLimitAttained(f, s[k].point, s[k].point + 1.0, where, side);
        }
      } else {
        var a := where.value.0;
        var b := where.value.1;
        if side == Left && v == Eval(f, a) {
          assert InDomain(a, where, side);
        } else if side == Right && v == Eval(f, b) {
          assert InDomain(b, where, side);
        } else if v == LimitAt(f, a, Right) {
          RightLimitAttained(f, a, b, where, side);
        } else {
          assert v in InsideValues(s, a, b);
          var k :| 0 <= k < |s| && a < s[k].point < b && s[k].value == v;
          StepValueIsRightLimit(f, k);
          RightLimitAttained(f, s[k].point, b, where, side);
        }
      }
    }
  }

  /** Every value taken on the domain is a candidate. */
  lemma ValueIsCandidate(f: StepFn, where: Option<(real, real)>, side: Side, x: real)
    requires Increasing(f.steps)
    requires InDomain(x, where, side)
    ensures Eval(f, x) in Candidates(f, where, side)
  {
    var s := f.steps;
    var inc := f.closed == Left;
    var c := CoverCount(s, x, inc);
    LookupIsLastCovered(f.initial, s, x, inc);
    CoverCountSplits(s, x, inc);
    if where.None? {
      if c > 0 {
        assert AllValues(s)[c - 1] == s[c - 1].value;
      }
    } else {
      var a := where.value.0;
      var b := where.value.1;
      if (side == Left && x == a) || (side == Right && x == b) {
      } else if c > 0 && s[c - 1].point > a {
        assert s[c - 1].point <= x && x <= b;
        assert Covered(s[c - 1].point, x, inc);
        assert s[c - 1].point < b;
      } else {
        forall k | 0 <= k < |s| ensures Covered(s[k].point, x, inc) <==> Covered(s[k].point, a, true) {
          if Covered(s[k].point, x, inc) {
            assert k < c;
            assert k == c - 1 || s[k].point < s[c - 1].point;
          }
        }
        LookupCongruent(f.initial, s, x, inc, a, true);
      }
    }
  }

  /**
   * `values_in_range` is exactly the set of values the function takes on the
   * domain, sorted and without duplicates; it is empty exactly when the
   * domain is.
   */
  lemma ValuesInRangeMeaning(f: StepFn, where: Option<(real, real)>, closed: Option<Side>)
    requires Increasing(f.steps)
    ensures Sorted(ValuesInRange(f, where, closed))
    ensures forall v :: v in ValuesInRange(f, where, closed) <==> Attained(f, v, where, Orientation(f, closed))
    ensures ValuesInRange(f, where, closed) == [] <==> forall x :: !InDomain(x, where, Orientation(f, closed))
  {
    var side := Orientation(f, closed);
    CandidatesAttained(f, where, side);
    forall v | Attained(f, v, where, side) ensures v in ValuesInRange(f, where, closed) {
      var x :| InDomain(x, where, side) && Eval(f, x) == v;
      ValueIsCandidate(f, where, side, x);
    }
    if ValuesInRange(f, where, closed) != [] {
      assert Attained(f, ValuesInRange(f, where, closed)[0], where, side);
    }
    if exists x :: InDomain(x, where, side) {
      var x :| InDomain(x, where, side);
      ValueIsCandidate(f, where, side, x);
      assert Eval(f, x) in ValuesInRange(f, where, closed);
    }
  }

  /** `min(where, closed)`: None for an empty domain. */
  function Min(f: StepFn, where: Option<(real, real)>, closed: Option<Side>): (r: Option<real>)
    ensures r.None? <==> ValuesInRange(f, where, closed) == []
    ensures r.Some? ==> r.value in ValuesInRange(f, where, closed)
    ensures r.Some? ==> forall v :: v in ValuesInRange(f, where, closed) ==> r.value <= v
  {
    var vs := ValuesInRange(f, where, closed);
    if vs == [] then None
    else
      assert forall v :: v in vs ==> vs[0] <= v by {
        forall v | v in vs ensures vs[0] <= v {
          FirstIsLeast(vs, v);
        }
      }
      Some(vs[0])
  }

  /** `max(where, closed)`: None for an empty domain. */
  function Max(f: StepFn, where: Option<(real, real)>, closed: Option<Side>): (r: Option<real>)
    ensures r.None? <==> ValuesInRange(f, where, closed) == []
    ensures r.Some? ==> r.value in ValuesInRange(f, where, closed)
    ensures r.Some? ==> forall v :: v in ValuesInRange(f, where, closed) ==> v <= r.value
  {
    var vs := ValuesInRange(f, where, closed);
    if vs == [] then None
    else
      assert forall v :: v in vs ==> v <= vs[|vs| - 1] by {
        forall v | v in vs ensures v <= vs[|vs| - 1] {
          LastIsGreatest(vs, v);
        }
      }
      Some(vs[|vs| - 1])
  }

  /** min and max are attained on the domain and bound every value taken there. */
  lemma MinMaxMeaning(f: StepFn, where: Option<(real, real)>, closed: Option<Side>)
    requires Increasing(f.steps)
    ensures Min(f, where, closed).None? <==> forall x :: !InDomain(x, where, Orientation(f, closed))
    ensures Max(f, where, closed).None? <==> forall x :: !InDomain(x, where, Orientation(f, closed))
    ensures Min(f, where, closed).Some? ==> Attained(f, Min(f, where, closed).value, where, Orientation(f, closed))
    ensures Max(f, where, closed).Some? ==> Attained(f, Max(f, where, closed).value, where, Orientation(f, closed))
    ensures forall x :: InDomain(x, where, Orientation(f, closed)) ==>
      Min(f, where, closed).Some? && Min(f, where, closed).value <= Eval(f, x) &&
      Max(f, where, closed).Some? && Eval(f, x) <= Max(f, where, closed).value
  {
    ValuesInRangeMeaning(f, where, closed);
    forall x | InDomain(x, where, Orientation(f, closed))
      ensures Min(f, where, closed).Some? && Min(f, where, closed).value <= Eval(f, x)
      ensures Max(f, where, closed).Some? && Eval(f, x) <= Max(f, where, closed).value
    {
      assert Attained(f, Eval(f, x), where, Orientation(f, closed));
    }
  }
}
