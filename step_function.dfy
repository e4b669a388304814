/**
 * The breakpoint store of a step function and its evaluation.
 *
 * A step function is kept in accumulated-value form: an initial value that
 * holds on (-inf, first point), and a strictly increasing sequence of
 * breakpoints, each carrying the value the function takes from that point on.
 * The `closed` orientation does not change the representation, only which
 * side of a jump owns the breakpoint itself:
 *   closed == Left   the value at a breakpoint includes its jump  ([a, b) pieces)
 *   closed == Right  the value at a breakpoint excludes its jump  ((a, b] pieces)
 */
module StepFunction {

  datatype Option<T> = None | Some(value: T)

  /** Orientation of a step function; also the side a limit is taken from. */
  datatype Side = Left | Right

  /** An evaluation position on the extended real line. */
  datatype Position = NegInf | At(x: real) | PosInf

  /** A breakpoint and the value the function takes from it on. */
  datatype Step = Step(point: real, value: real)

  datatype StepFn = StepFn(initial: real, closed: Side, steps: seq<Step>)

  /** A jump of the function: the representation `step_changes` exposes. */
  datatype Change = Change(point: real, delta: real)

  // ---------------------------------------------------------------------
  // Canonical form
  // ---------------------------------------------------------------------

  predicate Increasing(s: seq<Step>)
  {
    forall i, j :: 0 <= i < j < |s| ==> s[i].point < s[j].point
  }

  /** The value just before breakpoint k. */
  function Prev(init: real, s: seq<Step>, k: int): real
    requires 0 <= k <= |s|
  {
    if k == 0 then init else s[k - 1].value
  }

  /** No breakpoint repeats the value in force before it. */
  predicate NoRedundant(init: real, s: seq<Step>)
  {
    forall k :: 0 <= k < |s| ==> s[k].value != Prev(init, s, k)
  }

  /** The invariant every step function keeps after every operation. */
  predicate Canonical(f: StepFn)
  {
    Increasing(f.steps) && NoRedundant(f.initial, f.steps)
  }

  function Points(s: seq<Step>): (r: seq<real>)
    ensures |r| == |s|
    ensures forall k :: 0 <= k < |s| ==> r[k] == s[k].point
  {
    seq(|s|, k requires 0 <= k < |s| => s[k].point)
  }

  /** A fresh function `Stairs(initial_value, closed)`: no breakpoints. */
  function Constant(init: real, closed: Side): (f: StepFn)
    ensures Canonical(f) && f.steps == []
  {
    StepFn(init, closed, [])
  }

  function NumberOfSteps(f: StepFn): nat
  {
    |f.steps|
  }

  function StepPoints(f: StepFn): seq<real>
  {
    Points(f.steps)
  }

  // ---------------------------------------------------------------------
  // Evaluation
  // ---------------------------------------------------------------------

  /** Whether breakpoint p has taken effect at x. */
  predicate Covered(p: real, x: real, inclusive: bool)
  {
    if inclusive then p <= x else p < x
  }

  /** The number of leading breakpoints already in effect at x. */
  function CoverCount(s: seq<Step>, x: real, inclusive: bool): (c: nat)
    ensures c <= |s|
  {
    if s == [] || !Covered(s[0].point, x, inclusive) then 0
    else 1 + CoverCount(s[1..], x, inclusive)
  }

  /**
   * The value in force at x: the value of the last breakpoint in effect,
   * or `init` if none is.  `inclusive` counts a breakpoint at x itself.
   */
  function Lookup(init: real, s: seq<Step>, x: real, inclusive: bool): real
    decreases |s|
  {
    if s == [] || !Covered(s[0].point, x, inclusive) then init
    else Lookup(s[0].value, s[1..], x, inclusive)
  }

  /** `f(x)` under the function's own orientation. */
  function Eval(f: StepFn, x: real): real
  {
    Lookup(f.initial, f.steps, x, f.closed == Left)
  }

  /** `limit(x, side)`: Right includes the jump at x, Left excludes it. */
  function LimitAt(f: StepFn, x: real, side: Side): real
  {
    Lookup(f.initial, f.steps, x, side == Right)
  }

  function FinalValue(f: StepFn): real
  {
    if f.steps == [] then f.initial else f.steps[|f.steps| - 1].value
  }

  /** `f(x)` on the extended real line. */
  function Evaluate(f: StepFn, pos: Position): real
  {
    match pos
    case NegInf => f.initial
    case PosInf => FinalValue(f)
    case At(x) => Eval(f, x)
  }

  // ---------------------------------------------------------------------
  // Facts about Lookup
  // ---------------------------------------------------------------------

  lemma {:induction false} CoverCountSplits(s: seq<Step>, x: real, inclusive: bool)
    requires Increasing(s)
    ensures forall k :: 0 <= k < |s| ==>
      (Covered(s[k].point, x, inclusive) <==> k < CoverCount(s, x, inclusive))
  {
    if s != [] {
      CoverCountSplits(s[1..], x, inclusive);
      forall k | 0 <= k < |s|
        ensures Covered(s[k].point, x, inclusive) <==> k < CoverCount(s, x, inclusive)
      {
        if k > 0 {
          assert s[k] == s[1..][k - 1];
          assert s[0].point < s[k].point;
        }
      }
    }
  }

  /** Lookup returns the value of the last breakpoint in effect. */
  lemma {:induction false} LookupIsLastCovered(init: real, s: seq<Step>, x: real, inclusive: bool)
    ensures Lookup(init, s, x, inclusive) ==
      (var c := CoverCount(s, x, inclusive); if c == 0 then init else s[c - 1].value)
    decreases |s|
  {
    if s != [] && Covered(s[0].point, x, inclusive) {
      LookupIsLastCovered(s[0].value, s[1..], x, inclusive);
    }
  }

  /** Two positions that see the same breakpoints in effect see the same value. */
  lemma {:induction false} LookupCongruent(init: real, s: seq<Step>, x: real, i: bool, y: real, j: bool)
    requires forall k :: 0 <= k < |s| ==> (Covered(s[k].point, x, i) <==> Covered(s[k].point, y, j))
    ensures Lookup(init, s, x, i) == Lookup(init, s, y, j)
    decreases |s|
  {
    if s != [] {
      assert Covered(s[0].point, x, i) <==> Covered(s[0].point, y, j);
      forall k | 0 <= k < |s[1..]|
        ensures Covered(s[1..][k].point, x, i) <==> Covered(s[1..][k].point, y, j)
      {
        assert s[1..][k] == s[k + 1];
      }
      LookupCongruent(s[0].value, s[1..], x, i, y, j);
    }
  }

  lemma LookupNoneCovered(init: real, s: seq<Step>, x: real, inclusive: bool)
    requires forall k :: 0 <= k < |s| ==> !Covered(s[k].point, x, inclusive)
    ensures Lookup(init, s, x, inclusive) == init
  {
    if s != [] {
      assert !Covered(s[0].point, x, inclusive);
    }
  }

  /** At its first breakpoint an increasing function takes that breakpoint's value. */
  lemma LookupAtFirst(init: real, s: seq<Step>)
    requires Increasing(s) && s != []
    ensures Lookup(init, s, s[0].point, true) == s[0].value
  {
    forall k | 0 <= k < |s[1..]| ensures !Covered(s[1..][k].point, s[0].point, true) {
      assert s[1..][k] == s[k + 1];
    }
    LookupNoneCovered(s[0].value, s[1..], s[0].point, true);
  }

  /** The first breakpoint above x, or x + 1 when there is none. */
  function NextAbove(s: seq<Step>, x: real): (r: real)
    requires Increasing(s)
    ensures r > x
    ensures forall k :: 0 <= k < |s| && s[k].point > x ==> s[k].point >= r
  {
    if s == [] then x + 1.0
    else if s[0].point > x then s[0].point
    else
      var r := NextAbove(s[1..], x);
      assert forall k :: 1 <= k < |s| ==> s[k] == s[1..][k - 1];
      r
  }

  /** A real below every breakpoint of both sequences. */
  function BelowAll(s1: seq<Step>, s2: seq<Step>): (r: real)
    requires Increasing(s1) && Increasing(s2)
    ensures forall k :: 0 <= k < |s1| ==> r < s1[k].point
    ensures forall k :: 0 <= k < |s2| ==> r < s2[k].point
  {
    if s1 == [] && s2 == [] then 0.0
    else if s1 == [] then s2[0].point - 1.0
    else if s2 == [] then s1[0].point - 1.0
    else if s1[0].point < s2[0].point then s1[0].point - 1.0
    else s2[0].point - 1.0
  }

  // ---------------------------------------------------------------------
  // Uniqueness of the canonical form
  // ---------------------------------------------------------------------

  /**
   * Two canonical stores that take the same value (jump included) at every
   * real are the same store: the canonical form of a step function is unique.
   */
  lemma {:induction false} UniqueRepresentation(i1: real, s1: seq<Step>, i2: real, s2: seq<Step>)
    requires Increasing(s1) && NoRedundant(i1, s1)
    requires Increasing(s2) && NoRedundant(i2, s2)
    requires forall x :: Lookup(i1, s1, x, true) == Lookup(i2, s2, x, true)
    ensures i1 == i2 && s1 == s2
    decreases |s1| + |s2|
  {
    var x0 := BelowAll(s1, s2);
    LookupNoneCovered(i1, s1, x0, true);
    LookupNoneCovered(i2, s2, x0, true);
    assert i1 == i2;
    if s1 == [] && s2 == [] {
      return;
    }
    if s1 == [] || (s2 != [] && s2[0].point < s1[0].point) {
      LookupAtFirst(i2, s2);
      assert false;
    }
    if s2 == [] || s1[0].point < s2[0].point {
      LookupAtFirst(i1, s1);
      assert false;
    }
    var p := s1[0].point;
    assert s2[0].point == p;
    LookupAtFirst(i1, s1);
    LookupAtFirst(i2, s2);
    assert Lookup(i1, s1, p, true) == Lookup(i2, s2, p, true);
    var v := s1[0].value;
    assert s2[0].value == v;
    var t1, t2 := s1[1..], s2[1..];
    forall x ensures Lookup(v, t1, x, true) == Lookup(v, t2, x, true) {
      if p <= x {
        assert Lookup(i1, s1, x, true) == Lookup(v, t1, x, true);
        assert Lookup(i2, s2, x, true) == Lookup(v, t2, x, true);
      } else {
        forall k | 0 <= k < |t1| ensures !Covered(t1[k].point, x, true) {
          assert t1[k] == s1[k + 1];
        }
        forall k | 0 <= k < |t2| ensures !Covered(t2[k].point, x, true) {
          assert t2[k] == s2[k + 1];
        }
        LookupNoneCovered(v, t1, x, true);
        LookupNoneCovered(v, t2, x, true);
      }
    }
    assert Increasing(t1) && Increasing(t2);
    forall k | 0 <= k < |t1| ensures t1[k].value != Prev(v, t1, k) {
      assert t1[k] == s1[k + 1];
      assert s1[k + 1].value != Prev(i1, s1, k + 1);
    }
    forall k | 0 <= k < |t2| ensures t2[k].value != Prev(v, t2, k) {
      assert t2[k] == s2[k + 1];
      assert s2[k + 1].value != Prev(i2, s2, k + 1);
    }
    UniqueRepresentation(v, t1, v, t2);
    assert s1 == [s1[0]] + t1 && s2 == [s2[0]] + t2;
  }

  /** Agreement of the left limits everywhere implies agreement of the right limits. */
  lemma LeftLimitsDetermineRightLimits(i1: real, s1: seq<Step>, i2: real, s2: seq<Step>)
    requires Increasing(s1) && Increasing(s2)
    requires forall y :: Lookup(i1, s1, y, false) == Lookup(i2, s2, y, false)
    ensures forall x :: Lookup(i1, s1, x, true) == Lookup(i2, s2, x, true)
  {
    forall x ensures Lookup(i1, s1, x, true) == Lookup(i2, s2, x, true) {
      var q1, q2 := NextAbove(s1, x), NextAbove(s2, x);
      var q := if q1 < q2 then q1 else q2;
      var y := (x + q) / 2.0;
      LookupCongruent(i1, s1, x, true, y, false);
      LookupCongruent(i2, s2, x, true, y, false);
      assert Lookup(i1, s1, y, false) == Lookup(i2, s2, y, false);
    }
  }

  /**
   * `identical` is structural equality; for canonical functions of one
   * orientation it holds exactly when they take the same value everywhere.
   */
  lemma Extensionality(f: StepFn, g: StepFn)
    requires Canonical(f) && Canonical(g) && f.closed == g.closed
    requires forall x :: Eval(f, x) == Eval(g, x)
    ensures f == g
  {
    if f.closed == Right {
      assert forall y :: Lookup(f.initial, f.steps, y, false) == Lookup(g.initial, g.steps, y, false) by {
        forall y ensures Lookup(f.initial, f.steps, y, false) == Lookup(g.initial, g.steps, y, false) {
          assert Eval(f, y) == Eval(g, y);
        }
      }
      LeftLimitsDetermineRightLimits(f.initial, f.steps, g.initial, g.steps);
    } else {
      assert forall x :: Lookup(f.initial, f.steps, x, true) == Lookup(g.initial, g.steps, x, true) by {
        forall x ensures Lookup(f.initial, f.steps, x, true) == Lookup(g.initial, g.steps, x, true) {
          assert Eval(f, x) == Eval(g, x);
        }
      }
    }
    UniqueRepresentation(f.initial, f.steps, g.initial, g.steps);
  }

  /** Structural equality (`identical`), characterised by the values taken. */
  function Identical(f: StepFn, g: StepFn): (r: bool)
    requires Canonical(f) && Canonical(g)
    ensures r <==> (f.closed == g.closed && forall x :: Eval(f, x) == Eval(g, x))
  {
    IdenticalIffSameValues(f, g);
    f == g
  }

  lemma IdenticalIffSameValues(f: StepFn, g: StepFn)
    requires Canonical(f) && Canonical(g)
    ensures f == g <==> (f.closed == g.closed && forall x :: Eval(f, x) == Eval(g, x))
  {
    if f.closed == g.closed && forall x :: Eval(f, x) == Eval(g, x) {
      Extensionality(f, g);
    }
  }

  // ---------------------------------------------------------------------
  // Store operations: insert a breakpoint, prune redundant ones
  // ---------------------------------------------------------------------

  /**
   * Removes every breakpoint whose value equals the value in force before it
   * (`prev` before the first one).
   */
  function Prune(prev: real, s: seq<Step>): seq<Step>
    decreases |s|
  {
    if s == [] then []
    else if s[0].value == prev then Prune(prev, s[1..])
    else [s[0]] + Prune(s[0].value, s[1..])
  }

  lemma TailAbove(s: seq<Step>)
    requires Increasing(s) && s != []
    ensures Increasing(s[1..])
    ensures forall u :: u in s[1..] ==> u in s && s[0].point < u.point
  {
    forall u | u in s[1..] ensures u in s && s[0].point < u.point {
      var k :| 0 <= k < |s[1..]| && s[1..][k] == u;
      assert s[k + 1] == u;
    }
  }

  lemma ConsIncreasing(st: Step, t: seq<Step>)
    requires Increasing(t)
    requires forall u :: u in t ==> st.point < u.point
    ensures Increasing([st] + t)
  {
    var r := [st] + t;
    forall i, j | 0 <= i < j < |r| ensures r[i].point < r[j].point {
      assert r[j] == t[j - 1];
      if i > 0 { assert r[i] == t[i - 1]; } else { assert t[j - 1] in t; }
    }
  }

  lemma {:induction false} PruneSubset(prev: real, s: seq<Step>)
    ensures forall st :: st in Prune(prev, s) ==> st in s
    decreases |s|
  {
    if s != [] {
      PruneSubset(prev, s[1..]);
      PruneSubset(s[0].value, s[1..]);
    }
  }

  lemma {:induction false} PruneIncreasing(prev: real, s: seq<Step>)
    requires Increasing(s)
    ensures Increasing(Prune(prev, s))
    decreases |s|
  {
    if s != [] {
      var t := s[1..];
      TailAbove(s);
      if s[0].value == prev {
        PruneIncreasing(prev, t);
      } else {
        PruneIncreasing(s[0].value, t);
        PruneSubset(s[0].value, t);
        ConsIncreasing(s[0], Prune(s[0].value, t));
      }
    }
  }

  lemma {:induction false} PruneNoRedundant(prev: real, s: seq<Step>)
    ensures NoRedundant(prev, Prune(prev, s))
    decreases |s|
  {
    if s != [] {
      var t := s[1..];
      if s[0].value == prev {
        PruneNoRedundant(prev, t);
      } else {
        PruneNoRedundant(s[0].value, t);
        var r' := Prune(s[0].value, t);
        var r := [s[0]] + r';
        forall k | 0 <= k < |r| ensures r[k].value != Prev(prev, r, k) {
          if k > 0 {
            assert r[k] == r'[k - 1];
            assert r'[k - 1].value != Prev(s[0].value, r', k - 1);
          }
        }
      }
    }
  }

  /** Pruning an increasing store yields the canonical form. */
  lemma PruneCanonical(prev: real, s: seq<Step>)
    requires Increasing(s)
    ensures Increasing(Prune(prev, s)) && NoRedundant(prev, Prune(prev, s))
  {
    PruneIncreasing(prev, s);
    PruneNoRedundant(prev, s);
  }

  /** Pruning does not change the value taken at any position, from either side. */
  lemma {:induction false} PrunePreservesValues(prev: real, s: seq<Step>, x: real, inclusive: bool)
    requires Increasing(s)
    ensures Lookup(prev, Prune(prev, s), x, inclusive) == Lookup(prev, s, x, inclusive)
    decreases |s|
  {
    if s != [] {
      var t := s[1..];
      if s[0].value == prev {
        PrunePreservesValues(prev, t, x, inclusive);
        if !Covered(s[0].point, x, inclusive) {
          forall k | 0 <= k < |t| ensures !Covered(t[k].point, x, inclusive) {
            assert t[k] == s[k + 1];
          }
          LookupNoneCovered(prev, t, x, inclusive);
        }
      } else {
        PrunePreservesValues(s[0].value, t, x, inclusive);
      }
    }
  }

  /** A store that is already canonical is left as it is. */
  lemma {:induction false} PruneCanonicalIsIdentity(prev: real, s: seq<Step>)
    requires NoRedundant(prev, s)
    ensures Prune(prev, s) == s
    decreases |s|
  {
    if s != [] {
      assert s[0].value != Prev(prev, s, 0);
      var t := s[1..];
      forall k | 0 <= k < |t| ensures t[k].value != Prev(s[0].value, t, k) {
        assert t[k] == s[k + 1];
        assert s[k + 1].value != Prev(prev, s, k + 1);
      }
      PruneCanonicalIsIdentity(s[0].value, t);
      assert s == [s[0]] + t;
    }
  }

  /**
   * Makes p a breakpoint, carrying forward the value in force just before it
   * (`prev` before the first breakpoint); a store already holding p is kept.
   */
  function InsertPoint(prev: real, s: seq<Step>, p: real): seq<Step>
    decreases |s|
  {
    if s == [] then [Step(p, prev)]
    else if p < s[0].point then [Step(p, prev)] + s
    else if p == s[0].point then s
    else [s[0]] + InsertPoint(s[0].value, s[1..], p)
  }

  lemma {:induction false} InsertPointPoints(prev: real, s: seq<Step>, p: real)
    ensures forall q :: q in Points(InsertPoint(prev, s, p)) <==> q == p || q in Points(s)
    decreases |s|
  {
    var r := InsertPoint(prev, s, p);
    if s == [] {
      assert Points(r) == [p];
    } else if p < s[0].point {
      assert Points(r) == [p] + Points(s);
    } else if p == s[0].point {
      assert Points(s)[0] == p;
    } else {
      InsertPointPoints(s[0].value, s[1..], p);
      assert Points(r) == [s[0].point] + Points(InsertPoint(s[0].value, s[1..], p));
      assert Points(s) == [s[0].point] + Points(s[1..]);
    }
  }

  lemma {:induction false} InsertPointIncreasing(prev: real, s: seq<Step>, p: real)
    requires Increasing(s)
    ensures Increasing(InsertPoint(prev, s, p))
    decreases |s|
  {
    if s == [] {
    } else if p < s[0].point {
      forall u | u in s ensures p < u.point {
        var k :| 0 <= k < |s| && s[k] == u;
      }
      ConsIncreasing(Step(p, prev), s);
    } else if p == s[0].point {
    } else {
      var t := s[1..];
      TailAbove(s);
      InsertPointIncreasing(s[0].value, t, p);
      InsertPointPoints(s[0].value, t, p);
      var r' := InsertPoint(s[0].value, t, p);
      forall u | u in r' ensures s[0].point < u.point {
        var k :| 0 <= k < |r'| && r'[k] == u;
        assert Points(r')[k] == u.point;
        assert u.point in Points(r');
        if u.point != p {
          assert u.point in Points(t);
          var j :| 0 <= j < |t| && Points(t)[j] == u.point;
          assert t[j] in t;
        }
      }
      ConsIncreasing(s[0], r');
    }
  }

  /** Inserting a breakpoint does not change the value taken anywhere. */
  lemma {:induction false} InsertPointPreservesValues(prev: real, s: seq<Step>, p: real, x: real, inclusive: bool)
    requires Increasing(s)
    ensures Lookup(prev, InsertPoint(prev, s, p), x, inclusive) == Lookup(prev, s, x, inclusive)
    decreases |s|
  {
    var r := InsertPoint(prev, s, p);
    if s == [] {
    } else if p < s[0].point {
      if Covered(p, x, inclusive) {
        assert r[1..] == s;
      } else {
        assert !Covered(s[0].point, x, inclusive);
      }
    } else if p == s[0].point {
    } else {
      TailAbove(s);
      InsertPointPreservesValues(s[0].value, s[1..], p, x, inclusive);
      assert r[1..] == InsertPoint(s[0].value, s[1..], p);
    }
  }

  // ---------------------------------------------------------------------
  // step_changes: the jumps of the function
  // ---------------------------------------------------------------------

  /** The jump at every breakpoint, in breakpoint order. */
  function StepChanges(f: StepFn): seq<Change>
  {
    seq(|f.steps|, k requires 0 <= k < |f.steps| =>
      Change(f.steps[k].point, f.steps[k].value - Prev(f.initial, f.steps, k)))
  }

  /** Rebuilds the accumulated values from an initial value and the jumps. */
  function Accumulate(init: real, changes: seq<Change>): seq<Step>
    decreases |changes|
  {
    if changes == [] then []
    else
      var v := init + changes[0].delta;
      [Step(changes[0].point, v)] + Accumulate(v, changes[1..])
  }

  /** `step_changes` loses nothing: the jumps and the initial value give the store back. */
  lemma {:induction false} AccumulateStepChanges(f: StepFn)
    ensures Accumulate(f.initial, StepChanges(f)) == f.steps
    decreases |f.steps|
  {
    if f.steps != [] {
      var g := StepFn(f.steps[0].value, f.closed, f.steps[1..]);
      AccumulateStepChanges(g);
      assert StepChanges(f)[1..] == StepChanges(g) by {
        forall k | 0 <= k < |StepChanges(g)| ensures StepChanges(f)[1..][k] == StepChanges(g)[k] {
          assert f.steps[k + 1] == g.steps[k];
          assert Prev(f.initial, f.steps, k + 1) == Prev(g.initial, g.steps, k);
        }
      }
      assert f.steps == [f.steps[0]] + g.steps;
    }
  }

  /** In canonical form every jump is a real change, at an increasing breakpoint. */
  lemma StepChangesNonZero(f: StepFn)
    requires Canonical(f)
    ensures |StepChanges(f)| == NumberOfSteps(f)
    ensures forall k :: 0 <= k < |StepChanges(f)| ==>
      StepChanges(f)[k].delta != 0.0 && StepChanges(f)[k].point == f.steps[k].point
  {
    forall k | 0 <= k < |f.steps| ensures StepChanges(f)[k].delta != 0.0 {
      assert f.steps[k].value != Prev(f.initial, f.steps, k);
    }
  }

  /**
   * At breakpoint k the right limit (jump included) is the breakpoint's value
   * and the left limit is the value before it; their difference is the jump
   * `step_changes` lists.
   */
  lemma JumpAtBreakpoint(f: StepFn, k: nat)
    requires Increasing(f.steps) && k < |f.steps|
    ensures LimitAt(f, f.steps[k].point, Right) == f.steps[k].value
    ensures LimitAt(f, f.steps[k].point, Left) == Prev(f.initial, f.steps, k)
    ensures LimitAt(f, f.steps[k].point, Right) - LimitAt(f, f.steps[k].point, Left) == StepChanges(f)[k].delta
  {
    var s, p := f.steps, f.steps[k].point;
    CoverCountSplits(s, p, true);
    CoverCountSplits(s, p, false);
    LookupIsLastCovered(f.initial, s, p, true);
    LookupIsLastCovered(f.initial, s, p, false);
    assert !(k + 1 < |s|) || !Covered(s[k + 1].point, p, true);
    assert CoverCount(s, p, true) == k + 1;
    assert k == 0 || Covered(s[k - 1].point, p, false);
    assert CoverCount(s, p, false) == k;
  }

  /** Away from breakpoints there is no jump: both limits agree. */
  lemma NoJumpOffBreakpoints(f: StepFn, x: real)
    requires x !in StepPoints(f)
    ensures LimitAt(f, x, Right) == LimitAt(f, x, Left)
  {
    forall k | 0 <= k < |f.steps| ensures Covered(f.steps[k].point, x, true) <==> Covered(f.steps[k].point, x, false) {
      assert StepPoints(f)[k] == f.steps[k].point;
    }
    LookupCongruent(f.initial, f.steps, x, true, x, false);
  }

  /** Stores with the same breakpoints see the same ones in effect. */
  lemma {:induction false} CoverCountSamePoints(s: seq<Step>, r: seq<Step>, x: real, inclusive: bool)
    requires |s| == |r| && forall k :: 0 <= k < |s| ==> s[k].point == r[k].point
    ensures CoverCount(s, x, inclusive) == CoverCount(r, x, inclusive)
    decreases |s|
  {
    if s != [] {
      assert s[0].point == r[0].point;
      forall k | 0 <= k < |s| - 1 ensures s[1..][k].point == r[1..][k].point {
        assert s[1..][k] == s[k + 1] && r[1..][k] == r[k + 1];
      }
      CoverCountSamePoints(s[1..], r[1..], x, inclusive);
    }
  }

  /** Beyond every breakpoint the function takes its final value. */
  lemma LookupBeyondAll(f: StepFn, x: real, inclusive: bool)
    requires Increasing(f.steps)
    requires forall k :: 0 <= k < |f.steps| ==> Covered(f.steps[k].point, x, inclusive)
    ensures Lookup(f.initial, f.steps, x, inclusive) == FinalValue(f)
  {
    CoverCountSplits(f.steps, x, inclusive);
    LookupIsLastCovered(f.initial, f.steps, x, inclusive);
    if f.steps != [] {
      assert Covered(f.steps[|f.steps| - 1].point, x, inclusive);
    }
  }

  /** A real above every breakpoint of both sequences. */
  function AboveAll(s1: seq<Step>, s2: seq<Step>): (r: real)
    requires Increasing(s1) && Increasing(s2)
    ensures forall k :: 0 <= k < |s1| ==> s1[k].point < r
    ensures forall k :: 0 <= k < |s2| ==> s2[k].point < r
  {
    var a := if s1 == [] then 0.0 else s1[|s1| - 1].point;
    var b := if s2 == [] then 0.0 else s2[|s2| - 1].point;
    (if a < b then b else a) + 1.0
  }

  lemma LookupCons(init: real, st: Step, t: seq<Step>, x: real, inclusive: bool)
    ensures Lookup(init, [st] + t, x, inclusive) ==
      if Covered(st.point, x, inclusive) then Lookup(st.value, t, x, inclusive) else init
  {
    assert ([st] + t)[1..] == t;
  }
}
