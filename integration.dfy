/**
 * `integral(where)` and `mean(where)` of a step function.  The default
 * domain runs from the first breakpoint to the last; a mean over a domain
 * of zero width is undefined (NaN), modelled as None.
 */
module Integration {
  import opened StepFunction
  import opened Sampling

  /** The integral over [a, b] of the store `init`, `s`. */
  function Area(init: real, s: seq<Step>, a: real, b: real): real
    requires a <= b
    decreases |s|
  {
    if s == [] || b <= s[0].point then init * (b - a)
    else if s[0].point <= a then Area(s[0].value, s[1..], a, b)
    else init * (s[0].point - a) + Area(s[0].value, s[1..], s[0].point, b)
  }

  lemma Distribute(v: real, a: real, m: real, b: real)
    ensures v * (b - a) == v * (m - a) + v * (b - m)
  {
  }

  lemma FlatBounds(init: real, a: real, b: real, lo: real, hi: real)
    requires a <= b
    requires a < b ==> lo <= init <= hi
    ensures lo * (b - a) <= init * (b - a) <= hi * (b - a)
  {
    if a == b {
      assert b - a == 0.0;
    }
  }

  lemma SplitBounds(a: real, p: real, b: real, lo: real, hi: real, u: real, r: real)
    requires a <= p <= b
    requires lo * (p - a) <= u <= hi * (p - a)
    requires lo * (b - p) <= r <= hi * (b - p)
    ensures lo * (b - a) <= u + r <= hi * (b - a)
  {
    Distribute(lo, a, p, b);
    Distribute(hi, a, p, b);
  }

  /** Nothing accumulates over a single point. */
  lemma {:induction false} AreaZeroWidth(init: real, s: seq<Step>, a: real)
    ensures Area(init, s, a, a) == 0.0
    decreases |s|
  {
    if s != [] && s[0].point < a {
      AreaZeroWidth(s[0].value, s[1..], a);
    }
  }

  /** Integrals over adjacent intervals add up. */
  lemma {:induction false} AreaAdditive(init: real, s: seq<Step>, a: real, m: real, b: real)
    requires a <= m <= b
    ensures Area(init, s, a, b) == Area(init, s, a, m) + Area(init, s, m, b)
    decreases |s|
  {
    if a == m {
      AreaZeroWidth(init, s, a);
    } else if m == b {
      AreaZeroWidth(init, s, b);
    } else if s == [] || b <= s[0].point {
      assert Area(init, s, a, m) == init * (m - a);
      assert Area(init, s, m, b) == init * (b - m);
      Distribute(init, a, m, b);
    } else {
      var p, v, t := s[0].point, s[0].value, s[1..];
      if p <= a {
        assert Area(init, s, a, b) == Area(v, t, a, b);
        assert Area(init, s, a, m) == Area(v, t, a, m);
        assert Area(init, s, m, b) == Area(v, t, m, b);
        AreaAdditive(v, t, a, m, b);
      } else if p < m {
        assert Area(init, s, a, b) == init * (p - a) + Area(v, t, p, b);
        assert Area(init, s, a, m) == init * (p - a) + Area(v, t, p, m);
        assert Area(init, s, m, b) == Area(v, t, m, b);
        AreaAdditive(v, t, p, m, b);
      } else if p == m {
        assert Area(init, s, a, b) == init * (p - a) + Area(v, t, p, b);
        assert Area(init, s, a, m) == init * (p - a);
        assert Area(init, s, m, b) == Area(v, t, p, b);
      } else {
        assert Area(init, s, a, b) == init * (p - a) + Area(v, t, p, b);
        assert Area(init, s, a, m) == init * (m - a);
        assert Area(init, s, m, b) == init * (p - m) + Area(v, t, p, b);
        Distribute(init, a, m, p);
      }
    }
  }

  /** Bounds on the values taken on [a, b) bound the integral over [a, b]. */
  lemma {:induction false} AreaBounds(init: real, s: seq<Step>, a: real, b: real, lo: real, hi: real)
    requires a <= b
    requires forall x :: a <= x < b ==> lo <= Lookup(init, s, x, true) <= hi
    ensures lo * (b - a) <= Area(init, s, a, b) <= hi * (b - a)
    decreases |s|
  {
    if s == [] || b <= s[0].point {
      if a < b {
        assert Lookup(init, s, a, true) == init;
      }
      FlatBounds(init, a, b, lo, hi);
    } else {
      var p := s[0].point;
      forall x | p <= x ensures Lookup(init, s, x, true) == Lookup(s[0].value, s[1..], x, true) {
      }
      if p <= a {
        AreaBounds(s[0].value, s[1..], a, b, lo, hi);
      } else {
        assert Lookup(init, s, a, true) == init;
        FlatBounds(init, a, p, lo, hi);
        AreaBounds(s[0].value, s[1..], p, b, lo, hi);
        SplitBounds(a, p, b, lo, hi, init * (p - a), Area(s[0].value, s[1..], p, b));
      }
    }
  }

  /** The domain: `where` if given, else from the first breakpoint to the last; None when there is none or it is reversed. */
  function Domain(f: StepFn, where: Option<(real, real)>): (r: Option<(real, real)>)
    ensures r.Some? ==> r.value.0 <= r.value.1
    ensures where.Some? ==> (r.Some? <==> where.value.0 <= where.value.1)
  {
    var d := if where.Some? then where
      else if f.steps == [] then None
      else Some((f.steps[0].point, f.steps[|f.steps| - 1].point));
    if d.Some? && d.value.0 <= d.value.1 then d else None
  }

  /** `integral(where)`. */
  function Integral(f: StepFn, where: Option<(real, real)>): (r: Option<real>)
    ensures r.Some? <==> Domain(f, where).Some?
  {
    match Domain(f, where)
    case None => None
    case Some((a, b)) => Some(Area(f.initial, f.steps, a, b))
  }

  /** `mean(where)`: the integral divided by the width, None (NaN) for zero width. */
  function Mean(f: StepFn, where: Option<(real, real)>): (r: Option<real>)
    ensures r.Some? <==> Domain(f, where).Some? && Domain(f, where).value.0 < Domain(f, where).value.1
  {
    match Domain(f, where)
    case None => None
    case Some((a, b)) => if a < b then Some(Area(f.initial, f.steps, a, b) / (b - a)) else None
  }

  /** Over an explicit interval of positive width, the mean is the area divided by the width. */
  lemma MeanOver(f: StepFn, a: real, b: real)
    requires a < b
    ensures Mean(f, Some((a, b))) == Some(Area(f.initial, f.steps, a, b) / (b - a))
  {
  }

  lemma Cancel(v: real, w: real, area: real)
    requires w != 0.0 && area == v * w
    ensures area / w == v
  {
  }

  lemma DivideBounds(lo: real, v: real, hi: real, w: real)
    requires w > 0.0 && lo * w <= v <= hi * w
    ensures lo <= v / w <= hi
  {
    assert lo == (lo * w) / w;
    assert hi == (hi * w) / w;
  }

  /** Bounds on the values taken on [a, b) bound the mean over [a, b]. */
  lemma MeanBounds(init: real, s: seq<Step>, a: real, b: real, lo: real, hi: real)
    requires a < b
    requires forall x :: a <= x < b ==> lo <= Lookup(init, s, x, true) <= hi
    ensures lo <= Area(init, s, a, b) / (b - a) <= hi
  {
    AreaBounds(init, s, a, b, lo, hi);
    DivideBounds(lo, Area(init, s, a, b), hi, b - a);
  }

  /** The mean is the integral per unit width. */
  lemma MeanTimesWidth(f: StepFn, where: Option<(real, real)>)
    requires Mean(f, where).Some?
    ensures Integral(f, where).Some?
    ensures Mean(f, where).value * (Domain(f, where).value.1 - Domain(f, where).value.0) == Integral(f, where).value
  {
  }

  /**
   * A constant `init` integrates to `init*(b-a)` over `(a, b)` and has mean
   * `init` there.
   */
  lemma ConstantIntegral(init: real, closed: Side, a: real, b: real)
    requires a < b
    ensures Integral(Constant(init, closed), Some((a, b))) == Some(init * (b - a))
    ensures Mean(Constant(init, closed), Some((a, b))) == Some(init)
  {
    var f := Constant(init, closed);
    assert Domain(f, Some((a, b))) == Some((a, b));
    assert Area(f.initial, f.steps, a, b) == init * (b - a);
    Cancel(init, b - a, Area(f.initial, f.steps, a, b));
    assert Mean(f, Some((a, b))) == Some(Area(f.initial, f.steps, a, b) / (b - a));
  }

  lemma RightLimitBetweenMinAndMax(f: StepFn, a: real, b: real, x: real)
    requires Increasing(f.steps)
    requires a <= x < b
    ensures Min(f, Some((a, b)), Some(Left)).Some? && Max(f, Some((a, b)), Some(Left)).Some?
    ensures Min(f, Some((a, b)), Some(Left)).value <= LimitAt(f, x, Right) <= Max(f, Some((a, b)), Some(Left)).value
  {
    var where := Some((a, b));
    MinMaxMeaning(f, where, Some(Left));
    RightLimitAttained(f, x, b, where, Left);
    var y :| InDomain(y, where, Left) && Eval(f, y) == LimitAt(f, x, Right);
  }

  /** The mean over a left-closed domain lies between the minimum and the maximum there. */
  lemma MeanBetweenMinAndMax(f: StepFn, a: real, b: real)
    requires Increasing(f.steps)
    requires a < b
    ensures Min(f, Some((a, b)), Some(Left)).Some? && Max(f, Some((a, b)), Some(Left)).Some?
    ensures Min(f, Some((a, b)), Some(Left)).value <= Mean(f, Some((a, b))).value <= Max(f, Some((a, b)), Some(Left)).value
  {
    var where := Some((a, b));
    RightLimitBetweenMinAndMax(f, a, b, a);
    var lo := Min(f, where, Some(Left)).value;
    var hi := Max(f, where, Some(Left)).value;
    forall x | a <= x < b ensures lo <= Lookup(f.initial, f.steps, x, true) <= hi {
      RightLimitBetweenMinAndMax(f, a, b, x);
    }
    MeanBounds(f.initial, f.steps, a, b, lo, hi);
    assert Domain(f, where) == where;
  }
}
