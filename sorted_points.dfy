/**
 * Sorted, duplicate-free collections of axis positions (the `SortedSet`
 * the union of breakpoints is built in).
 */
module SortedPoints {
  import opened StepFunction

  predicate Sorted(xs: seq<real>)
  {
    forall i, j :: 0 <= i < j < |xs| ==> xs[i] < xs[j]
  }

  /** Adds x to a sorted set of positions. */
  function InsertSorted(xs: seq<real>, x: real): (r: seq<real>)
    requires Sorted(xs)
    ensures Sorted(r)
    ensures forall y :: y in r <==> y in xs || y == x
    decreases |xs|
  {
    if xs == [] then [x]
    else if x < xs[0] then [x] + xs
    else if x == xs[0] then xs
    else
      var t := InsertSorted(xs[1..], x);
      assert forall y :: y in t ==> xs[0] < y by {
        forall y | y in t ensures xs[0] < y {
          if y in xs[1..] {
            var j :| 0 <= j < |xs[1..]| && xs[1..][j] == y;
            assert xs[j + 1] == y;
          }
        }
      }
      var r := [xs[0]] + t;
      assert Sorted(r) by {
        forall i, j | 0 <= i < j < |r| ensures r[i] < r[j] {
          if i == 0 { assert r[j] in t; } else { assert r[i] == t[i - 1] && r[j] == t[j - 1]; }
        }
      }
      r
  }

  /** Adds every element of xs to the sorted set acc. */
  function AddAll(acc: seq<real>, xs: seq<real>): (r: seq<real>)
    requires Sorted(acc)
    ensures Sorted(r)
    ensures forall y :: y in r <==> y in acc || y in xs
    decreases |xs|
  {
    if xs == [] then acc
    else
      var r := AddAll(InsertSorted(acc, xs[0]), xs[1..]);
      assert forall y :: y in xs <==> y == xs[0] || y in xs[1..];
      r
  }

  /** The sorted set of the given positions. */
  function SortedSet(xs: seq<real>): (r: seq<real>)
    ensures Sorted(r)
    ensures forall y :: y in r <==> y in xs
  {
    AddAll([], xs)
  }

  lemma FirstIsLeast(xs: seq<real>, v: real)
    requires Sorted(xs) && v in xs
    ensures xs[0] <= v
  {
    var j :| 0 <= j < |xs| && xs[j] == v;
    assert j == 0 || xs[0] < xs[j];
  }

  lemma LastIsGreatest(xs: seq<real>, v: real)
    requires Sorted(xs) && v in xs
    ensures v <= xs[|xs| - 1]
  {
    var j :| 0 <= j < |xs| && xs[j] == v;
    assert j == |xs| - 1 || xs[j] < xs[|xs| - 1];
  }

  /** A sorted, duplicate-free sequence is determined by its members. */
  lemma {:induction false} SortedUnique(xs: seq<real>, ys: seq<real>)
    requires Sorted(xs) && Sorted(ys)
    requires forall y :: y in xs <==> y in ys
    ensures xs == ys
    decreases |xs|
  {
    if xs != [] {
      assert xs[0] in xs;
    }
    if ys != [] {
      assert ys[0] in ys;
    }
    if xs != [] {
      FirstIsLeast(ys, xs[0]);
      FirstIsLeast(xs, ys[0]);
      forall y ensures y in xs[1..] <==> y in ys[1..] {
        if y in xs[1..] {
          var j :| 0 <= j < |xs[1..]| && xs[1..][j] == y;
          assert xs[j + 1] == y && y in xs && y in ys;
          var i :| 0 <= i < |ys| && ys[i] == y;
          assert i != 0;
          assert ys[1..][i - 1] == y;
        }
        if y in ys[1..] {
          var j :| 0 <= j < |ys[1..]| && ys[1..][j] == y;
          assert ys[j + 1] == y && y in ys && y in xs;
          var i :| 0 <= i < |xs| && xs[i] == y;
          assert i != 0;
          assert xs[1..][i - 1] == y;
        }
      }
      SortedUnique(xs[1..], ys[1..]);
    }
  }

  /** The sorted union of the breakpoints of a collection of step functions. */
  function UnionOfPoints(fs: seq<StepFn>): (r: seq<real>)
    ensures Sorted(r)
    ensures forall y :: y in r <==> exists i :: 0 <= i < |fs| && y in Points(fs[i].steps)
    decreases |fs|
  {
    if fs == [] then []
    else
      var front := fs[..|fs| - 1];
      var r := AddAll(UnionOfPoints(front), Points(fs[|fs| - 1].steps));
      assert forall i :: 0 <= i < |front| ==> front[i] == fs[i];
      r
  }

  /** The positions u preceded by -inf. */
  function Anchored(u: seq<real>): (r: seq<Position>)
    ensures |r| == |u| + 1 && r[0] == NegInf
    ensures forall k :: 0 <= k < |u| ==> r[k + 1] == At(u[k])
  {
    [NegInf] + seq(|u|, k requires 0 <= k < |u| => At(u[k]))
  }

  lemma AnchoredMembers(u: seq<real>)
    ensures forall y :: At(y) in Anchored(u) <==> y in u
  {
    var r := Anchored(u);
    forall y ensures At(y) in r <==> y in u {
      if At(y) in r {
        var j :| 0 <= j < |r| && r[j] == At(y);
        assert u[j - 1] == y;
      }
      if y in u {
        var j :| 0 <= j < |u| && u[j] == y;
        assert r[j + 1] == At(y);
      }
    }
  }

  /**
   * `_get_union_of_points(collection)`: a leading -inf anchor followed by the
   * sorted union of every function's breakpoints.
   */
  function GetUnionOfPoints(fs: seq<StepFn>): (r: seq<Position>)
    ensures |r| >= 1 && r[0] == NegInf
    ensures forall i :: 1 <= i < |r| ==> r[i].At?
    ensures forall i, j :: 1 <= i < j < |r| ==> r[i].x < r[j].x
    ensures forall y :: At(y) in r <==> exists i :: 0 <= i < |fs| && y in Points(fs[i].steps)
  {
    var u := UnionOfPoints(fs);
    AnchoredMembers(u);
    var r := Anchored(u);
    assert forall i :: 1 <= i < |r| ==> r[i] == At(u[i - 1]);
    r
  }
}
