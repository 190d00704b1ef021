/**
 * One-dimensional piecewise-linear interpolation as numpy's interp(x, xp, fp)
 * computes it for a single query point x: linear between neighbouring table
 * points, and the first or last table value held constant outside the table.
 * numpy assumes the sample points xp are increasing and does not check it;
 * here that assumption is a precondition.
 */
module Interpolation {

  predicate StrictlyAscending(xs: seq<real>)
  {
    forall i, j :: 0 <= i < j < |xs| ==> xs[i] < xs[j]
  }

  /** A table numpy can interpolate in: non-empty, parallel arrays, ascending sample points. */
  predicate ValidTable(xp: seq<real>, fp: seq<real>)
  {
    0 < |xp| == |fp| && StrictlyAscending(xp)
  }

  /** The straight line through (x0, f0) and (x1, f1), evaluated at t. */
  function Line(t: real, x0: real, x1: real, f0: real, f1: real): real
    requires x0 < x1
  {
    f0 + (t - x0) * (f1 - f0) / (x1 - x0)
  }

  /** interp(t, xp, fp): walks the table until t falls before the next sample point. */
  function Interp(t: real, xp: seq<real>, fp: seq<real>): real
    requires ValidTable(xp, fp)
    decreases |xp|
  {
    if |xp| == 1 || t <= xp[0] then fp[0]
    else if t < xp[1] then Line(t, xp[0], xp[1], fp[0], fp[1])
    else Interp(t, xp[1..], fp[1..])
  }

  /** At a sample point the table value is returned exactly. */
  lemma {:induction false} InterpAtNode(xp: seq<real>, fp: seq<real>, k: nat)
    requires ValidTable(xp, fp) && k < |xp|
    ensures Interp(xp[k], xp, fp) == fp[k]
  {
    if k > 0 {
      assert xp[0] < xp[1] <= xp[k];
      assert xp[1..][k - 1] == xp[k];
      InterpAtNode(xp[1..], fp[1..], k - 1);
    }
  }

  /** Outside the sample range the edge value is held constant. */
  lemma {:induction false} InterpFlatOutside(t: real, xp: seq<real>, fp: seq<real>)
    requires ValidTable(xp, fp)
    ensures t <= xp[0] ==> Interp(t, xp, fp) == fp[0]
    ensures t >= xp[|xp| - 1] ==> Interp(t, xp, fp) == fp[|fp| - 1]
    decreases |xp|
  {
    if |xp| > 1 && t >= xp[|xp| - 1] {
      assert xp[0] < xp[1] <= xp[|xp| - 1];
      InterpFlatOutside(t, xp[1..], fp[1..]);
    }
  }

  /** Strictly between two neighbouring sample points the value lies on the line through them. */
  lemma {:induction false} InterpBetween(t: real, xp: seq<real>, fp: seq<real>, k: nat)
    requires ValidTable(xp, fp) && k + 1 < |xp|
    requires xp[k] < t < xp[k + 1]
    ensures Interp(t, xp, fp) == Line(t, xp[k], xp[k + 1], fp[k], fp[k + 1])
  {
    if k > 0 {
      assert xp[0] < xp[1] <= xp[k];
      var xs, fs := xp[1..], fp[1..];
      assert xs[k - 1] == xp[k] && xs[k] == xp[k + 1];
      assert fs[k - 1] == fp[k] && fs[k] == fp[k + 1];
      InterpBetween(t, xs, fs, k - 1);
      assert Interp(t, xp, fp) == Interp(t, xs, fs);
    }
  }

  lemma MulNonNegative(a: real, b: real)
    requires 0.0 <= a && 0.0 <= b
    ensures 0.0 <= a * b
  {
  }

  lemma NonNegativeFactor(u: real, d: real)
    requires 0.0 < d && 0.0 <= u * d
    ensures 0.0 <= u
  {
    if u < 0.0 {
      MulNonNegative(-u, d);
    }
  }

  /** A point of the segment between two sample points lies between their values. */
  lemma LineBetween(t: real, x0: real, x1: real, f0: real, f1: real)
    requires x0 < t < x1
    ensures f0 <= f1 ==> f0 <= Line(t, x0, x1, f0, f1) <= f1
    ensures f1 <= f0 ==> f1 <= Line(t, x0, x1, f0, f1) <= f0
  {
    var a, d := t - x0, x1 - x0;
    var w := a / d;
    assert w * d == a;
    assert (1.0 - w) * d == d - a;
    NonNegativeFactor(w, d);
    NonNegativeFactor(1.0 - w, d);
    assert (t - x0) * (f1 - f0) / (x1 - x0) == w * (f1 - f0);
    assert (1.0 - w) * (f1 - f0) == (f1 - f0) - w * (f1 - f0);
    if f0 <= f1 {
      MulNonNegative(w, f1 - f0);
      MulNonNegative(1.0 - w, f1 - f0);
    } else {
      MulNonNegative(w, f0 - f1);
      MulNonNegative(1.0 - w, f0 - f1);
    }
  }

  /** Strictly between two neighbouring sample points the value lies between their values. */
  lemma InterpBetweenBounds(t: real, xp: seq<real>, fp: seq<real>, k: nat)
    requires ValidTable(xp, fp) && k + 1 < |xp|
    requires xp[k] < t < xp[k + 1]
    ensures fp[k] <= fp[k + 1] ==> fp[k] <= Interp(t, xp, fp) <= fp[k + 1]
    ensures fp[k + 1] <= fp[k] ==> fp[k + 1] <= Interp(t, xp, fp) <= fp[k]
  {
    InterpBetween(t, xp, fp, k);
    LineBetween(t, xp[k], xp[k + 1], fp[k], fp[k + 1]);
  }

  /** The table (0, 1), (10, 3): 2 half-way, 1 before the table, 3 after it. */
  lemma InterpExample()
    ensures Interp(5.0, [0.0, 10.0], [1.0, 3.0]) == 2.0
    ensures Interp(-5.0, [0.0, 10.0], [1.0, 3.0]) == 1.0
    ensures Interp(15.0, [0.0, 10.0], [1.0, 3.0]) == 3.0
  {
    InterpFlatOutside(15.0, [0.0, 10.0], [1.0, 3.0]);
  }
}
