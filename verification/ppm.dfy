// Piecewise-parabolic reconstruction coefficients on a non-uniform
// velocity grid: the Colella–Woodward overshoot filter applied to the two
// face values of a cell, then the three coefficients of the reconstructed
// density parabola. The face-value estimator itself is an input here.

module Ppm {

  /**
   * Coefficients of the reconstruction. They carry the integration factors,
   * so the density at relative position x in [0, 1] is
   * a0 + 2*a1*x + 3*a2*x*x and its integral over the cell is a0 + a1 + a2.
   */
  datatype Parabola = Parabola(a0: real, a1: real, a2: real)

  function Density(a: Parabola, x: real): real {
    a.a0 + 2.0 * a.a1 * x + 3.0 * a.a2 * x * x
  }

  /** Integral of the density over [0, x]. */
  function Integral(a: Parabola, x: real): real {
    a.a0 * x + a.a1 * x * x + a.a2 * x * x * x
  }

  /** Derivative of the density with respect to x. */
  function Slope(a: Parabola, x: real): real {
    2.0 * a.a1 + 6.0 * a.a2 * x
  }

  /** The density neither rises nor falls anywhere in the cell, i.e. it does not overshoot inside it. */
  ghost predicate MonotoneOnCell(a: Parabola) {
    (forall x :: 0.0 <= x <= 1.0 ==> Slope(a, x) >= 0.0)
    || (forall x :: 0.0 <= x <= 1.0 ==> Slope(a, x) <= 0.0)
  }

  /** The slope is affine in x, so monotonicity is decided by the two end slopes. */
  lemma MonotoneIffEndSlopesAgree(a: Parabola)
    ensures MonotoneOnCell(a) <==> Slope(a, 0.0) * Slope(a, 1.0) >= 0.0
  {
    var s0, s1 := Slope(a, 0.0), Slope(a, 1.0);
    forall x | 0.0 <= x <= 1.0
      ensures Slope(a, x) == (1.0 - x) * s0 + x * s1
    {
    }
    if s0 >= 0.0 && s1 >= 0.0 {
      forall x | 0.0 <= x <= 1.0 ensures Slope(a, x) >= 0.0 {
        assert (1.0 - x) * s0 >= 0.0;
        assert x * s1 >= 0.0;
      }
    } else if s0 <= 0.0 && s1 <= 0.0 {
      forall x | 0.0 <= x <= 1.0 ensures Slope(a, x) <= 0.0 {
        assert (1.0 - x) * s0 <= 0.0;
        assert x * s1 <= 0.0;
      }
    } else {
      assert s0 * s1 < 0.0;
      assert !(Slope(a, 0.0) >= 0.0 && Slope(a, 1.0) >= 0.0);
      assert !(Slope(a, 0.0) <= 0.0 && Slope(a, 1.0) <= 0.0);
    }
  }

  /** Filtered face values (left face m, right face p). */
  datatype Faces = Faces(m: real, p: real)

  /** First select: would the parabola's extremum fall inside the cell on the left-face side? */
  predicate LeftOvershoot(v: real, m: real, p: real) {
    (p - m) * (v - 0.5 * (m + p)) > (p - m) * (p - m) * (1.0 / 6.0)
  }

  /** Second select, evaluated with the already-filtered left face. */
  predicate RightOvershoot(v: real, m: real, p: real) {
    -(p - m) * (p - m) * (1.0 / 6.0) > (p - m) * (v - 0.5 * (m + p))
  }

  /**
   * The two selects of `compute_ppm_coeff_nonuniform`: first the left face
   * is pulled back when the parabola's extremum would fall inside the cell
   * near it, then the right face, judged with the already-updated left face.
   */
  function FilterFaces(v: real, fl: real, fr: real): (f: Faces)
    // A face that moves is placed so that the parabola's extremum sits on the
    // opposite face: the left face when the first test fires ...
    ensures LeftOvershoot(v, fl, fr) ==> f.m + 2.0 * f.p == 3.0 * v
    ensures !LeftOvershoot(v, fl, fr) ==> f.m == fl
    // ... the right face when the second test fires.
    ensures RightOvershoot(v, f.m, fr) ==> 2.0 * f.m + f.p == 3.0 * v
    ensures !RightOvershoot(v, f.m, fr) ==> f.p == fr
    // The two tests never both fire.
    ensures LeftOvershoot(v, fl, fr) ==> f.p == fr
  {
    var m := if LeftOvershoot(v, fl, fr) then 3.0 * v - 2.0 * fr else fl;
    var p := if RightOvershoot(v, m, fr) then 3.0 * v - 2.0 * m else fr;
    if LeftOvershoot(v, fl, fr) then
      LeftFilterSettlesRight(v, fr);
      Faces(m, p)
    else
      Faces(m, p)
  }

  /** After the left face is pulled back, the second test cannot fire. */
  lemma LeftFilterSettlesRight(v: real, fr: real)
    ensures !RightOvershoot(v, 3.0 * v - 2.0 * fr, fr)
  {
    var m := 3.0 * v - 2.0 * fr;
    var d := fr - m;
    assert d == 3.0 * (fr - v);
    assert v - 0.5 * (m + fr) == 0.5 * (fr - v);
    assert d * (v - 0.5 * (m + fr)) == 1.5 * (fr - v) * (fr - v);
    assert (fr - v) * (fr - v) >= 0.0;
    assert -d * d * (1.0 / 6.0) == -1.5 * (fr - v) * (fr - v);
  }

  /** Scalar (one SIMD lane) overload: filter the faces, then fit the parabola. */
  function Coefficients(v: real, fl: real, fr: real): (a: Parabola)
    // The density integrates to the cell average ...
    ensures Integral(a, 1.0) == v
    // ... and takes the filtered face values on the two faces.
    ensures Density(a, 0.0) == FilterFaces(v, fl, fr).m
    ensures Density(a, 1.0) == FilterFaces(v, fl, fr).p
  {
    var f := FilterFaces(v, fl, fr);
    Parabola(f.m, 3.0 * v - 2.0 * f.m - f.p, f.m + f.p - 2.0 * v)
  }

  /**
   * The filtered parabola is monotone on the cell exactly when the incoming
   * faces differ or the cell is flat; equal faces around a different cell
   * average (a local extremum) pass through both tests unchanged.
   */
  lemma {:induction false} CoefficientsMonotoneIff(v: real, fl: real, fr: real)
    ensures MonotoneOnCell(Coefficients(v, fl, fr)) <==> (fl != fr || v == fl)
  {
    var f := FilterFaces(v, fl, fr);
    var a := Coefficients(v, fl, fr);
    MonotoneIffEndSlopesAgree(a);
    assert Slope(a, 0.0) == 2.0 * (3.0 * v - 2.0 * f.m - f.p);
    assert Slope(a, 1.0) == 2.0 * f.m + 4.0 * f.p - 6.0 * v;
    if LeftOvershoot(v, fl, fr) {
      assert f.p == fr;
      assert Slope(a, 1.0) == 0.0;
      OvershootNeedsDistinctFaces(fr - fl, v - 0.5 * (fl + fr));
    } else if RightOvershoot(v, fl, fr) {
      assert f.m == fl;
      assert Slope(a, 0.0) == 0.0;
      OvershootNeedsDistinctFaces(fr - fl, v - 0.5 * (fl + fr));
    } else {
      assert f.m == fl && f.p == fr;
      assert Slope(a, 0.0) == 6.0 * (v - 0.5 * (fl + fr)) + (fr - fl);
      assert Slope(a, 1.0) == (fr - fl) - 6.0 * (v - 0.5 * (fl + fr));
      UnfilteredEndSlopes(v, fl, fr);
    }
  }

  /** Either overshoot test can only fire when the two faces differ. */
  lemma OvershootNeedsDistinctFaces(d: real, c: real)
    ensures d * c > d * d * (1.0 / 6.0) ==> d != 0.0
    ensures -d * d * (1.0 / 6.0) > d * c ==> d != 0.0
  {
  }

  /**
   * When neither test fires, the two end slopes of the unfiltered parabola,
   * d + 6c and d - 6c for face jump d = fr - fl and centred average
   * c = v - (fl + fr)/2, agree in sign exactly when d != 0 or c == 0.
   */
  lemma UnfilteredEndSlopes(v: real, fl: real, fr: real)
    requires !LeftOvershoot(v, fl, fr)
    requires !RightOvershoot(v, fl, fr)
    ensures (6.0 * (v - 0.5 * (fl + fr)) + (fr - fl)) * ((fr - fl) - 6.0 * (v - 0.5 * (fl + fr))) >= 0.0
            <==> (fr - fl != 0.0 || v - 0.5 * (fl + fr) == 0.0)
  {
    SignCases(fr - fl, v - 0.5 * (fl + fr),
              (fr - fl) * (v - 0.5 * (fl + fr)), (fr - fl) * (fr - fl) * (1.0 / 6.0));
  }

  lemma SignCases(d: real, c: real, dc: real, dd6: real)
    requires dc == d * c && dd6 == d * d * (1.0 / 6.0)
    requires dc <= dd6 && -dd6 <= dc
    ensures (6.0 * c + d) * (d - 6.0 * c) >= 0.0 <==> (d != 0.0 || c == 0.0)
  {
    var e := d * (1.0 / 6.0);
    assert dd6 == d * e;
    var lo, hi := 6.0 * c + d, d - 6.0 * c;
    assert lo == 6.0 * (c + e) && hi == 6.0 * (e - c);
    if d > 0.0 {
      assert d * (e - c) == d * e - d * c;
      NonNegativeFactor(d, e - c);
      assert d * (c + e) == d * c + d * e;
      NonNegativeFactor(d, c + e);
      assert lo * hi >= 0.0;
    } else if d < 0.0 {
      assert (-d) * (c - e) == d * e - d * c;
      NonNegativeFactor(-d, c - e);
      assert (-d) * (-c - e) == d * c + d * e;
      NonNegativeFactor(-d, -c - e);
      assert lo * hi == (-lo) * (-hi);
    } else {
      assert lo * hi == -36.0 * (c * c);
      assert c != 0.0 ==> c * c > 0.0;
    }
  }

  /** A product with a positive factor is non-negative only if the other factor is. */
  lemma NonNegativeFactor(k: real, x: real)
    requires k > 0.0
    requires k * x >= 0.0
    ensures x >= 0.0
  {
  }

  /** A SIMD vector of lanes. */
  type Vec = seq<real>

  /** Coefficients of the vector overload, one vector per coefficient. */
  datatype VecParabola = VecParabola(a0: Vec, a1: Vec, a2: Vec)

  /** Vector overload: the same selects applied lane by lane. */
  function VecCoefficients(v: Vec, fl: Vec, fr: Vec): (a: VecParabola)
    requires |v| == |fl| == |fr|
    ensures |a.a0| == |a.a1| == |a.a2| == |v|
    ensures forall i :: 0 <= i < |v| ==> Integral(Parabola(a.a0[i], a.a1[i], a.a2[i]), 1.0) == v[i]
  {
    var ms := seq(|v|, i requires 0 <= i < |v| =>
                if LeftOvershoot(v[i], fl[i], fr[i]) then 3.0 * v[i] - 2.0 * fr[i] else fl[i]);
    var ps := seq(|v|, i requires 0 <= i < |v| =>
                if RightOvershoot(v[i], ms[i], fr[i]) then 3.0 * v[i] - 2.0 * ms[i] else fr[i]);
    VecParabola(
      ms,
      seq(|v|, i requires 0 <= i < |v| => 3.0 * v[i] - 2.0 * ms[i] - ps[i]),
      seq(|v|, i requires 0 <= i < |v| => ms[i] + ps[i] - 2.0 * v[i]))
  }

  /**
   * The scalar overload computing lane `index` agrees with that lane of the
   * vector overload when it is handed that lane's face estimates.
   */
  lemma {:induction false} ScalarMatchesVectorLane(v: Vec, fl: Vec, fr: Vec, index: nat)
    requires |v| == |fl| == |fr|
    requires index < |v|
    ensures var a := VecCoefficients(v, fl, fr);
            Coefficients(v[index], fl[index], fr[index]) == Parabola(a.a0[index], a.a1[index], a.a2[index])
  {
  }
}
