/** The third-order Birch-Murnaghan equation of state (pytheos/eqn_bm3.py). */
module EqnBm3 {
  import opened Wrappers
  import opened Numerics

  /** cal_p_bm3 / bm3_p: pressure at volume v for k = [v0, k0, k0p]. */
  function Bm3P(m: Ops, v: real, v0: real, k0: real, k0p: real, pRef: real): real
    requires v0 != 0.0 && k0 != 0.0
  {
    var vvr := v / v0;
    var e := 1.0 - m.pow(vvr, -2.0 / 3.0);
    (pRef - 0.5 * (3.0 * k0 - 5.0 * pRef) * e
       + 9.0 / 8.0 * k0 * (k0p - 4.0 + 35.0 / 9.0 * pRef / k0) * m.pow(e, 2.0))
    * m.pow(vvr, -5.0 / 3.0)
  }

  /** At the reference volume the pressure is the reference pressure. */
  lemma Bm3PAtV0(m: Ops, v0: real, k0: real, k0p: real, pRef: real)
    requires ElementaryLaws(m) && v0 != 0.0 && k0 != 0.0
    ensures Bm3P(m, v0, v0, k0, k0p, pRef) == pRef
  {
    DivSelf(v0);
    assert m.pow(1.0, -2.0 / 3.0) == 1.0;
    assert m.pow(0.0, 2.0) == 0.0 * 0.0;
    assert m.pow(1.0, -5.0 / 3.0) == 1.0;
  }

  /** The objective handed to brenth by bm3_v_single: bm3_p(v) - p. */
  function Bm3Objective(m: Ops, v0: real, k0: real, k0p: real, p: real, pRef: real): real -> Result<real> {
    v => if v0 != 0.0 && k0 != 0.0 then Ok(Bm3P(m, v, v0, k0, k0p, pRef) - p) else Err(OutsideModel)
  }

  /**
   * bm3_v_single: the volume at pressure p. Pressures up to 1e-5 return v0 without a
   * search; otherwise brenth searches between v0 and v0 * minStrain.
   */
  function Bm3VSingle(m: Ops, p: real, v0: real, k0: real, k0p: real, pRef: real, minStrain: real): (r: Result<real>)
    ensures p <= 1.0e-5 ==> r == Ok(v0)
    ensures p > 1.0e-5 && BrenthLaw(m) && r.Ok? ==>
              v0 != 0.0 && k0 != 0.0 && Between(r.value, v0, v0 * minStrain) &&
              Bm3P(m, r.value, v0, k0, k0p, pRef) == p
    ensures p > 1.0e-5 && BrenthLaw(m) && v0 != 0.0 && k0 != 0.0 &&
              SameSign(Bm3P(m, v0, v0, k0, k0p, pRef) - p, Bm3P(m, v0 * minStrain, v0, k0, k0p, pRef) - p) ==>
              r.Err?
  {
    if p <= 1.0e-5 then Ok(v0)
    else m.brenth(Bm3Objective(m, v0, k0, k0p, p, pRef), v0, v0 * minStrain)
  }

  /** bm3_v: bm3_v_single applied to every pressure; the uncertain backend computes the same nominal values. */
  function Bm3V(m: Ops, ps: seq<real>, v0: real, k0: real, k0p: real, pRef: real, minStrain: real): (r: Result<seq<real>>)
    ensures |ps| == 0 ==> r == Err(IndexError)
    ensures r.Ok? <==> |ps| > 0 && forall i :: 0 <= i < |ps| ==> Bm3VSingle(m, ps[i], v0, k0, k0p, pRef, minStrain).Ok?
    ensures r.Ok? ==>
              |r.value| == |ps| &&
              forall i :: 0 <= i < |ps| ==> Bm3VSingle(m, ps[i], v0, k0, k0p, pRef, minStrain) == Ok(r.value[i])
  {
    if |ps| == 0 then Err(IndexError) else Vectorize((p: real) => Bm3VSingle(m, p, v0, k0, k0p, pRef, minStrain), ps)
  }

  /** Pressures that need no search come back as v0, element by element. */
  lemma Bm3VLowPressure(m: Ops, ps: seq<real>, v0: real, k0: real, k0p: real, pRef: real, minStrain: real)
    requires forall i :: 0 <= i < |ps| ==> ps[i] <= 1.0e-5
    ensures Bm3V(m, ps, v0, k0, k0p, pRef, minStrain)
            == if |ps| == 0 then Err(IndexError) else Ok(seq(|ps|, _ => v0))
  {
    var r := Bm3V(m, ps, v0, k0, k0p, pRef, minStrain);
    if |ps| > 0 {
      assert r.Ok?;
      assert r.value == seq(|ps|, _ => v0);
    }
  }

  /** cal_k_bm3_from_v: the analytic bulk modulus at volume v. */
  function CalKBm3FromV(m: Ops, v: real, v0: real, k0: real, k0p: real): real
    requires v != 0.0 && v0 != 0.0
  {
    var f := 0.5 * (m.pow(v0 / v, 2.0 / 3.0) - 1.0);
    var a4 := 9.0 / 2.0 * v0 * k0 * (k0p - 4.0);
    1.0 / 3.0 / v0 * m.pow(1.0 + 2.0 * f, 5.0 / 2.0)
      * (5.0 * f * (3.0 * v0 * k0 + a4 * f) + (1.0 + 2.0 * f) * (3.0 * v0 * k0 + 2.0 * a4 * f))
  }

  /** At the reference volume the bulk modulus is k0. */
  lemma CalKBm3FromVAtV0(m: Ops, v0: real, k0: real, k0p: real)
    requires ElementaryLaws(m) && v0 != 0.0
    ensures CalKBm3FromV(m, v0, v0, k0, k0p) == k0
  {
    DivSelf(v0);
    assert m.pow(1.0, 2.0 / 3.0) == 1.0;
    assert m.pow(1.0, 5.0 / 2.0) == 1.0;
    calc {
      CalKBm3FromV(m, v0, v0, k0, k0p);
      == 1.0 / 3.0 / v0 * 1.0 * (5.0 * 0.0 * (3.0 * v0 * k0) + 1.0 * (3.0 * v0 * k0));
      == k0 * (v0 / v0);
      == k0;
    }
  }

  /** cal_k_bm3 / bm3_k: the bulk modulus at pressure p, through the volume found with the default search. */
  function CalKBm3(m: Ops, p: real, v0: real, k0: real, k0p: real): (r: Result<real>)
    ensures p <= 1.0e-5 && v0 != 0.0 ==> r == Ok(CalKBm3FromV(m, v0, v0, k0, k0p))
    ensures p > 1.0e-5 && BrenthLaw(m) && r.Ok? ==>
              v0 != 0.0 && k0 != 0.0 &&
              exists v :: Between(v, v0, v0 * 0.01) && v != 0.0 && Bm3P(m, v, v0, k0, k0p, 0.0) == p &&
                          r.value == CalKBm3FromV(m, v, v0, k0, k0p)
    ensures p > 1.0e-5 && BrenthLaw(m) && v0 != 0.0 && k0 != 0.0 &&
              SameSign(Bm3P(m, v0, v0, k0, k0p, 0.0) - p, Bm3P(m, v0 * 0.01, v0, k0, k0p, 0.0) - p) ==>
              r.Err?
  {
    var v :- Bm3VSingle(m, p, v0, k0, k0p, 0.0, 0.01);
    if v != 0.0 && v0 != 0.0 then Ok(CalKBm3FromV(m, v, v0, k0, k0p)) else Err(OutsideModel)
  }

  /** Below the search threshold, the bulk modulus is k0. */
  lemma CalKBm3LowPressure(m: Ops, p: real, v0: real, k0: real, k0p: real)
    requires ElementaryLaws(m) && p <= 1.0e-5 && v0 != 0.0
    ensures CalKBm3(m, p, v0, k0, k0p) == Ok(k0)
  {
    CalKBm3FromVAtV0(m, v0, k0, k0p);
  }

  /** The shear modulus of cal_g_bm3 at a given volume v. */
  function Bm3ShearAtV(m: Ops, v: real, v0: real, g0: real, gp: real, k0: real, kp: real): real
    requires v0 != 0.0
  {
    var f := 0.5 * (m.pow(v / v0, -2.0 / 3.0) - 1.0);
    m.pow(1.0 + 2.0 * f, 5.0 / 2.0)
      * (g0 + (3.0 * k0 * gp - 5.0 * g0) * f
         + (6.0 * k0 * gp - 24.0 * k0 - 14.0 * g0 + 9.0 / 2.0 * k0 * kp) * m.pow(f, 2.0))
  }

  /** At the reference volume f = 0, so the shear modulus is g0. */
  lemma Bm3ShearAtV0(m: Ops, v0: real, g0: real, gp: real, k0: real, kp: real)
    requires ElementaryLaws(m) && v0 != 0.0
    ensures Bm3ShearAtV(m, v0, v0, g0, gp, k0, kp) == g0
  {
    DivSelf(v0);
    var f := 0.5 * (m.pow(v0 / v0, -2.0 / 3.0) - 1.0);
    assert f == 0.0 by {
      assert m.pow(1.0, -2.0 / 3.0) == 1.0;
    }
    assert m.pow(f, 2.0) == 0.0 by {
      assert m.pow(f, 2.0) == f * f;
    }
    assert m.pow(1.0 + 2.0 * f, 5.0 / 2.0) == 1.0;
  }

  /** cal_g_bm3 / bm3_g: the shear modulus at pressure p for g = [g0, g0p], at the volume the default search finds. */
  function CalGBm3(m: Ops, p: real, g0: real, gp: real, v0: real, k0: real, kp: real): (r: Result<real>)
    ensures p <= 1.0e-5 && v0 != 0.0 ==> r == Ok(Bm3ShearAtV(m, v0, v0, g0, gp, k0, kp))
    ensures p > 1.0e-5 && BrenthLaw(m) && r.Ok? ==>
              v0 != 0.0 && k0 != 0.0 &&
              exists v :: Between(v, v0, v0 * 0.01) && Bm3P(m, v, v0, k0, kp, 0.0) == p &&
                          r.value == Bm3ShearAtV(m, v, v0, g0, gp, k0, kp)
    ensures p > 1.0e-5 && BrenthLaw(m) && v0 != 0.0 && k0 != 0.0 &&
              SameSign(Bm3P(m, v0, v0, k0, kp, 0.0) - p, Bm3P(m, v0 * 0.01, v0, k0, kp, 0.0) - p) ==>
              r.Err?
  {
    var v :- Bm3VSingle(m, p, v0, k0, kp, 0.0, 0.01);
    if v0 != 0.0 then Ok(Bm3ShearAtV(m, v, v0, g0, gp, k0, kp)) else Err(OutsideModel)
  }

  /** Below the search threshold, the shear modulus is g0. */
  lemma CalGBm3LowPressure(m: Ops, p: real, g0: real, gp: real, v0: real, k0: real, kp: real)
    requires ElementaryLaws(m) && p <= 1.0e-5 && v0 != 0.0
    ensures CalGBm3(m, p, g0, gp, v0, k0, kp) == Ok(g0)
  {
    Bm3ShearAtV0(m, v0, g0, gp, k0, kp);
  }

  /** cal_small_f / bm3_small_f: the Eulerian finite strain. */
  function CalSmallF(m: Ops, v: real, v0: real): real
    requires v != 0.0
  {
    0.5 * (m.pow(v0 / v, 2.0 / 3.0) - 1.0)
  }

  /** No strain at the reference volume. */
  lemma CalSmallFAtV0(m: Ops, v0: real)
    requires ElementaryLaws(m) && v0 != 0.0
    ensures CalSmallF(m, v0, v0) == 0.0
  {
    DivSelf(v0);
    assert m.pow(1.0, 2.0 / 3.0) == 1.0;
  }

  /** cal_big_F: the normalised pressure of the linearised form. */
  function CalBigF(m: Ops, p: real, f: real): real
    requires 3.0 * f * m.pow(1.0 + 2.0 * f, 2.5) != 0.0
  {
    p / (3.0 * f * m.pow(1.0 + 2.0 * f, 2.5))
  }

  /** Multiplying F back by 3 f (1 + 2f)^2.5 recovers the pressure. */
  lemma CalBigFRecoversPressure(m: Ops, p: real, f: real)
    requires 3.0 * f * m.pow(1.0 + 2.0 * f, 2.5) != 0.0
    ensures CalBigF(m, p, f) * (3.0 * f * m.pow(1.0 + 2.0 * f, 2.5)) == p
  {
  }

  /** bm3_big_F: F computed from the strain of v against v0. */
  function Bm3BigF(m: Ops, p: real, v: real, v0: real): (r: Result<real>)
    requires v != 0.0
    ensures r.Ok? ==> r.value * (3.0 * CalSmallF(m, v, v0) * m.pow(1.0 + 2.0 * CalSmallF(m, v, v0), 2.5)) == p
  {
    var f := CalSmallF(m, v, v0);
    if 3.0 * f * m.pow(1.0 + 2.0 * f, 2.5) != 0.0 then
      CalBigFRecoversPressure(m, p, f);
      Ok(CalBigF(m, p, f))
    else Err(OutsideModel)
  }

  /** bm3_dPdV: the numerical dP/dV of bm3_p (p_ref = 0) with step v0 * precision. */
  function Bm3DPdV(m: Ops, v: real, v0: real, k0: real, k0p: real, precision: real): real
    requires v0 != 0.0 && k0 != 0.0 && precision != 0.0
  {
    CentralDifference(Bm3Curve(m, v0, k0, k0p), v, v0 * precision)
  }

  /** The pressure curve v -> bm3_p(v, v0, k0, k0p) that bm3_dPdV differentiates. */
  function Bm3Curve(m: Ops, v0: real, k0: real, k0p: real): real -> real
    requires v0 != 0.0 && k0 != 0.0
  {
    x => Bm3P(m, x, v0, k0, k0p, 0.0)
  }

  /** bm3_k_num: the numerical bulk modulus -v dP/dV. */
  function Bm3KNum(m: Ops, v: real, v0: real, k0: real, k0p: real, precision: real): real
    requires v0 != 0.0 && k0 != 0.0 && precision != 0.0
  {
    -1.0 * v * Bm3DPdV(m, v, v0, k0, k0p, precision)
  }

  /** The numerical bulk modulus is -v times the secant slope of the pressure across [v - h, v + h]. */
  lemma Bm3KNumSecant(m: Ops, v: real, v0: real, k0: real, k0p: real, precision: real)
    requires v0 != 0.0 && k0 != 0.0 && precision != 0.0
    ensures var h := v0 * precision;
            Bm3KNum(m, v, v0, k0, k0p, precision)
              == SecantModulus(v, h, Bm3P(m, v - h, v0, k0, k0p, 0.0),
                               Bm3P(m, v + h, v0, k0, k0p, 0.0))
  {
    var h := v0 * precision;
    MulNonZero(v0, precision);
    var f := Bm3Curve(m, v0, k0, k0p);
    var lo, hi := Bm3P(m, v - h, v0, k0, k0p, 0.0), Bm3P(m, v + h, v0, k0, k0p, 0.0);
    assert f(v - h) == lo && f(v + h) == hi;
    assert Bm3KNum(m, v, v0, k0, k0p, precision) == -1.0 * v * CentralDifference(f, v, h);
    SecantSlope(f, v, h, lo, hi);
  }

  /** A pressure that falls across the step gives a positive numerical modulus at positive volume and step. */
  lemma Bm3KNumPositive(m: Ops, v: real, v0: real, k0: real, k0p: real, precision: real)
    requires v0 != 0.0 && k0 != 0.0 && precision != 0.0
    requires v > 0.0 && v0 * precision > 0.0
    requires Bm3P(m, v + v0 * precision, v0, k0, k0p, 0.0) < Bm3P(m, v - v0 * precision, v0, k0, k0p, 0.0)
    ensures Bm3KNum(m, v, v0, k0, k0p, precision) > 0.0
  {
    var h := v0 * precision;
    MulNonZero(v0, precision);
    SecantPositive(Bm3Curve(m, v0, k0, k0p), v, h,
                   Bm3P(m, v - h, v0, k0, k0p, 0.0),
                   Bm3P(m, v + h, v0, k0, k0p, 0.0));
  }
}
