/** The Vinet equation of state (pytheos/eqn_vinet.py). */
module EqnVinet {
  import opened Wrappers
  import opened Numerics
  import Etc

  /** The divisions of cal_p_vinet are defined: v0 != 0 and x^2 != 0 for x = (v/v0)^(1/3). */
  predicate VinetDomain(m: Ops, v: real, v0: real) {
    v0 != 0.0 && m.pow(m.pow(v / v0, 1.0 / 3.0), 2.0) != 0.0
  }

  /**
   * cal_p_vinet: pressure at volume v for k = [v0, k0, k0p]. The flag picks the
   * uncertainties exp over numpy's exp; nothing else depends on it.
   */
  function CalPVinet(m: Ops, v: real, v0: real, k0: real, k0p: real, uncertainties: bool): real
    requires VinetDomain(m, v, v0)
  {
    var x := m.pow(v / v0, 1.0 / 3.0);
    var f1 := (1.0 - x) / m.pow(x, 2.0);
    var f2 := if uncertainties then m.uexp(1.5 * (k0p - 1.0) * (1.0 - x))
              else m.exp(1.5 * (k0p - 1.0) * (1.0 - x));
    3.0 * k0 * f1 * f2
  }

  /** Both backends compute the same pressure. */
  lemma CalPVinetBackendIndependent(m: Ops, v: real, v0: real, k0: real, k0p: real)
    requires ElementaryLaws(m) && VinetDomain(m, v, v0)
    ensures CalPVinet(m, v, v0, k0, k0p, true) == CalPVinet(m, v, v0, k0, k0p, false)
  {
    var x := m.pow(v / v0, 1.0 / 3.0);
    assert m.uexp(1.5 * (k0p - 1.0) * (1.0 - x)) == m.exp(1.5 * (k0p - 1.0) * (1.0 - x));
  }

  /** At the reference volume the pressure is 0, whatever k0, k0p and the backend. */
  lemma CalPVinetAtV0(m: Ops, v0: real, k0: real, k0p: real, uncertainties: bool)
    requires ElementaryLaws(m) && v0 != 0.0
    ensures VinetDomain(m, v0, v0) && CalPVinet(m, v0, v0, k0, k0p, uncertainties) == 0.0
  {
    DivSelf(v0);
    assert m.pow(1.0, 1.0 / 3.0) == 1.0;
    assert m.pow(1.0, 2.0) == 1.0;
  }

  /**
   * vinet_p: the flag is isuncertainties over (v, v0, k0, k0p), whose kinds are
   * given by `uncertain`, one per argument.
   */
  function VinetP(m: Ops, v: real, v0: real, k0: real, k0p: real, uncertain: seq<bool>): real
    requires |uncertain| == 4 && VinetDomain(m, v, v0)
  {
    CalPVinet(m, v, v0, k0, k0p, Etc.IsUncertainties(Etc.ScalarArgs(uncertain)) == Ok(true))
  }

  /**
   * vinet_p takes the uncertainties exp exactly when one of its four arguments is
   * uncertain, and the pressure is the same either way.
   */
  lemma VinetPSelectsBackend(m: Ops, v: real, v0: real, k0: real, k0p: real, uncertain: seq<bool>)
    requires |uncertain| == 4 && VinetDomain(m, v, v0)
    ensures VinetP(m, v, v0, k0, k0p, uncertain) == CalPVinet(m, v, v0, k0, k0p, true in uncertain)
    ensures ElementaryLaws(m) ==> VinetP(m, v, v0, k0, k0p, uncertain) == CalPVinet(m, v, v0, k0, k0p, false)
  {
    Etc.ScalarRule(uncertain);
    if ElementaryLaws(m) {
      CalPVinetBackendIndependent(m, v, v0, k0, k0p);
    }
  }

  /** The argument kinds when vinet_p is called on plain floats, as brenth and derivative do. */
  const PlainArgs: seq<bool> := [false, false, false, false]

  /** On plain floats vinet_p uses numpy's exp. */
  lemma PlainArgsPlain(m: Ops, v0: real, k0: real, k0p: real)
    ensures forall v :: VinetDomain(m, v, v0) ==> VinetP(m, v, v0, k0, k0p, PlainArgs) == CalPVinet(m, v, v0, k0, k0p, false)
  {
    Etc.ScalarRule(PlainArgs);
    assert !(true in PlainArgs);
  }

  /** The objective handed to brenth by vinet_v_single: vinet_p(v) - p, evaluated on plain floats. */
  function VinetObjective(m: Ops, v0: real, k0: real, k0p: real, p: real): real -> Result<real> {
    v => if VinetDomain(m, v, v0) then Ok(VinetP(m, v, v0, k0, k0p, PlainArgs) - p)
         else Err(OutsideModel)
  }

  /**
   * vinet_v_single: the volume at pressure p. Pressures up to 1e-5 return v0;
   * otherwise brenth searches between v0 and v0 * minStrain.
   */
  function VinetVSingle(m: Ops, p: real, v0: real, k0: real, k0p: real, minStrain: real): (r: Result<real>)
    ensures p <= 1.0e-5 ==> r == Ok(v0)
    ensures p > 1.0e-5 && BrenthLaw(m) && r.Ok? ==>
              VinetDomain(m, r.value, v0) && Between(r.value, v0, v0 * minStrain) &&
              CalPVinet(m, r.value, v0, k0, k0p, false) == p
    ensures p > 1.0e-5 && BrenthLaw(m) && VinetDomain(m, v0, v0) && VinetDomain(m, v0 * minStrain, v0) &&
              SameSign(CalPVinet(m, v0, v0, k0, k0p, false) - p, CalPVinet(m, v0 * minStrain, v0, k0, k0p, false) - p) ==>
              r.Err?
  {
    PlainArgsPlain(m, v0, k0, k0p);
    if p <= 1.0e-5 then Ok(v0)
    else m.brenth(VinetObjective(m, v0, k0, k0p, p), v0, v0 * minStrain)
  }

  /** vinet_v: vinet_v_single applied to every pressure. */
  function VinetV(m: Ops, ps: seq<real>, v0: real, k0: real, k0p: real, minStrain: real): (r: Result<seq<real>>)
    ensures |ps| == 0 ==> r == Err(IndexError)
    ensures r.Ok? <==> |ps| > 0 && forall i :: 0 <= i < |ps| ==> VinetVSingle(m, ps[i], v0, k0, k0p, minStrain).Ok?
    ensures r.Ok? ==>
              |r.value| == |ps| &&
              forall i :: 0 <= i < |ps| ==> VinetVSingle(m, ps[i], v0, k0, k0p, minStrain) == Ok(r.value[i])
  {
    if |ps| == 0 then Err(IndexError) else Vectorize((p: real) => VinetVSingle(m, p, v0, k0, k0p, minStrain), ps)
  }

  /** cal_k_vinet_from_v: the analytic bulk modulus at volume v. */
  function CalKVinetFromV(m: Ops, v: real, v0: real, k0: real, k0p: real): real
    requires v0 != 0.0
  {
    var x := v / v0;
    var y := m.pow(x, 1.0 / 3.0);
    var eta := 1.5 * (k0p - 1.0);
    k0 * m.pow(y, -2.0) * (1.0 + (eta * y + 1.0) * (1.0 - y)) * m.uexp((1.0 - y) * eta)
  }

  /** At the reference volume the bulk modulus is k0. */
  lemma CalKVinetFromVAtV0(m: Ops, v0: real, k0: real, k0p: real)
    requires ElementaryLaws(m) && v0 != 0.0
    ensures CalKVinetFromV(m, v0, v0, k0, k0p) == k0
  {
    DivSelf(v0);
    var y := m.pow(v0 / v0, 1.0 / 3.0);
    assert y == 1.0 by { assert m.pow(1.0, 1.0 / 3.0) == 1.0; }
    var eta := 1.5 * (k0p - 1.0);
    var q := m.pow(y, -2.0);
    var e := m.uexp((1.0 - y) * eta);
    assert q == 1.0;
    assert e == 1.0 by { assert (1.0 - y) * eta == 0.0; assert m.uexp(0.0) == m.exp(0.0); }
    ScaledOnes(k0, q, eta, y, e);
  }

  /** k0 q (1 + (eta y + 1)(1 - y)) e is k0 when q, y and e are 1. */
  lemma ScaledOnes(k0: real, q: real, eta: real, y: real, e: real)
    requires q == 1.0 && y == 1.0 && e == 1.0
    ensures k0 * q * (1.0 + (eta * y + 1.0) * (1.0 - y)) * e == k0
  {
  }

  /** The pressure curve differentiated by vinet_dPdV is defined at v - h and v + h, h = v0 * precision. */
  predicate VinetStepDomain(m: Ops, v: real, v0: real, precision: real) {
    v0 != 0.0 && precision != 0.0 &&
    VinetDomain(m, v - v0 * precision, v0) && VinetDomain(m, v + v0 * precision, v0)
  }

  /** vinet_dPdV: the numerical dP/dV of vinet_p with step v0 * precision. */
  function VinetDPdV(m: Ops, v: real, v0: real, k0: real, k0p: real, precision: real): real
    requires VinetStepDomain(m, v, v0, precision)
  {
    VinetCurveDefined(m, v0, k0, k0p, v - v0 * precision);
    VinetCurveDefined(m, v0, k0, k0p, v + v0 * precision);
    CentralDifference(VinetCurve(m, v0, k0, k0p), v, v0 * precision)
  }

  /** The pressure curve v -> vinet_p(v, v0, k0, k0p) that vinet_dPdV differentiates. */
  function VinetCurve(m: Ops, v0: real, k0: real, k0p: real): real --> real {
    x requires VinetDomain(m, x, v0) => VinetP(m, x, v0, k0, k0p, PlainArgs)
  }

  /** The curve is defined wherever vinet_p is. */
  lemma VinetCurveDefined(m: Ops, v0: real, k0: real, k0p: real, x: real)
    requires VinetDomain(m, x, v0)
    ensures VinetCurve(m, v0, k0, k0p).requires(x)
  {
  }

  /** vinet_k_num: the numerical bulk modulus -v dP/dV. */
  function VinetKNum(m: Ops, v: real, v0: real, k0: real, k0p: real, precision: real): real
    requires VinetStepDomain(m, v, v0, precision)
  {
    -1.0 * v * VinetDPdV(m, v, v0, k0, k0p, precision)
  }

  /** The numerical bulk modulus is -v times the secant slope of the pressure across [v - h, v + h]. */
  lemma VinetKNumSecant(m: Ops, v: real, v0: real, k0: real, k0p: real, precision: real)
    requires VinetStepDomain(m, v, v0, precision)
    ensures var h := v0 * precision;
            VinetKNum(m, v, v0, k0, k0p, precision)
              == SecantModulus(v, h, VinetP(m, v - h, v0, k0, k0p, PlainArgs),
                               VinetP(m, v + h, v0, k0, k0p, PlainArgs))
  {
    var h := v0 * precision;
    VinetCurveDefined(m, v0, k0, k0p, v - h);
    VinetCurveDefined(m, v0, k0, k0p, v + h);
    SecantSlope(VinetCurve(m, v0, k0, k0p), v, h,
                VinetP(m, v - h, v0, k0, k0p, PlainArgs),
                VinetP(m, v + h, v0, k0, k0p, PlainArgs));
  }

  /** A pressure that falls across the step gives a positive numerical modulus at positive volume and step. */
  lemma VinetKNumPositive(m: Ops, v: real, v0: real, k0: real, k0p: real, precision: real)
    requires VinetStepDomain(m, v, v0, precision)
    requires v > 0.0 && v0 * precision > 0.0
    requires VinetP(m, v + v0 * precision, v0, k0, k0p, PlainArgs)
          < VinetP(m, v - v0 * precision, v0, k0, k0p, PlainArgs)
    ensures VinetKNum(m, v, v0, k0, k0p, precision) > 0.0
  {
    var h := v0 * precision;
    VinetCurveDefined(m, v0, k0, k0p, v - h);
    VinetCurveDefined(m, v0, k0, k0p, v + h);
    SecantPositive(VinetCurve(m, v0, k0, k0p), v, h,
                   VinetP(m, v - h, v0, k0, k0p, PlainArgs),
                   VinetP(m, v + h, v0, k0, k0p, PlainArgs));
  }
}
