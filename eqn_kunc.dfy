/** The Kunc equation of state (pytheos/eqn_kunc.py), of which Vinet is the order-2 case. */
module EqnKunc {
  import opened Wrappers
  import opened Numerics
  import Etc
  import EqnVinet

  /** The default Kunc order. */
  const DEFAULT_ORDER: real := 5.0

  /** The divisions of cal_p_kunc are defined: v0 != 0 and x^order != 0 for x = (v/v0)^(1/3). */
  predicate KuncDomain(m: Ops, v: real, v0: real, order: real) {
    v0 != 0.0 && m.pow(m.pow(v / v0, 1.0 / 3.0), order) != 0.0
  }

  /** cal_p_kunc: pressure at volume v for k = [v0, k0, k0p] and the given order. */
  function CalPKunc(m: Ops, v: real, v0: real, k0: real, k0p: real, order: real, uncertainties: bool): real
    requires KuncDomain(m, v, v0, order)
  {
    var x := m.pow(v / v0, 1.0 / 3.0);
    var f1 := (1.0 - x) / m.pow(x, order);
    var f2 := if uncertainties then m.uexp((1.5 * k0p - order + 0.5) * (1.0 - x))
              else m.exp((1.5 * k0p - order + 0.5) * (1.0 - x));
    3.0 * k0 * f1 * f2
  }

  /** At the reference volume the pressure is 0 for every order. */
  lemma CalPKuncAtV0(m: Ops, v0: real, k0: real, k0p: real, order: real, uncertainties: bool)
    requires ElementaryLaws(m) && v0 != 0.0
    ensures KuncDomain(m, v0, v0, order) && CalPKunc(m, v0, v0, k0, k0p, order, uncertainties) == 0.0
  {
    DivSelf(v0);
    assert m.pow(1.0, 1.0 / 3.0) == 1.0;
    assert m.pow(1.0, order) == 1.0;
  }

  /** Both backends compute the same pressure. */
  lemma CalPKuncBackendIndependent(m: Ops, v: real, v0: real, k0: real, k0p: real, order: real)
    requires ElementaryLaws(m) && KuncDomain(m, v, v0, order)
    ensures CalPKunc(m, v, v0, k0, k0p, order, true) == CalPKunc(m, v, v0, k0, k0p, order, false)
  {
    var x := m.pow(v / v0, 1.0 / 3.0);
    assert m.uexp((1.5 * k0p - order + 0.5) * (1.0 - x)) == m.exp((1.5 * k0p - order + 0.5) * (1.0 - x));
  }

  /** Kunc of order 2 is Vinet, for all inputs and either backend. */
  lemma KuncOrder2IsVinet(m: Ops, v: real, v0: real, k0: real, k0p: real, uncertainties: bool)
    requires KuncDomain(m, v, v0, 2.0)
    ensures EqnVinet.VinetDomain(m, v, v0)
    ensures CalPKunc(m, v, v0, k0, k0p, 2.0, uncertainties) == EqnVinet.CalPVinet(m, v, v0, k0, k0p, uncertainties)
  {
    var x := m.pow(v / v0, 1.0 / 3.0);
    assert (1.5 * k0p - 2.0 + 0.5) * (1.0 - x) == 1.5 * (k0p - 1.0) * (1.0 - x);
  }

  /** kunc_p: the flag is isuncertainties over (v, v0, k0, k0p), one kind per argument. */
  function KuncP(m: Ops, v: real, v0: real, k0: real, k0p: real, order: real, uncertain: seq<bool>): real
    requires |uncertain| == 4 && KuncDomain(m, v, v0, order)
  {
    CalPKunc(m, v, v0, k0, k0p, order, Etc.IsUncertainties(Etc.ScalarArgs(uncertain)) == Ok(true))
  }

  /** kunc_p takes the uncertainties exp exactly when an argument is uncertain, with the same pressure. */
  lemma KuncPSelectsBackend(m: Ops, v: real, v0: real, k0: real, k0p: real, order: real, uncertain: seq<bool>)
    requires |uncertain| == 4 && KuncDomain(m, v, v0, order)
    ensures KuncP(m, v, v0, k0, k0p, order, uncertain) == CalPKunc(m, v, v0, k0, k0p, order, true in uncertain)
    ensures ElementaryLaws(m) ==> KuncP(m, v, v0, k0, k0p, order, uncertain) == CalPKunc(m, v, v0, k0, k0p, order, false)
  {
    Etc.ScalarRule(uncertain);
    if ElementaryLaws(m) {
      CalPKuncBackendIndependent(m, v, v0, k0, k0p, order);
    }
  }

  /** On plain floats kunc_p uses numpy's exp. */
  lemma PlainArgsPlain(m: Ops, v0: real, k0: real, k0p: real, order: real)
    ensures forall v :: KuncDomain(m, v, v0, order) ==>
              KuncP(m, v, v0, k0, k0p, order, EqnVinet.PlainArgs) == CalPKunc(m, v, v0, k0, k0p, order, false)
  {
    Etc.ScalarRule(EqnVinet.PlainArgs);
    assert !(true in EqnVinet.PlainArgs);
  }

  /** The objective handed to brenth by kunc_v_single: kunc_p(v) - p with the caller's order. */
  function KuncObjective(m: Ops, v0: real, k0: real, k0p: real, p: real, order: real): real -> Result<real> {
    v => if KuncDomain(m, v, v0, order) then Ok(KuncP(m, v, v0, k0, k0p, order, EqnVinet.PlainArgs) - p)
         else Err(OutsideModel)
  }

  /**
   * kunc_v_single: the volume at pressure p. Pressures up to 1e-5 return v0;
   * otherwise brenth searches between v0 and v0 * minStrain on the pressure of
   * the same order.
   */
  function KuncVSingle(m: Ops, p: real, v0: real, k0: real, k0p: real, order: real, minStrain: real): (r: Result<real>)
    ensures p <= 1.0e-5 ==> r == Ok(v0)
    ensures p > 1.0e-5 && BrenthLaw(m) && r.Ok? ==>
              KuncDomain(m, r.value, v0, order) && Between(r.value, v0, v0 * minStrain) &&
              CalPKunc(m, r.value, v0, k0, k0p, order, false) == p
    ensures p > 1.0e-5 && BrenthLaw(m) && KuncDomain(m, v0, v0, order) && KuncDomain(m, v0 * minStrain, v0, order) &&
              SameSign(CalPKunc(m, v0, v0, k0, k0p, order, false) - p,
                       CalPKunc(m, v0 * minStrain, v0, k0, k0p, order, false) - p) ==>
              r.Err?
  {
    PlainArgsPlain(m, v0, k0, k0p, order);
    if p <= 1.0e-5 then Ok(v0)
    else m.brenth(KuncObjective(m, v0, k0, k0p, p, order), v0, v0 * minStrain)
  }

  /** kunc_v: kunc_v_single applied to every pressure. */
  function KuncV(m: Ops, ps: seq<real>, v0: real, k0: real, k0p: real, order: real, minStrain: real): (r: Result<seq<real>>)
    ensures |ps| == 0 ==> r == Err(IndexError)
    ensures r.Ok? <==> |ps| > 0 && forall i :: 0 <= i < |ps| ==> KuncVSingle(m, ps[i], v0, k0, k0p, order, minStrain).Ok?
    ensures r.Ok? ==>
              |r.value| == |ps| &&
              forall i :: 0 <= i < |ps| ==> KuncVSingle(m, ps[i], v0, k0, k0p, order, minStrain) == Ok(r.value[i])
  {
    if |ps| == 0 then Err(IndexError) else Vectorize((p: real) => KuncVSingle(m, p, v0, k0, k0p, order, minStrain), ps)
  }

  /** The pressure curve differentiated by kunc_dPdV is defined at v - h and v + h, h = v0 * precision. */
  predicate KuncStepDomain(m: Ops, v: real, v0: real, order: real, precision: real) {
    v0 != 0.0 && precision != 0.0 &&
    KuncDomain(m, v - v0 * precision, v0, order) && KuncDomain(m, v + v0 * precision, v0, order)
  }

  /** kunc_dPdV: the numerical dP/dV of kunc_p of the given order, with step v0 * precision. */
  function KuncDPdV(m: Ops, v: real, v0: real, k0: real, k0p: real, order: real, precision: real): real
    requires KuncStepDomain(m, v, v0, order, precision)
  {
    KuncCurveDefined(m, v0, k0, k0p, order, v - v0 * precision);
    KuncCurveDefined(m, v0, k0, k0p, order, v + v0 * precision);
    CentralDifference(KuncCurve(m, v0, k0, k0p, order), v, v0 * precision)
  }

  /** The pressure curve v -> kunc_p(v, v0, k0, k0p, order) that kunc_dPdV differentiates. */
  function KuncCurve(m: Ops, v0: real, k0: real, k0p: real, order: real): real --> real {
    x requires KuncDomain(m, x, v0, order) => KuncP(m, x, v0, k0, k0p, order, EqnVinet.PlainArgs)
  }

  /** The curve is defined wherever kunc_p is. */
  lemma KuncCurveDefined(m: Ops, v0: real, k0: real, k0p: real, order: real, x: real)
    requires KuncDomain(m, x, v0, order)
    ensures KuncCurve(m, v0, k0, k0p, order).requires(x)
  {
  }

  /** kunc_k_num: the numerical bulk modulus -v dP/dV. */
  function KuncKNum(m: Ops, v: real, v0: real, k0: real, k0p: real, order: real, precision: real): real
    requires KuncStepDomain(m, v, v0, order, precision)
  {
    -1.0 * v * KuncDPdV(m, v, v0, k0, k0p, order, precision)
  }

  /** The numerical bulk modulus is -v times the secant slope of the pressure across [v - h, v + h]. */
  lemma KuncKNumSecant(m: Ops, v: real, v0: real, k0: real, k0p: real, order: real, precision: real)
    requires KuncStepDomain(m, v, v0, order, precision)
    ensures var h := v0 * precision;
            KuncKNum(m, v, v0, k0, k0p, order, precision)
              == SecantModulus(v, h, CalPKunc(m, v - h, v0, k0, k0p, order, false),
                               CalPKunc(m, v + h, v0, k0, k0p, order, false))
  {
    var h := v0 * precision;
    KuncCurveDefined(m, v0, k0, k0p, order, v - h);
    KuncCurveDefined(m, v0, k0, k0p, order, v + h);
    PlainArgsPlain(m, v0, k0, k0p, order);
    SecantSlope(KuncCurve(m, v0, k0, k0p, order), v, h,
                CalPKunc(m, v - h, v0, k0, k0p, order, false),
                CalPKunc(m, v + h, v0, k0, k0p, order, false));
  }

  /** A pressure that falls across the step gives a positive numerical modulus at positive volume and step. */
  lemma KuncKNumPositive(m: Ops, v: real, v0: real, k0: real, k0p: real, order: real, precision: real)
    requires KuncStepDomain(m, v, v0, order, precision)
    requires v > 0.0 && v0 * precision > 0.0
    requires CalPKunc(m, v + v0 * precision, v0, k0, k0p, order, false)
          < CalPKunc(m, v - v0 * precision, v0, k0, k0p, order, false)
    ensures KuncKNum(m, v, v0, k0, k0p, order, precision) > 0.0
  {
    var h := v0 * precision;
    KuncCurveDefined(m, v0, k0, k0p, order, v - h);
    KuncCurveDefined(m, v0, k0, k0p, order, v + h);
    PlainArgsPlain(m, v0, k0, k0p, order);
    SecantPositive(KuncCurve(m, v0, k0, k0p, order), v, h,
                   CalPKunc(m, v - h, v0, k0, k0p, order, false),
                   CalPKunc(m, v + h, v0, k0, k0p, order, false));
  }
}
