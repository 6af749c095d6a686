/** The Speziale thermal equation of state (pytheos/eqn_therm_Speziale.py). */
module EqnThermSpeziale {
  import opened Wrappers
  import opened Numerics
  import Conversion
  import DebyeThermal

  /**
   * speziale_grun: gamma0 exp(q0 / q1 ((v/v0)^q1 - 1)); the flag is isuncertainties
   * over the five arguments and picks the exp backend.
   */
  function SpezialeGrun(m: Ops, v: real, v0: real, gamma0: real, q0: real, q1: real, uncertainties: bool): real
    requires v0 != 0.0 && q1 != 0.0
  {
    var arg := q0 / q1 * (m.pow(v / v0, q1) - 1.0);
    gamma0 * (if uncertainties then m.uexp(arg) else m.exp(arg))
  }

  /** At the reference volume the Grueneisen parameter is gamma0, with either backend. */
  lemma SpezialeGrunAtV0(m: Ops, v0: real, gamma0: real, q0: real, q1: real, uncertainties: bool)
    requires ElementaryLaws(m) && v0 != 0.0 && q1 != 0.0
    ensures SpezialeGrun(m, v0, v0, gamma0, q0, q1, uncertainties) == gamma0
  {
    DivSelf(v0);
    assert m.pow(1.0, q1) == 1.0;
    assert q0 / q1 * (1.0 - 1.0) == 0.0;
    assert m.uexp(0.0) == m.exp(0.0) == 1.0;
  }

  /** The exp backend does not change the Grueneisen parameter. */
  lemma SpezialeGrunBackendIndependent(m: Ops, v: real, v0: real, gamma0: real, q0: real, q1: real)
    requires ElementaryLaws(m) && v0 != 0.0 && q1 != 0.0
    ensures SpezialeGrun(m, v, v0, gamma0, q0, q1, true) == SpezialeGrun(m, v, v0, gamma0, q0, q1, false)
  {
    var arg := q0 / q1 * (m.pow(v / v0, q1) - 1.0);
    assert m.uexp(arg) == m.exp(arg);
  }

  /** With q0 = 0 the Grueneisen parameter is gamma0 at every volume. */
  lemma SpezialeGrunConstant(m: Ops, v: real, v0: real, gamma0: real, q1: real, uncertainties: bool)
    requires ElementaryLaws(m) && v0 != 0.0 && q1 != 0.0
    ensures SpezialeGrun(m, v, v0, gamma0, 0.0, q1, uncertainties) == gamma0
  {
    var arg := 0.0 / q1 * (m.pow(v / v0, q1) - 1.0);
    assert arg == 0.0;
    assert m.uexp(0.0) == m.exp(0.0) == 1.0;
  }

  /** The integrand gamma(v) / v of integrate_gamma, which always uses numpy's exp. */
  function SpezialeIntegrand(m: Ops, v0: real, gamma0: real, q0: real, q1: real): real --> real
    requires v0 != 0.0 && q1 != 0.0
  {
    x requires x != 0.0 => SpezialeGrun(m, x, v0, gamma0, q0, q1, false) / x
  }

  /** integrate_gamma: the integral of gamma(x) / x from v0 to v. */
  function IntegrateGamma(m: Ops, v: real, v0: real, gamma0: real, q0: real, q1: real): real
    requires v0 != 0.0 && q1 != 0.0
  {
    m.quad(SpezialeIntegrand(m, v0, gamma0, q0, q1), v0, v)
  }

  /** The integral vanishes at the reference volume. */
  lemma IntegrateGammaAtV0(m: Ops, v0: real, gamma0: real, q0: real, q1: real)
    requires QuadLaw(m) && v0 != 0.0 && q1 != 0.0
    ensures IntegrateGamma(m, v0, v0, gamma0, q0, q1) == 0.0
  {
    assert m.quad(SpezialeIntegrand(m, v0, gamma0, q0, q1), v0, v0) == 0.0;
  }

  /**
   * speziale_debyetemp: exp(log(theta0) - integ), with the integral taken by
   * integrate_gamma element by element; the flag picks the exp backend. The
   * logarithm needs theta0 > 0.
   */
  function SpezialeDebyeTemp(m: Ops, v: real, v0: real, gamma0: real, q0: real, q1: real, theta0: real,
                             uncertainties: bool): real
    requires v0 != 0.0 && q1 != 0.0 && theta0 > 0.0
  {
    var arg := m.log(theta0) - IntegrateGamma(m, v, v0, gamma0, q0, q1);
    if uncertainties then m.uexp(arg) else m.exp(arg)
  }

  /** At the reference volume the Debye temperature is a positive theta0. */
  lemma SpezialeDebyeTempAtV0(m: Ops, v0: real, gamma0: real, q0: real, q1: real, theta0: real, uncertainties: bool)
    requires ElementaryLaws(m) && QuadLaw(m) && v0 != 0.0 && q1 != 0.0 && theta0 > 0.0
    ensures SpezialeDebyeTemp(m, v0, v0, gamma0, q0, q1, theta0, uncertainties) == theta0
  {
    IntegrateGammaAtV0(m, v0, gamma0, q0, q1);
    var l := m.log(theta0);
    assert m.log(theta0) - IntegrateGamma(m, v0, v0, gamma0, q0, q1) == l;
    assert m.exp(l) == theta0;
    assert m.uexp(l) == m.exp(l);
  }

  /** The Debye temperature is positive at every volume and the backend does not change it. */
  lemma SpezialeDebyeTempPositive(m: Ops, v: real, v0: real, gamma0: real, q0: real, q1: real, theta0: real)
    requires ElementaryLaws(m) && v0 != 0.0 && q1 != 0.0 && theta0 > 0.0
    ensures SpezialeDebyeTemp(m, v, v0, gamma0, q0, q1, theta0, false) > 0.0
    ensures SpezialeDebyeTemp(m, v, v0, gamma0, q0, q1, theta0, true)
            == SpezialeDebyeTemp(m, v, v0, gamma0, q0, q1, theta0, false)
  {
    var arg := m.log(theta0) - IntegrateGamma(m, v, v0, gamma0, q0, q1);
    assert m.exp(arg) > 0.0;
    assert m.uexp(arg) == m.exp(arg);
  }

  /**
   * speziale_pth: the Debye thermal pressure at the Speziale gamma and theta, in GPa.
   * A theta0 <= 0 makes unp.log raise; numpy's log gives a theta of nan or 0 instead,
   * which is outside the model.
   */
  function SpezialePth(m: Ops, v: real, temp: real, v0: real, gamma0: real, q0: real, q1: real, theta0: real,
                       n: real, z: real, tRef: real, threeR: real, uncertainties: bool): (r: Result<real>)
    ensures z != 0.0 && v0 != 0.0 && q1 != 0.0 && theta0 <= 0.0 ==>
              r == Err(if uncertainties then MathDomain else OutsideModel)
    ensures r.Ok? <==> z != 0.0 && v0 != 0.0 && q1 != 0.0 && theta0 > 0.0 &&
                       DebyeThermal.ThermalDefined(Conversion.VolUc2Mol(v, z),
                                                   SpezialeDebyeTemp(m, v, v0, gamma0, q0, q1, theta0, uncertainties),
                                                   temp, tRef)
  {
    if z == 0.0 || v0 == 0.0 || q1 == 0.0 then Err(OutsideModel)
    else if theta0 <= 0.0 then Err(if uncertainties then MathDomain else OutsideModel)
    else
      var vMol := Conversion.VolUc2Mol(v, z);
      var gamma := SpezialeGrun(m, v, v0, gamma0, q0, q1, uncertainties);
      var theta := SpezialeDebyeTemp(m, v, v0, gamma0, q0, q1, theta0, uncertainties);
      DebyeThermal.ThermalPressure(m, vMol, gamma, theta, temp, tRef, n, threeR)
  }

  /** At temp = tRef the Speziale thermal pressure is 0 whenever it is defined. */
  lemma SpezialePthAtReference(m: Ops, v: real, t: real, v0: real, gamma0: real, q0: real, q1: real, theta0: real,
                               n: real, z: real, threeR: real, uncertainties: bool)
    ensures var r := SpezialePth(m, v, t, v0, gamma0, q0, q1, theta0, n, z, t, threeR, uncertainties);
            r.Ok? ==> r.value == 0.0
  {
    if z != 0.0 && v0 != 0.0 && q1 != 0.0 && theta0 > 0.0 {
      DebyeThermal.ThermalPressureAtReference(m, Conversion.VolUc2Mol(v, z),
        SpezialeGrun(m, v, v0, gamma0, q0, q1, uncertainties),
        SpezialeDebyeTemp(m, v, v0, gamma0, q0, q1, theta0, uncertainties), t, n, threeR);
    }
  }

  /**
   * At the reference volume the Speziale thermal pressure is the Debye thermal
   * pressure with gamma0 and theta0.
   */
  lemma SpezialePthAtV0(m: Ops, temp: real, v0: real, gamma0: real, q0: real, q1: real, theta0: real,
                        n: real, z: real, tRef: real, threeR: real, uncertainties: bool)
    requires ElementaryLaws(m) && QuadLaw(m) && z != 0.0 && v0 != 0.0 && q1 != 0.0 && theta0 > 0.0
    ensures SpezialePth(m, v0, temp, v0, gamma0, q0, q1, theta0, n, z, tRef, threeR, uncertainties)
            == DebyeThermal.ThermalPressure(m, Conversion.VolUc2Mol(v0, z), gamma0, theta0, temp, tRef, n, threeR)
  {
    SpezialeGrunAtV0(m, v0, gamma0, q0, q1, uncertainties);
    SpezialeDebyeTempAtV0(m, v0, gamma0, q0, q1, theta0, uncertainties);
  }

  /** With a non-zero tRef the Speziale thermal pressure is f(temp) - f(tRef) of the Debye energy. */
  lemma SpezialePthIsDifference(m: Ops, v: real, temp: real, v0: real, gamma0: real, q0: real, q1: real, theta0: real,
                                n: real, z: real, tRef: real, threeR: real, uncertainties: bool)
    requires z != 0.0 && v0 != 0.0 && q1 != 0.0 && theta0 > 0.0 && tRef != 0.0
    ensures var gamma := SpezialeGrun(m, v, v0, gamma0, q0, q1, uncertainties);
            var theta := SpezialeDebyeTemp(m, v, v0, gamma0, q0, q1, theta0, uncertainties);
            SpezialePth(m, v, temp, v0, gamma0, q0, q1, theta0, n, z, tRef, threeR, uncertainties)
            == DebyeThermal.EnergyDifference(m, gamma, Conversion.VolUc2Mol(v, z), theta, temp, tRef, n, threeR)
  {
    var gamma := SpezialeGrun(m, v, v0, gamma0, q0, q1, uncertainties);
    var theta := SpezialeDebyeTemp(m, v, v0, gamma0, q0, q1, theta0, uncertainties);
    DebyeThermal.ThermalPressureIsDifference(m, Conversion.VolUc2Mol(v, z), gamma, theta, temp, tRef, n, threeR);
  }

  /**
   * With tRef = 0 the reference energy is 0, so the Speziale thermal pressure is
   * gamma / V_mol * 3 R n T E(theta / T) * 1e-9 on its own.
   */
  lemma SpezialePthZeroReference(m: Ops, v: real, temp: real, v0: real, gamma0: real, q0: real, q1: real,
                                 theta0: real, n: real, z: real, threeR: real, uncertainties: bool)
    requires z != 0.0 && v0 != 0.0 && q1 != 0.0 && theta0 > 0.0
    ensures SpezialePth(m, v, temp, v0, gamma0, q0, q1, theta0, n, z, 0.0, threeR, uncertainties)
            == DebyeThermal.EnergyPressure(m, SpezialeGrun(m, v, v0, gamma0, q0, q1, uncertainties),
                                           Conversion.VolUc2Mol(v, z),
                                           SpezialeDebyeTemp(m, v, v0, gamma0, q0, q1, theta0, uncertainties),
                                           temp, n, threeR)
  {
    DebyeThermal.ThermalPressureZeroReference(m, Conversion.VolUc2Mol(v, z),
      SpezialeGrun(m, v, v0, gamma0, q0, q1, uncertainties),
      SpezialeDebyeTemp(m, v, v0, gamma0, q0, q1, theta0, uncertainties), temp, n, threeR);
  }
}
