/** The Tange thermal equation of state (pytheos/eqn_therm_Tange.py). */
module EqnThermTange {
  import opened Wrappers
  import opened Numerics
  import Conversion
  import DebyeThermal

  /** tange_grun: gamma0 (1 + a ((v/v0)^b - 1)). */
  function TangeGrun(m: Ops, v: real, v0: real, gamma0: real, a: real, b: real): real
    requires v0 != 0.0
  {
    var x := v / v0;
    gamma0 * (1.0 + a * (m.pow(x, b) - 1.0))
  }

  /** At the reference volume the Grueneisen parameter is gamma0. */
  lemma TangeGrunAtV0(m: Ops, v0: real, gamma0: real, a: real, b: real)
    requires ElementaryLaws(m) && v0 != 0.0
    ensures TangeGrun(m, v0, v0, gamma0, a, b) == gamma0
  {
    DivSelf(v0);
    assert m.pow(1.0, b) == 1.0;
  }

  /** With a = 0 the Grueneisen parameter is gamma0 at every volume. */
  lemma TangeGrunConstant(m: Ops, v: real, v0: real, gamma0: real, b: real)
    requires v0 != 0.0
    ensures TangeGrun(m, v, v0, gamma0, 0.0, b) == gamma0
  {
  }

  /**
   * tange_debyetemp: theta0 (v/v0)^(-(1-a) gamma0) exp((gamma0 - gamma) / b); the
   * flag is isuncertainties over the six arguments and picks the exp backend.
   */
  function TangeDebyeTemp(m: Ops, v: real, v0: real, gamma0: real, a: real, b: real, theta0: real,
                          uncertainties: bool): real
    requires v0 != 0.0 && b != 0.0
  {
    var x := v / v0;
    var gamma := TangeGrun(m, v, v0, gamma0, a, b);
    var e := if uncertainties then m.uexp((gamma0 - gamma) / b) else m.exp((gamma0 - gamma) / b);
    theta0 * m.pow(x, -1.0 * (1.0 - a) * gamma0) * e
  }

  /** At the reference volume the Debye temperature is theta0, with either backend. */
  lemma TangeDebyeTempAtV0(m: Ops, v0: real, gamma0: real, a: real, b: real, theta0: real, uncertainties: bool)
    requires ElementaryLaws(m) && v0 != 0.0 && b != 0.0
    ensures TangeDebyeTemp(m, v0, v0, gamma0, a, b, theta0, uncertainties) == theta0
  {
    TangeGrunAtV0(m, v0, gamma0, a, b);
    DivSelf(v0);
    assert m.pow(1.0, -1.0 * (1.0 - a) * gamma0) == 1.0;
    assert (gamma0 - gamma0) / b == 0.0;
    assert m.uexp(0.0) == m.exp(0.0) == 1.0;
  }

  /** The exp backend does not change the Debye temperature. */
  lemma TangeDebyeTempBackendIndependent(m: Ops, v: real, v0: real, gamma0: real, a: real, b: real, theta0: real)
    requires ElementaryLaws(m) && v0 != 0.0 && b != 0.0
    ensures TangeDebyeTemp(m, v, v0, gamma0, a, b, theta0, true) == TangeDebyeTemp(m, v, v0, gamma0, a, b, theta0, false)
  {
    var gamma := TangeGrun(m, v, v0, gamma0, a, b);
    assert m.uexp((gamma0 - gamma) / b) == m.exp((gamma0 - gamma) / b);
  }

  /** tange_pth: the Debye thermal pressure at the Tange gamma and theta, in GPa. */
  function TangePth(m: Ops, v: real, temp: real, v0: real, gamma0: real, a: real, b: real, theta0: real,
                    n: real, z: real, tRef: real, threeR: real, uncertainties: bool): (r: Result<real>)
    ensures r.Ok? <==> z != 0.0 && v0 != 0.0 && b != 0.0 &&
                       DebyeThermal.ThermalDefined(Conversion.VolUc2Mol(v, z),
                                                   TangeDebyeTemp(m, v, v0, gamma0, a, b, theta0, uncertainties),
                                                   temp, tRef)
  {
    if z == 0.0 || v0 == 0.0 || b == 0.0 then Err(OutsideModel)
    else
      var vMol := Conversion.VolUc2Mol(v, z);
      var gamma := TangeGrun(m, v, v0, gamma0, a, b);
      var theta := TangeDebyeTemp(m, v, v0, gamma0, a, b, theta0, uncertainties);
      DebyeThermal.ThermalPressure(m, vMol, gamma, theta, temp, tRef, n, threeR)
  }

  /** At temp = tRef the Tange thermal pressure is 0 whenever it is defined. */
  lemma TangePthAtReference(m: Ops, v: real, t: real, v0: real, gamma0: real, a: real, b: real, theta0: real,
                            n: real, z: real, threeR: real, uncertainties: bool)
    ensures var r := TangePth(m, v, t, v0, gamma0, a, b, theta0, n, z, t, threeR, uncertainties);
            r.Ok? ==> r.value == 0.0
  {
    if z != 0.0 && v0 != 0.0 && b != 0.0 {
      DebyeThermal.ThermalPressureAtReference(m, Conversion.VolUc2Mol(v, z), TangeGrun(m, v, v0, gamma0, a, b),
        TangeDebyeTemp(m, v, v0, gamma0, a, b, theta0, uncertainties), t, n, threeR);
    }
  }

  /**
   * With tRef = 0 the reference energy is 0, so the Tange thermal pressure is
   * gamma / V_mol * 3 R n T E(theta / T) * 1e-9 on its own.
   */
  lemma TangePthZeroReference(m: Ops, v: real, temp: real, v0: real, gamma0: real, a: real, b: real, theta0: real,
                              n: real, z: real, threeR: real, uncertainties: bool)
    requires z != 0.0 && v0 != 0.0 && b != 0.0
    ensures TangePth(m, v, temp, v0, gamma0, a, b, theta0, n, z, 0.0, threeR, uncertainties)
            == DebyeThermal.EnergyPressure(m, TangeGrun(m, v, v0, gamma0, a, b), Conversion.VolUc2Mol(v, z),
                                           TangeDebyeTemp(m, v, v0, gamma0, a, b, theta0, uncertainties), temp, n, threeR)
  {
    DebyeThermal.ThermalPressureZeroReference(m, Conversion.VolUc2Mol(v, z), TangeGrun(m, v, v0, gamma0, a, b),
      TangeDebyeTemp(m, v, v0, gamma0, a, b, theta0, uncertainties), temp, n, threeR);
  }

  /**
   * At the reference volume the Tange thermal pressure is the Debye thermal pressure
   * with gamma0 and theta0.
   */
  lemma TangePthAtV0(m: Ops, temp: real, v0: real, gamma0: real, a: real, b: real, theta0: real,
                     n: real, z: real, tRef: real, threeR: real, uncertainties: bool)
    requires ElementaryLaws(m) && z != 0.0 && v0 != 0.0 && b != 0.0
    ensures TangePth(m, v0, temp, v0, gamma0, a, b, theta0, n, z, tRef, threeR, uncertainties)
            == DebyeThermal.ThermalPressure(m, Conversion.VolUc2Mol(v0, z), gamma0, theta0, temp, tRef, n, threeR)
  {
    TangeGrunAtV0(m, v0, gamma0, a, b);
    TangeDebyeTempAtV0(m, v0, gamma0, a, b, theta0, uncertainties);
  }

  /** With a non-zero tRef the Tange thermal pressure is f(temp) - f(tRef) of the Debye energy. */
  lemma TangePthIsDifference(m: Ops, v: real, temp: real, v0: real, gamma0: real, a: real, b: real, theta0: real,
                             n: real, z: real, tRef: real, threeR: real, uncertainties: bool)
    requires z != 0.0 && v0 != 0.0 && b != 0.0 && tRef != 0.0
    ensures var gamma := TangeGrun(m, v, v0, gamma0, a, b);
            var theta := TangeDebyeTemp(m, v, v0, gamma0, a, b, theta0, uncertainties);
            TangePth(m, v, temp, v0, gamma0, a, b, theta0, n, z, tRef, threeR, uncertainties)
            == DebyeThermal.EnergyDifference(m, gamma, Conversion.VolUc2Mol(v, z), theta, temp, tRef, n, threeR)
  {
    var gamma := TangeGrun(m, v, v0, gamma0, a, b);
    var theta := TangeDebyeTemp(m, v, v0, gamma0, a, b, theta0, uncertainties);
    DebyeThermal.ThermalPressureIsDifference(m, Conversion.VolUc2Mol(v, z), gamma, theta, temp, tRef, n, threeR);
  }
}
