/** The Dorogokupets and Oganov (2007) thermal equation of state (pytheos/eqn_therm_Dorogokupets2007.py). */
module EqnThermDorogokupets2007 {
  import opened Wrappers
  import opened Numerics
  import Conversion
  import DebyeThermal

  /** altshuler_grun: gamma_inf + (gamma0 - gamma_inf) (v/v0)^beta. */
  function AltshulerGrun(m: Ops, v: real, v0: real, gamma0: real, gammaInf: real, beta: real): real
    requires v0 != 0.0
  {
    gammaInf + (gamma0 - gammaInf) * m.pow(v / v0, beta)
  }

  /** At the reference volume the Grueneisen parameter is gamma0. */
  lemma AltshulerGrunAtV0(m: Ops, v0: real, gamma0: real, gammaInf: real, beta: real)
    requires ElementaryLaws(m) && v0 != 0.0
    ensures AltshulerGrun(m, v0, v0, gamma0, gammaInf, beta) == gamma0
  {
    DivSelf(v0);
    assert m.pow(1.0, beta) == 1.0;
  }

  /** With gamma0 = gamma_inf the Grueneisen parameter is that constant at every volume. */
  lemma AltshulerGrunConstant(m: Ops, v: real, v0: real, gamma0: real, beta: real)
    requires v0 != 0.0
    ensures AltshulerGrun(m, v, v0, gamma0, gamma0, beta) == gamma0
  {
  }

  /**
   * altshuler_debyetemp: theta0 (v/v0)^(-gamma_inf) exp((gamma0 - gamma_inf) / beta
   * (1 - (v/v0)^beta)); the flag is isuncertainties over the six arguments.
   */
  function AltshulerDebyeTemp(m: Ops, v: real, v0: real, gamma0: real, gammaInf: real, beta: real, theta0: real,
                              uncertainties: bool): real
    requires v0 != 0.0 && beta != 0.0
  {
    var x := v / v0;
    var arg := (gamma0 - gammaInf) / beta * (1.0 - m.pow(x, beta));
    theta0 * m.pow(x, -1.0 * gammaInf) * (if uncertainties then m.uexp(arg) else m.exp(arg))
  }

  /** At the reference volume the Debye temperature is theta0, with either backend. */
  lemma AltshulerDebyeTempAtV0(m: Ops, v0: real, gamma0: real, gammaInf: real, beta: real, theta0: real,
                               uncertainties: bool)
    requires ElementaryLaws(m) && v0 != 0.0 && beta != 0.0
    ensures AltshulerDebyeTemp(m, v0, v0, gamma0, gammaInf, beta, theta0, uncertainties) == theta0
  {
    DivSelf(v0);
    assert m.pow(1.0, beta) == 1.0;
    assert m.pow(1.0, -1.0 * gammaInf) == 1.0;
    assert (gamma0 - gammaInf) / beta * (1.0 - 1.0) == 0.0;
    assert m.uexp(0.0) == m.exp(0.0) == 1.0;
  }

  /** The Debye temperature is proportional to theta0 and the backend does not change it. */
  lemma AltshulerDebyeTempScales(m: Ops, v: real, v0: real, gamma0: real, gammaInf: real, beta: real, theta0: real)
    requires ElementaryLaws(m) && v0 != 0.0 && beta != 0.0
    ensures AltshulerDebyeTemp(m, v, v0, gamma0, gammaInf, beta, theta0, false)
            == theta0 * AltshulerDebyeTemp(m, v, v0, gamma0, gammaInf, beta, 1.0, false)
    ensures AltshulerDebyeTemp(m, v, v0, gamma0, gammaInf, beta, theta0, true)
            == AltshulerDebyeTemp(m, v, v0, gamma0, gammaInf, beta, theta0, false)
  {
    var x := v / v0;
    var arg := (gamma0 - gammaInf) / beta * (1.0 - m.pow(x, beta));
    assert m.uexp(arg) == m.exp(arg);
    var p := m.pow(x, -1.0 * gammaInf);
    var e := m.exp(arg);
    assert theta0 * p * e == theta0 * (1.0 * p * e);
  }

  /**
   * dorogokupets2007_pth: f(temp) - f(t_ref) with f(t) = gamma / V_mol * 3 R n t
   * E(theta / t) * 1e-9; unlike tange_pth there is no special case for t_ref = 0.
   */
  function Dorogokupets2007Pth(m: Ops, v: real, temp: real, v0: real, gamma0: real, gammaInf: real, beta: real,
                               theta0: real, n: real, z: real, threeR: real, tRef: real,
                               uncertainties: bool): (r: Result<real>)
    ensures r.Ok? <==> z != 0.0 && v0 != 0.0 && beta != 0.0 &&
                       var theta := AltshulerDebyeTemp(m, v, v0, gamma0, gammaInf, beta, theta0, uncertainties);
                       DebyeThermal.EnergyDefined(Conversion.VolUc2Mol(v, z), theta, temp) &&
                       DebyeThermal.EnergyDefined(Conversion.VolUc2Mol(v, z), theta, tRef)
  {
    if z == 0.0 || v0 == 0.0 || beta == 0.0 then Err(OutsideModel)
    else
      var vMol := Conversion.VolUc2Mol(v, z);
      var gamma := AltshulerGrun(m, v, v0, gamma0, gammaInf, beta);
      var theta := AltshulerDebyeTemp(m, v, v0, gamma0, gammaInf, beta, theta0, uncertainties);
      DebyeThermal.EnergyDifference(m, gamma, vMol, theta, temp, tRef, n, threeR)
  }

  /** At temp = t_ref the thermal pressure is 0 whenever it is defined. */
  lemma Dorogokupets2007PthAtReference(m: Ops, v: real, t: real, v0: real, gamma0: real, gammaInf: real, beta: real,
                                       theta0: real, n: real, z: real, threeR: real, uncertainties: bool)
    ensures var r := Dorogokupets2007Pth(m, v, t, v0, gamma0, gammaInf, beta, theta0, n, z, threeR, t, uncertainties);
            r.Ok? ==> r.value == 0.0
  {
    if z != 0.0 && v0 != 0.0 && beta != 0.0 {
      DebyeThermal.EnergyDifferenceAntisymmetric(m, AltshulerGrun(m, v, v0, gamma0, gammaInf, beta),
        Conversion.VolUc2Mol(v, z), AltshulerDebyeTemp(m, v, v0, gamma0, gammaInf, beta, theta0, uncertainties),
        t, t, n, threeR);
    }
  }

  /** Exchanging temp and t_ref negates the thermal pressure. */
  lemma Dorogokupets2007PthAntisymmetric(m: Ops, v: real, temp: real, v0: real, gamma0: real, gammaInf: real,
                                         beta: real, theta0: real, n: real, z: real, threeR: real, tRef: real,
                                         uncertainties: bool)
    ensures var ab := Dorogokupets2007Pth(m, v, temp, v0, gamma0, gammaInf, beta, theta0, n, z, threeR, tRef, uncertainties);
            var ba := Dorogokupets2007Pth(m, v, tRef, v0, gamma0, gammaInf, beta, theta0, n, z, threeR, temp, uncertainties);
            ab.Ok? == ba.Ok? && (ab.Ok? ==> ab.value == -ba.value)
  {
    if z != 0.0 && v0 != 0.0 && beta != 0.0 {
      DebyeThermal.EnergyDifferenceAntisymmetric(m, AltshulerGrun(m, v, v0, gamma0, gammaInf, beta),
        Conversion.VolUc2Mol(v, z), AltshulerDebyeTemp(m, v, v0, gamma0, gammaInf, beta, theta0, uncertainties),
        temp, tRef, n, threeR);
    }
  }

  /**
   * With a non-zero t_ref the Dorogokupets (2007) thermal pressure is the expression
   * tange_pth and speziale_pth evaluate, at the Altshuler gamma and theta.
   */
  lemma Dorogokupets2007PthIsThermalPressure(m: Ops, v: real, temp: real, v0: real, gamma0: real, gammaInf: real,
                                             beta: real, theta0: real, n: real, z: real, threeR: real, tRef: real,
                                             uncertainties: bool)
    requires z != 0.0 && v0 != 0.0 && beta != 0.0 && tRef != 0.0
    ensures Dorogokupets2007Pth(m, v, temp, v0, gamma0, gammaInf, beta, theta0, n, z, threeR, tRef, uncertainties)
            == DebyeThermal.ThermalPressure(m, Conversion.VolUc2Mol(v, z), AltshulerGrun(m, v, v0, gamma0, gammaInf, beta),
                 AltshulerDebyeTemp(m, v, v0, gamma0, gammaInf, beta, theta0, uncertainties), temp, tRef, n, threeR)
  {
    DebyeThermal.ThermalPressureIsDifference(m, Conversion.VolUc2Mol(v, z), AltshulerGrun(m, v, v0, gamma0, gammaInf, beta),
      AltshulerDebyeTemp(m, v, v0, gamma0, gammaInf, beta, theta0, uncertainties), temp, tRef, n, threeR);
  }
}
