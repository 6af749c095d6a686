/**
 * The Dorogokupets et al. (2015) thermal equation of state
 * (pytheos/eqn_therm_Dorogokupets2015.py): two Einstein oscillators with weights
 * m1 / (m1 + m2) and m2 / (m1 + m2), whose Debye temperatures follow the
 * Altshuler form of the 2007 model.
 */
module EqnThermDorogokupets2015 {
  import opened Wrappers
  import opened Numerics
  import Conversion
  import EqnThermDorogokupets2007

  /** The exp of the chosen backend: unumpy.exp when uncertain, numpy.exp otherwise. */
  function BackendExp(m: Ops, uncertainties: bool, x: real): real {
    if uncertainties then m.uexp(x) else m.exp(x)
  }

  /** The divisions of theta / (exp(theta / t) - 1) are defined. */
  predicate EinsteinDomain(m: Ops, theta: real, t: real, uncertainties: bool) {
    t != 0.0 && BackendExp(m, uncertainties, theta / t) - 1.0 != 0.0
  }

  /** Under the laws of exp the oscillator energy is defined exactly when t != 0 and theta != 0. */
  lemma EinsteinDomainIff(m: Ops, theta: real, t: real, uncertainties: bool)
    requires ElementaryLaws(m)
    ensures EinsteinDomain(m, theta, t, uncertainties) <==> t != 0.0 && theta != 0.0
  {
    if t != 0.0 {
      var x := theta / t;
      assert BackendExp(m, uncertainties, x) == m.exp(x);
      if x < 0.0 {
        assert m.exp(x) < m.exp(0.0);
      } else if x > 0.0 {
        assert m.exp(0.0) < m.exp(x);
      }
      assert x == 0.0 <==> theta == 0.0 by {
        if x == 0.0 {
          assert theta == x * t;
        }
      }
    }
  }

  /** The Einstein oscillator energy per mode, theta / (exp(theta / t) - 1). */
  function OscillatorEnergy(m: Ops, theta: real, t: real, uncertainties: bool): real
    requires EinsteinDomain(m, theta, t, uncertainties)
  {
    theta / (BackendExp(m, uncertainties, theta / t) - 1.0)
  }

  /** One weighted term in GPa: w 3 R n gamma / V_mol e 1e-9. */
  function Term(w: real, threeR: real, n: real, gamma: real, vMol: real, e: real): real
    requires vMol != 0.0
  {
    (w * threeR * n * gamma / vMol * e) * 1.0e-9
  }

  /** A term is linear in its weight. */
  lemma TermLinearInWeight(w1: real, w2: real, threeR: real, n: real, gamma: real, vMol: real, e: real)
    requires vMol != 0.0
    ensures Term(w1, threeR, n, gamma, vMol, e) + Term(w2, threeR, n, gamma, vMol, e)
            == Term(w1 + w2, threeR, n, gamma, vMol, e)
  {
    var k := threeR * n * gamma / vMol * e;
    assert w1 * threeR * n * gamma / vMol * e == w1 * k;
    assert w2 * threeR * n * gamma / vMol * e == w2 * k;
    assert (w1 + w2) * threeR * n * gamma / vMol * e == (w1 + w2) * k;
  }

  /** The weight m_i / (m1 + m2). */
  function Weight(mi: real, m1: real, m2: real): real
    requires m1 + m2 != 0.0
  {
    mi / (m1 + m2)
  }

  /** The two weights sum to 1. */
  lemma WeightsSumToOne(m1: real, m2: real)
    requires m1 + m2 != 0.0
    ensures Weight(m1, m1, m2) + Weight(m2, m1, m2) == 1.0
  {
    assert m1 / (m1 + m2) + m2 / (m1 + m2) == (m1 + m2) / (m1 + m2);
    DivSelf(m1 + m2);
  }

  /** The pressure of both oscillators at temperature t: term_h1 * 1e-9 + term_h2 * 1e-9. */
  function TwoTermPressure(m: Ops, m1: real, m2: real, threeR: real, n: real, gamma: real, vMol: real,
                           theta1: real, theta2: real, t: real, uncertainties: bool): real
    requires m1 + m2 != 0.0 && vMol != 0.0
    requires EinsteinDomain(m, theta1, t, uncertainties) && EinsteinDomain(m, theta2, t, uncertainties)
  {
    Term(Weight(m1, m1, m2), threeR, n, gamma, vMol, OscillatorEnergy(m, theta1, t, uncertainties))
    + Term(Weight(m2, m1, m2), threeR, n, gamma, vMol, OscillatorEnergy(m, theta2, t, uncertainties))
  }

  /** With equal Debye temperatures the two terms are one term of full weight. */
  lemma EqualThetasSingleTerm(m: Ops, m1: real, m2: real, threeR: real, n: real, gamma: real, vMol: real,
                              theta: real, t: real, uncertainties: bool)
    requires m1 + m2 != 0.0 && vMol != 0.0 && EinsteinDomain(m, theta, t, uncertainties)
    ensures TwoTermPressure(m, m1, m2, threeR, n, gamma, vMol, theta, theta, t, uncertainties)
            == Term(1.0, threeR, n, gamma, vMol, OscillatorEnergy(m, theta, t, uncertainties))
  {
    var e := OscillatorEnergy(m, theta, t, uncertainties);
    TermLinearInWeight(Weight(m1, m1, m2), Weight(m2, m1, m2), threeR, n, gamma, vMol, e);
    WeightsSumToOne(m1, m2);
  }

  /** The two Debye temperatures at volume v, both from altshuler_debyetemp with shared gamma0, gamma_inf and beta. */
  function Thetas(m: Ops, v: real, v0: real, gamma0: real, gammaInf: real, beta: real, theta01: real, theta02: real,
                  uncertainties: bool): (real, real)
    requires v0 != 0.0 && beta != 0.0
  {
    (EqnThermDorogokupets2007.AltshulerDebyeTemp(m, v, v0, gamma0, gammaInf, beta, theta01, uncertainties),
     EqnThermDorogokupets2007.AltshulerDebyeTemp(m, v, v0, gamma0, gammaInf, beta, theta02, uncertainties))
  }

  /** Both Debye temperatures are their theta0 times one common volume factor. */
  lemma ThetasShareVolumeFactor(m: Ops, v: real, v0: real, gamma0: real, gammaInf: real, beta: real,
                                theta01: real, theta02: real, uncertainties: bool)
    requires ElementaryLaws(m) && v0 != 0.0 && beta != 0.0
    ensures var s := EqnThermDorogokupets2007.AltshulerDebyeTemp(m, v, v0, gamma0, gammaInf, beta, 1.0, false);
            Thetas(m, v, v0, gamma0, gammaInf, beta, theta01, theta02, uncertainties) == (theta01 * s, theta02 * s)
  {
    EqnThermDorogokupets2007.AltshulerDebyeTempScales(m, v, v0, gamma0, gammaInf, beta, theta01);
    EqnThermDorogokupets2007.AltshulerDebyeTempScales(m, v, v0, gamma0, gammaInf, beta, theta02);
  }

  /** Every division of dorogokupets2015_pth is defined. */
  predicate Dorogokupets2015Domain(m: Ops, v: real, temp: real, v0: real, gamma0: real, gammaInf: real, beta: real,
                                   theta01: real, m1: real, theta02: real, m2: real, z: real, tRef: real,
                                   uncertainties: bool) {
    z != 0.0 && v0 != 0.0 && beta != 0.0 && m1 + m2 != 0.0 && Conversion.VolUc2Mol(v, z) != 0.0 &&
    var th := Thetas(m, v, v0, gamma0, gammaInf, beta, theta01, theta02, uncertainties);
    EinsteinDomain(m, th.0, temp, uncertainties) && EinsteinDomain(m, th.1, temp, uncertainties) &&
    EinsteinDomain(m, th.0, tRef, uncertainties) && EinsteinDomain(m, th.1, tRef, uncertainties)
  }

  /**
   * dorogokupets2015_pth: p_th(temp) - p_th(t_ref) of the two weighted oscillators;
   * the flag is isuncertainties over the ten arguments v, temp, v0, gamma0, gamma_inf,
   * beta, theta01, m1, theta02 and m2.
   */
  function Dorogokupets2015Pth(m: Ops, v: real, temp: real, v0: real, gamma0: real, gammaInf: real, beta: real,
                               theta01: real, m1: real, theta02: real, m2: real, n: real, z: real, tRef: real,
                               threeR: real, uncertainties: bool): (r: Result<real>)
    ensures r.Ok? <==> Dorogokupets2015Domain(m, v, temp, v0, gamma0, gammaInf, beta, theta01, m1, theta02, m2, z,
                                              tRef, uncertainties)
    ensures r.Err? ==> r.error == OutsideModel
  {
    if !Dorogokupets2015Domain(m, v, temp, v0, gamma0, gammaInf, beta, theta01, m1, theta02, m2, z, tRef, uncertainties)
    then Err(OutsideModel)
    else
      var vMol := Conversion.VolUc2Mol(v, z);
      var gamma := EqnThermDorogokupets2007.AltshulerGrun(m, v, v0, gamma0, gammaInf, beta);
      var th := Thetas(m, v, v0, gamma0, gammaInf, beta, theta01, theta02, uncertainties);
      var pTh := TwoTermPressure(m, m1, m2, threeR, n, gamma, vMol, th.0, th.1, temp, uncertainties);
      var pThRef := TwoTermPressure(m, m1, m2, threeR, n, gamma, vMol, th.0, th.1, tRef, uncertainties);
      Ok(pTh - pThRef)
  }

  /** At temp = t_ref the thermal pressure is 0 whenever it is defined. */
  lemma Dorogokupets2015PthAtReference(m: Ops, v: real, t: real, v0: real, gamma0: real, gammaInf: real, beta: real,
                                       theta01: real, m1: real, theta02: real, m2: real, n: real, z: real,
                                       threeR: real, uncertainties: bool)
    ensures var r := Dorogokupets2015Pth(m, v, t, v0, gamma0, gammaInf, beta, theta01, m1, theta02, m2, n, z, t,
                                         threeR, uncertainties);
            (r.Ok? <==> Dorogokupets2015Domain(m, v, t, v0, gamma0, gammaInf, beta, theta01, m1, theta02, m2, z, t,
                                               uncertainties)) &&
            (r.Ok? ==> r.value == 0.0)
  {
  }

  /** Exchanging temp and t_ref negates the thermal pressure. */
  lemma Dorogokupets2015PthAntisymmetric(m: Ops, v: real, temp: real, v0: real, gamma0: real, gammaInf: real,
                                         beta: real, theta01: real, m1: real, theta02: real, m2: real, n: real,
                                         z: real, tRef: real, threeR: real, uncertainties: bool)
    ensures var ab := Dorogokupets2015Pth(m, v, temp, v0, gamma0, gammaInf, beta, theta01, m1, theta02, m2, n, z,
                                          tRef, threeR, uncertainties);
            var ba := Dorogokupets2015Pth(m, v, tRef, v0, gamma0, gammaInf, beta, theta01, m1, theta02, m2, n, z,
                                          temp, threeR, uncertainties);
            ab.Ok? == ba.Ok? && (ab.Ok? ==> ab.value == -ba.value)
  {
  }

  /**
   * With theta01 = theta02 the model is a single oscillator of full weight: the
   * thermal pressure is the difference of one full-weight term at temp and t_ref.
   */
  lemma Dorogokupets2015SingleOscillator(m: Ops, v: real, temp: real, v0: real, gamma0: real, gammaInf: real,
                                         beta: real, theta0: real, m1: real, m2: real, n: real, z: real,
                                         tRef: real, threeR: real, uncertainties: bool)
    requires Dorogokupets2015Domain(m, v, temp, v0, gamma0, gammaInf, beta, theta0, m1, theta0, m2, z, tRef,
                                    uncertainties)
    ensures var vMol := Conversion.VolUc2Mol(v, z);
            var gamma := EqnThermDorogokupets2007.AltshulerGrun(m, v, v0, gamma0, gammaInf, beta);
            var theta := EqnThermDorogokupets2007.AltshulerDebyeTemp(m, v, v0, gamma0, gammaInf, beta, theta0,
                                                                      uncertainties);
            Dorogokupets2015Pth(m, v, temp, v0, gamma0, gammaInf, beta, theta0, m1, theta0, m2, n, z, tRef, threeR,
                                uncertainties)
            == Ok(Term(1.0, threeR, n, gamma, vMol, OscillatorEnergy(m, theta, temp, uncertainties))
                  - Term(1.0, threeR, n, gamma, vMol, OscillatorEnergy(m, theta, tRef, uncertainties)))
  {
    var vMol := Conversion.VolUc2Mol(v, z);
    var gamma := EqnThermDorogokupets2007.AltshulerGrun(m, v, v0, gamma0, gammaInf, beta);
    var theta := EqnThermDorogokupets2007.AltshulerDebyeTemp(m, v, v0, gamma0, gammaInf, beta, theta0, uncertainties);
    EqualThetasSingleTerm(m, m1, m2, threeR, n, gamma, vMol, theta, temp, uncertainties);
    EqualThetasSingleTerm(m, m1, m2, threeR, n, gamma, vMol, theta, tRef, uncertainties);
  }
}
