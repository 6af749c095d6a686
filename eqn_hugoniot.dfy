/**
 * Pressure, temperature and density along a shock Hugoniot with the linear
 * Us = c0 + s Up relation (pytheos/eqn_hugoniot.py).
 */
module EqnHugoniot {
  import opened Wrappers
  import opened Numerics
  import EqnDebye

  /** The compression eta = 1 - rho0 / rho. */
  function Eta(rho: real, rho0: real): real
    requires rho != 0.0
  {
    1.0 - rho0 / rho
  }

  /** The divisions of hugoniot_p are defined. */
  predicate HugoniotDomain(m: Ops, rho: real, rho0: real, s: real) {
    rho != 0.0 && m.pow(1.0 - s * Eta(rho, rho0), 2.0) != 0.0
  }

  /** hugoniot_p: rho0 c0^2 eta / (1 - s eta)^2, in GPa. */
  function HugoniotP(m: Ops, rho: real, rho0: real, c0: real, s: real): real
    requires HugoniotDomain(m, rho, rho0, s)
  {
    rho0 * c0 * c0 * Eta(rho, rho0) / m.pow(1.0 - s * Eta(rho, rho0), 2.0)
  }

  /** At the starting density there is no compression and no Hugoniot pressure. */
  lemma HugoniotPAtRho0(m: Ops, rho0: real, c0: real, s: real)
    requires ElementaryLaws(m) && rho0 != 0.0
    ensures HugoniotDomain(m, rho0, rho0, s) && HugoniotP(m, rho0, rho0, c0, s) == 0.0
  {
    DivSelf(rho0);
    assert Eta(rho0, rho0) == 0.0;
    assert m.pow(1.0, 2.0) == 1.0;
  }

  /**
   * The Hugoniot pressure is the Rankine-Hugoniot momentum balance rho0 Us Up with the
   * shock velocity Us = c0 / (1 - s eta) and the particle velocity Up = eta Us.
   */
  lemma HugoniotPMomentumBalance(m: Ops, rho: real, rho0: real, c0: real, s: real)
    requires ElementaryLaws(m) && HugoniotDomain(m, rho, rho0, s)
    ensures 1.0 - s * Eta(rho, rho0) != 0.0
    ensures var eta := Eta(rho, rho0);
            var us := c0 / (1.0 - s * eta);
            var up := eta * us;
            HugoniotP(m, rho, rho0, c0, s) == rho0 * us * up
  {
    var eta := Eta(rho, rho0);
    var d := 1.0 - s * eta;
    assert m.pow(d, 2.0) == d * d;
    assert d != 0.0;
    Regroup(rho0, eta, c0 / d, d, c0);
    DivByFactor(rho0 * c0 * c0 * eta, rho0 * (c0 / d) * (eta * (c0 / d)), m.pow(d, 2.0));
  }

  /** With u d = c0, rho0 u (eta u) d^2 regroups to rho0 c0^2 eta. */
  lemma Regroup(rho0: real, eta: real, u: real, d: real, c0: real)
    requires u * d == c0
    ensures rho0 * u * (eta * u) * (d * d) == rho0 * c0 * c0 * eta
  {
    assert rho0 * u * (eta * u) * (d * d) == rho0 * eta * (u * d) * (u * d);
  }

  lemma DivByFactor(x: real, y: real, k: real)
    requires k != 0.0
    requires x == y * k
    ensures x / k == y
  {
  }

  /** The Grueneisen parameter along the Hugoniot, gamma0 (1 - eta)^q. */
  function HugoniotGamma(m: Ops, eta: real, gamma0: real, q: real): real {
    gamma0 * m.pow(1.0 - eta, q)
  }

  /** The Debye temperature along the Hugoniot, theta0 exp((gamma0 - gamma) / q). */
  function HugoniotTheta(m: Ops, eta: real, gamma0: real, q: real, theta0: real): real
    requires q != 0.0
  {
    theta0 * m.exp((gamma0 - HugoniotGamma(m, eta, gamma0, q)) / q)
  }

  /** The Debye heat capacity 3 n k (4 E(x) - 3 x / (exp(x) - 1)) used when no c_v is supplied. */
  function DebyeHeatCapacity(m: Ops, threenk: real, x: real, debye3: real): real
    requires m.exp(x) - 1.0 != 0.0
  {
    threenk * (4.0 * debye3 - 3.0 * x / (m.exp(x) - 1.0))
  }

  /** The heat capacity of _dT_h_delta: the supplied c_v, or the Debye value when c_v is 0. */
  function HeatCapacity(m: Ops, threenk: real, cV: real, x: real, debye3: real): (r: Result<real>)
    ensures cV != 0.0 ==> r == Ok(cV)
    ensures cV == 0.0 && m.exp(x) - 1.0 != 0.0 ==> r == Ok(DebyeHeatCapacity(m, threenk, x, debye3))
  {
    if cV == 0.0 then
      if m.exp(x) - 1.0 == 0.0 then Err(OutsideModel) else Ok(DebyeHeatCapacity(m, threenk, x, debye3))
    else Ok(cV)
  }

  /** The slope (1 + s eta) rho0 c0^2 / (1 - s eta)^3 of the Hugoniot pressure in eta. */
  function HugoniotSlope(m: Ops, eta: real, rho0: real, c0: real, s: real): real
    requires m.pow(1.0 - s * eta, 3.0) != 0.0
  {
    rho0 * c0 * c0 * (1.0 + s * eta) / m.pow(1.0 - s * eta, 3.0)
  }

  /** The temperature slope dT/deta of _dT_h_delta, once Ph, the slope and c_v are known. */
  function TemperatureSlope(eta: real, tInKK: real, gamma: real, dPh: real, ph: real, cv: real, rho0: real): real
    requires 1.0 - eta != 0.0 && 2.0 * cv * rho0 != 0.0
  {
    (gamma / (1.0 - eta) * tInKK) + (dPh * eta - ph) / (2.0 * cv * rho0)
  }

  /**
   * _dT_h_delta: the right-hand side dT/deta of the Hugoniot temperature equation, in
   * kK. E(theta / T) is always evaluated, so x <= 0 fails even when c_v is supplied.
   */
  function DTHDelta(m: Ops, tInKK: real, eta: real, rho0: real, c0: real, s: real, gamma0: real, q: real,
                    theta0InKK: real, threenk: real, cV: real): (r: Result<real>)
    ensures 1.0 - eta == 0.0 || q == 0.0 || tInKK == 0.0 ==> r == Err(OutsideModel)
  {
    if 1.0 - eta == 0.0 || m.pow(1.0 - s * eta, 3.0) == 0.0 || q == 0.0 || tInKK == 0.0 then Err(OutsideModel)
    else
      var rho := rho0 / (1.0 - eta);
      if !HugoniotDomain(m, rho, rho0, s) then Err(OutsideModel)
      else
        var dPh := HugoniotSlope(m, eta, rho0, c0, s);
        var ph := HugoniotP(m, rho, rho0, c0, s);
        var gamma := HugoniotGamma(m, eta, gamma0, q);
        var x := HugoniotTheta(m, eta, gamma0, q, theta0InKK) / tInKK;
        var debye3 :- EqnDebye.DebyeE(m, x);
        var cv :- HeatCapacity(m, threenk, cV, x, debye3);
        SlopeWithHeatCapacity(eta, tInKK, gamma, dPh, ph, cv, rho0)
  }

  /** The temperature slope for a known heat capacity, an error when 2 c_v rho0 vanishes. */
  function SlopeWithHeatCapacity(eta: real, tInKK: real, gamma: real, dPh: real, ph: real, cv: real,
                                 rho0: real): (r: Result<real>)
    requires 1.0 - eta != 0.0
    ensures r.Ok? <==> 2.0 * cv * rho0 != 0.0
  {
    if 2.0 * cv * rho0 == 0.0 then Err(OutsideModel)
    else Ok(TemperatureSlope(eta, tInKK, gamma, dPh, ph, cv, rho0))
  }

  /** A supplied non-zero c_v is used as it is: the 3 n k factor then plays no part. */
  lemma DTHDeltaSuppliedHeatCapacity(m: Ops, tInKK: real, eta: real, rho0: real, c0: real, s: real, gamma0: real,
                                     q: real, theta0InKK: real, threenk: real, threenk': real, cV: real)
    requires cV != 0.0
    ensures DTHDelta(m, tInKK, eta, rho0, c0, s, gamma0, q, theta0InKK, threenk, cV)
            == DTHDelta(m, tInKK, eta, rho0, c0, s, gamma0, q, theta0InKK, threenk', cV)
  {
  }

  /** With c_v = 0 the slope is the one for the supplied Debye heat capacity. */
  lemma DTHDeltaDerivedHeatCapacity(m: Ops, tInKK: real, eta: real, rho0: real, c0: real, s: real, gamma0: real,
                                    q: real, theta0InKK: real, threenk: real)
    requires q != 0.0 && tInKK != 0.0
    ensures var x := HugoniotTheta(m, eta, gamma0, q, theta0InKK) / tInKK;
            var d := EqnDebye.DebyeE(m, x);
            (d.Ok? && m.exp(x) - 1.0 != 0.0 && DebyeHeatCapacity(m, threenk, x, d.value) != 0.0) ==>
              DTHDelta(m, tInKK, eta, rho0, c0, s, gamma0, q, theta0InKK, threenk, 0.0)
              == DTHDelta(m, tInKK, eta, rho0, c0, s, gamma0, q, theta0InKK, threenk,
                          DebyeHeatCapacity(m, threenk, x, d.value))
  {
  }

  /** The temperature at which the Hugoniot starts when the compression is 0. */
  const START_TEMPERATURE: real := 300.0

  /** The right-hand side handed to odeint, with y the temperature in kK and t the compression. */
  function HugoniotRhs(m: Ops, rho0: real, c0: real, s: real, gamma0: real, q: real, theta0: real,
                       threenk: real, cV: real): (real, real) -> Result<real> {
    (y, t) => DTHDelta(m, y, t, rho0, c0, s, gamma0, q, theta0 / 1.0e3, threenk, cV)
  }

  /**
   * hugoniot_t_single: 300 K with no compression, whatever t_ref; otherwise the
   * Hugoniot temperature equation integrated in kK from t_ref over eta in [0, eta],
   * scaled back to K.
   */
  function HugoniotTSingle(m: Ops, rho: real, rho0: real, c0: real, s: real, gamma0: real, q: real, theta0: real,
                           n: real, mass: real, threeR: real, tRef: real, cV: real): (r: Result<real>)
    ensures rho != 0.0 && Eta(rho, rho0) == 0.0 ==> r == Ok(START_TEMPERATURE)
  {
    if rho == 0.0 then Err(OutsideModel)
    else
      var eta := Eta(rho, rho0);
      if eta == 0.0 then Ok(START_TEMPERATURE)
      else if mass == 0.0 then Err(OutsideModel)
      else
        var threenk := threeR / mass * n;
        var tH :- m.odeint(HugoniotRhs(m, rho0, c0, s, gamma0, q, theta0, threenk, cV), tRef / 1.0e3, 0.0, eta);
        Ok(tH * 1.0e3)
  }

  /** At the starting density the Hugoniot temperature is the literal 300 K for every t_ref. */
  lemma HugoniotTSingleAtRho0(m: Ops, rho0: real, c0: real, s: real, gamma0: real, q: real, theta0: real,
                              n: real, mass: real, threeR: real, tRef: real, tRef': real, cV: real)
    requires rho0 != 0.0
    ensures HugoniotTSingle(m, rho0, rho0, c0, s, gamma0, q, theta0, n, mass, threeR, tRef, cV) == Ok(300.0)
    ensures HugoniotTSingle(m, rho0, rho0, c0, s, gamma0, q, theta0, n, mass, threeR, tRef, cV)
            == HugoniotTSingle(m, rho0, rho0, c0, s, gamma0, q, theta0, n, mass, threeR, tRef', cV)
  {
    DivSelf(rho0);
  }

  /**
   * Under a compression the integration runs in kK: it starts from t_ref / 1000, sees
   * theta0 / 1000, and its end value is scaled by 1000.
   */
  lemma HugoniotTSingleInKiloKelvin(m: Ops, rho: real, rho0: real, c0: real, s: real, gamma0: real, q: real,
                                    theta0: real, n: real, mass: real, threeR: real, tRef: real, cV: real)
    requires rho != 0.0 && Eta(rho, rho0) != 0.0 && mass != 0.0
    ensures var r := HugoniotTSingle(m, rho, rho0, c0, s, gamma0, q, theta0, n, mass, threeR, tRef, cV);
            var ode := m.odeint(HugoniotRhs(m, rho0, c0, s, gamma0, q, theta0, threeR / mass * n, cV),
                                tRef / 1.0e3, 0.0, Eta(rho, rho0));
            (r.Ok? <==> ode.Ok?) && (r.Ok? ==> r.value == 1.0e3 * ode.value)
  {
  }

  /** A failure of the right-hand side at the start of the integration is the failure of hugoniot_t_single. */
  lemma HugoniotTSingleStartError(m: Ops, rho: real, rho0: real, c0: real, s: real, gamma0: real, q: real,
                                  theta0: real, n: real, mass: real, threeR: real, tRef: real, cV: real)
    requires OdeLaw(m) && rho != 0.0 && Eta(rho, rho0) != 0.0 && mass != 0.0
    ensures var f := HugoniotRhs(m, rho0, c0, s, gamma0, q, theta0, threeR / mass * n, cV);
            f(tRef / 1.0e3, 0.0).Err? ==>
              HugoniotTSingle(m, rho, rho0, c0, s, gamma0, q, theta0, n, mass, threeR, tRef, cV)
              == Err(f(tRef / 1.0e3, 0.0).error)
  {
    var f := HugoniotRhs(m, rho0, c0, s, gamma0, q, theta0, threeR / mass * n, cV);
    OdeStart(m, f, tRef / 1.0e3, 0.0, Eta(rho, rho0));
  }

  lemma OdeStart(m: Ops, f: (real, real) -> Result<real>, y0: real, t0: real, t1: real)
    requires OdeLaw(m)
    ensures f(y0, t0).Err? ==> m.odeint(f, y0, t0, t1) == Err(f(y0, t0).error)
  {
  }

  /** hugoniot_t: hugoniot_t_single on every density, in the plain and the uncertain mode alike. */
  function HugoniotT(m: Ops, rhos: seq<real>, rho0: real, c0: real, s: real, gamma0: real, q: real, theta0: real,
                     n: real, mass: real, threeR: real, tRef: real, cV: real): (r: Result<seq<real>>)
    ensures |rhos| == 0 ==> r == Err(IndexError)
    ensures r.Ok? <==> |rhos| > 0 && forall i :: 0 <= i < |rhos| ==>
              HugoniotTSingle(m, rhos[i], rho0, c0, s, gamma0, q, theta0, n, mass, threeR, tRef, cV).Ok?
    ensures r.Ok? ==> |r.value| == |rhos| && forall i :: 0 <= i < |rhos| ==>
              HugoniotTSingle(m, rhos[i], rho0, c0, s, gamma0, q, theta0, n, mass, threeR, tRef, cV) == Ok(r.value[i])
  {
    if |rhos| == 0 then Err(IndexError)
    else Vectorize((rho: real) => HugoniotTSingle(m, rho, rho0, c0, s, gamma0, q, theta0, n, mass, threeR, tRef, cV), rhos)
  }

  /** The objective handed to brenth by hugoniot_rho_single: hugoniot_p(rho) - p. */
  function HugoniotObjective(m: Ops, p: real, rho0: real, c0: real, s: real): real -> Result<real> {
    rho => if HugoniotDomain(m, rho, rho0, s) then Ok(HugoniotP(m, rho, rho0, c0, s) - p) else Err(OutsideModel)
  }

  /**
   * hugoniot_rho_single: the density at pressure p. Pressures up to 1e-5 return rho0;
   * otherwise brenth searches between rho0 and rho0 / min_strain.
   */
  function HugoniotRhoSingle(m: Ops, p: real, rho0: real, c0: real, s: real, minStrain: real): (r: Result<real>)
    ensures p <= 1.0e-5 ==> r == Ok(rho0)
    ensures p > 1.0e-5 && minStrain == 0.0 ==> r.Err?
    ensures p > 1.0e-5 && BrenthLaw(m) && r.Ok? ==>
              minStrain != 0.0 && Between(r.value, rho0, rho0 / minStrain) &&
              HugoniotDomain(m, r.value, rho0, s) && HugoniotP(m, r.value, rho0, c0, s) == p
    ensures p > 1.0e-5 && BrenthLaw(m) && minStrain != 0.0 &&
            HugoniotDomain(m, rho0, rho0, s) && HugoniotDomain(m, rho0 / minStrain, rho0, s) &&
            SameSign(HugoniotP(m, rho0, rho0, c0, s) - p, HugoniotP(m, rho0 / minStrain, rho0, c0, s) - p) ==>
              r.Err?
  {
    if p <= 1.0e-5 then Ok(rho0)
    else if minStrain == 0.0 then Err(OutsideModel)
    else
      var f := HugoniotObjective(m, p, rho0, c0, s);
      var hi := rho0 / minStrain;
      assert HugoniotDomain(m, rho0, rho0, s) ==> f(rho0) == Ok(HugoniotP(m, rho0, rho0, c0, s) - p);
      assert HugoniotDomain(m, hi, rho0, s) ==> f(hi) == Ok(HugoniotP(m, hi, rho0, c0, s) - p);
      m.brenth(f, rho0, hi)
  }

  /** hugoniot_rho: hugoniot_rho_single on every pressure, in the plain and the uncertain mode alike. */
  function HugoniotRho(m: Ops, ps: seq<real>, rho0: real, c0: real, s: real, minStrain: real): (r: Result<seq<real>>)
    ensures |ps| == 0 ==> r == Err(IndexError)
    ensures r.Ok? <==> |ps| > 0 && forall i :: 0 <= i < |ps| ==> HugoniotRhoSingle(m, ps[i], rho0, c0, s, minStrain).Ok?
    ensures r.Ok? ==> |r.value| == |ps| && forall i :: 0 <= i < |ps| ==>
              HugoniotRhoSingle(m, ps[i], rho0, c0, s, minStrain) == Ok(r.value[i])
  {
    if |ps| == 0 then Err(IndexError) else Vectorize((p: real) => HugoniotRhoSingle(m, p, rho0, c0, s, minStrain), ps)
  }
}
