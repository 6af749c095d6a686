/**
 * The Debye thermal pressure shared by the Tange, Speziale and Dorogokupets (2007)
 * families: gamma / V_mol * 3 R n T E(theta / T), in GPa, taken relative to the
 * reference temperature.
 */
module DebyeThermal {
  import opened Wrappers
  import opened Numerics
  import opened EqnDebye

  /** The thermal energy 3 R n t E of n atoms at temperature t, for a Debye energy value E. */
  function ThermalEnergy(threeR: real, n: real, t: real, debye: real): real {
    threeR * n * t * debye
  }

  /** An energy per mole turned into a pressure in GPa through gamma / V_mol. */
  function ToGPa(gamma: real, vMol: real, e: real): real
    requires vMol != 0.0
  {
    (gamma / vMol * e) * 1.0e-9
  }

  /** The conversion to GPa is linear in the energy. */
  lemma ToGPaLinear(gamma: real, vMol: real, a: real, b: real)
    requires vMol != 0.0
    ensures ToGPa(gamma, vMol, a - b) == ToGPa(gamma, vMol, a) - ToGPa(gamma, vMol, b)
    ensures ToGPa(gamma, vMol, 0.0) == 0.0
  {
    var k := gamma / vMol;
    assert (k * (a - b)) * 1.0e-9 == (k * a) * 1.0e-9 - (k * b) * 1.0e-9;
  }

  /** The Debye energy term at temperature t is defined: V_mol and t are non-zero and theta / t > 0. */
  predicate EnergyDefined(vMol: real, theta: real, t: real) {
    vMol != 0.0 && t != 0.0 && theta / t > 0.0
  }

  /** The thermal pressure is defined: the term at temp is, and so is the one at a non-zero tRef. */
  predicate ThermalDefined(vMol: real, theta: real, temp: real, tRef: real) {
    EnergyDefined(vMol, theta, temp) && (tRef != 0.0 ==> theta / tRef > 0.0)
  }

  /**
   * The per-temperature term f(t) of dorogokupets2007_pth:
   * gamma / V_mol * 3 R n t E(theta / t) * 1e-9.
   */
  function EnergyPressure(m: Ops, gamma: real, vMol: real, theta: real, t: real, n: real, threeR: real): (r: Result<real>)
    ensures r.Ok? <==> EnergyDefined(vMol, theta, t)
  {
    if vMol == 0.0 || t == 0.0 then Err(OutsideModel)
    else
      var debye :- DebyeE(m, theta / t);
      Ok(ToGPa(gamma, vMol, ThermalEnergy(threeR, n, t, debye)))
  }

  /**
   * The thermal pressure of tange_pth and speziale_pth: the energy at temp minus the
   * energy at tRef, where a zero tRef has zero reference energy.
   */
  function ThermalPressure(m: Ops, vMol: real, gamma: real, theta: real, temp: real, tRef: real,
                           n: real, threeR: real): (r: Result<real>)
    ensures r.Ok? <==> ThermalDefined(vMol, theta, temp, tRef)
    ensures r.Err? && vMol != 0.0 && temp != 0.0 ==> r.error == UnboundResult
  {
    if vMol == 0.0 || temp == 0.0 then Err(OutsideModel)
    else
      var debye :- DebyeE(m, theta / temp);
      var debye0 :- if tRef == 0.0 then Ok(0.0) else DebyeE(m, theta / tRef);
      var eth0 := ThermalEnergy(threeR, n, tRef, debye0);
      var eth := ThermalEnergy(threeR, n, temp, debye);
      Ok(ToGPa(gamma, vMol, eth - eth0))
  }

  /** With a non-zero reference temperature, the thermal pressure is f(temp) - f(tRef). */
  lemma ThermalPressureIsDifference(m: Ops, vMol: real, gamma: real, theta: real, temp: real, tRef: real,
                                    n: real, threeR: real)
    requires tRef != 0.0
    ensures ThermalPressure(m, vMol, gamma, theta, temp, tRef, n, threeR)
            == EnergyDifference(m, gamma, vMol, theta, temp, tRef, n, threeR)
  {
    if vMol != 0.0 && temp != 0.0 && theta / temp > 0.0 && theta / tRef > 0.0 {
      var debye := DebyeE(m, theta / temp).value;
      var debye0 := DebyeE(m, theta / tRef).value;
      ToGPaLinear(gamma, vMol, ThermalEnergy(threeR, n, temp, debye), ThermalEnergy(threeR, n, tRef, debye0));
    }
  }

  /** At the reference temperature the thermal pressure is 0 whenever it is defined. */
  lemma ThermalPressureAtReference(m: Ops, vMol: real, gamma: real, theta: real, t: real, n: real, threeR: real)
    ensures var r := ThermalPressure(m, vMol, gamma, theta, t, t, n, threeR);
            (r.Ok? <==> vMol != 0.0 && t != 0.0 && theta / t > 0.0) && (r.Ok? ==> r.value == 0.0)
  {
    if vMol != 0.0 && t != 0.0 && theta / t > 0.0 {
      var eth := ThermalEnergy(threeR, n, t, DebyeE(m, theta / t).value);
      assert eth - eth == 0.0;
      ToGPaLinear(gamma, vMol, eth, eth);
    }
  }

  /** With tRef = 0 the reference energy vanishes and the thermal pressure is f(temp) alone. */
  lemma ThermalPressureZeroReference(m: Ops, vMol: real, gamma: real, theta: real, temp: real, n: real, threeR: real)
    ensures ThermalPressure(m, vMol, gamma, theta, temp, 0.0, n, threeR) == EnergyPressure(m, gamma, vMol, theta, temp, n, threeR)
  {
    if vMol != 0.0 && temp != 0.0 && theta / temp > 0.0 {
      var eth := ThermalEnergy(threeR, n, temp, DebyeE(m, theta / temp).value);
      assert ThermalEnergy(threeR, n, 0.0, 0.0) == 0.0;
      assert eth - 0.0 == eth;
    }
  }

  /**
   * A thermal pressure written as f(temp) - f(tRef), as dorogokupets2007_pth does:
   * 0 at the reference and negated when the two temperatures are exchanged.
   */
  function EnergyDifference(m: Ops, gamma: real, vMol: real, theta: real, temp: real, tRef: real,
                            n: real, threeR: real): (r: Result<real>)
    ensures r.Ok? <==> EnergyPressure(m, gamma, vMol, theta, temp, n, threeR).Ok? &&
                       EnergyPressure(m, gamma, vMol, theta, tRef, n, threeR).Ok?
  {
    var hi :- EnergyPressure(m, gamma, vMol, theta, temp, n, threeR);
    var lo :- EnergyPressure(m, gamma, vMol, theta, tRef, n, threeR);
    Ok(hi - lo)
  }

  lemma EnergyDifferenceAntisymmetric(m: Ops, gamma: real, vMol: real, theta: real, temp: real, tRef: real,
                                      n: real, threeR: real)
    ensures EnergyDifference(m, gamma, vMol, theta, temp, temp, n, threeR).Ok? ==>
              EnergyDifference(m, gamma, vMol, theta, temp, temp, n, threeR).value == 0.0
    ensures var ab := EnergyDifference(m, gamma, vMol, theta, temp, tRef, n, threeR);
            var ba := EnergyDifference(m, gamma, vMol, theta, tRef, temp, n, threeR);
            ab.Ok? == ba.Ok? && (ab.Ok? ==> ab.value == -ba.value)
  {
  }
}
