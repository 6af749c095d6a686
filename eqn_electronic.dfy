/** The electronic thermal pressures of Zharkov and of Tsuchiya (pytheos/eqn_electronic.py). */
module EqnElectronic {
  import opened Wrappers
  import opened Numerics
  import Conversion

  /** The term f(t) of zharkov_pel: 3 R n / 2 e0 x^g t^2 g / V_mol 1e-9, with xg = x^g and t^2 = tSquared. */
  function ElectronicTerm(threeR: real, n: real, e0: real, xg: real, tSquared: real, g: real, vMol: real): real
    requires vMol != 0.0
  {
    threeR * n / 2.0 * e0 * xg * tSquared * g / vMol * 1.0e-9
  }

  /** The term vanishes when e0 = 0 or g = 0. */
  lemma ElectronicTermZero(threeR: real, n: real, e0: real, xg: real, tSquared: real, g: real, vMol: real)
    requires vMol != 0.0 && (e0 == 0.0 || g == 0.0)
    ensures ElectronicTerm(threeR, n, e0, xg, tSquared, g, vMol) == 0.0
  {
  }

  /** zharkov_pel: f(temp) - f(t_ref), in GPa. */
  function ZharkovPel(m: Ops, v: real, temp: real, v0: real, e0: real, g: real, n: real, z: real,
                      tRef: real, threeR: real): (r: Result<real>)
    ensures r.Ok? <==> z != 0.0 && v0 != 0.0 && v != 0.0
  {
    if z == 0.0 || v0 == 0.0 || Conversion.VolUc2Mol(v, z) == 0.0 then Err(OutsideModel)
    else
      var vMol := Conversion.VolUc2Mol(v, z);
      var xg := m.pow(v / v0, g);
      Ok(ElectronicTerm(threeR, n, e0, xg, m.pow(temp, 2.0), g, vMol)
         - ElectronicTerm(threeR, n, e0, xg, m.pow(tRef, 2.0), g, vMol))
  }

  /** At temp = t_ref the electronic pressure is 0. */
  lemma ZharkovPelAtReference(m: Ops, v: real, t: real, v0: real, e0: real, g: real, n: real, z: real, threeR: real)
    ensures var r := ZharkovPel(m, v, t, v0, e0, g, n, z, t, threeR);
            r.Ok? ==> r.value == 0.0
  {
  }

  /** With e0 = 0 or g = 0 there is no electronic pressure at any volume or temperature. */
  lemma ZharkovPelVanishes(m: Ops, v: real, temp: real, v0: real, e0: real, g: real, n: real, z: real,
                           tRef: real, threeR: real)
    requires e0 == 0.0 || g == 0.0
    ensures var r := ZharkovPel(m, v, temp, v0, e0, g, n, z, tRef, threeR);
            r.Ok? ==> r.value == 0.0
  {
    if z != 0.0 && v0 != 0.0 && v != 0.0 {
      var vMol := Conversion.VolUc2Mol(v, z);
      var xg := m.pow(v / v0, g);
      ElectronicTermZero(threeR, n, e0, xg, m.pow(temp, 2.0), g, vMol);
      ElectronicTermZero(threeR, n, e0, xg, m.pow(tRef, 2.0), g, vMol);
    }
  }

  /** Exchanging temp and t_ref negates the electronic pressure. */
  lemma ZharkovPelAntisymmetric(m: Ops, v: real, temp: real, v0: real, e0: real, g: real, n: real, z: real,
                                tRef: real, threeR: real)
    ensures var ab := ZharkovPel(m, v, temp, v0, e0, g, n, z, tRef, threeR);
            var ba := ZharkovPel(m, v, tRef, v0, e0, g, n, z, temp, threeR);
            ab.Ok? == ba.Ok? && (ab.Ok? ==> ab.value == -ba.value)
  {
  }

  /** The cubic f(t) = a + b t + c t^2 + d t^3 of tsuchiya_pel, with numpy.power for the powers. */
  function TsuchiyaCubic(m: Ops, a: real, b: real, c: real, d: real, t: real): real {
    a + b * t + c * m.pow(t, 2.0) + d * m.pow(t, 3.0)
  }

  /**
   * tsuchiya_pel: f(temp) - f(t_ref). It takes v, v0, n, z and three_r for a shared
   * signature and does not use them.
   */
  function TsuchiyaPel(m: Ops, v: real, temp: real, v0: real, a: real, b: real, c: real, d: real,
                       n: real, z: real, threeR: real, tRef: real): real
  {
    TsuchiyaCubic(m, a, b, c, d, temp) - TsuchiyaCubic(m, a, b, c, d, tRef)
  }

  /** At temp = t_ref the electronic pressure is 0. */
  lemma TsuchiyaPelAtReference(m: Ops, v: real, t: real, v0: real, a: real, b: real, c: real, d: real,
                               n: real, z: real, threeR: real)
    ensures TsuchiyaPel(m, v, t, v0, a, b, c, d, n, z, threeR, t) == 0.0
  {
  }

  /**
   * The volume, v0, n, z and three_r do not change the electronic pressure, and
   * neither does the constant a, which cancels in the difference.
   */
  lemma TsuchiyaPelIndependent(m: Ops, v: real, v': real, temp: real, v0: real, v0': real, a: real, a': real,
                               b: real, c: real, d: real, n: real, n': real, z: real, z': real,
                               threeR: real, threeR': real, tRef: real)
    ensures TsuchiyaPel(m, v, temp, v0, a, b, c, d, n, z, threeR, tRef)
            == TsuchiyaPel(m, v', temp, v0', a', b, c, d, n', z', threeR', tRef)
  {
  }

  /** Exchanging temp and t_ref negates the electronic pressure. */
  lemma TsuchiyaPelAntisymmetric(m: Ops, v: real, temp: real, v0: real, a: real, b: real, c: real, d: real,
                                 n: real, z: real, threeR: real, tRef: real)
    ensures TsuchiyaPel(m, v, temp, v0, a, b, c, d, n, z, threeR, tRef)
            == -TsuchiyaPel(m, v, tRef, v0, a, b, c, d, n, z, threeR, temp)
  {
  }
}
