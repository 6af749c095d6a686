/** The Zharkov anharmonic pressure (pytheos/eqn_anharmonic.py). */
module EqnAnharmonic {
  import opened Wrappers
  import opened Numerics
  import Conversion

  /** The volume-dependent anharmonic coefficient a = a0 (v/v0)^m. */
  function AnharmonicCoefficient(m: Ops, v: real, v0: real, a0: real, mExponent: real): real
    requires v0 != 0.0
  {
    a0 * m.pow(v / v0, mExponent)
  }

  /** At the reference volume the coefficient is a0. */
  lemma AnharmonicCoefficientAtV0(m: Ops, v0: real, a0: real, mExponent: real)
    requires ElementaryLaws(m) && v0 != 0.0
    ensures AnharmonicCoefficient(m, v0, v0, a0, mExponent) == a0
  {
    DivSelf(v0);
    assert m.pow(1.0, mExponent) == 1.0;
  }

  /** The term f(t) of zharkov_panh for t^2 = tSquared: 3 R n / 2 a m / V_mol t^2 1e-9. */
  function AnharmonicTerm(threeR: real, n: real, a: real, mExponent: real, vMol: real, tSquared: real): real
    requires vMol != 0.0
  {
    threeR * n / 2.0 * a * mExponent / vMol * tSquared * 1.0e-9
  }

  /** The term vanishes when a = 0 or m = 0. */
  lemma AnharmonicTermZero(threeR: real, n: real, a: real, mExponent: real, vMol: real, tSquared: real)
    requires vMol != 0.0 && (a == 0.0 || mExponent == 0.0)
    ensures AnharmonicTerm(threeR, n, a, mExponent, vMol, tSquared) == 0.0
  {
  }

  /** zharkov_panh: f(temp) - f(t_ref), in GPa. */
  function ZharkovPanh(m: Ops, v: real, temp: real, v0: real, a0: real, mExponent: real, n: real, z: real,
                       tRef: real, threeR: real): (r: Result<real>)
    ensures r.Ok? <==> z != 0.0 && v0 != 0.0 && v != 0.0
  {
    if z == 0.0 || v0 == 0.0 || Conversion.VolUc2Mol(v, z) == 0.0 then Err(OutsideModel)
    else
      var vMol := Conversion.VolUc2Mol(v, z);
      var a := AnharmonicCoefficient(m, v, v0, a0, mExponent);
      Ok(AnharmonicTerm(threeR, n, a, mExponent, vMol, m.pow(temp, 2.0))
         - AnharmonicTerm(threeR, n, a, mExponent, vMol, m.pow(tRef, 2.0)))
  }

  /** At temp = t_ref the anharmonic pressure is 0. */
  lemma ZharkovPanhAtReference(m: Ops, v: real, t: real, v0: real, a0: real, mExponent: real, n: real, z: real,
                               threeR: real)
    ensures var r := ZharkovPanh(m, v, t, v0, a0, mExponent, n, z, t, threeR);
            r.Ok? ==> r.value == 0.0
  {
  }

  /** With a0 = 0 or m = 0 there is no anharmonic pressure at any volume or temperature. */
  lemma ZharkovPanhVanishes(m: Ops, v: real, temp: real, v0: real, a0: real, mExponent: real, n: real, z: real,
                            tRef: real, threeR: real)
    requires a0 == 0.0 || mExponent == 0.0
    ensures var r := ZharkovPanh(m, v, temp, v0, a0, mExponent, n, z, tRef, threeR);
            r.Ok? ==> r.value == 0.0
  {
    if z != 0.0 && v0 != 0.0 && v != 0.0 {
      var vMol := Conversion.VolUc2Mol(v, z);
      var a := AnharmonicCoefficient(m, v, v0, a0, mExponent);
      assert a == 0.0 || mExponent == 0.0;
      AnharmonicTermZero(threeR, n, a, mExponent, vMol, m.pow(temp, 2.0));
      AnharmonicTermZero(threeR, n, a, mExponent, vMol, m.pow(tRef, 2.0));
    }
  }

  /** Exchanging temp and t_ref negates the anharmonic pressure. */
  lemma ZharkovPanhAntisymmetric(m: Ops, v: real, temp: real, v0: real, a0: real, mExponent: real, n: real, z: real,
                                 tRef: real, threeR: real)
    ensures var ab := ZharkovPanh(m, v, temp, v0, a0, mExponent, n, z, tRef, threeR);
            var ba := ZharkovPanh(m, v, tRef, v0, a0, mExponent, n, z, temp, threeR);
            ab.Ok? == ba.Ok? && (ab.Ok? ==> ab.value == -ba.value)
  {
  }

  /** Under the laws of pow the anharmonic pressure is 3 R n / 2 a m / V_mol (temp^2 - t_ref^2) 1e-9. */
  lemma ZharkovPanhQuadratic(m: Ops, v: real, temp: real, v0: real, a0: real, mExponent: real, n: real, z: real,
                             tRef: real, threeR: real)
    requires ElementaryLaws(m) && z != 0.0 && v0 != 0.0 && v != 0.0
    ensures var vMol := Conversion.VolUc2Mol(v, z);
            var a := AnharmonicCoefficient(m, v, v0, a0, mExponent);
            ZharkovPanh(m, v, temp, v0, a0, mExponent, n, z, tRef, threeR)
            == Ok(AnharmonicTerm(threeR, n, a, mExponent, vMol, temp * temp - tRef * tRef))
  {
    var vMol := Conversion.VolUc2Mol(v, z);
    var a := AnharmonicCoefficient(m, v, v0, a0, mExponent);
    assert m.pow(temp, 2.0) == temp * temp;
    assert m.pow(tRef, 2.0) == tRef * tRef;
    AnharmonicTermDifference(threeR, n, a, mExponent, vMol, temp * temp, tRef * tRef);
  }

  /** The term is linear in t^2. */
  lemma AnharmonicTermDifference(threeR: real, n: real, a: real, mExponent: real, vMol: real, s1: real, s2: real)
    requires vMol != 0.0
    ensures AnharmonicTerm(threeR, n, a, mExponent, vMol, s1) - AnharmonicTerm(threeR, n, a, mExponent, vMol, s2)
            == AnharmonicTerm(threeR, n, a, mExponent, vMol, s1 - s2)
  {
    var k := threeR * n / 2.0 * a * mExponent / vMol;
    assert k * s1 * 1.0e-9 - k * s2 * 1.0e-9 == k * (s1 - s2) * 1.0e-9;
  }
}
