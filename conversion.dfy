/** Unit conversions: unit-cell and molar volumes, seismic velocities and elastic moduli. */
module Conversion {
  import opened Numerics

  /** scipy.constants.N_A, the Avogadro constant in 1/mol (CODATA 2018). */
  const AVOGADRO: real := 6.02214076e23
  /** scipy.constants.R, the molar gas constant in J/(mol K) (CODATA 2018). */
  const GAS_CONSTANT: real := 8.314462618
  /** The library-wide default for `three_r`. */
  const THREE_R: real := 3.0 * GAS_CONSTANT

  /** vol_uc2mol: unit-cell volume in A^3 to molar volume in m^3/mol. */
  function VolUc2Mol(vUc: real, z: real): real
    requires z != 0.0
  {
    vUc * 1.0e-30 * AVOGADRO / z
  }

  /** vol_mol2uc: molar volume in m^3/mol to unit-cell volume in A^3. */
  function VolMol2Uc(vMol: real, z: real): real {
    vMol * 1.0e30 / AVOGADRO * z
  }

  lemma UcMolUcRoundTrip(v: real, z: real)
    requires z != 0.0
    ensures VolMol2Uc(VolUc2Mol(v, z), z) == v
  {
    var k := 1.0e-30 * AVOGADRO;
    assert VolUc2Mol(v, z) == v * k / z;
    assert VolMol2Uc(v * k / z, z) == v * k / z * (1.0 / k) * z;
    assert v * k / z * (1.0 / k) * z == v * (k * (1.0 / k)) * (z / z);
  }

  lemma MolUcMolRoundTrip(m: real, z: real)
    requires z != 0.0
    ensures VolUc2Mol(VolMol2Uc(m, z), z) == m
  {
    var k := 1.0e-30 * AVOGADRO;
    assert VolMol2Uc(m, z) == m * (1.0 / k) * z;
    assert VolUc2Mol(m * (1.0 / k) * z, z) == m * ((1.0 / k) * k) * (z / z);
  }

  /** vol_uc2mol is linear in the volume. */
  lemma VolUc2MolLinear(a: real, v: real, b: real, w: real, z: real)
    requires z != 0.0
    ensures VolUc2Mol(a * v + b * w, z) == a * VolUc2Mol(v, z) + b * VolUc2Mol(w, z)
  {
    var c := 1.0e-30 * AVOGADRO / z;
    assert VolUc2Mol(a * v + b * w, z) == (a * v + b * w) * c;
    assert VolUc2Mol(v, z) == v * c;
    assert VolUc2Mol(w, z) == w * c;
  }

  /** For z > 0, vol_uc2mol is positive and strictly increasing on positive volumes. */
  lemma VolUc2MolPositiveIncreasing(v: real, w: real, z: real)
    requires z > 0.0 && 0.0 < v < w
    ensures 0.0 < VolUc2Mol(v, z) < VolUc2Mol(w, z)
  {
    var c := 1.0e-30 * AVOGADRO / z;
    assert c > 0.0;
    MulPositive(w - v, c);
    MulPositive(v, c);
    calc {
      VolUc2Mol(v, z);
      == v * c;
      < v * c + (w - v) * c;
      == w * c;
      == VolUc2Mol(w, z);
    }
  }

  /** velocities_to_moduli: bulk sound and shear velocities to (K_s, G). */
  function VelocitiesToModuli(rho: real, vPhi: real, vS: real): (real, real) {
    (vPhi * vPhi * rho, vS * vS * rho)
  }

  /** moduli_to_velocities: (K_s, G) to bulk sound and shear velocities. */
  function ModuliToVelocities(m: Ops, rho: real, kS: real, g: real): (real, real)
    requires rho != 0.0
  {
    (m.sqrt(kS / rho), m.sqrt(g / rho))
  }

  lemma SquareStrictlyIncreasing(a: real, b: real)
    requires 0.0 <= a < b
    ensures a * a < b * b
  {
    MulMonotone(a, a, b);
    MulPositive(b - a, b);
    calc {
      a * a;
      <= a * b;
      < a * b + (b - a) * b;
      == b * b;
    }
  }

  lemma SquareRootUnique(s: real, v: real)
    requires s >= 0.0 && v >= 0.0 && s * s == v * v
    ensures s == v
  {
    if s < v {
      SquareStrictlyIncreasing(s, v);
    } else if v < s {
      SquareStrictlyIncreasing(v, s);
    }
  }

  /** Non-negative velocities survive the trip to moduli and back. */
  lemma VelocitiesRoundTrip(m: Ops, rho: real, vPhi: real, vS: real)
    requires SqrtLaws(m) && rho > 0.0 && vPhi >= 0.0 && vS >= 0.0
    ensures ModuliToVelocities(m, rho, VelocitiesToModuli(rho, vPhi, vS).0,
                               VelocitiesToModuli(rho, vPhi, vS).1) == (vPhi, vS)
  {
    var kS := vPhi * vPhi * rho;
    var g := vS * vS * rho;
    assert VelocitiesToModuli(rho, vPhi, vS) == (kS, g);
    assert ModuliToVelocities(m, rho, kS, g) == (m.sqrt(kS / rho), m.sqrt(g / rho));
    SqrtOfSquare(m, rho, vPhi);
    SqrtOfSquare(m, rho, vS);
  }

  lemma SqrtOfSquare(m: Ops, rho: real, v: real)
    requires SqrtLaws(m) && rho > 0.0 && v >= 0.0
    ensures m.sqrt(v * v * rho / rho) == v
  {
    assert v * v * rho / rho == v * v;
    MulMonotone(v, 0.0, v);
    var a := m.sqrt(v * v);
    SquareRootUnique(a, v);
  }

  /** Non-negative moduli survive the trip to velocities and back. */
  lemma ModuliRoundTrip(m: Ops, rho: real, kS: real, g: real)
    requires SqrtLaws(m) && rho > 0.0 && kS >= 0.0 && g >= 0.0
    ensures VelocitiesToModuli(rho, ModuliToVelocities(m, rho, kS, g).0,
                               ModuliToVelocities(m, rho, kS, g).1) == (kS, g)
  {
    var a := m.sqrt(kS / rho);
    var b := m.sqrt(g / rho);
    assert ModuliToVelocities(m, rho, kS, g) == (a, b);
    SquareOfSqrt(m, rho, kS);
    SquareOfSqrt(m, rho, g);
    ModuliFromVelocities(rho, a, b);
    var t := VelocitiesToModuli(rho, a, b);
    assert t.0 == kS;
    assert t.1 == g;
  }

  lemma ModuliFromVelocities(rho: real, x: real, y: real)
    ensures VelocitiesToModuli(rho, x, y).0 == x * x * rho
    ensures VelocitiesToModuli(rho, x, y).1 == y * y * rho
  {
  }

  lemma SquareOfSqrt(m: Ops, rho: real, k: real)
    requires SqrtLaws(m) && rho > 0.0 && k >= 0.0
    ensures m.sqrt(k / rho) * m.sqrt(k / rho) * rho == k
  {
    var a := m.sqrt(k / rho);
    assert k / rho >= 0.0;
    assert a * a == k / rho;
    calc {
      a * a * rho;
      == k / rho * rho;
      == k;
    }
  }
}
