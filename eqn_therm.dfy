/** The thermal pressure from thermal expansion and bulk modulus (pytheos/eqn_therm.py). */
module EqnTherm {

  /**
   * alphakt_pth: alpha0 k0 (temp - t_ref). It takes v, v0, n, z and three_r for a
   * signature shared with the other thermal models and does not use them.
   */
  function AlphaKtPth(v: real, temp: real, v0: real, alpha0: real, k0: real, n: real, z: real,
                      tRef: real, threeR: real): (r: real)
    ensures r == 0.0 <==> alpha0 == 0.0 || k0 == 0.0 || temp == tRef
  {
    alpha0 * k0 * (temp - tRef)
  }

  /** At temp = t_ref the thermal pressure is 0. */
  lemma AlphaKtPthAtReference(v: real, t: real, v0: real, alpha0: real, k0: real, n: real, z: real, threeR: real)
    ensures AlphaKtPth(v, t, v0, alpha0, k0, n, z, t, threeR) == 0.0
  {
  }

  /** The volume, v0, n, z and three_r do not change the thermal pressure. */
  lemma AlphaKtPthIgnoresVolume(v: real, v': real, temp: real, v0: real, v0': real, alpha0: real, k0: real,
                                n: real, n': real, z: real, z': real, tRef: real, threeR: real, threeR': real)
    ensures AlphaKtPth(v, temp, v0, alpha0, k0, n, z, tRef, threeR)
            == AlphaKtPth(v', temp, v0', alpha0, k0, n', z', tRef, threeR')
  {
  }

  /** The pressure difference between two temperatures is alpha0 k0 times their difference, whatever t_ref. */
  lemma AlphaKtPthDifference(v: real, t1: real, t2: real, v0: real, alpha0: real, k0: real, n: real, z: real,
                             tRef: real, threeR: real)
    ensures AlphaKtPth(v, t1, v0, alpha0, k0, n, z, tRef, threeR) - AlphaKtPth(v, t2, v0, alpha0, k0, n, z, tRef, threeR)
            == alpha0 * k0 * (t1 - t2)
  {
    assert alpha0 * k0 * (t1 - tRef) - alpha0 * k0 * (t2 - tRef) == alpha0 * k0 * (t1 - t2);
  }
}
