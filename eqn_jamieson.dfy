/**
 * Jamieson's Hugoniot-based equations (pytheos/eqn_jamieson.py): the nonlinear
 * Us = a + b Up + c Up^2 Hugoniot pressure, and the static and thermal pressures
 * recovered from a linear Hugoniot with the constant-q thermal model.
 */
module EqnJamieson {
  import opened Wrappers
  import opened Numerics
  import Conversion
  import EqnHugoniot

  /** The discriminant (1 - b eta)^2 - 4 eta^2 a c of the particle-velocity quadratic. */
  function Discriminant(m: Ops, eta: real, a: real, b: real, c: real): real {
    m.pow(1.0 - b * eta, 2.0) - 4.0 * m.pow(eta, 2.0) * a * c
  }

  /**
   * The particle velocity ((b eta - 1) + sqrt(D)) / (-2 eta c); the flag picks the
   * uncertainties square root over numpy's.
   */
  function ParticleVelocity(m: Ops, eta: real, a: real, b: real, c: real, uncertainties: bool): real
    requires -2.0 * eta * c != 0.0
  {
    var d := Discriminant(m, eta, a, b, c);
    RootValue(eta, b, c, if uncertainties then m.usqrt(d) else m.sqrt(d))
  }

  /** The root ((b eta - 1) + r) / (-2 eta c), for r the square root of the discriminant. */
  function RootValue(eta: real, b: real, c: real, r: real): real
    requires -2.0 * eta * c != 0.0
  {
    ((b * eta - 1.0) + r) / (-2.0 * eta * c)
  }

  /** The shock velocity a + Up b + Up Up c of the nonlinear fit. */
  function ShockVelocity(up: real, a: real, b: real, c: real): real {
    a + up * b + up * up * c
  }

  /** The momentum balance rho0 Up Us behind a shock. */
  function ShockPressure(rho0: real, up: real, us: real): real {
    rho0 * up * us
  }

  /**
   * The particle velocity of one entry: 0 where there is no compression, otherwise
   * the root above; a zero c or a negative discriminant has no real root.
   */
  function UpAt(m: Ops, eta: real, a: real, b: real, c: real, uncertainties: bool): (r: Result<real>)
    ensures eta == 0.0 ==> r == Ok(0.0)
    ensures eta != 0.0 ==> (r.Ok? <==> c != 0.0 && Discriminant(m, eta, a, b, c) >= 0.0)
  {
    if eta == 0.0 then Ok(0.0)
    else if -2.0 * eta * c == 0.0 then Err(OutsideModel)
    else if Discriminant(m, eta, a, b, c) < 0.0 then Err(OutsideModel)
    else Ok(ParticleVelocity(m, eta, a, b, c, uncertainties))
  }

  /** The Hugoniot pressure rho0 Up Us of one density. */
  function HugoniotPNlinAt(m: Ops, rho: real, rho0: real, a: real, b: real, c: real,
                           uncertainties: bool): Result<real>
  {
    if rho == 0.0 then Err(OutsideModel)
    else
      var up :- UpAt(m, EqnHugoniot.Eta(rho, rho0), a, b, c, uncertainties);
      Ok(ShockPressure(rho0, up, ShockVelocity(up, a, b, c)))
  }

  /** Up solves c eta Up^2 + (b eta - 1) Up + a eta = 0, the equation hugoniot_p_nlin takes the root of. */
  predicate SolvesQuadratic(up: real, eta: real, a: real, b: real, c: real) {
    (c * eta) * up * up + (b * eta - 1.0) * up + a * eta == 0.0
  }

  // The algebra behind the particle velocity, over plain reals.

  lemma Expand(a: real, b: real, c: real, x: real)
    ensures 4.0 * a * (a * x * x + b * x + c)
            == (2.0 * a * x) * (2.0 * a * x) + 2.0 * b * (2.0 * a * x) + 4.0 * a * c
  {
  }

  lemma Substitute(y: real, b: real, r: real, a: real, c: real)
    requires y == -b - r
    requires r * r == b * b - 4.0 * a * c
    ensures y * y + 2.0 * b * y + 4.0 * a * c == 0.0
  {
  }

  lemma ZeroFactor(k: real, e: real)
    requires k != 0.0 && k * e == 0.0
    ensures e == 0.0
  {
  }

  /** x = (-b - r) / (2 a) with r^2 = b^2 - 4 a c is a root of a x^2 + b x + c. */
  lemma QuadraticRoot(a: real, b: real, c: real, r: real, x: real)
    requires a != 0.0
    requires r * r == b * b - 4.0 * a * c
    requires 2.0 * a * x == -b - r
    ensures a * x * x + b * x + c == 0.0
  {
    Expand(a, b, c, x);
    Substitute(2.0 * a * x, b, r, a, c);
    ZeroFactor(4.0 * a, a * x * x + b * x + c);
  }

  lemma Cancel(n: real, k: real)
    requires k != 0.0
    ensures n / k * k == n
  {
  }

  lemma DiscriminantExpanded(eta: real, a: real, b: real, c: real, p1: real, p2: real)
    requires p1 == (1.0 - b * eta) * (1.0 - b * eta) && p2 == eta * eta
    ensures p1 - 4.0 * p2 * a * c == (b * eta - 1.0) * (b * eta - 1.0) - 4.0 * (c * eta) * (a * eta)
  {
  }

  lemma RootIsCompression(up: real, eta: real, a: real, b: real, c: real)
    requires SolvesQuadratic(up, eta, a, b, c)
    ensures eta * ShockVelocity(up, a, b, c) == up
  {
    assert eta * (a + up * b + up * up * c)
           == (c * eta) * up * up + (b * eta - 1.0) * up + a * eta + up;
  }

  /** The root formula solves the quadratic once r is a square root of its discriminant. */
  lemma RootFormula(eta: real, a: real, b: real, c: real, r: real)
    requires -2.0 * eta * c != 0.0
    requires r * r == (b * eta - 1.0) * (b * eta - 1.0) - 4.0 * (c * eta) * (a * eta)
    ensures SolvesQuadratic(RootValue(eta, b, c, r), eta, a, b, c)
    ensures eta * ShockVelocity(RootValue(eta, b, c, r), a, b, c) == RootValue(eta, b, c, r)
  {
    var up := RootValue(eta, b, c, r);
    Cancel((b * eta - 1.0) + r, -2.0 * eta * c);
    assert 2.0 * (c * eta) * up == -(b * eta - 1.0) - r;
    assert c * eta != 0.0;
    QuadraticRoot(c * eta, b * eta - 1.0, a * eta, r, up);
    RootIsCompression(up, eta, a, b, c);
  }

  /**
   * With a compression, a non-zero c and a non-negative discriminant, the particle
   * velocity is a root of c eta Up^2 + (b eta - 1) Up + a eta = 0, which is the
   * kinematic relation Up = eta Us, with either square root.
   */
  lemma ParticleVelocitySolves(m: Ops, eta: real, a: real, b: real, c: real, uncertainties: bool)
    requires SquareLaw(m) && SqrtLaws(m)
    requires -2.0 * eta * c != 0.0 && Discriminant(m, eta, a, b, c) >= 0.0
    ensures var up := ParticleVelocity(m, eta, a, b, c, uncertainties);
            SolvesQuadratic(up, eta, a, b, c) && eta * ShockVelocity(up, a, b, c) == up
  {
    var r := m.sqrt(Discriminant(m, eta, a, b, c));
    SqrtOfDiscriminant(m, eta, a, b, c);
    RootFormula(eta, a, b, c, r);
    assert ParticleVelocity(m, eta, a, b, c, uncertainties) == RootValue(eta, b, c, r);
  }

  /** Under the laws, sqrt(D) squares to the discriminant written without pow, with either backend. */
  lemma SqrtOfDiscriminant(m: Ops, eta: real, a: real, b: real, c: real)
    requires SquareLaw(m) && SqrtLaws(m) && Discriminant(m, eta, a, b, c) >= 0.0
    ensures var d := Discriminant(m, eta, a, b, c);
            m.usqrt(d) == m.sqrt(d) &&
            m.sqrt(d) * m.sqrt(d) == (b * eta - 1.0) * (b * eta - 1.0) - 4.0 * (c * eta) * (a * eta)
  {
    var p1 := m.pow(1.0 - b * eta, 2.0);
    var p2 := m.pow(eta, 2.0);
    assert p1 == (1.0 - b * eta) * (1.0 - b * eta);
    assert p2 == eta * eta;
    SqrtSquared(m, Discriminant(m, eta, a, b, c));
    DiscriminantExpanded(eta, a, b, c, p1, p2);
  }

  lemma SqrtSquared(m: Ops, d: real)
    requires SqrtLaws(m) && d >= 0.0
    ensures m.usqrt(d) == m.sqrt(d) && m.sqrt(d) * m.sqrt(d) == d
  {
  }

  /** The square root backend does not change the particle velocity. */
  lemma ParticleVelocityBackendIndependent(m: Ops, eta: real, a: real, b: real, c: real)
    requires SqrtLaws(m) && -2.0 * eta * c != 0.0
    ensures ParticleVelocity(m, eta, a, b, c, true) == ParticleVelocity(m, eta, a, b, c, false)
  {
    assert m.usqrt(Discriminant(m, eta, a, b, c)) == m.sqrt(Discriminant(m, eta, a, b, c));
  }

  /** A product of non-zero factors is not zero. */
  lemma ProductNonzero(eta: real, c: real)
    requires eta != 0.0 && c != 0.0
    ensures -2.0 * eta * c != 0.0
  {
    if eta > 0.0 && c > 0.0 {
      MulPositive(eta, c);
    } else if eta > 0.0 {
      MulPositive(eta, -c);
    } else if c > 0.0 {
      MulPositive(-eta, c);
    } else {
      MulPositive(-eta, -c);
    }
  }

  /** At the starting density there is no compression, no particle velocity and no pressure. */
  lemma HugoniotPNlinAtRho0(m: Ops, rho0: real, a: real, b: real, c: real, uncertainties: bool)
    requires rho0 != 0.0
    ensures HugoniotPNlinAt(m, rho0, rho0, a, b, c, uncertainties) == Ok(0.0)
  {
    DivSelf(rho0);
    assert EqnHugoniot.Eta(rho0, rho0) == 0.0;
    assert ShockPressure(rho0, 0.0, ShockVelocity(0.0, a, b, c)) == 0.0;
  }

  /**
   * Wherever it is defined under a compression, the pressure is the momentum balance
   * rho0 Up Us with Us = a + b Up + c Up^2 and Up = eta Us.
   */
  lemma HugoniotPNlinMomentumBalance(m: Ops, rho: real, rho0: real, a: real, b: real, c: real,
                                     uncertainties: bool)
    requires SquareLaw(m) && SqrtLaws(m) && rho != 0.0
    requires HugoniotPNlinAt(m, rho, rho0, a, b, c, uncertainties).Ok? && EqnHugoniot.Eta(rho, rho0) != 0.0
    ensures var eta := EqnHugoniot.Eta(rho, rho0);
            -2.0 * eta * c != 0.0 &&
            var up := ParticleVelocity(m, eta, a, b, c, uncertainties);
            var us := ShockVelocity(up, a, b, c);
            HugoniotPNlinAt(m, rho, rho0, a, b, c, uncertainties) == Ok(ShockPressure(rho0, up, us)) && up == eta * us
  {
    var eta := EqnHugoniot.Eta(rho, rho0);
    assert UpAt(m, eta, a, b, c, uncertainties).Ok?;
    ProductNonzero(eta, c);
    var pv := ParticleVelocity(m, eta, a, b, c, uncertainties);
    assert pv == eta * ShockVelocity(pv, a, b, c) by {
      ParticleVelocitySolves(m, eta, a, b, c, uncertainties);
    }
    assert UpAt(m, eta, a, b, c, uncertainties) == Ok(pv);
    PressureFromVelocity(m, rho, rho0, a, b, c, uncertainties, pv);
  }

  /**
   * hugoniot_p_nlin as evidently intended: entries without compression keep the zero
   * particle velocity and pressure 0, and every other entry takes the root. An empty
   * array still raises IndexError in isuncertainties.
   */
  function HugoniotPNlinCorrected(m: Ops, rhos: seq<real>, rho0: real, a: real, b: real, c: real,
                                  uncertainties: bool): (r: Result<seq<real>>)
    ensures |rhos| == 0 ==> r == Err(IndexError)
    ensures r.Ok? <==> |rhos| > 0 &&
                       forall i :: 0 <= i < |rhos| ==> HugoniotPNlinAt(m, rhos[i], rho0, a, b, c, uncertainties).Ok?
    ensures r.Ok? ==> |r.value| == |rhos| && forall i :: 0 <= i < |rhos| ==>
              HugoniotPNlinAt(m, rhos[i], rho0, a, b, c, uncertainties) == Ok(r.value[i])
  {
    if |rhos| == 0 then Err(IndexError)
    else Vectorize((rho: real) => HugoniotPNlinAt(m, rho, rho0, a, b, c, uncertainties), rhos)
  }

  /** Entries at the starting density come out as pressure 0 whatever the other entries are. */
  lemma HugoniotPNlinCorrectedZeroCompression(m: Ops, rhos: seq<real>, rho0: real, a: real, b: real, c: real,
                                              uncertainties: bool, i: int)
    requires 0 <= i < |rhos| && rhos[i] == rho0 && rho0 != 0.0
    requires HugoniotPNlinCorrected(m, rhos, rho0, a, b, c, uncertainties).Ok?
    ensures HugoniotPNlinCorrected(m, rhos, rho0, a, b, c, uncertainties).value[i] == 0.0
  {
    HugoniotPNlinAtRho0(m, rho0, a, b, c, uncertainties);
  }

  /**
   * hugoniot_p_nlin, in place: Up starts as an array of zeros, only the entries with a
   * compression are overwritten, then Ph = rho0 Up Us is formed entry by entry; an
   * empty array raises IndexError in isuncertainties before any of that.
   */
  method HugoniotPNlin(m: Ops, rhos: seq<real>, rho0: real, a: real, b: real, c: real, uncertainties: bool)
    returns (r: Result<seq<real>>)
    ensures r == HugoniotPNlinCorrected(m, rhos, rho0, a, b, c, uncertainties)
  {
    if |rhos| == 0 {
      return Err(IndexError);
    }
    var up := new real[|rhos|](_ => 0.0);
    var i := 0;
    while i < |rhos|
      invariant 0 <= i <= |rhos|
      invariant forall j :: 0 <= j < i ==>
                  rhos[j] != 0.0 && UpAt(m, EqnHugoniot.Eta(rhos[j], rho0), a, b, c, uncertainties) == Ok(up[j])
      invariant forall j :: i <= j < |rhos| ==> up[j] == 0.0
    {
      if rhos[i] == 0.0 {
        FirstFailure(m, rhos, rho0, a, b, c, uncertainties, up[..], i);
        return Err(OutsideModel);
      }
      var eta := EqnHugoniot.Eta(rhos[i], rho0);
      if eta != 0.0 {
        var u := UpAt(m, eta, a, b, c, uncertainties);
        if u.Err? {
          FirstFailure(m, rhos, rho0, a, b, c, uncertainties, up[..], i);
          return Err(u.error);
        }
        up[i] := u.value;
      }
      i := i + 1;
    }
    PressuresFromVelocities(m, rhos, rho0, a, b, c, uncertainties, up[..]);
    return Ok(Pressures(rho0, up[..], a, b, c));
  }

  /** Ph = rho0 Up Us, entry by entry. */
  function Pressures(rho0: real, up: seq<real>, a: real, b: real, c: real): (ph: seq<real>)
    ensures |ph| == |up| && forall j :: 0 <= j < |up| ==> ph[j] == ShockPressure(rho0, up[j], ShockVelocity(up[j], a, b, c))
  {
    seq(|up|, j requires 0 <= j < |up| => ShockPressure(rho0, up[j], ShockVelocity(up[j], a, b, c)))
  }

  /** Once every entry has its particle velocity, the pressures are those of the corrected map. */
  lemma PressuresFromVelocities(m: Ops, rhos: seq<real>, rho0: real, a: real, b: real, c: real,
                                uncertainties: bool, up: seq<real>)
    requires |up| == |rhos| > 0
    requires forall j :: 0 <= j < |rhos| ==>
               rhos[j] != 0.0 && UpAt(m, EqnHugoniot.Eta(rhos[j], rho0), a, b, c, uncertainties) == Ok(up[j])
    ensures HugoniotPNlinCorrected(m, rhos, rho0, a, b, c, uncertainties) == Ok(Pressures(rho0, up, a, b, c))
  {
    var ph := Pressures(rho0, up, a, b, c);
    forall j | 0 <= j < |rhos|
      ensures HugoniotPNlinAt(m, rhos[j], rho0, a, b, c, uncertainties) == Ok(ph[j])
    {
      PressureFromVelocity(m, rhos[j], rho0, a, b, c, uncertainties, up[j]);
    }
    VectorizeAllOk((rho: real) => HugoniotPNlinAt(m, rho, rho0, a, b, c, uncertainties), rhos, ph);
  }

  /** The pressure of one entry once its particle velocity is known. */
  lemma PressureFromVelocity(m: Ops, rho: real, rho0: real, a: real, b: real, c: real, uncertainties: bool,
                             u: real)
    requires rho != 0.0 && UpAt(m, EqnHugoniot.Eta(rho, rho0), a, b, c, uncertainties) == Ok(u)
    ensures HugoniotPNlinAt(m, rho, rho0, a, b, c, uncertainties) == Ok(ShockPressure(rho0, u, ShockVelocity(u, a, b, c)))
  {
  }

  /** The first entry whose pressure fails decides the failure of the whole array. */
  lemma FirstFailure(m: Ops, rhos: seq<real>, rho0: real, a: real, b: real, c: real, uncertainties: bool,
                     up: seq<real>, i: int)
    requires 0 <= i < |rhos| && |up| == |rhos|
    requires forall j :: 0 <= j < i ==>
               rhos[j] != 0.0 && UpAt(m, EqnHugoniot.Eta(rhos[j], rho0), a, b, c, uncertainties) == Ok(up[j])
    requires HugoniotPNlinAt(m, rhos[i], rho0, a, b, c, uncertainties).Err?
    ensures HugoniotPNlinCorrected(m, rhos, rho0, a, b, c, uncertainties)
            == Err(HugoniotPNlinAt(m, rhos[i], rho0, a, b, c, uncertainties).error)
  {
    forall j | 0 <= j < i ensures HugoniotPNlinAt(m, rhos[j], rho0, a, b, c, uncertainties).Ok? {
      PressureFromVelocity(m, rhos[j], rho0, a, b, c, uncertainties, up[j]);
    }
    VectorizeFirstError((rho: real) => HugoniotPNlinAt(m, rho, rho0, a, b, c, uncertainties), rhos, i);
  }

  /** The number of entries with a compression, i.e. where the mask eta != 0 is true. */
  function CountCompressed(rhos: seq<real>, rho0: real): (k: nat)
    requires forall i :: 0 <= i < |rhos| ==> rhos[i] != 0.0
    ensures k <= |rhos|
    ensures k == |rhos| <==> forall i :: 0 <= i < |rhos| ==> EqnHugoniot.Eta(rhos[i], rho0) != 0.0
  {
    if |rhos| == 0 then 0
    else
      var rest := CountCompressed(rhos[1..], rho0);
      assert forall i :: 0 <= i < |rhos[1..]| ==> rhos[1..][i] == rhos[i + 1];
      (if EqnHugoniot.Eta(rhos[0], rho0) != 0.0 then 1 else 0) + rest
  }

  /**
   * hugoniot_p_nlin as written. The whole right-hand side is evaluated at every entry,
   * then written through the mask eta != 0. With plain numbers numpy lets the values
   * through only when their count matches the mask's or is 1. With uncertain numbers
   * the square root of a negative discriminant raises first, then the division by
   * -2 eta c raises at any entry where it is 0. An empty array raises IndexError in
   * isuncertainties.
   */
  function HugoniotPNlinAsWritten(m: Ops, rhos: seq<real>, rho0: real, a: real, b: real, c: real,
                                  uncertainties: bool): (r: Result<seq<real>>)
    ensures |rhos| == 0 ==> r == Err(IndexError)
    ensures r.Ok? ==> r == HugoniotPNlinCorrected(m, rhos, rho0, a, b, c, uncertainties)
  {
    if exists i :: 0 <= i < |rhos| && rhos[i] == 0.0 then Err(OutsideModel)
    else if uncertainties then
      if exists i :: 0 <= i < |rhos| && Discriminant(m, EqnHugoniot.Eta(rhos[i], rho0), a, b, c) < 0.0 then
        Err(MathDomain)
      else if exists i :: 0 <= i < |rhos| && -2.0 * EqnHugoniot.Eta(rhos[i], rho0) * c == 0.0 then
        Err(ZeroDivision)
      else HugoniotPNlinCorrected(m, rhos, rho0, a, b, c, uncertainties)
    else if |rhos| != 1 && CountCompressed(rhos, rho0) != |rhos| then Err(ShapeMismatch)
    else HugoniotPNlinCorrected(m, rhos, rho0, a, b, c, uncertainties)
  }

  /**
   * With plain numbers the code as written agrees with the intended one on a single
   * density, and on any array whose entries are all compressed.
   */
  lemma AsWrittenAgreesWhenMaskFull(m: Ops, rhos: seq<real>, rho0: real, a: real, b: real, c: real)
    requires |rhos| == 1 || forall i :: 0 <= i < |rhos| ==> rhos[i] != 0.0 && EqnHugoniot.Eta(rhos[i], rho0) != 0.0
    ensures HugoniotPNlinAsWritten(m, rhos, rho0, a, b, c, false) == HugoniotPNlinCorrected(m, rhos, rho0, a, b, c, false)
  {
    if !(exists i :: 0 <= i < |rhos| && rhos[i] == 0.0) {
      if |rhos| != 1 {
        assert CountCompressed(rhos, rho0) == |rhos|;
      }
    } else {
      var i :| 0 <= i < |rhos| && rhos[i] == 0.0;
      assert HugoniotPNlinAt(m, rhos[i], rho0, a, b, c, false).Err?;
    }
  }

  /**
   * Densities [1, 2] with rho0 = 1: the first entry has no compression, so the mask
   * has one true entry for two values and numpy raises; the intended result is
   * defined, with pressure 0 at the first entry.
   */
  lemma MaskAssignmentMismatch(m: Ops)
    requires SquareLaw(m) && SqrtLaws(m)
    ensures HugoniotPNlinAsWritten(m, [1.0, 2.0], 1.0, 1.0, 1.0, 0.1, false) == Err(ShapeMismatch)
    ensures var r := HugoniotPNlinCorrected(m, [1.0, 2.0], 1.0, 1.0, 1.0, 0.1, false);
            r.Ok? && r.value[0] == 0.0
  {
    var rhos := [1.0, 2.0];
    assert EqnHugoniot.Eta(1.0, 1.0) == 0.0;
    assert EqnHugoniot.Eta(2.0, 1.0) == 0.5;
    assert CountCompressed(rhos[1..], 1.0) == 1;
    assert CountCompressed(rhos, 1.0) == 1;
    assert m.pow(1.0 - 1.0 * 0.5, 2.0) == 0.25;
    assert m.pow(0.5, 2.0) == 0.25;
    assert Discriminant(m, 0.5, 1.0, 1.0, 0.1) == 0.15;
    HugoniotPNlinAtRho0(m, 1.0, 1.0, 1.0, 0.1, false);
    assert HugoniotPNlinAt(m, 2.0, 1.0, 1.0, 1.0, 0.1, false).Ok?;
  }

  /**
   * A single uncertain density at rho0: the division by -2 eta c has a zero divisor and
   * the uncertainties package raises, where pressure 0 is intended.
   */
  lemma UncertainZeroCompressionRaises(m: Ops, rho0: real, a: real, b: real, c: real)
    requires ElementaryLaws(m) && rho0 != 0.0
    ensures HugoniotPNlinAsWritten(m, [rho0], rho0, a, b, c, true) == Err(ZeroDivision)
    ensures HugoniotPNlinCorrected(m, [rho0], rho0, a, b, c, true) == Ok([0.0])
  {
    DivSelf(rho0);
    assert EqnHugoniot.Eta(rho0, rho0) == 0.0;
    assert m.pow(1.0 - b * 0.0, 2.0) == 1.0;
    assert m.pow(0.0, 2.0) == 0.0;
    assert Discriminant(m, 0.0, a, b, c) == 1.0;
    assert -2.0 * EqnHugoniot.Eta([rho0][0], rho0) * c == 0.0;
    HugoniotPNlinAtRho0(m, rho0, a, b, c, true);
    VectorizeAllOk((rho: real) => HugoniotPNlinAt(m, rho, rho0, a, b, c, true), [rho0], [0.0]);
  }

  /** The density mass / V_mol * 1e-6 of a unit-cell volume, in g/cm^3. */
  function Density(mass: real, v: real, z: real): real
    requires z != 0.0 && Conversion.VolUc2Mol(v, z) != 0.0
  {
    mass / Conversion.VolUc2Mol(v, z) * 1.0e-6
  }

  /** The volumes handed to the Jamieson functions have a density. */
  predicate DensityDomain(v: real, v0: real, z: real) {
    z != 0.0 && Conversion.VolUc2Mol(v, z) != 0.0 && Conversion.VolUc2Mol(v0, z) != 0.0
  }

  /**
   * jamieson_pth: the constant-q thermal pressure at the Hugoniot temperature of the
   * density of v, with the constant-q parameters [v0, gamma0, q, theta0].
   */
  function JamiesonPth(m: Ops, v: real, v0: real, c0: real, s: real, gamma0: real, q: real, theta0: real,
                       n: real, z: real, mass: real, cV: real, threeR: real, tRef: real): (r: Result<real>)
    ensures !DensityDomain(v, v0, z) ==> r == Err(OutsideModel)
  {
    if !DensityDomain(v, v0, z) then Err(OutsideModel)
    else
      var temp :- EqnHugoniot.HugoniotTSingle(m, Density(mass, v, z), Density(mass, v0, z), c0, s, gamma0, q,
                                              theta0, n, mass, threeR, tRef, cV);
      m.constqPth(v, temp, [v0, gamma0, q, theta0], n, z, tRef, threeR)
  }

  /**
   * At v0 the Hugoniot temperature is the literal 300 K, so the thermal pressure is the
   * constant-q one at 300 K, whatever t_ref is.
   */
  lemma JamiesonPthAtV0(m: Ops, v0: real, c0: real, s: real, gamma0: real, q: real, theta0: real,
                        n: real, z: real, mass: real, cV: real, threeR: real, tRef: real)
    requires DensityDomain(v0, v0, z) && Density(mass, v0, z) != 0.0
    ensures JamiesonPth(m, v0, v0, c0, s, gamma0, q, theta0, n, z, mass, cV, threeR, tRef)
            == m.constqPth(v0, 300.0, [v0, gamma0, q, theta0], n, z, tRef, threeR)
  {
    EqnHugoniot.HugoniotTSingleAtRho0(m, Density(mass, v0, z), c0, s, gamma0, q, theta0, n, mass, threeR, tRef,
                                      tRef, cV);
  }

  /** jamieson_pst: the Hugoniot pressure minus the thermal pressure along the Hugoniot. */
  function JamiesonPst(m: Ops, v: real, v0: real, c0: real, s: real, gamma0: real, q: real, theta0: real,
                       n: real, z: real, mass: real, cV: real, threeR: real, tRef: real): (r: Result<real>)
    ensures r.Ok? ==> DensityDomain(v, v0, z) &&
                      EqnHugoniot.HugoniotDomain(m, Density(mass, v, z), Density(mass, v0, z), s)
    ensures r.Ok? <==> DensityDomain(v, v0, z) &&
                       EqnHugoniot.HugoniotDomain(m, Density(mass, v, z), Density(mass, v0, z), s) &&
                       JamiesonPth(m, v, v0, c0, s, gamma0, q, theta0, n, z, mass, cV, threeR, tRef).Ok?
  {
    if !DensityDomain(v, v0, z) then Err(OutsideModel)
    else
      var rho := Density(mass, v, z);
      var rho0 := Density(mass, v0, z);
      if !EqnHugoniot.HugoniotDomain(m, rho, rho0, s) then Err(OutsideModel)
      else
        var pTh :- JamiesonPth(m, v, v0, c0, s, gamma0, q, theta0, n, z, mass, cV, threeR, tRef);
        Ok(EqnHugoniot.HugoniotP(m, rho, rho0, c0, s) - pTh)
  }

  /** The static pressure plus the thermal pressure along the Hugoniot is the Hugoniot pressure. */
  lemma JamiesonPstRecoversHugoniot(m: Ops, v: real, v0: real, c0: real, s: real, gamma0: real, q: real,
                                    theta0: real, n: real, z: real, mass: real, cV: real, threeR: real, tRef: real)
    requires JamiesonPst(m, v, v0, c0, s, gamma0, q, theta0, n, z, mass, cV, threeR, tRef).Ok?
    ensures JamiesonPst(m, v, v0, c0, s, gamma0, q, theta0, n, z, mass, cV, threeR, tRef).value
            + JamiesonPth(m, v, v0, c0, s, gamma0, q, theta0, n, z, mass, cV, threeR, tRef).value
            == EqnHugoniot.HugoniotP(m, Density(mass, v, z), Density(mass, v0, z), c0, s)
  {
  }

  /** At v0 the static pressure is minus the constant-q thermal pressure at 300 K. */
  lemma JamiesonPstAtV0(m: Ops, v0: real, c0: real, s: real, gamma0: real, q: real, theta0: real,
                        n: real, z: real, mass: real, cV: real, threeR: real, tRef: real)
    requires ElementaryLaws(m) && DensityDomain(v0, v0, z) && Density(mass, v0, z) != 0.0
    ensures var pth := m.constqPth(v0, 300.0, [v0, gamma0, q, theta0], n, z, tRef, threeR);
            var r := JamiesonPst(m, v0, v0, c0, s, gamma0, q, theta0, n, z, mass, cV, threeR, tRef);
            (r.Ok? <==> pth.Ok?) && (r.Ok? ==> r.value == -pth.value)
  {
    var rho0 := Density(mass, v0, z);
    EqnHugoniot.HugoniotPAtRho0(m, rho0, c0, s);
    JamiesonPthAtV0(m, v0, c0, s, gamma0, q, theta0, n, z, mass, cV, threeR, tRef);
  }
}
