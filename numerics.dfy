/**
 * The numerical primitives the library takes from numpy, uncertainties and scipy.
 * Transcendental functions, the root finder (scipy.optimize.brenth), the quadrature
 * (scipy.integrate.quad), the ODE integrator (scipy.integrate.odeint) and the
 * constant-q thermal pressure (eqn_constq.constq_pth) are parameters of the model,
 * bundled in an `Ops` value; the laws each proof relies on are stated as predicates
 * over that value.  Rounding and numerical differentiation are modelled exactly.
 */
module Numerics {
  import opened Wrappers

  datatype Ops = Ops(
    exp: real -> real,                                   // numpy.exp
    uexp: real -> real,                                  // nominal value of unumpy.exp
    log: real -> real,                                   // numpy.log
    pow: (real, real) -> real,                           // numpy.power and `**`
    sqrt: real -> real,                                  // numpy.sqrt
    usqrt: real -> real,                                 // nominal value of unumpy.sqrt
    brenth: (real -> Result<real>, real, real) -> Result<real>,  // scipy.optimize.brenth(f, a, b)
    quad: (real --> real, real, real) -> real,                  // scipy.integrate.quad(f, a, b)[0]
    odeint: ((real, real) -> Result<real>, real, real, real) -> Result<real>,
                                                 // odeint(f, y0, [t0, t1]), the value at t1
    constqPth: (real, real, seq<real>, real, real, real, real) -> Result<real>
                                 // constq_pth(v, temp, *params, n, z, t_ref=, three_r=)
  )

  /** `x` lies in the closed interval spanned by `a` and `b`, in either order. */
  predicate Between(x: real, a: real, b: real) {
    (a <= x <= b) || (b <= x <= a)
  }

  /** Facts about exp, log and pow on the reals. */
  ghost predicate ElementaryLaws(m: Ops) {
    && m.exp(0.0) == 1.0
    && (forall x :: m.exp(x) > 0.0)
    && (forall x, y :: x < y ==> m.exp(x) < m.exp(y))
    && (forall y :: y > 0.0 ==> m.exp(m.log(y)) == y)
    && (forall x :: m.uexp(x) == m.exp(x))
    && (forall r :: m.pow(1.0, r) == 1.0)
    && (forall x, r :: x > 0.0 ==> m.pow(x, r) > 0.0)
    && SquareLaw(m)
  }

  /** pow(x, 2) is x * x. */
  ghost predicate SquareLaw(m: Ops) {
    forall x :: m.pow(x, 2.0) == x * x
  }

  /** The square root of a non-negative number is non-negative and squares back. */
  ghost predicate SqrtLaws(m: Ops) {
    && (forall y :: y >= 0.0 ==> m.sqrt(y) >= 0.0 && m.sqrt(y) * m.sqrt(y) == y)
    && (forall y :: m.usqrt(y) == m.sqrt(y))
  }

  /** The objective values x and y at the two ends are non-zero and of one sign: x * y > 0. */
  predicate SameSign(x: real, y: real) {
    x * y > 0.0
  }

  /**
   * What brenth promises: it evaluates the objective at `a`, then at `b`, and an
   * exception raised there propagates; no sign change between the ends is an
   * error; an answer is a root inside the bracket.
   */
  ghost predicate BrenthOutcome(f: real -> Result<real>, a: real, b: real, r: Result<real>) {
    && (f(a).Err? ==> r == Err(f(a).error))
    && (f(a).Ok? && f(b).Err? ==> r == Err(f(b).error))
    && (f(a).Ok? && f(b).Ok? && SameSign(f(a).value, f(b).value) ==> r.Err?)
    && (r.Ok? ==> Between(r.value, a, b) && f(r.value) == Ok(0.0))
  }

  ghost predicate BrenthLaw(m: Ops) {
    forall f: real -> Result<real>, a: real, b: real {:trigger m.brenth(f, a, b)} ::
      BrenthOutcome(f, a, b, m.brenth(f, a, b))
  }

  /** An integral over an empty interval is zero. */
  ghost predicate QuadLaw(m: Ops) {
    forall f: real --> real, a: real {:trigger m.quad(f, a, a)} :: m.quad(f, a, a) == 0.0
  }

  /** odeint evaluates the right-hand side at the initial point first; an exception there propagates. */
  ghost predicate OdeLaw(m: Ops) {
    forall f: (real, real) -> Result<real>, y0: real, t0: real, t1: real
      {:trigger m.odeint(f, y0, t0, t1)} ::
      f(y0, t0).Err? ==> m.odeint(f, y0, t0, t1) == Err(f(y0, t0).error)
  }

  function PlainExp(x: real): real {
    if x >= 0.0 then x + 1.0 else 1.0 / (1.0 - x)
  }

  function PlainLog(y: real): real {
    if y >= 1.0 then y - 1.0 else if y > 0.0 then 1.0 - 1.0 / y else 0.0
  }

  lemma ReciprocalAntitone(a: real, b: real)
    requires a > b > 0.0
    ensures 0.0 < 1.0 / a < 1.0 / b
  {
    assert 1.0 / a * a == 1.0;
    assert 1.0 / b * b == 1.0;
  }

  lemma PlainExpProperties(x: real, y: real)
    ensures PlainExp(x) > 0.0
    ensures x < y ==> PlainExp(x) < PlainExp(y)
    ensures y > 0.0 ==> PlainExp(PlainLog(y)) == y
  {
    if x < 0.0 {
      ReciprocalAntitone(1.0 - x, 1.0);
    }
    if x < y && y < 0.0 {
      ReciprocalAntitone(1.0 - x, 1.0 - y);
    }
    if 0.0 < y < 1.0 {
      var q := 1.0 - 1.0 / y;
      ReciprocalAntitone(1.0, y);
      assert q < 0.0;
      assert 1.0 - q == 1.0 / y;
    }
  }

  function PlainPow(x: real, r: real): real {
    if r == 2.0 then x * x else if x > 0.0 then 1.0 else 0.0
  }

  lemma PlainPowPositive(x: real, r: real)
    requires x > 0.0
    ensures PlainPow(x, r) > 0.0
  {
    if r == 2.0 {
      calc {
        PlainPow(x, r);
        == x * x;
        > 0.0;
      }
    }
  }

  /** A choice of primitives meeting the elementary laws. */
  function PlainOps(): Ops {
    Ops(PlainExp, PlainExp, PlainLog,
        PlainPow,
        (y: real) => y, (y: real) => y,
        (f: real -> Result<real>, a: real, b: real) =>
          if f(a).Err? then Err(f(a).error) else if f(b).Err? then Err(f(b).error) else Err(RootNotBracketed),
        (f: real --> real, a: real, b: real) => b - a,
        (f: (real, real) -> Result<real>, y0: real, t0: real, t1: real) => f(y0, t0),
        (v: real, t: real, ps: seq<real>, n: real, z: real, tr: real, r: real) => Err(OutsideModel))
  }

  /** The elementary laws are consistent: some choice of primitives meets them all. */
  lemma ElementaryLawsSatisfiable()
    ensures ElementaryLaws(PlainOps()) && BrenthLaw(PlainOps()) && QuadLaw(PlainOps()) && OdeLaw(PlainOps())
  {
    var m := PlainOps();
    forall x ensures m.exp(x) > 0.0 {
      PlainExpProperties(x, x);
    }
    forall x, y | x < y ensures m.exp(x) < m.exp(y) {
      PlainExpProperties(x, y);
    }
    forall y | y > 0.0 ensures m.exp(m.log(y)) == y {
      PlainExpProperties(y, y);
    }
    assert forall r :: m.pow(1.0, r) == 1.0;
    forall x, r | x > 0.0 ensures m.pow(x, r) > 0.0 {
      PlainPowPositive(x, r);
    }
    assert forall x :: m.pow(x, 2.0) == x * x;
  }

  /** x raised to a natural power. */
  function IntPow(x: real, k: nat): real {
    if k == 0 then 1.0 else x * IntPow(x, k - 1)
  }

  /** numpy.round: to the nearest integer, ties to the even neighbour. */
  function RoundHalfEven(r: real): (n: int)
    ensures -0.5 <= r - n as real <= 0.5
    ensures (r - n as real == 0.5 || r - n as real == -0.5) ==> n % 2 == 0
  {
    var fl := r.Floor;
    var frac := r - fl as real;
    if frac < 0.5 then fl
    else if frac > 0.5 then fl + 1
    else if fl % 2 == 0 then fl
    else fl + 1
  }

  /**
   * scipy.misc.derivative(f, x, dx) with its defaults n=1, order=3: the weights
   * [-1, 0, 1] / 2 over the points x - dx, x, x + dx, divided by dx.
   */
  function CentralDifference(f: real --> real, x: real, dx: real): real
    requires dx != 0.0 && f.requires(x - dx) && f.requires(x + dx)
  {
    (-0.5 * f(x - dx) + 0.5 * f(x + dx)) / dx
  }

  /** The calls of f on every element, in order; the first exception raised propagates. */
  function MapResults<A, B>(f: A --> Result<B>, xs: seq<A>): (r: Result<seq<B>>)
    requires forall i :: 0 <= i < |xs| ==> f.requires(xs[i])
    ensures r.Ok? <==> forall i :: 0 <= i < |xs| ==> f(xs[i]).Ok?
    ensures r.Ok? ==> |r.value| == |xs| && forall i :: 0 <= i < |xs| ==> f(xs[i]) == Ok(r.value[i])
    ensures r.Err? ==> exists i :: 0 <= i < |xs| && f(xs[i]) == Err(r.error) &&
                                   forall j :: 0 <= j < i ==> f(xs[j]).Ok?
    decreases |xs|
  {
    if |xs| == 0 then Ok([])
    else
      var head :- f(xs[0]);
      assert forall i :: 0 <= i < |xs[1..]| ==> xs[1..][i] == xs[i + 1];
      var tail :- MapResults(f, xs[1..]);
      Ok([head] + tail)
  }

  /**
   * numpy.vectorize over one argument, without otypes: numpy calls the function on the
   * first element to learn the output type, so a size-0 input raises ValueError;
   * otherwise the calls in order, where the first exception raised propagates.
   */
  function Vectorize<A, B>(f: A --> Result<B>, xs: seq<A>): (r: Result<seq<B>>)
    requires forall i :: 0 <= i < |xs| ==> f.requires(xs[i])
    ensures |xs| == 0 ==> r == Err(EmptyVectorize)
    ensures r.Ok? <==> |xs| > 0 && forall i :: 0 <= i < |xs| ==> f(xs[i]).Ok?
    ensures r.Ok? ==> |r.value| == |xs| && forall i :: 0 <= i < |xs| ==> f(xs[i]) == Ok(r.value[i])
    ensures r.Err? && |xs| > 0 ==> exists i :: 0 <= i < |xs| && f(xs[i]) == Err(r.error) &&
                                             forall j :: 0 <= j < i ==> f(xs[j]).Ok?
  {
    if |xs| == 0 then Err(EmptyVectorize) else MapResults(f, xs)
  }

  /** The first element whose call raises decides the exception of the whole map. */
  lemma VectorizeFirstError<A, B>(f: A --> Result<B>, xs: seq<A>, i: int)
    requires forall k :: 0 <= k < |xs| ==> f.requires(xs[k])
    requires 0 <= i < |xs| && f(xs[i]).Err? && forall j :: 0 <= j < i ==> f(xs[j]).Ok?
    ensures Vectorize(f, xs) == Err(f(xs[i]).error)
  {
    var r := Vectorize(f, xs);
    var k :| 0 <= k < |xs| && f(xs[k]) == Err(r.error) && forall j :: 0 <= j < k ==> f(xs[j]).Ok?;
    assert k == i;
  }

  /** When every call succeeds, the map of a non-empty input is the sequence of their values. */
  lemma VectorizeAllOk<A, B>(f: A --> Result<B>, xs: seq<A>, ys: seq<B>)
    requires forall k :: 0 <= k < |xs| ==> f.requires(xs[k])
    requires |ys| == |xs| && forall k :: 0 <= k < |xs| ==> f(xs[k]) == Ok(ys[k])
    ensures Vectorize(f, xs) == if |xs| == 0 then Err(EmptyVectorize) else Ok(ys)
  {
    var r := Vectorize(f, xs);
    if |xs| > 0 {
      assert r.value == ys;
    }
  }

  // Small arithmetic facts the solver does not always find next to the laws above.

  lemma MulPositive(a: real, b: real)
    requires a > 0.0 && b > 0.0
    ensures a * b > 0.0
  {
  }

  lemma MulNonZero(a: real, b: real)
    requires a != 0.0 && b != 0.0
    ensures a * b != 0.0
  {
  }

  lemma MulMonotone(c: real, x: real, y: real)
    requires c >= 0.0 && x <= y
    ensures c * x <= c * y
  {
  }

  lemma DivSelf(x: real)
    requires x != 0.0
    ensures x / x == 1.0
  {
  }

  /**
   * The bulk modulus -v dP/dV taken with a central difference is the secant slope
   * (lo - hi) / 2h of lo = f(v - h) and hi = f(v + h), scaled by v.
   */
  lemma SecantSlope(f: real --> real, v: real, h: real, lo: real, hi: real)
    requires h != 0.0 && f.requires(v - h) && f.requires(v + h) && lo == f(v - h) && hi == f(v + h)
    ensures -1.0 * v * CentralDifference(f, v, h) == SecantModulus(v, h, lo, hi)
  {
    assert CentralDifference(f, v, h) == (hi - lo) / (2.0 * h);
  }

  /** v (lo - hi) / 2h: the modulus -v dP/dV read off the secant from (v - h, lo) to (v + h, hi). */
  function SecantModulus(v: real, h: real, lo: real, hi: real): real
    requires h != 0.0
  {
    v * (lo - hi) / (2.0 * h)
  }

  /** At v, h > 0 the central-difference modulus is positive where f falls across [v - h, v + h]. */
  lemma SecantPositive(f: real --> real, v: real, h: real, lo: real, hi: real)
    requires h > 0.0 && v > 0.0 && f.requires(v - h) && f.requires(v + h) && lo == f(v - h) && hi == f(v + h)
    requires hi < lo
    ensures -1.0 * v * CentralDifference(f, v, h) > 0.0
  {
    SecantSlope(f, v, h, lo, hi);
    assert (lo - hi) / (2.0 * h) > 0.0;
    MulPositive(v, (lo - hi) / (2.0 * h));
  }

}
