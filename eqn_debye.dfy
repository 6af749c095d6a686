/**
 * The Debye energy function E(x) as the piecewise approximation of the old Fortran
 * routine (pytheos/eqn_debye.py): a polynomial below 0.1, a rational function up to
 * 7.25 and a short exponential series above.
 */
module EqnDebye {
  import opened Wrappers
  import opened Numerics

  /** The small-x branch, 0 < x <= 0.1. */
  function DebyeSmall(x: real): real {
    1.0 - 0.375 * x + x * x * (0.05 - 5.952380953e-4 * x * x)
  }

  /** Denominator of the middle branch. */
  function MiddleDenominator(x: real): real {
    (((x + 15.121491) * x + 143.155337) * x + 682.0012) * x + 3953.632
  }

  /** Numerator of the middle branch. */
  function MiddleNumerator(x: real): real {
    (((0.0946173 * x - 4.432582) * x + 85.07724) * x - 800.6087) * x + 3953.632
  }

  /** The middle branch, 0.1 < x <= 7.25. */
  function DebyeMiddle(x: real): real
    requires x >= 0.0
  {
    MiddleDenominatorPositive(x);
    MiddleNumerator(x) / MiddleDenominator(x)
  }

  /** Number of series terms of the large-x branch: numpy.round(25 / x). */
  function TermCount(x: real): int
    requires x > 0.0
  {
    RoundHalfEven(25.0 / x)
  }

  /** The i-th term of the large-x series, with exx = exp(-x). */
  function SeriesTerm(exx: real, x: real, i: nat): real
    requires i >= 1
  {
    var t := i as real;
    var x3 := t * x;
    IntPow(exx, i) * (6.0 + x3 * (6.0 + x3 * (3.0 + x3))) / (t * t * t * t)
  }

  /** Sum of the first k series terms. */
  function SeriesSum(exx: real, x: real, k: nat): real {
    if k == 0 then 0.0 else SeriesSum(exx, x, k - 1) + SeriesTerm(exx, x, k)
  }

  /** The large-x branch, x > 7.25. */
  function DebyeLarge(m: Ops, x: real): real
    requires x > 0.0
  {
    var n := TermCount(x);
    var temp := if n > 0 then SeriesSum(m.exp(-x), x, n as nat) else 0.0;
    3.0 * (6.493939402 - temp) / (x * x * x)
  }

  /**
   * debye_E_single as a value: one of the three branches, or the UnboundLocalError
   * raised when no branch assigns the result (x <= 0).
   */
  function DebyeE(m: Ops, x: real): (r: Result<real>)
    ensures r.Err? <==> x <= 0.0
    ensures r.Err? ==> r.error == UnboundResult
  {
    if 0.0 < x <= 0.1 then Ok(DebyeSmall(x))
    else if 0.1 < x <= 7.25 then Ok(DebyeMiddle(x))
    else if x > 7.25 then Ok(DebyeLarge(m, x))
    else Err(UnboundResult)
  }

  /**
   * debye_E_single: three independent tests, an unassigned result until one of them
   * fires, and the counted series loop of the large-x branch.
   */
  method DebyeESingle(m: Ops, x: real) returns (r: Result<real>)
    ensures r == DebyeE(m, x)
  {
    var result: Option<real> := None;
    if 0.0 < x && x <= 0.1 {
      result := Some(DebyeSmall(x));
    }
    if 0.1 < x && x <= 7.25 {
      result := Some(DebyeMiddle(x));
    }
    if x > 7.25 {
      var exx := m.exp(-x);
      var n := RoundHalfEven(25.0 / x);
      var temp := 0.0;
      if n > 0 {
        temp := SeriesLoop(exx, x, n);
      }
      result := Some(3.0 * (6.493939402 - temp) / (x * x * x));
    }
    if result.None? {
      r := Err(UnboundResult);
    } else {
      r := Ok(result.value);
    }
  }

  /**
   * The counted loop of the large-x branch: after the iteration for i, temp2 is
   * exx^i and temp is the sum of the first i series terms.
   */
  method SeriesLoop(exx: real, x: real, n: int) returns (temp: real)
    requires n > 0
    ensures temp == SeriesSum(exx, x, n as nat)
  {
    temp := 0.0;
    var temp2 := 1.0;
    for i := 1 to n + 1
      invariant temp2 == IntPow(exx, i - 1)
      invariant temp == SeriesSum(exx, x, i - 1)
    {
      var temps := i as real;
      ghost var prev := temp2;
      temp2 := temp2 * exx;
      var x3 := temps * x;
      var term := temp2 * (6.0 + x3 * (6.0 + x3 * (3.0 + x3))) / (temps * temps * temps * temps);
      SeriesStep(exx, x, i, prev, temp2, temps, x3, term);
      temp := temp + term;
    }
  }

  /** One more term of the series, written as the loop computes it. */
  lemma SeriesStep(exx: real, x: real, i: nat, prev: real, temp2: real, temps: real, x3: real, term: real)
    requires i >= 1 && prev == IntPow(exx, i - 1) && temp2 == prev * exx
    requires temps == i as real && x3 == temps * x
    requires term == temp2 * (6.0 + x3 * (6.0 + x3 * (3.0 + x3))) / (temps * temps * temps * temps)
    ensures temp2 == IntPow(exx, i)
    ensures SeriesSum(exx, x, i) == SeriesSum(exx, x, i - 1) + term
  {
    assert IntPow(exx, i) == exx * prev;
    assert SeriesTerm(exx, x, i) == term;
  }

  /** debye_E: debye_E_single on every element, in the plain and the uncertain mode alike. */
  function DebyeEArray(m: Ops, xs: seq<real>): (r: Result<seq<real>>)
    ensures |xs| == 0 ==> r == Err(IndexError)
    ensures r.Ok? <==> |xs| > 0 && forall i :: 0 <= i < |xs| ==> xs[i] > 0.0
    ensures r.Ok? ==> |r.value| == |xs| && forall i :: 0 <= i < |xs| ==> DebyeE(m, xs[i]) == Ok(r.value[i])
    ensures r.Err? && |xs| > 0 ==> r.error == UnboundResult
  {
    if |xs| == 0 then Err(IndexError) else Vectorize((x: real) => DebyeE(m, x), xs)
  }

  /** The three branch conditions are pairwise disjoint and together cover exactly x > 0. */
  lemma BranchesPartition(x: real)
    ensures !((0.0 < x <= 0.1) && (0.1 < x <= 7.25))
    ensures !((0.0 < x <= 0.1) && x > 7.25)
    ensures !((0.1 < x <= 7.25) && x > 7.25)
    ensures ((0.0 < x <= 0.1) || (0.1 < x <= 7.25) || x > 7.25) <==> x > 0.0
  {
  }

  /** The small-x polynomial lies strictly between 0 and 1 on its branch. */
  lemma DebyeSmallInUnitInterval(x: real)
    requires 0.0 < x <= 0.1
    ensures 0.0 < DebyeSmall(x) < 1.0
  {
    SquareBelowTenth(x);
    FourthPowerSmall(x);
  }

  lemma FourthPowerSmall(x: real)
    requires 0.0 < x <= 0.1
    ensures 0.0 <= x * x * x * x <= 0.0001
  {
    SquareBelowTenth(x);
    MulMonotone(x * x, 0.0, x * x);
    MulMonotone(x * x, x * x, 0.01);
    assert x * x * x * x == (x * x) * (x * x);
  }

  lemma SquareBelowTenth(x: real)
    requires 0.0 < x <= 0.1
    ensures 0.0 < x * x <= 0.1 * x
    ensures x * x <= 0.01
  {
    MulPositive(x, x);
    MulMonotone(x, x, 0.1);
  }

  /** The middle-branch denominator is positive for x >= 0, so the quotient is defined. */
  lemma MiddleDenominatorPositive(x: real)
    requires x >= 0.0
    ensures MiddleDenominator(x) > 0.0
  {
    var a := x + 15.121491;
    MulMonotone(x, 0.0, a);
    var b := a * x + 143.155337;
    MulMonotone(x, 0.0, b);
    var c := b * x + 682.0012;
    MulMonotone(x, 0.0, c);
  }

  /** Above 7.25 the series has between 0 and 3 terms. */
  lemma TermCountBounds(x: real)
    requires x > 7.25
    ensures 0 <= TermCount(x) <= 3
  {
    var r := 25.0 / x;
    assert 0.0 < r;
    assert r * x == 25.0;
    assert r < 3.5 by {
      if r >= 3.5 {
        MulMonotone(x, 3.5, r);
      }
    }
  }

  /** From x = 50 on, 25 / x rounds to 0, so the series is empty. */
  lemma TermCountZero(x: real)
    requires x >= 50.0
    ensures TermCount(x) == 0
  {
    var r := 25.0 / x;
    assert r * x == 25.0;
    assert 0.0 < r <= 0.5 by {
      if r > 0.5 {
        MulMonotone(x, 0.5, r);
      }
    }
  }

  /** With an empty series the large-x branch is the asymptote 3 * 6.493939402 / x^3. */
  lemma DebyeLargeNoTerms(m: Ops, x: real)
    requires x > 7.25 && TermCount(x) == 0
    ensures DebyeE(m, x) == Ok(3.0 * 6.493939402 / (x * x * x))
  {
  }
}
