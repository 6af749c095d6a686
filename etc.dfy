/**
 * The rule that picks the numeric backend (numpy or uncertainties.unumpy):
 * an argument list "has uncertainties" when a scan finds an argument whose
 * leading value is an uncertain number.
 */
module Etc {
  import opened Wrappers

  /** A Python argument, by the kinds the rule distinguishes. */
  datatype Arg =
    | Plain                     // a float, or an int
    | Uncertain                 // an uncertainties.UFloat
    | ListOrTuple(items: seq<Arg>)
    | NdArray(items: seq<Arg>)  // the first-axis entries of numpy.atleast_1d(arg)
    | Other                     // any other object (None, a string, ...)

  /** Looking at `arg[0]` raises an IndexError. */
  predicate RaisesIndexError(a: Arg) {
    (a.ListOrTuple? || a.NdArray?) && |a.items| == 0
  }

  /** The argument makes the list count as uncertain. */
  predicate Qualifies(a: Arg) {
    || a.Uncertain?
    || ((a.ListOrTuple? || a.NdArray?) && |a.items| > 0 && a.items[0].Uncertain?)
  }

  /** isuncertainties: scan the arguments in order, stopping at the first that qualifies. */
  function IsUncertainties(args: seq<Arg>): Result<bool>
    decreases |args|
  {
    if |args| == 0 then Ok(false)
    else if RaisesIndexError(args[0]) then Err(IndexError)
    else if Qualifies(args[0]) then Ok(true)
    else IsUncertainties(args[1..])
  }

  /** The outcome is True exactly when some argument qualifies before any empty list. */
  lemma {:induction false} TrueIffSomeQualifies(args: seq<Arg>)
    ensures IsUncertainties(args) == Ok(true) <==>
      exists k :: 0 <= k < |args| && Qualifies(args[k]) &&
        forall j :: 0 <= j < k ==> !RaisesIndexError(args[j])
  {
    if |args| > 0 {
      TrueIffSomeQualifies(args[1..]);
      if IsUncertainties(args) == Ok(true) && !Qualifies(args[0]) {
        var k :| 0 <= k < |args[1..]| && Qualifies(args[1..][k]) &&
          forall j :: 0 <= j < k ==> !RaisesIndexError(args[1..][j]);
        assert Qualifies(args[k + 1]);
        forall j | 0 <= j < k + 1 ensures !RaisesIndexError(args[j]) {
          if j > 0 { assert args[j] == args[1..][j - 1]; }
        }
      }
      if exists k :: 0 <= k < |args| && Qualifies(args[k]) &&
                  forall j :: 0 <= j < k ==> !RaisesIndexError(args[j]) {
        var k :| 0 <= k < |args| && Qualifies(args[k]) &&
          forall j :: 0 <= j < k ==> !RaisesIndexError(args[j]);
        if k > 0 && !Qualifies(args[0]) {
          assert !RaisesIndexError(args[0]);
          assert Qualifies(args[1..][k - 1]);
          forall j | 0 <= j < k - 1 ensures !RaisesIndexError(args[1..][j]) {
            assert args[1..][j] == args[j + 1];
          }
        }
      }
    }
  }

  /** The outcome is False exactly when no argument qualifies and none raises. */
  lemma {:induction false} FalseIffNoneQualifies(args: seq<Arg>)
    ensures IsUncertainties(args) == Ok(false) <==>
      forall k :: 0 <= k < |args| ==> !Qualifies(args[k]) && !RaisesIndexError(args[k])
  {
    if |args| > 0 {
      FalseIffNoneQualifies(args[1..]);
      if forall k :: 0 <= k < |args| ==> !Qualifies(args[k]) && !RaisesIndexError(args[k]) {
        forall k | 0 <= k < |args[1..]|
          ensures !Qualifies(args[1..][k]) && !RaisesIndexError(args[1..][k])
        {
          assert args[1..][k] == args[k + 1];
        }
      }
      if IsUncertainties(args) == Ok(false) {
        forall k | 0 <= k < |args| ensures !Qualifies(args[k]) && !RaisesIndexError(args[k]) {
          if k > 0 { assert args[k] == args[1..][k - 1]; }
        }
      }
    }
  }

  /** An empty list or tuple reached before any qualifying argument raises an IndexError. */
  lemma {:induction false} IndexErrorIffEmptyFirst(args: seq<Arg>)
    ensures IsUncertainties(args).Err? <==>
      exists k :: 0 <= k < |args| && RaisesIndexError(args[k]) &&
        forall j :: 0 <= j < k ==> !Qualifies(args[j])
    ensures IsUncertainties(args).Err? ==> IsUncertainties(args).error == IndexError
  {
    if |args| > 0 {
      IndexErrorIffEmptyFirst(args[1..]);
      if IsUncertainties(args).Err? && !RaisesIndexError(args[0]) {
        var k :| 0 <= k < |args[1..]| && RaisesIndexError(args[1..][k]) &&
          forall j :: 0 <= j < k ==> !Qualifies(args[1..][j]);
        assert RaisesIndexError(args[k + 1]);
        forall j | 0 <= j < k + 1 ensures !Qualifies(args[j]) {
          if j > 0 { assert args[j] == args[1..][j - 1]; }
        }
      }
      if exists k :: 0 <= k < |args| && RaisesIndexError(args[k]) &&
                  forall j :: 0 <= j < k ==> !Qualifies(args[j]) {
        var k :| 0 <= k < |args| && RaisesIndexError(args[k]) &&
          forall j :: 0 <= j < k ==> !Qualifies(args[j]);
        if k > 0 && !RaisesIndexError(args[0]) {
          assert !Qualifies(args[0]);
          assert RaisesIndexError(args[1..][k - 1]);
          forall j | 0 <= j < k - 1 ensures !Qualifies(args[1..][j]) {
            assert args[1..][j] == args[j + 1];
          }
        }
      }
    }
  }

  /** Only the first element of a list, tuple or array is inspected. */
  lemma OnlyLeadingElementInspected(xs: seq<Arg>, ys: seq<Arg>, rest: seq<Arg>)
    requires |xs| > 0 && |ys| > 0 && xs[0] == ys[0]
    ensures IsUncertainties([ListOrTuple(xs)] + rest) == IsUncertainties([ListOrTuple(ys)] + rest)
    ensures IsUncertainties([NdArray(xs)] + rest) == IsUncertainties([NdArray(ys)] + rest)
  {
    assert ([ListOrTuple(xs)] + rest)[1..] == rest;
    assert ([ListOrTuple(ys)] + rest)[1..] == rest;
    assert ([NdArray(xs)] + rest)[1..] == rest;
    assert ([NdArray(ys)] + rest)[1..] == rest;
  }

  /** A scalar argument qualifies exactly when it is an uncertain number. */
  lemma ScalarQualifiesIffUncertain(a: Arg)
    requires !a.ListOrTuple? && !a.NdArray?
    ensures IsUncertainties([a]) == Ok(a.Uncertain?)
  {
    assert [a][1..] == [];
  }

  /** Tags the parameter values handed to a formula: uncertain or plain. */
  function ScalarArgs(uncertain: seq<bool>): (r: seq<Arg>)
    ensures |r| == |uncertain|
    ensures forall i :: 0 <= i < |r| ==> (r[i] == if uncertain[i] then Uncertain else Plain)
  {
    seq(|uncertain|, i requires 0 <= i < |uncertain| => if uncertain[i] then Uncertain else Plain)
  }

  /** For scalar arguments the rule is "some argument is uncertain", and never raises. */
  lemma {:induction false} ScalarRule(uncertain: seq<bool>)
    ensures IsUncertainties(ScalarArgs(uncertain)) == Ok(true in uncertain)
  {
    if |uncertain| > 0 {
      ScalarRule(uncertain[1..]);
      assert ScalarArgs(uncertain)[1..] == ScalarArgs(uncertain[1..]);
      assert uncertain == [uncertain[0]] + uncertain[1..];
    }
  }
}
