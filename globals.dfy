/** Solver-wide numeric constants and the staleness policy shared by the
    component equations (tespy.tools.global_vars and the throttling rule
    repeated in every component). */
module Globals {

  /** The global tolerance `err` of tespy.tools.global_vars. */
  const Err: real := 0.000001

  /** err ** 2, the threshold below which a residual counts as settled. */
  const ErrSq: real := 0.000000000001

  /** err ** 0.5, the convergence threshold of the Newton loop. */
  const ErrSqrt: real := 0.001

  lemma {:induction false} ConstantsAgree()
    ensures ErrSq == Err * Err
    ensures ErrSqrt * ErrSqrt == Err && ErrSqrt > 0.0
    ensures 0.0 < Err < 0.5
  {
  }

  function Abs(x: real): (r: real)
    ensures r >= 0.0 && (r == x || r == -x)
  {
    if x < 0.0 then -x else x
  }

  /** Python's max(a, b) on numbers: the first argument unless the second is
      strictly greater. */
  function Max(a: real, b: real): (r: real)
    ensures r >= a && r >= b && (r == a || r == b)
  {
    if b > a then b else a
  }

  /** The staleness policy for expensive rows: a throttled residual slot is
      recomputed only when its previous value is not yet settled, on every
      `period`-th iteration (every fourth for component rows, every second
      for the connection rows of the network), or when all equations are
      always recomputed. */
  predicate Recompute(previous: real, it: nat, period: nat, alwaysAllEquations: bool)
    requires period > 0
  {
    Abs(previous) > ErrSq || it % period == 0 || alwaysAllEquations
  }

  /** A slot is kept only when it has settled, the iteration is not a
      multiple of the period and the global flag is off. */
  lemma {:induction false} KeptOnlyWhenSettled(previous: real, it: nat, period: nat, alwaysAllEquations: bool)
    requires period > 0
    ensures !Recompute(previous, it, period, alwaysAllEquations) <==>
      (-ErrSq <= previous <= ErrSq && it % period != 0 && !alwaysAllEquations)
  {
  }

  /** Number of true flags in a sequence. */
  function Count(flags: seq<bool>): (n: nat)
    ensures n <= |flags|
    ensures (forall i :: 0 <= i < |flags| ==> !flags[i]) ==> n == 0
  {
    if |flags| == 0 then 0
    else Count(flags[..|flags| - 1]) + (if flags[|flags| - 1] then 1 else 0)
  }

  lemma {:induction false} CountPrefixStep(flags: seq<bool>, i: nat)
    requires i < |flags|
    ensures Count(flags[..i + 1]) == Count(flags[..i]) + (if flags[i] then 1 else 0)
  {
    assert flags[..i + 1][..i] == flags[..i];
  }

  /** The slot of a set flag is strictly below the total count, so slots of
      distinct set flags are distinct and all lie below Count(flags). */
  lemma {:induction false} CountPrefixMonotone(flags: seq<bool>, i: nat, j: nat)
    requires i <= j <= |flags|
    ensures Count(flags[..i]) <= Count(flags[..j])
    ensures i < j && flags[i] ==> Count(flags[..i]) < Count(flags[..j])
    decreases j - i
  {
    if i < j {
      CountPrefixStep(flags, j - 1);
      CountPrefixMonotone(flags, i, j - 1);
      if i < j - 1 || !flags[i] {
      } else {
        assert i == j - 1;
      }
    }
  }

  /** Sum of a sequence of counts. */
  function NatSum(s: seq<nat>): nat
  {
    if |s| == 0 then 0 else NatSum(s[..|s| - 1]) + s[|s| - 1]
  }

  /** Real sum of a sequence. */
  function Sum(s: seq<real>): real
  {
    if |s| == 0 then 0.0 else Sum(s[..|s| - 1]) + s[|s| - 1]
  }

  lemma {:induction false} SumPrefixStep(s: seq<real>, i: nat)
    requires i < |s|
    ensures Sum(s[..i + 1]) == Sum(s[..i]) + s[i]
  {
    assert s[..i + 1][..i] == s[..i];
  }

  /** Changing one element by delta changes the sum by delta. */
  lemma {:induction false} SumUpdate(s: seq<real>, i: nat, v: real)
    requires i < |s|
    ensures Sum(s[i := v]) == Sum(s) + (v - s[i])
    decreases |s|
  {
    var t := s[i := v];
    if i == |s| - 1 {
      assert t[..|t| - 1] == s[..|s| - 1];
    } else {
      assert t[..|t| - 1] == s[..|s| - 1][i := v];
      SumUpdate(s[..|s| - 1], i, v);
    }
  }
}
