/** The residual-slot protocol shared by the components and the network: a
    fixed list of optional equations, each written at a running row index
    only when its parameter is set, some of them recomputed only under the
    staleness policy of Globals.Recompute. */
module Slots {
  import opened Globals

  /** How a set row treats the residual vector: always overwrite it,
      overwrite it only under the staleness policy, or leave it alone (the
      row exists only in the Jacobian). */
  datatype Mode = Always | Throttled | Untouched

  /** One optional row: whether it is present, the residual value the
      source computes for it, and how it is written. */
  datatype Slot = Slot(isSet: bool, value: real, mode: Mode)

  /** The iteration counter, the period of the staleness policy and the
      global always-all-equations flag. */
  datatype Policy = Policy(it: nat, period: nat, always: bool)

  predicate ValidPolicy(pol: Policy)
  {
    pol.period > 0
  }

  function Flags(slots: seq<Slot>): (f: seq<bool>)
    ensures |f| == |slots| && forall i :: 0 <= i < |slots| ==> f[i] == slots[i].isSet
  {
    seq(|slots|, i requires 0 <= i < |slots| => slots[i].isSet)
  }

  lemma FlagsPrefix(slots: seq<Slot>, n: nat)
    requires n <= |slots|
    ensures Flags(slots[..n]) == Flags(slots)[..n]
  {
  }

  /** The number of rows the slots occupy. */
  function Rows(slots: seq<Slot>): nat
  {
    Count(Flags(slots))
  }

  lemma {:induction false} RowsPrefix(slots: seq<Slot>, n: nat)
    requires n < |slots|
    ensures Rows(slots[..n + 1]) == Rows(slots[..n]) + (if slots[n].isSet then 1 else 0)
    ensures Rows(slots[..n]) <= Rows(slots)
  {
    FlagsPrefix(slots, n);
    FlagsPrefix(slots, n + 1);
    CountPrefixStep(Flags(slots), n);
    CountPrefixMonotone(Flags(slots), n, |slots|);
    assert Flags(slots)[..|slots|] == Flags(slots);
  }

  /** The row index of slot `i`: the start plus the set slots before it. */
  function RowOf(k: nat, slots: seq<Slot>, i: nat): nat
    requires i <= |slots|
  {
    k + Rows(slots[..i])
  }

  /** The value a set row leaves in its residual slot. */
  function Written(previous: real, s: Slot, pol: Policy): real
    requires ValidPolicy(pol)
  {
    match s.mode
    case Always => s.value
    case Throttled => if Recompute(previous, pol.it, pol.period, pol.always) then s.value else previous
    case Untouched => previous
  }

  /** The residual vector after writing the slots in order from row `k`. */
  function Fill(prev: seq<real>, k: nat, slots: seq<Slot>, pol: Policy): (r: seq<real>)
    requires ValidPolicy(pol) && k + Rows(slots) <= |prev|
    ensures |r| == |prev|
    decreases |slots|
  {
    if |slots| == 0 then prev
    else
      var n := |slots| - 1;
      RowsPrefix(slots, n);
      assert slots[..n + 1] == slots;
      var r := Fill(prev, k, slots[..n], pol);
      if slots[n].isSet then
        var row := k + Rows(slots[..n]);
        r[row := Written(r[row], slots[n], pol)]
      else r
  }

  lemma {:induction false} FillAppend(prev: seq<real>, k: nat, slots: seq<Slot>, s: Slot, pol: Policy)
    requires ValidPolicy(pol) && k + Rows(slots + [s]) <= |prev|
    ensures (slots + [s])[..|slots|] == slots
    ensures k + Rows(slots) + (if s.isSet then 1 else 0) == k + Rows(slots + [s])
    ensures Fill(prev, k, slots + [s], pol) ==
      var r := Fill(prev, k, slots, pol);
      if s.isSet then r[k + Rows(slots) := Written(r[k + Rows(slots)], s, pol)] else r
  {
    var all := slots + [s];
    assert all[..|slots|] == slots;
    RowsPrefix(all, |slots|);
    assert all[..|slots| + 1] == all;
  }

  /** Rows outside the block the slots occupy are left as they were. */
  lemma {:induction false} FillOutside(prev: seq<real>, k: nat, slots: seq<Slot>, pol: Policy, j: nat)
    requires ValidPolicy(pol) && k + Rows(slots) <= |prev|
    requires j < |prev| && (j < k || j >= k + Rows(slots))
    ensures Fill(prev, k, slots, pol)[j] == prev[j]
    decreases |slots|
  {
    if |slots| > 0 {
      var n := |slots| - 1;
      RowsPrefix(slots, n);
      assert slots[..n + 1] == slots;
      FillOutside(prev, k, slots[..n], pol, j);
    }
  }

  /** The last slot, when set, is written at the row after the others. */
  lemma {:induction false} FillAtLast(prev: seq<real>, k: nat, slots: seq<Slot>, pol: Policy)
    requires ValidPolicy(pol) && k + Rows(slots) <= |prev|
    requires |slots| > 0 && slots[|slots| - 1].isSet
    ensures RowOf(k, slots, |slots| - 1) < k + Rows(slots)
    ensures Fill(prev, k, slots, pol)[RowOf(k, slots, |slots| - 1)] ==
      Written(prev[RowOf(k, slots, |slots| - 1)], slots[|slots| - 1], pol)
  {
    var n := |slots| - 1;
    RowsPrefix(slots, n);
    assert slots[..n + 1] == slots;
    FillOutside(prev, k, slots[..n], pol, k + Rows(slots[..n]));
  }

  /** Every set slot lands at its row, which it alone writes, and leaves
      there what Written makes of the previous content of that row. */
  lemma {:induction false} FillAt(prev: seq<real>, k: nat, slots: seq<Slot>, pol: Policy, i: nat)
    requires ValidPolicy(pol) && k + Rows(slots) <= |prev|
    requires i < |slots| && slots[i].isSet
    ensures RowOf(k, slots, i) < k + Rows(slots)
    ensures Fill(prev, k, slots, pol)[RowOf(k, slots, i)] == Written(prev[RowOf(k, slots, i)], slots[i], pol)
    decreases |slots|
  {
    var n := |slots| - 1;
    if i == n {
      FillAtLast(prev, k, slots, pol);
    } else {
      var sub := slots[..n];
      RowsPrefix(slots, n);
      assert slots[..n + 1] == slots;
      assert sub[..i] == slots[..i];
      FillAt(prev, k, sub, pol, i);
      var r := Fill(prev, k, sub, pol);
      var row := RowOf(k, sub, i);
      assert row < k + Rows(sub);
      assert Fill(prev, k, slots, pol)[row] == r[row];
    }
  }

  /** A row written by slot `i` holds exactly its value unless the slot is
      throttled and the previous content had settled, or the slot leaves
      the residual alone. */
  lemma {:induction false} FillValue(prev: seq<real>, k: nat, slots: seq<Slot>, pol: Policy, i: nat)
    requires ValidPolicy(pol) && k + Rows(slots) <= |prev|
    requires i < |slots| && slots[i].isSet
    ensures RowOf(k, slots, i) < |prev|
    ensures slots[i].mode == Always ==> Fill(prev, k, slots, pol)[RowOf(k, slots, i)] == slots[i].value
    ensures slots[i].mode == Throttled && Recompute(prev[RowOf(k, slots, i)], pol.it, pol.period, pol.always) ==>
      Fill(prev, k, slots, pol)[RowOf(k, slots, i)] == slots[i].value
    ensures slots[i].mode == Throttled && !Recompute(prev[RowOf(k, slots, i)], pol.it, pol.period, pol.always) ==>
      Fill(prev, k, slots, pol)[RowOf(k, slots, i)] == prev[RowOf(k, slots, i)]
    ensures slots[i].mode == Untouched ==> Fill(prev, k, slots, pol)[RowOf(k, slots, i)] == prev[RowOf(k, slots, i)]
  {
    FillAt(prev, k, slots, pol, i);
  }

  /** Distinct set slots occupy distinct rows, in the order of the slots. */
  lemma {:induction false} RowsIncrease(k: nat, slots: seq<Slot>, i: nat, j: nat)
    requires i < j < |slots| && slots[i].isSet
    ensures RowOf(k, slots, i) < RowOf(k, slots, j)
  {
    FlagsPrefix(slots, i);
    FlagsPrefix(slots, j);
    CountPrefixMonotone(Flags(slots), i, j);
  }

  /** One more slot extends the fill of a prefix: a set slot writes the
      row after those of the prefix, an unset one writes nothing. */
  lemma FillStep(prev: seq<real>, k0: nat, slots: seq<Slot>, pol: Policy, i: nat, cur: seq<real>)
    requires ValidPolicy(pol) && k0 + Rows(slots) <= |prev| && i < |slots| && Rows(slots[..i]) <= Rows(slots)
    requires cur == Fill(prev, k0, slots[..i], pol)
    ensures k0 + Rows(slots[..i]) + (if slots[i].isSet then 1 else 0) == k0 + Rows(slots[..i + 1]) <= k0 + Rows(slots)
    ensures slots[i].isSet ==> k0 + Rows(slots[..i]) < |cur|
    ensures slots[i].isSet ==>
      Fill(prev, k0, slots[..i + 1], pol) == cur[k0 + Rows(slots[..i]) := Written(cur[k0 + Rows(slots[..i])], slots[i], pol)]
    ensures !slots[i].isSet ==> Fill(prev, k0, slots[..i + 1], pol) == cur
  {
    RowsPrefix(slots, i);
    assert slots[..i] + [slots[i]] == slots[..i + 1];
    if i + 1 < |slots| {
      RowsPrefix(slots, i + 1);
    } else {
      assert slots[..i + 1] == slots;
    }
    FillAppend(prev, k0, slots[..i], slots[i], pol);
  }

  /** Write the slots into the residual array from row `k0` on, the loop
      every equations method runs; returns the row after the last one. */
  method WriteSlots(residual: array<real>, k0: nat, slots: seq<Slot>, pol: Policy) returns (k: nat)
    requires ValidPolicy(pol) && k0 + Rows(slots) <= residual.Length
    modifies residual
    ensures k == k0 + Rows(slots)
    ensures residual[..] == Fill(old(residual[..]), k0, slots, pol)
  {
    ghost var prev := residual[..];
    k := k0;
    var i := 0;
    while i < |slots|
      invariant 0 <= i <= |slots|
      invariant k == k0 + Rows(slots[..i]) && Rows(slots[..i]) <= Rows(slots)
      invariant residual[..] == Fill(prev, k0, slots[..i], pol)
    {
      ghost var cur := residual[..];
      FillStep(prev, k0, slots, pol, i, cur);
      if slots[i].isSet {
        residual[k] := Written(residual[k], slots[i], pol);
        assert residual[..] == cur[k := Written(cur[k], slots[i], pol)];
        k := k + 1;
      }
      i := i + 1;
    }
    assert slots[..|slots|] == slots;
  }
}
