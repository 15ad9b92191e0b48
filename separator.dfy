/** The Separator component (src/tespy/components/nodes/separator.py): its
    outlet names, equation count and static rows, and the per-fluid
    component mass balance with its exact Jacobian entries, and the
    temperature-equality rows. Those use the fluid-property evaluator: their
    residuals and their temperature derivatives are inputs. */
module Separator {
  import opened Wrappers
  import opened Globals

  // ---------------------------------------------------------------------
  // Outlet names

  function Digit(d: nat): (c: char)
    requires d < 10
  {
    "0123456789"[d]
  }

  /** Python's str() of a natural number: its decimal digits. */
  function NatToString(n: nat): (s: string)
    ensures |s| >= 1
    ensures n < 10 <==> |s| == 1
    decreases n
  {
    if n < 10 then [Digit(n)] else NatToString(n / 10) + [Digit(n % 10)]
  }

  lemma DigitInjective(a: nat, b: nat)
    requires a < 10 && b < 10 && Digit(a) == Digit(b)
    ensures a == b
  {
  }

  /** Distinct numbers have distinct decimal representations. */
  lemma {:induction false} NatToStringInjective(n: nat, m: nat)
    requires NatToString(n) == NatToString(m)
    ensures n == m
    decreases n
  {
    var s := NatToString(n);
    if n < 10 {
      assert m < 10;
      DigitInjective(n, m);
    } else {
      assert m >= 10;
      assert s[|s| - 1] == Digit(n % 10) == Digit(m % 10);
      DigitInjective(n % 10, m % 10);
      assert s[..|s| - 1] == NatToString(n / 10) == NatToString(m / 10);
      NatToStringInjective(n / 10, m / 10);
    }
  }

  /** The outlet name of the i-th outlet (counted from 0). */
  function OutletName(i: nat): string
  {
    "out" + NatToString(i + 1)
  }

  /** The names 'out1' .. 'outN'. */
  function OutletNames(n: nat): (names: seq<string>)
    ensures |names| == n
    ensures forall i :: 0 <= i < n ==> names[i] == OutletName(i)
  {
    seq(n, i requires 0 <= i < n => OutletName(i))
  }

  /** outlets(): the names for the set number of outlets; an unset number
      becomes 2 first. Returns the names and the number afterwards. */
  function Outlets(numOut: Option<nat>): (r: (seq<string>, nat))
    ensures numOut.Some? ==> r.1 == numOut.value
    ensures numOut.None? ==> r.1 == 2
    ensures r.0 == OutletNames(r.1)
    decreases if numOut.None? then 1 else 0
  {
    match numOut
    case Some(n) => (OutletNames(n), n)
    case None => Outlets(Some(2))
  }

  /** The outlet names are pairwise distinct, so each outlet connection
      has its own port. */
  lemma {:induction false} OutletNamesDistinct(n: nat, i: nat, j: nat)
    requires i < n && j < n && OutletNames(n)[i] == OutletNames(n)[j]
    ensures i == j
  {
    var a, b := NatToString(i + 1), NatToString(j + 1);
    var x := OutletNames(n)[i];
    assert x == "out" + a == "out" + b;
    assert ("out" + a)[3..] == a && ("out" + b)[3..] == b;
    NatToStringInjective(i + 1, j + 1);
  }

  lemma {:induction false} DefaultOutlets()
    ensures Outlets(None).0 == ["out1", "out2"]
  {
    assert NatToString(1) == "1" && NatToString(2) == "2";
    var names := OutletNames(2);
    assert names[0] == "out" + NatToString(1) == "out1";
    assert names[1] == "out" + NatToString(2) == "out2";
  }

  // ---------------------------------------------------------------------
  // Fluid balance

  /** The state of a connection the balance reads: mass flow and fractions. */
  datatype Stream = Stream(m: real, x: map<string, real>)

  predicate Covers(s: Stream, fluids: seq<string>)
  {
    forall f :: 0 <= f < |fluids| ==> fluids[f] in s.x
  }

  predicate AllCover(outs: seq<Stream>, fluids: seq<string>)
  {
    forall o :: 0 <= o < |outs| ==> Covers(outs[o], fluids)
  }

  /** The mass of fluid `fl` carried by each outlet. */
  function OutletMasses(outs: seq<Stream>, fl: string): (r: seq<real>)
    requires forall o :: 0 <= o < |outs| ==> fl in outs[o].x
    ensures |r| == |outs| && forall o :: 0 <= o < |outs| ==> r[o] == outs[o].x[fl] * outs[o].m
  {
    seq(|outs|, o requires 0 <= o < |outs| => outs[o].x[fl] * outs[o].m)
  }

  /** The component mass balance of one fluid: mass in minus mass out. */
  function FluidResidual(inlet: Stream, outs: seq<Stream>, fl: string): real
    requires fl in inlet.x && forall o :: 0 <= o < |outs| ==> fl in outs[o].x
  {
    inlet.x[fl] * inlet.m - Sum(OutletMasses(outs, fl))
  }

  /** The residual vanishes exactly when the fluid's mass is conserved. */
  lemma {:induction false} FluidResidualZero(inlet: Stream, outs: seq<Stream>, fl: string)
    requires fl in inlet.x && forall o :: 0 <= o < |outs| ==> fl in outs[o].x
    ensures FluidResidual(inlet, outs, fl) == 0.0 <==> inlet.x[fl] * inlet.m == Sum(OutletMasses(outs, fl))
  {
  }

  /** 5 kg/s of air with 23 % oxygen split into 1 kg/s at 10 % and 4 kg/s at
      26.25 % conserves the oxygen. */
  lemma {:induction false} SplitExample()
    ensures FluidResidual(Stream(5.0, map["O2" := 0.23]),
                          [Stream(1.0, map["O2" := 0.1]), Stream(4.0, map["O2" := 0.2625])], "O2") == 0.0
  {
    var outs := [Stream(1.0, map["O2" := 0.1]), Stream(4.0, map["O2" := 0.2625])];
    var ms := OutletMasses(outs, "O2");
    assert ms == [0.1, 1.05];
    assert ms[..1] == [0.1] && [0.1][..0] == [];
  }

  /** The inlet entries of a fluid row are the exact partials: x_in on the
      inlet mass flow, m_in on the inlet fraction. */
  lemma {:induction false} FluidDerivInletExact(inlet: Stream, outs: seq<Stream>, fl: string, d: real)
    requires fl in inlet.x && forall o :: 0 <= o < |outs| ==> fl in outs[o].x
    ensures FluidResidual(inlet.(m := inlet.m + d), outs, fl) - FluidResidual(inlet, outs, fl) == d * inlet.x[fl]
    ensures FluidResidual(inlet.(x := inlet.x[fl := inlet.x[fl] + d]), outs, fl) - FluidResidual(inlet, outs, fl) == d * inlet.m
  {
    assert inlet.x[fl] * (inlet.m + d) - inlet.x[fl] * inlet.m == d * inlet.x[fl];
    assert (inlet.x[fl] + d) * inlet.m - inlet.x[fl] * inlet.m == d * inlet.m;
  }

  /** The outlet mass flow entry of a fluid row is the exact partial,
      -x_o. */
  lemma {:induction false} FluidDerivOutletMassExact(inlet: Stream, outs: seq<Stream>, fl: string, o: nat, d: real)
    requires fl in inlet.x && forall j :: 0 <= j < |outs| ==> fl in outs[j].x
    requires o < |outs|
    ensures FluidResidual(inlet, outs[o := outs[o].(m := outs[o].m + d)], fl) - FluidResidual(inlet, outs, fl) == -d * outs[o].x[fl]
  {
    var ms := OutletMasses(outs, fl);
    var oo := outs[o := outs[o].(m := outs[o].m + d)];
    var v := outs[o].x[fl] * (outs[o].m + d);
    assert forall j :: 0 <= j < |outs| ==> OutletMasses(oo, fl)[j] == ms[o := v][j];
    assert OutletMasses(oo, fl) == ms[o := v];
    SumUpdate(ms, o, v);
  }

  /** The outlet fraction entry of a fluid row is the exact partial, -m_o. */
  lemma {:induction false} FluidDerivOutletFractionExact(inlet: Stream, outs: seq<Stream>, fl: string, o: nat, d: real)
    requires fl in inlet.x && forall j :: 0 <= j < |outs| ==> fl in outs[j].x
    requires o < |outs|
    ensures var oo := outs[o := outs[o].(x := outs[o].x[fl := outs[o].x[fl] + d])];
      FluidResidual(inlet, oo, fl) - FluidResidual(inlet, outs, fl) == -d * outs[o].m
  {
    var ms := OutletMasses(outs, fl);
    var ox := outs[o := outs[o].(x := outs[o].x[fl := outs[o].x[fl] + d])];
    var v := (outs[o].x[fl] + d) * outs[o].m;
    assert forall j :: 0 <= j < |outs| ==> fl in ox[j].x;
    assert forall j :: 0 <= j < |outs| ==> OutletMasses(ox, fl)[j] == ms[o := v][j];
    assert OutletMasses(ox, fl) == ms[o := v];
    SumUpdate(ms, o, v);
  }

  // ---------------------------------------------------------------------
  // The component object

  /** A separator with one inlet and `numOut` outlets. */
  class Separator {
    const numIn: nat := 1
    var numOut: nat
    var numFluids: nat
    var numVars: nat
    var numEq: nat
    var residual: array<real>
    var jacobian: array3<real>

    predicate Valid()
      reads this
    {
      && numEq == numIn + 2 * numOut + numFluids
      && residual.Length == numEq
      && jacobian.Length0 == numEq && jacobian.Length1 == numIn + numOut + numVars && jacobian.Length2 == numFluids + 3
    }

    constructor(numOut: nat, numVars: nat)
      ensures this.numOut == numOut && this.numVars == numVars
    {
      this.numOut, this.numVars := numOut, numVars;
      numFluids, numEq := 0, 0;
      residual := new real[0];
      jacobian := new real[0, 0, 0];
    }

    /** comp_init: num_eq, zeroed arrays, and the static rows given by
        `staticRow`: the mass flow row 0 and the pressure rows 1 to
        num_i + num_o - 1. */
    method CompInit(nf: nat, staticRow: (nat, nat, nat) -> real)
      modifies this
      ensures Valid() && numFluids == nf && numOut == old(numOut) && numVars == old(numVars)
      ensures numEq == 1 + 2 * numOut + nf
      ensures fresh(residual) && fresh(jacobian)
      ensures forall i :: 0 <= i < numEq ==> residual[i] == 0.0
      ensures forall r, c, v :: 0 <= r < numEq && 0 <= c < jacobian.Length1 && 0 <= v < nf + 3 ==>
        jacobian[r, c, v] == if r < numIn + numOut then staticRow(r, c, v) else 0.0
    {
      numFluids := nf;
      numEq := numIn + numOut * 2 + nf;
      residual := new real[numEq](_ => 0.0);
      var end := numIn + numOut;
      jacobian := new real[numEq, numIn + numOut + numVars, nf + 3]((r, c, v) => if 0 <= r < end && 0 <= c && 0 <= v then staticRow(r, c, v) else 0.0);
    }

    /** Everything additional_equations and additional_derivatives read:
        the network fluids, the inlet and the outlets. */
    predicate Inputs(fluids: seq<string>, inlet: Stream, outs: seq<Stream>)
      reads this
    {
      |fluids| == numFluids && |outs| == numOut && Covers(inlet, fluids) && AllCover(outs, fluids)
    }

    /** The mass balance of one fluid, accumulated over the outlets. */
    static method BalanceOf(inlet: Stream, outs: seq<Stream>, fl: string) returns (res: real)
      requires fl in inlet.x && forall o :: 0 <= o < |outs| ==> fl in outs[o].x
      ensures res == FluidResidual(inlet, outs, fl)
    {
      ghost var ms := OutletMasses(outs, fl);
      res := inlet.x[fl] * inlet.m;
      var o := 0;
      while o < |outs|
        invariant 0 <= o <= |outs|
        invariant res == inlet.x[fl] * inlet.m - Sum(ms[..o])
      {
        SumPrefixStep(ms, o);
        res := res - outs[o].x[fl] * outs[o].m;
        o := o + 1;
      }
      assert ms[..|outs|] == ms;
    }

    /** The fluid balance rows of additional_equations, one per fluid from
        row `k0` on. */
    method WriteBalances(k0: nat, fluids: seq<string>, inlet: Stream, outs: seq<Stream>) returns (k: nat)
      requires Valid() && Inputs(fluids, inlet, outs) && k0 + numFluids <= numEq
      modifies residual
      ensures k == k0 + numFluids
      ensures forall f :: 0 <= f < numFluids ==> residual[k0 + f] == FluidResidual(inlet, outs, fluids[f])
      ensures forall r :: 0 <= r < numEq && (r < k0 || r >= k) ==> residual[r] == old(residual[r])
    {
      k := k0;
      var f := 0;
      while f < |fluids|
        invariant 0 <= f <= |fluids| && k == k0 + f
        invariant forall g :: 0 <= g < f ==> residual[k0 + g] == FluidResidual(inlet, outs, fluids[g])
        invariant forall r :: 0 <= r < numEq && (r < k0 || r >= k) ==> residual[r] == old(residual[r])
      {
        var res := BalanceOf(inlet, outs, fluids[f]);
        residual[k] := res;
        k := k + 1;
        f := f + 1;
      }
    }

    /** The temperature rows of additional_equations, one per outlet from
        row `k0` on, with the values of `tempRes`. */
    method WriteTemperatureRows(k0: nat, tempRes: seq<real>) returns (k: nat)
      requires Valid() && k0 + |tempRes| <= numEq
      modifies residual
      ensures k == k0 + |tempRes|
      ensures forall o :: 0 <= o < |tempRes| ==> residual[k0 + o] == tempRes[o]
      ensures forall r :: 0 <= r < numEq && (r < k0 || r >= k) ==> residual[r] == old(residual[r])
    {
      k := k0;
      var o := 0;
      while o < |tempRes|
        invariant 0 <= o <= |tempRes| && k == k0 + o
        invariant forall p :: 0 <= p < o ==> residual[k0 + p] == tempRes[p]
        invariant forall r :: 0 <= r < numEq && (r < k0 || r >= k) ==> residual[r] == old(residual[r])
      {
        residual[k] := tempRes[o];
        k := k + 1;
        o := o + 1;
      }
    }

    /** additional_equations: one fluid balance row per fluid, then one
        temperature row per outlet from `tempRes`; returns the next row. */
    method AdditionalEquations(k0: nat, fluids: seq<string>, inlet: Stream, outs: seq<Stream>, tempRes: seq<real>)
      returns (k: nat)
      requires Valid() && Inputs(fluids, inlet, outs) && |tempRes| == numOut
      requires k0 + numFluids + numOut <= numEq
      modifies residual
      ensures k == k0 + numFluids + numOut
      ensures forall f :: 0 <= f < numFluids ==> residual[k0 + f] == FluidResidual(inlet, outs, fluids[f])
      ensures forall o :: 0 <= o < numOut ==> residual[k0 + numFluids + o] == tempRes[o]
      ensures forall r :: 0 <= r < numEq && (r < k0 || r >= k) ==> residual[r] == old(residual[r])
    {
      var mid := WriteBalances(k0, fluids, inlet, outs);
      label Balanced:
      k := WriteTemperatureRows(mid, tempRes);
      forall f | 0 <= f < numFluids
        ensures residual[k0 + f] == FluidResidual(inlet, outs, fluids[f])
      {
        assert residual[k0 + f] == old@Balanced(residual[k0 + f]);
      }
    }

    /** Row `row` of the Jacobian holds the derivatives of the balance of
        fluid `f` (named `fl`): -x_o and -m_o for every outlet, x_in and m_in
        for the inlet (fluid `f` has variable index f + 3). */
    predicate FluidRowWritten(row: nat, f: nat, fl: string, inlet: Stream, outs: seq<Stream>)
      reads this, jacobian
    {
      && row < jacobian.Length0 && |outs| < jacobian.Length1 && f + 3 < jacobian.Length2
      && fl in inlet.x && (forall o :: 0 <= o < |outs| ==> fl in outs[o].x)
      && jacobian[row, 0, 0] == inlet.x[fl] && jacobian[row, 0, f + 3] == inlet.m
      && forall o :: 0 <= o < |outs| ==>
        jacobian[row, o + 1, 0] == -outs[o].x[fl] && jacobian[row, o + 1, f + 3] == -outs[o].m
    }

    /** Write one fluid row; the other rows keep their entries. */
    method WriteFluidRow(row: nat, f: nat, fl: string, inlet: Stream, outs: seq<Stream>)
      requires Valid() && row < numEq && f < numFluids && |outs| == numOut
      requires fl in inlet.x && forall o :: 0 <= o < |outs| ==> fl in outs[o].x
      modifies jacobian
      ensures FluidRowWritten(row, f, fl, inlet, outs)
      ensures forall r, c, v :: 0 <= r < numEq && 0 <= c < jacobian.Length1 && 0 <= v < jacobian.Length2 && (r != row || c > |outs| || (v != 0 && v != f + 3)) ==>
        jacobian[r, c, v] == old(jacobian[r, c, v])
    {
      var o := 0;
      while o < |outs|
        invariant 0 <= o <= |outs|
        invariant forall p :: 0 <= p < o ==>
          jacobian[row, p + 1, 0] == -outs[p].x[fl] && jacobian[row, p + 1, f + 3] == -outs[p].m
        invariant forall r, c, v :: 0 <= r < numEq && 0 <= c < jacobian.Length1 && 0 <= v < jacobian.Length2 && (r != row || c == 0 || c > o || (v != 0 && v != f + 3)) ==>
          jacobian[r, c, v] == old(jacobian[r, c, v])
      {
        jacobian[row, o + 1, 0] := -outs[o].x[fl];
        jacobian[row, o + 1, f + 3] := -outs[o].m;
        o := o + 1;
      }
      jacobian[row, 0, 0] := inlet.x[fl];
      jacobian[row, 0, f + 3] := inlet.m;
    }

    /** The Jacobian rows of the fluid balances, one per fluid from row
        `k0` on; the other rows keep their entries. */
    method WriteFluidRows(k0: nat, fluids: seq<string>, inlet: Stream, outs: seq<Stream>) returns (k: nat)
      requires Valid() && Inputs(fluids, inlet, outs)
      requires k0 + numFluids <= numEq
      modifies jacobian
      ensures k == k0 + numFluids
      ensures forall f :: 0 <= f < numFluids ==> FluidRowWritten(k0 + f, f, fluids[f], inlet, outs)
      ensures forall r, c, v :: 0 <= r < numEq && 0 <= c < jacobian.Length1 && 0 <= v < jacobian.Length2 && (r < k0 || r >= k || c > |outs| || (v != 0 && v != r - k0 + 3)) ==>
        jacobian[r, c, v] == old(jacobian[r, c, v])
    {
      k := k0;
      var f := 0;
      while f < |fluids|
        invariant 0 <= f <= |fluids| && k == k0 + f
        invariant forall g :: 0 <= g < f ==> FluidRowWritten(k0 + g, g, fluids[g], inlet, outs)
        invariant forall r, c, v :: 0 <= r < numEq && 0 <= c < jacobian.Length1 && 0 <= v < jacobian.Length2 && (r < k0 || r >= k || c > |outs| || (v != 0 && v != r - k0 + 3)) ==>
          jacobian[r, c, v] == old(jacobian[r, c, v])
      {
        label Before:
        WriteFluidRow(k, f, fluids[f], inlet, outs);
        // earlier rows lie outside the row just written
        forall g | 0 <= g < f
          ensures FluidRowWritten(k0 + g, g, fluids[g], inlet, outs)
        {
          assert old@Before(FluidRowWritten(k0 + g, g, fluids[g], inlet, outs));
          assert k0 + g != k && g + 3 < jacobian.Length2;
          assert jacobian[k0 + g, 0, 0] == old@Before(jacobian[k0 + g, 0, 0]);
          assert jacobian[k0 + g, 0, g + 3] == old@Before(jacobian[k0 + g, 0, g + 3]);
          forall o | 0 <= o < |outs|
            ensures jacobian[k0 + g, o + 1, 0] == -outs[o].x[fluids[g]]
            ensures jacobian[k0 + g, o + 1, g + 3] == -outs[o].m
          {
            assert jacobian[k0 + g, o + 1, 0] == old@Before(jacobian[k0 + g, o + 1, 0]);
            assert jacobian[k0 + g, o + 1, g + 3] == old@Before(jacobian[k0 + g, o + 1, g + 3]);
          }
        }
        k := k + 1;
        f := f + 1;
      }
    }

    /** The temperature derivatives of the inlet's flow (`dIn`) and of each
        outlet's flow (`dOut[j]`): dT_mix_dph, dT_mix_pdh and
        dT_mix_ph_dfluid for every network fluid, so that entry `v - 1`
        belongs to variable position `v`. */
    predicate TempDerivsFit(dIn: seq<real>, dOut: seq<seq<real>>)
      reads this
    {
      |dIn| == numFluids + 2 && |dOut| == numOut && forall j :: 0 <= j < |dOut| ==> |dOut[j]| == numFluids + 2
    }

    /** Row `row` of the Jacobian holds the derivatives of a temperature
        equality between the inlet and the outlet at port `port`: those of
        the inlet's temperature and minus those of the outlet's, for
        pressure (v = 1), enthalpy (v = 2) and every fluid fraction
        (v = 3 + fluid index). */
    predicate TempRowWritten(row: nat, port: nat, dIn: seq<real>, dOutlet: seq<real>)
      reads this, jacobian
    {
      && row < jacobian.Length0 && port < jacobian.Length1
      && |dIn| + 1 == jacobian.Length2 && |dOutlet| + 1 == jacobian.Length2
      && forall v :: 1 <= v < jacobian.Length2 ==>
        jacobian[row, 0, v] == dIn[v - 1] && jacobian[row, port, v] == -dOutlet[v - 1]
    }

    /** Write the temperature row of the outlet at port `port` at row
        `row`; the other cells keep their entries. */
    method WriteTempRow(row: nat, port: nat, dIn: seq<real>, dOutlet: seq<real>)
      requires Valid() && row < numEq && 0 < port <= numOut
      requires |dIn| == numFluids + 2 && |dOutlet| == numFluids + 2
      modifies jacobian
      ensures TempRowWritten(row, port, dIn, dOutlet)
      ensures forall r, c, v :: 0 <= r < numEq && 0 <= c < jacobian.Length1 && 0 <= v < jacobian.Length2 && (r != row || (c != 0 && c != port) || v == 0) ==>
        jacobian[r, c, v] == old(jacobian[r, c, v])
    {
      var v := 1;
      while v < numFluids + 3
        invariant 1 <= v <= numFluids + 3
        invariant forall w :: 1 <= w < v ==> jacobian[row, 0, w] == dIn[w - 1] && jacobian[row, port, w] == -dOutlet[w - 1]
        invariant forall r, c, w :: 0 <= r < numEq && 0 <= c < jacobian.Length1 && 0 <= w < jacobian.Length2 && (r != row || (c != 0 && c != port) || w == 0 || w >= v) ==>
          jacobian[r, c, w] == old(jacobian[r, c, w])
      {
        jacobian[row, 0, v] := dIn[v - 1];
        jacobian[row, port, v] := -dOutlet[v - 1];
        v := v + 1;
      }
    }

    /** The Jacobian rows of the temperature equalities, one per outlet
        from row `k0` on; the other rows keep their entries. */
    method WriteTempRows(k0: nat, dIn: seq<real>, dOut: seq<seq<real>>) returns (k: nat)
      requires Valid() && k0 + numOut <= numEq && TempDerivsFit(dIn, dOut)
      modifies jacobian
      ensures k == k0 + numOut
      ensures forall j :: 0 <= j < numOut ==> TempRowWritten(k0 + j, j + 1, dIn, dOut[j])
      ensures forall r, c, v :: 0 <= r < numEq && 0 <= c < jacobian.Length1 && 0 <= v < jacobian.Length2 && (r < k0 || r >= k || (c != 0 && c != r - k0 + 1) || v == 0) ==>
        jacobian[r, c, v] == old(jacobian[r, c, v])
    {
      k := k0;
      var j := 0;
      while j < numOut
        invariant 0 <= j <= numOut && k == k0 + j
        invariant forall g :: 0 <= g < j ==> TempRowWritten(k0 + g, g + 1, dIn, dOut[g])
        invariant forall r, c, v :: 0 <= r < numEq && 0 <= c < jacobian.Length1 && 0 <= v < jacobian.Length2 && (r < k0 || r >= k || (c != 0 && c != r - k0 + 1) || v == 0) ==>
          jacobian[r, c, v] == old(jacobian[r, c, v])
      {
        label Before:
        WriteTempRow(k, j + 1, dIn, dOut[j]);
        // earlier rows lie outside the row just written
        forall g | 0 <= g < j
          ensures TempRowWritten(k0 + g, g + 1, dIn, dOut[g])
        {
          assert old@Before(TempRowWritten(k0 + g, g + 1, dIn, dOut[g]));
          var row := k0 + g;
          forall v | 1 <= v < jacobian.Length2
            ensures jacobian[row, 0, v] == dIn[v - 1] && jacobian[row, g + 1, v] == -dOut[g][v - 1]
          {
            assert jacobian[row, 0, v] == old@Before(jacobian[row, 0, v]);
            assert jacobian[row, g + 1, v] == old@Before(jacobian[row, g + 1, v]);
          }
        }
        k := k + 1;
        j := j + 1;
      }
    }

    /** additional_derivatives: the Jacobian rows of the fluid balances, one
        per fluid from row `k0` on, then those of the temperature
        equalities, one per outlet, from the temperature derivatives `dIn`
        of the inlet and `dOut` of the outlets; returns the next row. The
        other rows keep their entries. */
    method AdditionalDerivatives(k0: nat, fluids: seq<string>, inlet: Stream, outs: seq<Stream>,
                                 dIn: seq<real>, dOut: seq<seq<real>>)
      returns (k: nat)
      requires Valid() && Inputs(fluids, inlet, outs) && TempDerivsFit(dIn, dOut)
      requires k0 + numFluids + numOut <= numEq
      modifies jacobian
      ensures k == k0 + numFluids + numOut
      ensures forall f :: 0 <= f < numFluids ==> FluidRowWritten(k0 + f, f, fluids[f], inlet, outs)
      ensures forall j :: 0 <= j < numOut ==> TempRowWritten(k0 + numFluids + j, j + 1, dIn, dOut[j])
      ensures forall r, c, v :: 0 <= r < numEq && 0 <= c < jacobian.Length1 && 0 <= v < jacobian.Length2 && (r < k0 || r >= k) ==>
        jacobian[r, c, v] == old(jacobian[r, c, v])
      ensures forall r, c, v :: (0 <= r < numEq && 0 <= c < jacobian.Length1 && 0 <= v < jacobian.Length2 &&
                                 k0 <= r < k0 + numFluids && (c > |outs| || (v != 0 && v != r - k0 + 3))) ==>
        jacobian[r, c, v] == old(jacobian[r, c, v])
      ensures forall r, c, v :: (0 <= r < numEq && 0 <= c < jacobian.Length1 && 0 <= v < jacobian.Length2 &&
                                 k0 + numFluids <= r < k && ((c != 0 && c != r - k0 - numFluids + 1) || v == 0)) ==>
        jacobian[r, c, v] == old(jacobian[r, c, v])
    {
      var mid := WriteFluidRows(k0, fluids, inlet, outs);
      label Balanced:
      k := WriteTempRows(mid, dIn, dOut);
      // the fluid rows lie before the temperature rows
      forall f | 0 <= f < numFluids
        ensures FluidRowWritten(k0 + f, f, fluids[f], inlet, outs)
      {
        assert old@Balanced(FluidRowWritten(k0 + f, f, fluids[f], inlet, outs));
        assert jacobian[k0 + f, 0, 0] == old@Balanced(jacobian[k0 + f, 0, 0]);
        assert jacobian[k0 + f, 0, f + 3] == old@Balanced(jacobian[k0 + f, 0, f + 3]);
        forall o | 0 <= o < |outs|
          ensures jacobian[k0 + f, o + 1, 0] == -outs[o].x[fluids[f]]
          ensures jacobian[k0 + f, o + 1, f + 3] == -outs[o].m
        {
          assert jacobian[k0 + f, o + 1, 0] == old@Balanced(jacobian[k0 + f, o + 1, 0]);
          assert jacobian[k0 + f, o + 1, f + 3] == old@Balanced(jacobian[k0 + f, o + 1, f + 3]);
        }
      }
    }
  }
}
