/** The HeatExchanger component (src/tespy/components/heat_exchangers/heat_exchanger.py):
    its equation count, the order of its residual slots, its linear
    equations with their hand-written Jacobian entries, the temperature
    clamp inside the logarithmic mean temperature difference and its
    post-processing. Connections are seen through their SI state; the
    temperatures of the fluid-property evaluator, the characteristic-line
    values, the fluid and zeta residuals and the natural logarithm are
    inputs. */
module HeatExchanger {
  import opened Wrappers
  import opened Globals
  import opened Slots

  /** The SI state of one connection at the component. */
  datatype Port = Port(m: real, p: real, h: real)

  /** A component parameter: whether it is set, its value, its design value. */
  datatype Param = Param(isSet: bool, val: real, design: real)

  /** Temperatures at inlet 1, inlet 2, outlet 1 and outlet 2. */
  datatype Temps = Temps(ti1: real, ti2: real, to1: real, to2: real)

  /** Ports are ordered inlet 1, inlet 2, outlet 1, outlet 2, the order of
      the component's connection list and of the Jacobian's second index. */
  const In1: nat := 0
  const In2: nat := 1
  const Out1: nat := 2
  const Out2: nat := 3

  /** The variables of a connection block: mass flow, pressure, enthalpy. */
  const VarM: nat := 0
  const VarP: nat := 1
  const VarH: nat := 2

  predicate FourPorts(ports: seq<Port>)
  {
    |ports| == 4
  }

  /** The value of variable `v` of a port. */
  function VarOf(pt: Port, v: nat): real
    requires v < 3
  {
    if v == VarM then pt.m else if v == VarP then pt.p else pt.h
  }

  /** The ports with `d` added to variable `v` of port `q`. */
  function Perturb(ports: seq<Port>, q: nat, v: nat, d: real): (r: seq<Port>)
    requires q < |ports| && v < 3
    ensures |r| == |ports| && forall i :: 0 <= i < |ports| && i != q ==> r[i] == ports[i]
    ensures VarOf(r[q], v) == VarOf(ports[q], v) + d
    ensures forall w :: 0 <= w < 3 && w != v ==> VarOf(r[q], w) == VarOf(ports[q], w)
  {
    var pt := ports[q];
    ports[q := if v == VarM then pt.(m := pt.m + d) else if v == VarP then pt.(p := pt.p + d) else pt.(h := pt.h + d)]
  }

  // ---------------------------------------------------------------------
  // Equation count and slot order

  /** The optional parameters in the order comp_init counts them and
      equations writes them: Q, kA, kA_char, ttd_u, ttd_l, pr1, pr2, zeta1,
      zeta2. */
  const NumOptional: nat := 9

  /** comp_init: two fluid rows per fluid, two mass rows, the energy row,
      and one row per set optional parameter. */
  function NumEq(numFluids: nat, flags: seq<bool>): (n: nat)
    ensures n >= 2 * numFluids + 3
    ensures n <= 2 * numFluids + 3 + |flags|
  {
    2 * numFluids + 3 + Count(flags)
  }

  /** Which of the parameters are set. */
  function SetFlags(ps: seq<Param>): (flags: seq<bool>)
    ensures |flags| == |ps| && forall i :: 0 <= i < |ps| ==> flags[i] == ps[i].isSet
  {
    seq(|ps|, i requires 0 <= i < |ps| => ps[i].isSet)
  }

  /** The first optional row follows the mandatory ones. */
  function FirstOptionalRow(numFluids: nat): nat
  {
    2 * numFluids + 3
  }

  // ---------------------------------------------------------------------
  // Mass and energy balance

  /** mass_flow_func: inlet i minus outlet i on both sides. */
  function MassFlowResidual(ports: seq<Port>): (r: seq<real>)
    requires FourPorts(ports)
    ensures |r| == 2
  {
    [ports[In1].m - ports[Out1].m, ports[In2].m - ports[Out2].m]
  }

  /** mass_flow_deriv: +1 at inlet i and -1 at outlet i in the mass flow
      column of row i, zero elsewhere. */
  function MassFlowDeriv(row: nat, q: nat, v: nat): real
  {
    if v != VarM then 0.0
    else if q == row then 1.0
    else if q == row + 2 then -1.0
    else 0.0
  }

  /** The mass flow Jacobian entries are the exact partial derivatives:
      the residuals are linear, so every difference quotient equals them. */
  lemma {:induction false} MassFlowDerivExact(ports: seq<Port>, row: nat, q: nat, v: nat, d: real)
    requires FourPorts(ports) && row < 2 && q < 4 && v < 3
    ensures MassFlowResidual(Perturb(ports, q, v, d))[row] - MassFlowResidual(ports)[row] == d * MassFlowDeriv(row, q, v)
  {
    var r := Perturb(ports, q, v, d);
    if v == VarM {
      assert r[q].m == ports[q].m + d;
    } else {
      assert r[q].m == ports[q].m;
    }
  }

  /** energy_func: the heat released by side 1 is taken up by side 2. */
  function Energy(ports: seq<Port>): real
    requires FourPorts(ports)
  {
    ports[In1].m * (ports[Out1].h - ports[In1].h) + ports[In2].m * (ports[Out2].h - ports[In2].h)
  }

  /** The energy row of derivatives: for each side the enthalpy rise in the
      inlet mass flow column, minus the inlet mass flow at the inlet
      enthalpy and the inlet mass flow at the outlet enthalpy. */
  function EnergyDeriv(ports: seq<Port>, q: nat, v: nat): real
    requires FourPorts(ports)
  {
    if q == In1 && v == VarM then ports[Out1].h - ports[In1].h
    else if q == In2 && v == VarM then ports[Out2].h - ports[In2].h
    else if q == In1 && v == VarH then -ports[In1].m
    else if q == In2 && v == VarH then -ports[In2].m
    else if q == Out1 && v == VarH then ports[In1].m
    else if q == Out2 && v == VarH then ports[In2].m
    else 0.0
  }

  /** The cells of the energy row derivatives writes: the mass flow at both
      inlets and the enthalpy at all four ports. */
  predicate EnergyCell(q: int, v: int)
  {
    (v == VarM && (q == In1 || q == In2)) || (0 <= q < 4 && v == VarH)
  }

  /** Perturbing a variable of In1 changes the balance by `d` times its
      entry in the energy row. */
  lemma EnergyIn1Exact(ports: seq<Port>, v: nat, d: real)
    requires FourPorts(ports) && v < 3
    ensures Energy(Perturb(ports, In1, v, d)) - Energy(ports) == d * EnergyDeriv(ports, In1, v)
  {
    var pt := ports[In1];
    var r := Perturb(ports, In1, v, d);
    assert r[Out1] == ports[Out1] && r[In2] == ports[In2] && r[Out2] == ports[Out2];
    if v == VarM {
      assert r[In1].m == pt.m + d && r[In1].h == pt.h;
    } else if v == VarH {
      assert r[In1].m == pt.m && r[In1].h == pt.h + d;
    } else {
      assert r[In1].m == pt.m && r[In1].h == pt.h;
    }
  }

  /** Perturbing a variable of In2 changes the balance by `d` times its
      entry in the energy row. */
  lemma EnergyIn2Exact(ports: seq<Port>, v: nat, d: real)
    requires FourPorts(ports) && v < 3
    ensures Energy(Perturb(ports, In2, v, d)) - Energy(ports) == d * EnergyDeriv(ports, In2, v)
  {
    var pt := ports[In2];
    var r := Perturb(ports, In2, v, d);
    assert r[Out2] == ports[Out2] && r[In1] == ports[In1] && r[Out1] == ports[Out1];
    if v == VarM {
      assert r[In2].m == pt.m + d && r[In2].h == pt.h;
    } else if v == VarH {
      assert r[In2].m == pt.m && r[In2].h == pt.h + d;
    } else {
      assert r[In2].m == pt.m && r[In2].h == pt.h;
    }
  }

  /** Perturbing a variable of Out1 changes the balance by `d` times its
      entry in the energy row. */
  lemma EnergyOut1Exact(ports: seq<Port>, v: nat, d: real)
    requires FourPorts(ports) && v < 3
    ensures Energy(Perturb(ports, Out1, v, d)) - Energy(ports) == d * EnergyDeriv(ports, Out1, v)
  {
    var pt := ports[Out1];
    var r := Perturb(ports, Out1, v, d);
    assert r[In1] == ports[In1] && r[In2] == ports[In2] && r[Out2] == ports[Out2];
    if v == VarM {
      assert r[Out1].m == pt.m + d && r[Out1].h == pt.h;
    } else if v == VarH {
      assert r[Out1].m == pt.m && r[Out1].h == pt.h + d;
    } else {
      assert r[Out1].m == pt.m && r[Out1].h == pt.h;
    }
  }

  /** Perturbing a variable of Out2 changes the balance by `d` times its
      entry in the energy row. */
  lemma EnergyOut2Exact(ports: seq<Port>, v: nat, d: real)
    requires FourPorts(ports) && v < 3
    ensures Energy(Perturb(ports, Out2, v, d)) - Energy(ports) == d * EnergyDeriv(ports, Out2, v)
  {
    var pt := ports[Out2];
    var r := Perturb(ports, Out2, v, d);
    assert r[In2] == ports[In2] && r[In1] == ports[In1] && r[Out1] == ports[Out1];
    if v == VarM {
      assert r[Out2].m == pt.m + d && r[Out2].h == pt.h;
    } else if v == VarH {
      assert r[Out2].m == pt.m && r[Out2].h == pt.h + d;
    } else {
      assert r[Out2].m == pt.m && r[Out2].h == pt.h;
    }
  }

  /** Every entry of the energy row is the exact partial derivative of
      energy_func: the balance is affine in each single variable. */
  lemma {:induction false} EnergyDerivExact(ports: seq<Port>, q: nat, v: nat, d: real)
    requires FourPorts(ports) && q < 4 && v < 3
    ensures Energy(Perturb(ports, q, v, d)) - Energy(ports) == d * EnergyDeriv(ports, q, v)
  {
    if q == In1 {
      EnergyIn1Exact(ports, v, d);
    } else if q == In2 {
      EnergyIn2Exact(ports, v, d);
    } else if q == Out1 {
      EnergyOut1Exact(ports, v, d);
    } else {
      EnergyOut2Exact(ports, v, d);
    }
  }

  /** The energy balance vanishes exactly when the two heat flows cancel. */
  lemma {:induction false} EnergyZeroWhenBalanced(ports: seq<Port>)
    requires FourPorts(ports)
    ensures Energy(ports) == 0.0 <==>
      ports[In1].m * (ports[In1].h - ports[Out1].h) == ports[In2].m * (ports[Out2].h - ports[In2].h)
  {
  }

  // ---------------------------------------------------------------------
  // Heat transfer, pressure ratio and terminal temperature differences

  /** The Q equation: heat released on side 1 minus the set value. */
  function QResidual(ports: seq<Port>, q: real): real
    requires FourPorts(ports)
  {
    ports[In1].m * (ports[Out1].h - ports[In1].h) - q
  }

  /** The Q row of derivatives and the row entry the kA row shares. */
  function QDeriv(ports: seq<Port>, q: nat, v: nat): real
    requires FourPorts(ports)
  {
    if q == In1 && v == VarM then ports[Out1].h - ports[In1].h
    else if q == In1 && v == VarH then -ports[In1].m
    else if q == Out1 && v == VarH then ports[In1].m
    else 0.0
  }

  /** The cells of the Q row: inlet mass flow, inlet and outlet enthalpy of side 1. */
  predicate QCell(q: int, v: int)
  {
    (q == In1 && (v == VarM || v == VarH)) || (q == Out1 && v == VarH)
  }

  lemma {:induction false} QDerivExact(ports: seq<Port>, value: real, q: nat, v: nat, d: real)
    requires FourPorts(ports) && q < 4 && v < 3
    ensures QResidual(Perturb(ports, q, v, d), value) - QResidual(ports, value) == d * QDeriv(ports, q, v)
  {
    var r := Perturb(ports, q, v, d);
    assert r[q] == (if v == VarM then ports[q].(m := ports[q].m + d) else if v == VarP then ports[q].(p := ports[q].p + d) else ports[q].(h := ports[q].h + d));
    if q == In1 && v == VarH {
      assert QResidual(r, value) - QResidual(ports, value) == ports[In1].m * (-d);
    } else if q == In1 && v == VarM {
      assert QResidual(r, value) - QResidual(ports, value) == d * (ports[Out1].h - ports[In1].h);
    }
  }

  /** The pressure ratio equations pr1 and pr2: ratio times inlet pressure
      minus outlet pressure on one side (side 0 or 1). */
  function PrResidual(ports: seq<Port>, side: nat, pr: real): real
    requires FourPorts(ports) && side < 2
  {
    pr * ports[side].p - ports[side + 2].p
  }

  /** Their Jacobian rows: the ratio at the inlet pressure and -1 at the
      outlet pressure. */
  function PrDeriv(side: nat, pr: real, q: nat, v: nat): real
  {
    if q == side && v == VarP then pr
    else if q == side + 2 && v == VarP then -1.0
    else 0.0
  }

  /** The cells of a pressure ratio row: inlet and outlet pressure of its side. */
  predicate PrCell(side: nat, q: int)
  {
    q == side || q == side + 2
  }

  lemma {:induction false} PrDerivExact(ports: seq<Port>, side: nat, pr: real, q: nat, v: nat, d: real)
    requires FourPorts(ports) && side < 2 && q < 4 && v < 3
    ensures PrResidual(Perturb(ports, q, v, d), side, pr) - PrResidual(ports, side, pr) == d * PrDeriv(side, pr, q, v)
  {
    var r := Perturb(ports, q, v, d);
    assert r[q] == (if v == VarM then ports[q].(m := ports[q].m + d) else if v == VarP then ports[q].(p := ports[q].p + d) else ports[q].(h := ports[q].h + d));
    if q == side && v == VarP {
      assert PrResidual(r, side, pr) - PrResidual(ports, side, pr) == pr * d;
    }
  }

  /** The pressure ratio equation holds exactly when the outlet pressure is
      the inlet pressure scaled by the ratio. */
  lemma {:induction false} PrResidualZero(ports: seq<Port>, side: nat, pr: real)
    requires FourPorts(ports) && side < 2
    ensures PrResidual(ports, side, pr) == 0.0 <==> ports[side + 2].p == pr * ports[side].p
  {
  }

  /** ttd_u_func and ttd_l_func on the evaluator's temperatures. */
  function TtdUResidual(ttdU: real, t: Temps): real
  {
    ttdU - t.ti1 + t.to2
  }

  function TtdLResidual(ttdL: real, t: Temps): real
  {
    ttdL - t.to1 + t.ti2
  }

  lemma {:induction false} TtdResidualsZero(ttdU: real, ttdL: real, t: Temps)
    ensures TtdUResidual(ttdU, t) == 0.0 <==> t.ti1 - t.to2 == ttdU
    ensures TtdLResidual(ttdL, t) == 0.0 <==> t.to1 - t.ti2 == ttdL
  {
  }

  // ---------------------------------------------------------------------
  // The logarithmic mean temperature difference

  /** The four guards of kA_func and kA_char_func, in order. */
  function ClampTemps(t: Temps): (r: Temps)
    ensures r.ti1 > r.to2 && r.to1 > r.ti2
    ensures t.ti1 > t.to2 && t.to1 > t.ti2 ==> r == t
    ensures r.ti2 == t.ti2 || r.ti2 == r.to1 - 0.02
  {
    var ti1 := if t.ti1 <= t.to2 then t.to2 + 0.01 else t.ti1;
    var to2 := if ti1 <= t.to2 then ti1 - 0.01 else t.to2;
    var to1 := if ti1 <= to2 then t.ti2 + 0.02 else t.to1;
    var ti2 := if to1 <= t.ti2 then to1 - 0.02 else t.ti2;
    Temps(ti1, ti2, to1, to2)
  }

  /** After the first guard the hot end is feasible, so the second and the
      third guard, which test the hot end again, never change anything:
      the clamp only raises T_i1 or lowers T_i2. */
  lemma {:induction false} ClampSecondAndThirdGuardsDead(t: Temps)
    ensures var ti1 := if t.ti1 <= t.to2 then t.to2 + 0.01 else t.ti1;
            !(ti1 <= t.to2)
    ensures ClampTemps(t).to2 == t.to2 && ClampTemps(t).to1 == t.to1
    ensures ClampTemps(t).ti1 == (if t.ti1 <= t.to2 then t.to2 + 0.01 else t.ti1)
    ensures ClampTemps(t).ti2 == (if t.to1 <= t.ti2 then t.to1 - 0.02 else t.ti2)
  {
  }

  /** What the model assumes of the logarithm it is given: ln(1) = 0 and the
      strict bounds 1 - 1/x < ln(x) < x - 1 for every other positive x. */
  ghost predicate LogBounds(ln: real -> real)
  {
    ln(1.0) == 0.0 && forall x :: x > 0.0 && x != 1.0 ==> 1.0 - 1.0 / x < ln(x) < x - 1.0
  }

  /** The logarithmic mean of the hot-end and cold-end differences as
      kA_func writes it, (dCold - dHot) / ln(dCold / dHot); `None` where the
      quotient is 0/0, that is, when both differences are equal. */
  function TdLogAsWritten(dHot: real, dCold: real, ln: real -> real): Option<real>
    requires dHot > 0.0 && dCold > 0.0
  {
    if ln(dCold / dHot) == 0.0 then None else Some((dCold - dHot) / ln(dCold / dHot))
  }

  /** Equal terminal differences, as in a balanced counter-current
      exchanger, make the formula 0/0. */
  lemma {:induction false} TdLogAsWrittenUndefined(ln: real -> real)
    requires LogBounds(ln)
    ensures TdLogAsWritten(10.0, 10.0, ln) == None
  {
    assert 10.0 / 10.0 == 1.0;
  }

  /** The logarithmic mean with its limit at equal differences. */
  function TdLog(dHot: real, dCold: real, ln: real -> real): (r: real)
    requires dHot > 0.0 && dCold > 0.0 && LogBounds(ln)
    ensures dHot == dCold ==> r == dHot
    ensures dHot != dCold ==> TdLogAsWritten(dHot, dCold, ln) == Some(r)
  {
    if dHot == dCold then dHot
    else
      LogNonZero(dHot, dCold, ln);
      (dCold - dHot) / ln(dCold / dHot)
  }

  lemma LogNonZero(dHot: real, dCold: real, ln: real -> real)
    requires dHot > 0.0 && dCold > 0.0 && LogBounds(ln) && dHot != dCold
    ensures ln(dCold / dHot) != 0.0
  {
    var x := dCold / dHot;
    assert x * dHot == dCold;
    assert x > 0.0 && x != 1.0;
    assert 1.0 - 1.0 / x < ln(x) < x - 1.0;
    if x > 1.0 {
      assert 1.0 / x < 1.0;
    }
  }

  lemma ScaleStrict(a: real, b: real, c: real)
    requires a < b && c > 0.0
    ensures a * c < b * c
  {
  }

  lemma ScaleLe(a: real, b: real, c: real)
    requires a <= b && c >= 0.0
    ensures a * c <= b * c
  {
  }

  lemma CancelLe(a: real, b: real, c: real)
    requires c > 0.0 && a * c <= b * c
    ensures a <= b
  {
    if a > b {
      ScaleStrict(b, a, c);
    }
  }

  /** The scaled logarithm bounds place (dCold - dHot) / l between the two
      differences, for l = ln(dCold / dHot). */
  lemma {:induction false} MeanBetween(dHot: real, dCold: real, x: real, l: real)
    requires dHot > 0.0 && dCold > 0.0 && x * dHot == dCold && x != 1.0
    requires 1.0 - 1.0 / x < l < x - 1.0
    ensures l != 0.0
    ensures dHot < dCold ==> dHot < (dCold - dHot) / l < dCold
    ensures dCold < dHot ==> dCold < (dCold - dHot) / l < dHot
  {
    var diff := dCold - dHot;
    assert x > 0.0;
    assert (x - 1.0) * dHot == diff;
    ScaleStrict(l, x - 1.0, dHot);
    assert (1.0 / x) * x == 1.0;
    assert (1.0 - 1.0 / x) * dCold == diff by {
      assert (1.0 / x) * dCold == (1.0 / x) * x * dHot;
    }
    ScaleStrict(1.0 - 1.0 / x, l, dCold);
    assert l * dHot < diff < l * dCold;
    if x > 1.0 {
      assert 1.0 / x < 1.0;
    }
    assert l != 0.0;
    var r := diff / l;
    assert r * l == diff;
    if l > 0.0 {
      CancelLe(r, dCold, l);
      CancelLe(dHot, r, l);
    } else {
      CancelLe(dCold, r, -l);
      CancelLe(r, dHot, -l);
    }
  }

  /** The logarithmic mean lies between the two terminal differences, so it
      is positive and kA can be computed from it. */
  lemma {:induction false} TdLogBetween(dHot: real, dCold: real, ln: real -> real)
    requires dHot > 0.0 && dCold > 0.0 && LogBounds(ln)
    ensures dHot <= dCold ==> dHot <= TdLog(dHot, dCold, ln) <= dCold
    ensures dCold <= dHot ==> dCold <= TdLog(dHot, dCold, ln) <= dHot
    ensures TdLog(dHot, dCold, ln) > 0.0
  {
    if dHot != dCold {
      var x := dCold / dHot;
      assert x * dHot == dCold;
      assert x > 0.0 && x != 1.0;
      MeanBetween(dHot, dCold, x, ln(x));
    }
  }

  /** The logarithmic mean of the clamped temperatures: hot end
      T_i1 - T_o2, cold end T_o1 - T_i2, both positive after the clamp. */
  function TdLogClamped(t: Temps, ln: real -> real): (r: real)
    requires LogBounds(ln)
    ensures r > 0.0
  {
    var c := ClampTemps(t);
    TdLogBetween(c.ti1 - c.to2, c.to1 - c.ti2, ln);
    TdLog(c.ti1 - c.to2, c.to1 - c.ti2, ln)
  }

  /** kA_func: heat released by side 1 plus kA times the mean difference. */
  function KAResidual(ports: seq<Port>, kA: real, t: Temps, ln: real -> real): real
    requires FourPorts(ports) && LogBounds(ln)
  {
    ports[In1].m * (ports[Out1].h - ports[In1].h) + kA * TdLogClamped(t, ln)
  }

  /** The mass flow entry derivatives writes by hand in the kA row is the
      exact partial; the temperatures do not depend on the mass flow. */
  lemma {:induction false} KADerivMassExact(ports: seq<Port>, kA: real, t: Temps, ln: real -> real, d: real)
    requires FourPorts(ports) && LogBounds(ln)
    ensures KAResidual(Perturb(ports, In1, VarM, d), kA, t, ln) - KAResidual(ports, kA, t, ln) == d * (ports[Out1].h - ports[In1].h)
  {
    var r := Perturb(ports, In1, VarM, d);
    assert r[In1].m == ports[In1].m + d && r[In1].h == ports[In1].h && r[Out1] == ports[Out1];
    assert KAResidual(r, kA, t, ln) - KAResidual(ports, kA, t, ln) == (r[In1].m - ports[In1].m) * (ports[Out1].h - ports[In1].h);
  }

  /** The characteristic factor of one side: the evaluated line when it is
      a function of the mass flow, else 1. */
  function SideFactor(isMassParam: bool, evaluated: real): real
  {
    if isMassParam then evaluated else 1.0
  }

  /** fkA: the harmonic mean of the two side factors. */
  function FkA(f1: real, f2: real): (r: real)
    requires f1 != 0.0 && f2 != 0.0 && 1.0 / f1 + 1.0 / f2 != 0.0
  {
    2.0 / (1.0 / f1 + 1.0 / f2)
  }

  /** The harmonic mean of positive factors times their sum is twice their
      product. */
  lemma FkAProduct(f1: real, f2: real)
    requires f1 > 0.0 && f2 > 0.0
    ensures 1.0 / f1 + 1.0 / f2 > 0.0
    ensures FkA(f1, f2) * (f1 + f2) == 2.0 * f1 * f2
  {
    var s := 1.0 / f1 + 1.0 / f2;
    assert 1.0 / f1 > 0.0 && 1.0 / f2 > 0.0;
    var r := FkA(f1, f2);
    assert r * s == 2.0;
    assert s * f1 * f2 == f1 + f2 by {
      assert (1.0 / f1) * f1 == 1.0;
      assert (1.0 / f2) * f2 == 1.0;
    }
    assert r * (s * f1 * f2) == (r * s) * f1 * f2;
  }

  /** A value whose product with the sum of two positive bounds is twice
      their product lies between them. */
  lemma MeanBounds(lo: real, hi: real, r: real)
    requires 0.0 < lo <= hi && r * (lo + hi) == 2.0 * lo * hi
    ensures lo <= r <= hi
  {
    ScaleLe(lo, hi, lo);
    ScaleLe(lo, hi, hi);
    assert lo * lo <= hi * lo && lo * hi <= hi * hi;
    assert 2.0 * lo * hi == lo * hi + lo * hi;
    assert lo * (lo + hi) == lo * lo + lo * hi;
    assert hi * (lo + hi) == lo * hi + hi * hi;
    assert lo * (lo + hi) <= r * (lo + hi);
    assert r * (lo + hi) <= hi * (lo + hi);
    CancelLe(lo, r, lo + hi);
    CancelLe(r, hi, lo + hi);
  }

  /** The harmonic mean of positive factors lies between them, is symmetric
      and is 1 when neither side has a characteristic. */
  lemma {:induction false} FkABetween(f1: real, f2: real)
    requires f1 > 0.0 && f2 > 0.0
    ensures 1.0 / f1 + 1.0 / f2 > 0.0
    ensures f1 <= f2 ==> f1 <= FkA(f1, f2) <= f2
    ensures f2 <= f1 ==> f2 <= FkA(f1, f2) <= f1
    ensures FkA(f1, f2) == FkA(f2, f1)
    ensures f1 == f2 ==> FkA(f1, f2) == f1
  {
    FkAProduct(f1, f2);
    var r := FkA(f1, f2);
    if f1 <= f2 {
      MeanBounds(f1, f2, r);
    } else {
      assert r * (f2 + f1) == 2.0 * f2 * f1;
      MeanBounds(f2, f1, r);
    }
  }

  lemma {:induction false} FkANeutral()
    ensures FkA(SideFactor(false, 0.0), SideFactor(false, 0.0)) == 1.0
  {
  }

  /** kA_char_func: heat released by side 1 plus the design kA scaled by
      fkA times the mean difference. */
  function KACharResidual(ports: seq<Port>, kADesign: real, f1: real, f2: real, t: Temps, ln: real -> real): real
    requires FourPorts(ports) && LogBounds(ln)
    requires f1 != 0.0 && f2 != 0.0 && 1.0 / f1 + 1.0 / f2 != 0.0
  {
    ports[In1].m * (ports[Out1].h - ports[In1].h) + kADesign * FkA(f1, f2) * TdLogClamped(t, ln)
  }

  // ---------------------------------------------------------------------
  // Post-processing

  /** The guard of calc_parameters, as written: the mean is computed unless
      a terminal difference is negative. */
  predicate PostGuardAsWritten(ttdU: real, ttdL: real)
  {
    !(ttdU < 0.0 || ttdL < 0.0)
  }

  /** The guard admits a zero upper difference, where ttd_l / ttd_u divides
      by zero, and equal differences, where the formula is 0/0. */
  lemma {:induction false} PostGuardAdmitsUndefined(ln: real -> real)
    requires LogBounds(ln)
    ensures PostGuardAsWritten(0.0, 5.0)
    ensures PostGuardAsWritten(5.0, 5.0) && ln(5.0 / 5.0) == 0.0
  {
    assert 5.0 / 5.0 == 1.0;
  }

  /** td_log of calc_parameters with the guard excluding zero differences
      and the limit at equal ones; `None` where the source stores NaN. */
  function PostTdLog(ttdU: real, ttdL: real, ln: real -> real): (r: Option<real>)
    requires LogBounds(ln)
    ensures r.Some? <==> ttdU > 0.0 && ttdL > 0.0
    ensures r.Some? ==> r.value > 0.0
    ensures r.Some? && ttdU != ttdL ==> TdLogAsWritten(ttdU, ttdL, ln) == r
  {
    if ttdU <= 0.0 || ttdL <= 0.0 then None
    else
      TdLogBetween(ttdU, ttdL, ln);
      Some(TdLog(ttdU, ttdL, ln))
  }

  /** The values calc_parameters derives: Q, ttd_u, ttd_l, pr1, pr2, td_log
      and kA (`None` for NaN). */
  datatype Results = Results(q: real, ttdU: real, ttdL: real, pr1: real, pr2: real, tdLog: Option<real>, kA: Option<real>)

  /** calc_parameters on the ports and the connections' SI temperatures. */
  function CalcResults(ports: seq<Port>, t: Temps, ln: real -> real): (r: Results)
    requires FourPorts(ports) && LogBounds(ln)
    requires ports[In1].p != 0.0 && ports[In2].p != 0.0
    ensures r.ttdU == t.ti1 - t.to2 && r.ttdL == t.to1 - t.ti2
    ensures r.pr1 * ports[In1].p == ports[Out1].p && r.pr2 * ports[In2].p == ports[Out2].p
    ensures r.q == QResidual(ports, 0.0)
    ensures r.tdLog.Some? <==> r.ttdU > 0.0 && r.ttdL > 0.0
    ensures r.kA.Some? <==> r.tdLog.Some?
    ensures r.kA.Some? ==> r.kA.value * r.tdLog.value == -r.q
  {
    var q := ports[In1].m * (ports[Out1].h - ports[In1].h);
    var ttdU := t.ti1 - t.to2;
    var ttdL := t.to1 - t.ti2;
    var td := PostTdLog(ttdU, ttdL, ln);
    Results(q, ttdU, ttdL, ports[Out1].p / ports[In1].p, ports[Out2].p / ports[In2].p, td,
            if td.Some? then Some(-q / td.value) else None)
  }

  /** A heat exchanger that transfers heat from side 1 (Q < 0) across
      positive terminal differences gets a positive kA. */
  lemma {:induction false} CalcResultsPositiveKA(ports: seq<Port>, t: Temps, ln: real -> real)
    requires FourPorts(ports) && LogBounds(ln)
    requires ports[In1].p != 0.0 && ports[In2].p != 0.0
    requires t.ti1 > t.to2 && t.to1 > t.ti2 && QResidual(ports, 0.0) < 0.0
    ensures CalcResults(ports, t, ln).kA.Some? && CalcResults(ports, t, ln).kA.value > 0.0
  {
    var r := CalcResults(ports, t, ln);
    assert r.kA.value * r.tdLog.value == -r.q;
  }

  // ---------------------------------------------------------------------
  // The component object

  // ---------------------------------------------------------------------
  // Numerically differentiated entries

  /** The cells whose entries derivatives takes from numeric_deriv in the
      row of optional parameter `i`, in the order the source writes them:
      pressure and enthalpy at all four ports for kA (1); the two inlet mass
      flows, then pressure and enthalpy at all four ports for kA_char (2);
      pressure and enthalpy at inlet 1 and outlet 2 for ttd_u (3) and at
      inlet 2 and outlet 1 for ttd_l (4); mass flow, pressure and enthalpy
      at the inlet, pressure and enthalpy at the outlet of side 1 for zeta1
      (7) and of side 2 for zeta2 (8). The other rows have none. */
  function NumericCells(i: nat): (cells: seq<(int, int)>)
    ensures forall c :: c in cells ==> 0 <= c.0 < 4 && 0 <= c.1 < 3
    ensures i != 2 && i != 7 && i != 8 ==> forall c :: c in cells ==> c.1 != VarM
  {
    var ph := [(0, 1), (0, 2), (1, 1), (1, 2), (2, 1), (2, 2), (3, 1), (3, 2)];
    if i == 1 then ph
    else if i == 2 then [(0, 0), (1, 0)] + ph
    else if i == 3 then [(0, 1), (0, 2), (3, 1), (3, 2)]
    else if i == 4 then [(1, 1), (1, 2), (2, 1), (2, 2)]
    else if i == 7 then [(0, 0), (0, 1), (0, 2), (2, 1), (2, 2)]
    else if i == 8 then [(1, 0), (1, 1), (1, 2), (3, 1), (3, 2)]
    else []
  }

  /** A cell's value after a write that may leave it alone. */
  function EntryOr(prev: real, e: Option<real>): real
  {
    if e.Some? then e.value else prev
  }

  /** A heat exchanger: its optional parameters, the characteristic-line
      kinds of its two sides, and the arrays comp_init allocates. */
  class HeatExchanger {
    var numFluids: nat
    var numVars: nat
    var q: Param
    var kA: Param
    var kAChar: Param
    var ttdU: Param
    var ttdL: Param
    var pr1: Param
    var pr2: Param
    var zeta1: Param
    var zeta2: Param
    var kAChar1IsMass: bool
    var kAChar2IsMass: bool
    var numEq: nat
    var residual: array<real>
    var jacobian: array3<real>
    var it: nat
    var alwaysAllEquations: bool
    var results: Option<Results>

    /** The optional parameters in counting order. */
    function Optional(): (ps: seq<Param>)
      reads this`q, this`kA, this`kAChar, this`ttdU, this`ttdL, this`pr1, this`pr2, this`zeta1, this`zeta2
      ensures |ps| == NumOptional
    {
      [q, kA, kAChar, ttdU, ttdL, pr1, pr2, zeta1, zeta2]
    }

    function OptionalFlags(): (flags: seq<bool>)
      reads this`q, this`kA, this`kAChar, this`ttdU, this`ttdL, this`pr1, this`pr2, this`zeta1, this`zeta2
      ensures |flags| == NumOptional
    {
      SetFlags(Optional())
    }

    /** The row of optional parameter `i` (in counting order). */
    function OptionalRow(i: nat): nat
      reads this
      requires i <= NumOptional
    {
      FirstOptionalRow(numFluids) + Count(OptionalFlags()[..i])
    }

    /** The arrays have the shapes comp_init gives them. */
    predicate Valid()
      reads this
    {
      && numEq == NumEq(numFluids, OptionalFlags())
      && residual.Length == numEq
      && jacobian.Length0 == numEq && jacobian.Length1 == 4 + numVars && jacobian.Length2 == numFluids + 3
    }

    constructor(q: Param, kA: Param, kAChar: Param, ttdU: Param, ttdL: Param,
                pr1: Param, pr2: Param, zeta1: Param, zeta2: Param,
                kAChar1IsMass: bool, kAChar2IsMass: bool, numVars: nat)
      ensures this.q == q && this.kA == kA && this.kAChar == kAChar && this.ttdU == ttdU && this.ttdL == ttdL
      ensures this.pr1 == pr1 && this.pr2 == pr2 && this.zeta1 == zeta1 && this.zeta2 == zeta2
      ensures this.kAChar1IsMass == kAChar1IsMass && this.kAChar2IsMass == kAChar2IsMass
      ensures this.numVars == numVars && this.results == None && this.it == 0
      ensures fresh(this.residual) && fresh(this.jacobian)
    {
      this.q, this.kA, this.kAChar, this.ttdU, this.ttdL := q, kA, kAChar, ttdU, ttdL;
      this.pr1, this.pr2, this.zeta1, this.zeta2 := pr1, pr2, zeta1, zeta2;
      this.kAChar1IsMass, this.kAChar2IsMass := kAChar1IsMass, kAChar2IsMass;
      this.numVars := numVars;
      numFluids := 0;
      numEq := 0;
      residual := new real[0];
      jacobian := new real[0, 0, 0];
      it := 0;
      alwaysAllEquations := false;
      results := None;
    }

    /** comp_init: count the equations, allocate zeroed arrays and write the
        static mass flow rows. */
    method CompInit(nf: nat)
      modifies this`numFluids, this`numEq, this`residual, this`jacobian
      ensures Valid() && numFluids == nf
      ensures numEq == 2 * nf + 3 + Count(OptionalFlags())
      ensures fresh(residual) && fresh(jacobian)
      ensures forall i :: 0 <= i < numEq ==> residual[i] == 0.0
      ensures forall row, qq, v :: 0 <= row < 2 && 0 <= qq < 4 && 0 <= v < nf + 3 ==>
        jacobian[2 * nf + row, qq, v] == MassFlowDeriv(row, qq, v)
    {
      var n := CountEquations(nf, OptionalFlags());
      var res := new real[n](_ => 0.0);
      var jac := NewJacobian(n, 4 + numVars, nf);
      numFluids, numEq := nf, n;
      residual, jacobian := res, jac;
    }

    /** The equation count loop of comp_init. */
    static method CountEquations(nf: nat, flags: seq<bool>) returns (n: nat)
      ensures n == 2 * nf + 3 + Count(flags)
    {
      n := 2 * nf + 3;
      var i := 0;
      while i < |flags|
        invariant 0 <= i <= |flags|
        invariant n == 2 * nf + 3 + Count(flags[..i])
      {
        CountPrefixStep(flags, i);
        if flags[i] {
          n := n + 1;
        }
        i := i + 1;
      }
      assert flags[..|flags|] == flags;
    }

    /** A zeroed Jacobian block holding the static mass flow rows
        mass_flow_deriv writes at rows 2 nf and 2 nf + 1. */
    static method NewJacobian(rows: nat, cols: nat, nf: nat) returns (jac: array3<real>)
      requires 2 * nf + 2 <= rows && cols >= 4
      ensures fresh(jac)
      ensures jac.Length0 == rows && jac.Length1 == cols && jac.Length2 == nf + 3
      ensures forall row, qq, v :: 0 <= row < 2 && 0 <= qq < 4 && 0 <= v < nf + 3 ==>
        jac[2 * nf + row, qq, v] == MassFlowDeriv(row, qq, v)
    {
      jac := new real[rows, cols, nf + 3]((_, _, _) => 0.0);
      jac[2 * nf, In1, VarM] := 1.0;
      jac[2 * nf, Out1, VarM] := -1.0;
      jac[2 * nf + 1, In2, VarM] := 1.0;
      jac[2 * nf + 1, Out2, VarM] := -1.0;
    }

    /** The slots of the optional equations for the current inputs. */
    function OptionalSlots(ports: seq<Port>, t: Temps, ln: real -> real,
                           eval1: real, eval2: real, zeta1Res: real, zeta2Res: real): (slots: seq<Slot>)
      reads this
      requires FourPorts(ports) && LogBounds(ln)
      requires kAChar.isSet ==> CharFactorsUsable(eval1, eval2)
      ensures |slots| == NumOptional && Flags(slots) == OptionalFlags()
    {
      var f1 := SideFactor(kAChar1IsMass, eval1);
      var f2 := SideFactor(kAChar2IsMass, eval2);
      [Slot(q.isSet, QResidual(ports, q.val), Always),
       Slot(kA.isSet, KAResidual(ports, kA.val, t, ln), Throttled),
       Slot(kAChar.isSet, if kAChar.isSet then KACharResidual(ports, kA.design, f1, f2, t, ln) else 0.0, Throttled),
       Slot(ttdU.isSet, TtdUResidual(ttdU.val, t), Always),
       Slot(ttdL.isSet, TtdLResidual(ttdL.val, t), Always),
       Slot(pr1.isSet, PrResidual(ports, 0, pr1.val), Always),
       Slot(pr2.isSet, PrResidual(ports, 1, pr2.val), Always),
       Slot(zeta1.isSet, zeta1Res, Throttled),
       Slot(zeta2.isSet, zeta2Res, Throttled)]
    }

    /** The characteristic values give a defined harmonic mean. */
    predicate CharFactorsUsable(eval1: real, eval2: real)
      reads this
    {
      var f1 := SideFactor(kAChar1IsMass, eval1);
      var f2 := SideFactor(kAChar2IsMass, eval2);
      f1 != 0.0 && f2 != 0.0 && 1.0 / f1 + 1.0 / f2 != 0.0
    }

    /** The residual vector equations leaves: fluid rows, mass rows and the
        energy row, then the optional slots from row 2 nf + 3 on. */
    function ResidualAfter(prev: seq<real>, fluidRes: seq<real>, ports: seq<Port>, t: Temps, ln: real -> real,
                           eval1: real, eval2: real, zeta1Res: real, zeta2Res: real): (r: seq<real>)
      reads this
      requires |prev| == numEq == NumEq(numFluids, OptionalFlags()) && |fluidRes| == 2 * numFluids
      requires FourPorts(ports) && LogBounds(ln)
      requires kAChar.isSet ==> CharFactorsUsable(eval1, eval2)
      ensures |r| == numEq
    {
      var base := fluidRes + MassFlowResidual(ports) + [Energy(ports)] + prev[2 * numFluids + 3..];
      Fill(base, FirstOptionalRow(numFluids), OptionalSlots(ports, t, ln, eval1, eval2, zeta1Res, zeta2Res),
           Policy(it, 4, alwaysAllEquations))
    }

    /** The fixed rows of equations: the fluid rows, the two mass rows and
        the energy row; the rows after them keep their values. */
    method WriteFixedRows(fluidRes: seq<real>, ports: seq<Port>)
      requires Valid() && |fluidRes| == 2 * numFluids && FourPorts(ports)
      modifies residual
      ensures residual[..] == fluidRes + MassFlowResidual(ports) + [Energy(ports)] + old(residual[..])[2 * numFluids + 3..]
    {
      var prev := residual[..];
      var nf := numFluids;
      var j := 0;
      while j < 2 * nf
        invariant 0 <= j <= 2 * nf
        invariant forall r :: 0 <= r < j ==> residual[r] == fluidRes[r]
        invariant forall r :: j <= r < residual.Length ==> residual[r] == prev[r]
      {
        residual[j] := fluidRes[j];
        j := j + 1;
      }
      var mass := MassFlowResidual(ports);
      residual[2 * nf] := mass[0];
      residual[2 * nf + 1] := mass[1];
      residual[2 * nf + 2] := Energy(ports);
      assert residual[..] == fluidRes + mass + [Energy(ports)] + prev[2 * nf + 3..];
    }

    /** equations: write every residual slot; returns the row index where
        additional equations would start, which is num_eq. */
    method Equations(fluidRes: seq<real>, ports: seq<Port>, t: Temps, ln: real -> real,
                     eval1: real, eval2: real, zeta1Res: real, zeta2Res: real) returns (k: nat)
      requires Valid() && |fluidRes| == 2 * numFluids
      requires FourPorts(ports) && LogBounds(ln)
      requires kAChar.isSet ==> CharFactorsUsable(eval1, eval2)
      modifies residual
      ensures k == numEq
      ensures residual[..] == ResidualAfter(old(residual[..]), fluidRes, ports, t, ln, eval1, eval2, zeta1Res, zeta2Res)
    {
      WriteFixedRows(fluidRes, ports);
      var slots := OptionalSlots(ports, t, ln, eval1, eval2, zeta1Res, zeta2Res);
      k := WriteSlots(residual, FirstOptionalRow(numFluids), slots, Policy(it, 4, alwaysAllEquations));
    }

    /** The entry the row of optional parameter `i` holds in cell (qq, v)
        after derivatives, or None where the row leaves the cell alone: the
        hand-written entries of the Q, kA and pr rows, and `numDeriv(i, qq, v)`,
        the value numeric_deriv gives, wherever the increment filter
        `filtered` does not skip the cell. */
    function OptionalEntry(i: nat, ports: seq<Port>, filtered: (int, int) -> bool, numDeriv: (nat, int, int) -> real,
                           qq: int, v: int): Option<real>
      reads this`pr1, this`pr2
      requires FourPorts(ports)
    {
      if i == 0 && QCell(qq, v) then Some(QDeriv(ports, qq, v))
      else if i == 1 && qq == In1 && v == VarM then Some(ports[Out1].h - ports[In1].h)
      else if i == 5 && PrCell(0, qq) && v == VarP then Some(PrDeriv(0, pr1.val, qq, v))
      else if i == 6 && PrCell(1, qq) && v == VarP then Some(PrDeriv(1, pr2.val, qq, v))
      else if (qq, v) in NumericCells(i) && !filtered(qq, v) then Some(numDeriv(i, qq, v))
      else None
    }

    /** The entry the rows of the optional parameters before `n` leave in
        cell (r, qq, v): a set parameter's row sits at its OptionalRow. */
    function OptionalEntries(n: nat, ports: seq<Port>, filtered: (int, int) -> bool, numDeriv: (nat, int, int) -> real,
                             r: int, qq: int, v: int): Option<real>
      reads this
      requires n <= NumOptional && FourPorts(ports)
      decreases n
    {
      if n == 0 then None
      else if OptionalFlags()[n - 1] && r == OptionalRow(n - 1) then OptionalEntry(n - 1, ports, filtered, numDeriv, qq, v)
      else OptionalEntries(n - 1, ports, filtered, numDeriv, r, qq, v)
    }

    /** The entry derivatives leaves in cell (r, qq, v), or None where the
        cell keeps its value. */
    function DerivEntry(ports: seq<Port>, filtered: (int, int) -> bool, numDeriv: (nat, int, int) -> real,
                        r: int, qq: int, v: int): Option<real>
      reads this
      requires FourPorts(ports)
    {
      if r == 2 * numFluids + 2 then (if EnergyCell(qq, v) then Some(EnergyDeriv(ports, qq, v)) else None)
      else OptionalEntries(NumOptional, ports, filtered, numDeriv, r, qq, v)
    }

    /** The optional rows write only below the row of parameter `n`. */
    lemma {:induction false} OptionalEntriesBelow(n: nat, ports: seq<Port>, filtered: (int, int) -> bool,
                                                  numDeriv: (nat, int, int) -> real, r: int, qq: int, v: int)
      requires n <= NumOptional && FourPorts(ports)
      requires OptionalEntries(n, ports, filtered, numDeriv, r, qq, v).Some?
      ensures FirstOptionalRow(numFluids) <= r < OptionalRow(n)
    {
      var flags := OptionalFlags();
      CountPrefixMonotone(flags, n - 1, n);
      if !(flags[n - 1] && r == OptionalRow(n - 1)) {
        OptionalEntriesBelow(n - 1, ports, filtered, numDeriv, r, qq, v);
      }
    }

    /** One more optional row: the cells of the row of parameter `i`, when
        it is set, are not written by the rows before it. */
    lemma OptionalEntriesNext(i: nat, ports: seq<Port>, filtered: (int, int) -> bool, numDeriv: (nat, int, int) -> real,
                              r: int, qq: int, v: int, prev: real)
      requires i < NumOptional && FourPorts(ports)
      ensures EntryOr(EntryOr(prev, OptionalEntries(i, ports, filtered, numDeriv, r, qq, v)),
                      if OptionalFlags()[i] && r == OptionalRow(i) then OptionalEntry(i, ports, filtered, numDeriv, qq, v) else None)
        == EntryOr(prev, OptionalEntries(i + 1, ports, filtered, numDeriv, r, qq, v))
    {
      if OptionalFlags()[i] && r == OptionalRow(i) && OptionalEntries(i, ports, filtered, numDeriv, r, qq, v).Some? {
        OptionalEntriesBelow(i, ports, filtered, numDeriv, r, qq, v);
      }
    }

    /** The row of a set optional parameter holds that parameter's entries
        and no other's. */
    lemma {:induction false} OptionalEntriesAt(n: nat, i: nat, ports: seq<Port>, filtered: (int, int) -> bool,
                                               numDeriv: (nat, int, int) -> real, qq: int, v: int)
      requires i < n <= NumOptional && FourPorts(ports) && OptionalFlags()[i]
      ensures OptionalEntries(n, ports, filtered, numDeriv, OptionalRow(i), qq, v)
        == OptionalEntry(i, ports, filtered, numDeriv, qq, v)
    {
      if i < n - 1 {
        CountPrefixMonotone(OptionalFlags(), i, n - 1);
        OptionalEntriesAt(n - 1, i, ports, filtered, numDeriv, qq, v);
      }
    }

    /** derivatives writes the energy row and the rows of the set optional
        parameters, each at its counting position below num_eq, and leaves
        the fluid and mass flow rows and every other row alone. */
    lemma DerivEntryRows(ports: seq<Port>, filtered: (int, int) -> bool, numDeriv: (nat, int, int) -> real)
      requires Valid() && FourPorts(ports)
      ensures forall qq, v ::
        DerivEntry(ports, filtered, numDeriv, 2 * numFluids + 2, qq, v) == (if EnergyCell(qq, v) then Some(EnergyDeriv(ports, qq, v)) else None)
      ensures forall i :: 0 <= i < NumOptional && OptionalFlags()[i] ==> OptionalRow(i) < numEq
      ensures forall i, qq, v :: 0 <= i < NumOptional && OptionalFlags()[i] ==>
        DerivEntry(ports, filtered, numDeriv, OptionalRow(i), qq, v) == OptionalEntry(i, ports, filtered, numDeriv, qq, v)
      ensures forall r, qq, v :: (r < 2 * numFluids + 2 || r >= numEq) ==>
        DerivEntry(ports, filtered, numDeriv, r, qq, v) == None
    {
      var flags := OptionalFlags();
      assert flags[..NumOptional] == flags;
      forall i | 0 <= i < NumOptional && flags[i]
        ensures OptionalRow(i) < numEq
      {
        CountPrefixMonotone(flags, i, NumOptional);
      }
      forall i, qq, v | 0 <= i < NumOptional && flags[i]
        ensures DerivEntry(ports, filtered, numDeriv, OptionalRow(i), qq, v) == OptionalEntry(i, ports, filtered, numDeriv, qq, v)
      {
        OptionalEntriesAt(NumOptional, i, ports, filtered, numDeriv, qq, v);
      }
      forall r, qq, v | r < 2 * numFluids + 2 || r >= numEq
        ensures DerivEntry(ports, filtered, numDeriv, r, qq, v) == None
      {
        if OptionalEntries(NumOptional, ports, filtered, numDeriv, r, qq, v).Some? {
          OptionalEntriesBelow(NumOptional, ports, filtered, numDeriv, r, qq, v);
        }
      }
    }

    /** The energy row of derivatives, at row 2 nf + 2. */
    method WriteEnergyRow(ports: seq<Port>)
      requires FourPorts(ports) && 2 * numFluids + 2 < jacobian.Length0 && jacobian.Length1 >= 4 && jacobian.Length2 >= 3
      modifies jacobian
      ensures forall r, a, b {:trigger jacobian[r, a, b]} :: 0 <= r < jacobian.Length0 && 0 <= a < jacobian.Length1 && 0 <= b < jacobian.Length2 ==>
        jacobian[r, a, b] == if r == 2 * numFluids + 2 && EnergyCell(a, b) then EnergyDeriv(ports, a, b) else old(jacobian[r, a, b])
    {
      var k := 2 * numFluids + 2;
      jacobian[k, In1, VarM] := ports[Out1].h - ports[In1].h;
      jacobian[k, In1, VarH] := -ports[In1].m;
      jacobian[k, In2, VarM] := ports[Out2].h - ports[In2].h;
      jacobian[k, In2, VarH] := -ports[In2].m;
      jacobian[k, Out1, VarH] := ports[In1].m;
      jacobian[k, Out2, VarH] := ports[In2].m;
    }

    /** The Q row of derivatives. */
    method WriteQRow(row: nat, ports: seq<Port>)
      requires FourPorts(ports) && row < jacobian.Length0 && jacobian.Length1 >= 4 && jacobian.Length2 >= 3
      modifies jacobian
      ensures forall r, a, b {:trigger jacobian[r, a, b]} :: 0 <= r < jacobian.Length0 && 0 <= a < jacobian.Length1 && 0 <= b < jacobian.Length2 ==>
        jacobian[r, a, b] == if r == row && QCell(a, b) then QDeriv(ports, a, b) else old(jacobian[r, a, b])
    {
      jacobian[row, In1, VarM] := ports[Out1].h - ports[In1].h;
      jacobian[row, In1, VarH] := -ports[In1].m;
      jacobian[row, Out1, VarH] := ports[In1].m;
    }

    /** The hand-written entry of the kA row. */
    method WriteKAEntry(row: nat, ports: seq<Port>)
      requires FourPorts(ports) && row < jacobian.Length0 && jacobian.Length1 >= 4 && jacobian.Length2 >= 3
      modifies jacobian
      ensures forall r, a, b {:trigger jacobian[r, a, b]} :: 0 <= r < jacobian.Length0 && 0 <= a < jacobian.Length1 && 0 <= b < jacobian.Length2 ==>
        jacobian[r, a, b] == if r == row && a == In1 && b == VarM then ports[Out1].h - ports[In1].h else old(jacobian[r, a, b])
    {
      jacobian[row, In1, VarM] := ports[Out1].h - ports[In1].h;
    }

    /** The pr1 or pr2 row of derivatives (side 0 or 1). */
    method WritePrRow(row: nat, side: nat, pr: real)
      requires row < jacobian.Length0 && jacobian.Length1 >= 4 && jacobian.Length2 >= 3 && side < 2
      modifies jacobian
      ensures forall r, a, b {:trigger jacobian[r, a, b]} :: 0 <= r < jacobian.Length0 && 0 <= a < jacobian.Length1 && 0 <= b < jacobian.Length2 ==>
        jacobian[r, a, b] == if r == row && PrCell(side, a) && b == VarP then PrDeriv(side, pr, a, b) else old(jacobian[r, a, b])
    {
      jacobian[row, side, VarP] := pr;
      jacobian[row, side + 2, VarP] := -1.0;
    }

    /** The numerically differentiated entries of the row of optional
        parameter `i`, cell by cell in the source's order; a cell the
        increment filter skips keeps its entry. */
    method WriteNumericCells(row: nat, i: nat, cells: seq<(int, int)>, filtered: (int, int) -> bool, numDeriv: (nat, int, int) -> real)
      requires row < jacobian.Length0
      requires forall c :: c in cells ==> 0 <= c.0 < jacobian.Length1 && 0 <= c.1 < jacobian.Length2
      modifies jacobian
      ensures forall r, a, b {:trigger jacobian[r, a, b]} :: 0 <= r < jacobian.Length0 && 0 <= a < jacobian.Length1 && 0 <= b < jacobian.Length2 ==>
        jacobian[r, a, b] == if r == row && (a, b) in cells && !filtered(a, b) then numDeriv(i, a, b) else old(jacobian[r, a, b])
    {
      var j := 0;
      while j < |cells|
        invariant 0 <= j <= |cells|
        invariant forall r, a, b {:trigger jacobian[r, a, b]} :: 0 <= r < jacobian.Length0 && 0 <= a < jacobian.Length1 && 0 <= b < jacobian.Length2 ==>
          jacobian[r, a, b] == if r == row && (a, b) in cells[..j] && !filtered(a, b) then numDeriv(i, a, b) else old(jacobian[r, a, b])
      {
        var (a, b) := cells[j];
        assert cells[j] in cells;
        if !filtered(a, b) {
          jacobian[row, a, b] := numDeriv(i, a, b);
        }
        assert cells[..j + 1] == cells[..j] + [cells[j]];
        j := j + 1;
      }
      assert cells[..|cells|] == cells;
    }

    /** The row of optional parameter `i`, at row `row`. */
    method WriteOptionalRow(i: nat, row: nat, ports: seq<Port>, filtered: (int, int) -> bool, numDeriv: (nat, int, int) -> real)
      requires i < NumOptional && FourPorts(ports) && row < jacobian.Length0 && jacobian.Length1 >= 4 && jacobian.Length2 >= 3
      modifies jacobian
      ensures forall r, a, b {:trigger jacobian[r, a, b]} :: 0 <= r < jacobian.Length0 && 0 <= a < jacobian.Length1 && 0 <= b < jacobian.Length2 ==>
        jacobian[r, a, b] == EntryOr(old(jacobian[r, a, b]), if r == row then OptionalEntry(i, ports, filtered, numDeriv, a, b) else None)
    {
      if i == 0 {
        assert NumericCells(i) == [];
        WriteQRow(row, ports);
      } else if i == 5 {
        assert NumericCells(i) == [];
        WritePrRow(row, 0, pr1.val);
      } else if i == 6 {
        assert NumericCells(i) == [];
        WritePrRow(row, 1, pr2.val);
      } else {
        if i == 1 {
          WriteKAEntry(row, ports);
        }
        WriteNumericCells(row, i, NumericCells(i), filtered, numDeriv);
      }
    }

    /** One step of the optional rows: the row of parameter `i` at row `k`
        when that parameter is set, nothing otherwise; returns the next
        row. */
    method WriteOptionalStep(i: nat, k: nat, ports: seq<Port>, filtered: (int, int) -> bool, numDeriv: (nat, int, int) -> real)
      returns (next: nat)
      requires Valid() && FourPorts(ports) && i < NumOptional && k == OptionalRow(i)
      modifies jacobian
      ensures next == OptionalRow(i + 1)
      ensures forall r, a, b {:trigger jacobian[r, a, b]} :: 0 <= r < jacobian.Length0 && 0 <= a < jacobian.Length1 && 0 <= b < jacobian.Length2 ==>
        jacobian[r, a, b] == EntryOr(old(jacobian[r, a, b]), if OptionalFlags()[i] && r == OptionalRow(i) then OptionalEntry(i, ports, filtered, numDeriv, a, b) else None)
    {
      var flags := OptionalFlags();
      assert flags[..NumOptional] == flags;
      CountPrefixStep(flags, i);
      next := k;
      if flags[i] {
        // the row of a set parameter lies below num_eq
        CountPrefixMonotone(flags, i, NumOptional);
        WriteOptionalRow(i, k, ports, filtered, numDeriv);
        next := k + 1;
      }
    }

    /** The rows of the optional parameters, one per set parameter in
        counting order from row 2 nf + 3 on. */
    method WriteOptionalRows(ports: seq<Port>, filtered: (int, int) -> bool, numDeriv: (nat, int, int) -> real)
      requires Valid() && FourPorts(ports)
      modifies jacobian
      ensures forall r, a, b {:trigger jacobian[r, a, b]} :: 0 <= r < jacobian.Length0 && 0 <= a < jacobian.Length1 && 0 <= b < jacobian.Length2 ==>
        jacobian[r, a, b] == EntryOr(old(jacobian[r, a, b]), OptionalEntries(NumOptional, ports, filtered, numDeriv, r, a, b))
    {
      assert OptionalFlags()[..0] == [];
      var k := FirstOptionalRow(numFluids);
      var i := 0;
      while i < NumOptional
        invariant 0 <= i <= NumOptional && k == OptionalRow(i)
        invariant forall r, a, b {:trigger jacobian[r, a, b]} :: 0 <= r < jacobian.Length0 && 0 <= a < jacobian.Length1 && 0 <= b < jacobian.Length2 ==>
          jacobian[r, a, b] == EntryOr(old(jacobian[r, a, b]), OptionalEntries(i, ports, filtered, numDeriv, r, a, b))
      {
        label Before:
        k := WriteOptionalStep(i, k, ports, filtered, numDeriv);
        forall r, a, b | 0 <= r < jacobian.Length0 && 0 <= a < jacobian.Length1 && 0 <= b < jacobian.Length2
          ensures jacobian[r, a, b] == EntryOr(old(jacobian[r, a, b]), OptionalEntries(i + 1, ports, filtered, numDeriv, r, a, b))
        {
          assert old@Before(jacobian[r, a, b]) == EntryOr(old(jacobian[r, a, b]), OptionalEntries(i, ports, filtered, numDeriv, r, a, b));
          OptionalEntriesNext(i, ports, filtered, numDeriv, r, a, b, old(jacobian[r, a, b]));
        }
        i := i + 1;
      }
    }

    /** derivatives: the energy row and the rows of the set optional
        parameters; the numerically differentiated entries are the inputs
        `numDeriv`, written where the increment filter `filtered` does not
        skip them. Every cell DerivEntry does not name keeps its entry. */
    method Derivatives(ports: seq<Port>, filtered: (int, int) -> bool, numDeriv: (nat, int, int) -> real)
      requires Valid() && FourPorts(ports)
      modifies jacobian
      ensures forall r, a, b {:trigger jacobian[r, a, b]} :: 0 <= r < jacobian.Length0 && 0 <= a < jacobian.Length1 && 0 <= b < jacobian.Length2 ==>
        jacobian[r, a, b] == EntryOr(old(jacobian[r, a, b]), DerivEntry(ports, filtered, numDeriv, r, a, b))
    {
      WriteEnergyRow(ports);
      WriteOptionalRows(ports, filtered, numDeriv);
      // the optional rows lie past the energy row
      var k := 2 * numFluids + 2;
      forall a, b
        ensures OptionalEntries(NumOptional, ports, filtered, numDeriv, k, a, b) == None
      {
        if OptionalEntries(NumOptional, ports, filtered, numDeriv, k, a, b).Some? {
          OptionalEntriesBelow(NumOptional, ports, filtered, numDeriv, k, a, b);
        }
      }
    }

    /** calc_parameters: store the post-processed values; kA keeps its
        value where the source stores NaN. */
    method CalcParameters(ports: seq<Port>, t: Temps, ln: real -> real)
      requires FourPorts(ports) && LogBounds(ln)
      requires ports[In1].p != 0.0 && ports[In2].p != 0.0
      modifies this
      ensures results == Some(CalcResults(ports, t, ln))
      ensures q == old(q).(val := results.value.q)
      ensures ttdU == old(ttdU).(val := results.value.ttdU) && ttdL == old(ttdL).(val := results.value.ttdL)
      ensures pr1 == old(pr1).(val := results.value.pr1) && pr2 == old(pr2).(val := results.value.pr2)
      ensures kA == if results.value.kA.Some? then old(kA).(val := results.value.kA.value) else old(kA)
      ensures kAChar == old(kAChar) && zeta1 == old(zeta1) && zeta2 == old(zeta2)
      ensures numFluids == old(numFluids) && numVars == old(numVars) && numEq == old(numEq)
      ensures residual == old(residual) && jacobian == old(jacobian) && it == old(it)
      ensures alwaysAllEquations == old(alwaysAllEquations)
      ensures kAChar1IsMass == old(kAChar1IsMass) && kAChar2IsMass == old(kAChar2IsMass)
    {
      var r := CalcResults(ports, t, ln);
      q := q.(val := r.q);
      ttdU := ttdU.(val := r.ttdU);
      ttdL := ttdL.(val := r.ttdL);
      pr1 := pr1.(val := r.pr1);
      pr2 := pr2.(val := r.pr2);
      if r.kA.Some? {
        kA := kA.(val := r.kA.value);
      }
      results := Some(r);
    }
  }
}
