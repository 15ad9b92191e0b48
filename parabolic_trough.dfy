/** The ParabolicTrough component
    (src/tespy/components/heat_exchangers/parabolic_trough.py): activation
    of its two parameter groups, its equation count, the ambient
    temperature conversion, the energy-group slot and its Jacobian row, the
    incidence angle modifier and the post-processing. The mean fluid
    temperature, doc^1.5, the numerically differentiated entries and the
    increment filter are inputs. */
module ParabolicTrough {
  import opened Globals
  import opened Units

  /** A component parameter: set flag, value, whether it is a custom
      variable of the solver and its position among those variables. */
  datatype Elem = Elem(isSet: bool, val: real, isVar: bool, varPos: nat)

  /** The elements of the hydro group: L, ks, D. */
  const HydroSize: nat := 3
  /** The elements of the energy group: E, eta_opt, aoi, doc, c_1, c_2,
      iam_1, iam_2, A, Tamb; Tamb comes last. */
  const EnergySize: nat := 10
  const ElemE: nat := 0
  const ElemEtaOpt: nat := 1
  const ElemAoi: nat := 2
  const ElemDoc: nat := 3
  const ElemC1: nat := 4
  const ElemC2: nat := 5
  const ElemIam1: nat := 6
  const ElemIam2: nat := 7
  const ElemA: nat := 8
  const ElemTamb: nat := 9

  /** The cells of the energy row filled by numeric differentiation:
      pressure and enthalpy (positions 1 and 2) of the inlet (port 0) and
      of the outlet (port 1). */
  predicate NumericCell(a: nat, b: nat)
  {
    a < 2 && 1 <= b <= 2
  }

  predicate AllSet(elements: seq<Elem>)
  {
    forall i :: 0 <= i < |elements| ==> elements[i].isSet
  }

  /** Group activation: the group is set exactly when every element is;
      the warning is issued when a group marked set is incomplete. */
  method ActivateGroup(elements: seq<Elem>, wasSet: bool) returns (isSet: bool, warn: bool)
    ensures isSet <==> AllSet(elements)
    ensures warn <==> !AllSet(elements) && wasSet
  {
    var all := true;
    var i := 0;
    while i < |elements|
      invariant 0 <= i <= |elements|
      invariant all <==> forall j :: 0 <= j < i ==> elements[j].isSet
    {
      if !elements[i].isSet {
        all := false;
      }
      i := i + 1;
    }
    if all {
      isSet, warn := true, false;
    } else if wasSet {
      isSet, warn := false, true;
    } else {
      isSet, warn := false, false;
    }
  }

  /** The incidence angle modifier 1 - iam_1 |aoi| - iam_2 aoi^2. */
  function Iam(iam1: real, iam2: real, aoi: real): real
  {
    1.0 - iam1 * Abs(aoi) - iam2 * aoi * aoi
  }

  /** The modifier does not depend on the sign of the angle, is 1 at normal
      incidence, and with non-negative coefficients never exceeds 1. */
  lemma {:induction false} IamProperties(iam1: real, iam2: real, aoi: real)
    ensures Iam(iam1, iam2, -aoi) == Iam(iam1, iam2, aoi)
    ensures Iam(iam1, iam2, 0.0) == 1.0
    ensures iam1 >= 0.0 && iam2 >= 0.0 ==> Iam(iam1, iam2, aoi) <= 1.0
  {
    assert (-aoi) * (-aoi) == aoi * aoi;
    if iam1 >= 0.0 && iam2 >= 0.0 {
      assert iam1 * Abs(aoi) >= 0.0;
      assert iam2 * (aoi * aoi) >= 0.0;
    }
  }

  /** The flow state at the inlet and the outlet. */
  datatype Flow = Flow(m: real, p: real, h: real)

  /** The environment of energy_func that lies outside this model: the mean
      of the inlet and outlet temperatures and doc raised to 1.5. */
  datatype EnergyInputs = EnergyInputs(tMean: real, docPow: real)

  /** energy_func on the energy group's values. */
  function EnergyResidual(i: Flow, o: Flow, g: seq<Elem>, tambSI: real, env: EnergyInputs): real
    requires |g| == EnergySize
  {
    var dT := env.tMean - tambSI;
    i.m * (o.h - i.h)
      - g[ElemA].val * (g[ElemE].val * g[ElemEtaOpt].val * env.docPow * Iam(g[ElemIam1].val, g[ElemIam2].val, g[ElemAoi].val)
                        - dT * g[ElemC1].val - g[ElemC2].val * dT * dT)
  }

  /** The residual vanishes exactly when the heat taken up by the fluid is
      the absorbed irradiation minus the linear and quadratic losses. */
  lemma {:induction false} EnergyResidualZero(i: Flow, o: Flow, g: seq<Elem>, tambSI: real, env: EnergyInputs)
    requires |g| == EnergySize
    ensures var dT := env.tMean - tambSI;
      EnergyResidual(i, o, g, tambSI, env) == 0.0 <==>
      i.m * (o.h - i.h) == g[ElemA].val * (g[ElemE].val * g[ElemEtaOpt].val * env.docPow * Iam(g[ElemIam1].val, g[ElemIam2].val, g[ElemAoi].val))
        - g[ElemA].val * (dT * g[ElemC1].val + g[ElemC2].val * dT * dT)
  {
  }

  /** The mass flow entry of the energy row is the exact partial: the
      residual is linear in the inlet mass flow. */
  lemma {:induction false} EnergyDerivMassExact(i: Flow, o: Flow, g: seq<Elem>, tambSI: real, env: EnergyInputs, d: real)
    requires |g| == EnergySize
    ensures EnergyResidual(i.(m := i.m + d), o, g, tambSI, env) - EnergyResidual(i, o, g, tambSI, env) == d * (o.h - i.h)
  {
    assert (i.m + d) * (o.h - i.h) - i.m * (o.h - i.h) == d * (o.h - i.h);
  }

  /** The network's temperature conversion applied to Tamb. */
  function TambSI(val: real, unit: string): (si: real)
    requires KnownUnit(T, unit)
    ensures si == ToSI(T, val, unit)
    ensures FromSI(T, si, unit) == val
  {
    (val + TempTable()[unit].0) * TempTable()[unit].1
  }

  /** The values calc_parameters derives. */
  datatype Results = Results(q: real, pr: real, qLoss: real)

  /** A parabolic trough: its optional parameters, the two groups and the
      arrays comp_init allocates. */
  class ParabolicTrough {
    var q: Elem
    var pr: Elem
    var zeta: Elem
    var hydro: seq<Elem>
    var energy: seq<Elem>
    var hydroGroupSet: bool
    var energyGroupSet: bool
    var tambSI: real
    var numFluids: nat
    var numVars: nat
    var numEq: nat
    var residual: array<real>
    var jacobian: array3<real>
    var it: nat
    var alwaysAllEquations: bool
    var qLoss: real

    predicate Valid()
      reads this
    {
      && |hydro| == HydroSize && |energy| == EnergySize
      && numEq == numFluids + 1 + Count(EquationFlags())
      && residual.Length == numEq
      && jacobian.Length0 == numEq && jacobian.Length1 == 2 + numVars && jacobian.Length2 == numFluids + 3
    }

    /** The flags comp_init counts: Q, pr, zeta, hydro group, energy group. */
    function EquationFlags(): seq<bool>
      reads this
    {
      [q.isSet, pr.isSet, zeta.isSet, hydroGroupSet, energyGroupSet]
    }

    constructor(q: Elem, pr: Elem, zeta: Elem, hydro: seq<Elem>, energy: seq<Elem>,
                hydroGroupSet: bool, energyGroupSet: bool, numVars: nat)
      requires |hydro| == HydroSize && |energy| == EnergySize
      ensures this.q == q && this.pr == pr && this.zeta == zeta && this.hydro == hydro && this.energy == energy
      ensures this.hydroGroupSet == hydroGroupSet && this.energyGroupSet == energyGroupSet
      ensures this.numVars == numVars && this.it == 0
    {
      this.q, this.pr, this.zeta := q, pr, zeta;
      this.hydro, this.energy := hydro, energy;
      this.hydroGroupSet, this.energyGroupSet := hydroGroupSet, energyGroupSet;
      this.numVars := numVars;
      tambSI := 0.0;
      numFluids := 0;
      numEq := 0;
      residual := new real[0];
      jacobian := new real[0, 0, 0];
      it := 0;
      alwaysAllEquations := false;
      qLoss := 0.0;
    }

    /** comp_init: convert Tamb, activate the groups, count the equations
        and allocate zeroed arrays; returns the warnings issued for the
        hydro and the energy group. */
    method CompInit(nf: nat, tUnit: string) returns (hydroWarn: bool, energyWarn: bool)
      requires |hydro| == HydroSize && |energy| == EnergySize && KnownUnit(T, tUnit)
      modifies this
      ensures Valid() && numFluids == nf
      ensures tambSI == ToSI(T, energy[ElemTamb].val, tUnit)
      ensures hydroGroupSet <==> AllSet(hydro)
      ensures energyGroupSet <==> AllSet(energy)
      ensures hydroWarn <==> !AllSet(hydro) && old(hydroGroupSet)
      ensures energyWarn <==> !AllSet(energy) && old(energyGroupSet)
      ensures numEq == nf + 1 + Count([q.isSet, pr.isSet, zeta.isSet, AllSet(hydro), AllSet(energy)])
      ensures fresh(residual) && fresh(jacobian)
      ensures forall i :: 0 <= i < numEq ==> residual[i] == 0.0
      ensures q == old(q) && pr == old(pr) && zeta == old(zeta) && hydro == old(hydro) && energy == old(energy)
      ensures numVars == old(numVars) && it == old(it) && alwaysAllEquations == old(alwaysAllEquations)
      ensures qLoss == old(qLoss)
    {
      hydroWarn, energyWarn := InitGroups();
      numFluids := nf;
      tambSI := TambSI(energy[ElemTamb].val, tUnit);
      var n := CountEquations(nf, EquationFlags());
      numEq := n;
      residual := new real[n](_ => 0.0);
      jacobian := new real[n, 2 + numVars, nf + 3]((_, _, _) => 0.0);
    }

    /** The group activation part of comp_init. */
    method InitGroups() returns (hydroWarn: bool, energyWarn: bool)
      modifies this
      ensures hydroGroupSet <==> AllSet(hydro)
      ensures energyGroupSet <==> AllSet(energy)
      ensures hydroWarn <==> !AllSet(hydro) && old(hydroGroupSet)
      ensures energyWarn <==> !AllSet(energy) && old(energyGroupSet)
      ensures q == old(q) && pr == old(pr) && zeta == old(zeta) && hydro == old(hydro) && energy == old(energy)
      ensures numVars == old(numVars) && it == old(it) && alwaysAllEquations == old(alwaysAllEquations)
      ensures qLoss == old(qLoss)
    {
      hydroGroupSet, hydroWarn := ActivateGroup(hydro, hydroGroupSet);
      energyGroupSet, energyWarn := ActivateGroup(energy, energyGroupSet);
    }

    /** The equation count loop of comp_init. */
    static method CountEquations(nf: nat, flags: seq<bool>) returns (n: nat)
      ensures n == nf + 1 + Count(flags)
    {
      n := nf + 1;
      var i := 0;
      while i < |flags|
        invariant 0 <= i <= |flags|
        invariant n == nf + 1 + Count(flags[..i])
      {
        CountPrefixStep(flags, i);
        if flags[i] {
          n := n + 1;
        }
        i := i + 1;
      }
      assert flags[..|flags|] == flags;
    }

    /** additional_equations: the energy-group row at index k, recomputed
        under the staleness policy with period 4. */
    method AdditionalEquations(k: nat, i: Flow, o: Flow, env: EnergyInputs)
      requires Valid() && k < numEq
      modifies residual
      ensures energyGroupSet && Recompute(old(residual[k]), it, 4, alwaysAllEquations) ==>
        residual[k] == EnergyResidual(i, o, energy, tambSI, env)
      ensures !(energyGroupSet && Recompute(old(residual[k]), it, 4, alwaysAllEquations)) ==>
        residual[k] == old(residual[k])
      ensures forall r :: 0 <= r < numEq && r != k ==> residual[r] == old(residual[r])
    {
      if energyGroupSet {
        if Recompute(residual[k], it, 4, alwaysAllEquations) {
          residual[k] := EnergyResidual(i, o, energy, tambSI, env);
        }
      }
    }

    /** The custom variables of the energy group have distinct columns
        inside the Jacobian. */
    predicate VarColumns()
      reads this
      requires |energy| == EnergySize
    {
      && (forall e :: 0 <= e < EnergySize && energy[e].isVar ==> energy[e].varPos < numVars)
      && (forall e, f :: 0 <= e < f < EnergySize && energy[e].isVar && energy[f].isVar ==> energy[e].varPos != energy[f].varPos)
    }

    /** The numerically differentiated cells of the energy row at row `k`,
        in the source's order; a cell the increment filter skips keeps its
        entry. */
    method WriteNumericCells(k: nat, filtered: (nat, nat) -> bool, numDeriv: (nat, nat) -> real)
      requires Valid() && k < numEq
      modifies jacobian
      ensures forall r, a, b :: 0 <= r < numEq && 0 <= a < 2 + numVars && 0 <= b < numFluids + 3 ==>
        jacobian[r, a, b] == if r == k && NumericCell(a, b) && !filtered(a, b) then numDeriv(a, b) else old(jacobian[r, a, b])
    {
      if !filtered(0, 1) {
        jacobian[k, 0, 1] := numDeriv(0, 1);
      }
      if !filtered(0, 2) {
        jacobian[k, 0, 2] := numDeriv(0, 2);
      }
      if !filtered(1, 1) {
        jacobian[k, 1, 1] := numDeriv(1, 1);
      }
      if !filtered(1, 2) {
        jacobian[k, 1, 2] := numDeriv(1, 2);
      }
    }

    /** additional_derivatives: the mass flow entry of the energy row, the
        numerically evaluated derivatives `numDeriv(port, pos)` by pressure
        and enthalpy of inlet and outlet unless the increment filter skips
        them, and one column per custom variable of the group other than
        Tamb, holding the numerically evaluated derivative `varDeriv[e]`. */
    method AdditionalDerivatives(k: nat, i: Flow, o: Flow, filtered: (nat, nat) -> bool,
                                 numDeriv: (nat, nat) -> real, varDeriv: seq<real>)
      requires Valid() && k < numEq && |varDeriv| == EnergySize && VarColumns()
      modifies jacobian
      ensures energyGroupSet ==> jacobian[k, 0, 0] == o.h - i.h
      ensures energyGroupSet ==> forall a: nat, b: nat :: NumericCell(a, b) ==>
        jacobian[k, a, b] == if filtered(a, b) then old(jacobian[k, a, b]) else numDeriv(a, b)
      ensures energyGroupSet ==> forall e :: 0 <= e < ElemTamb && energy[e].isVar ==>
        jacobian[k, 2 + energy[e].varPos, 0] == varDeriv[e]
      ensures forall r, a, b :: 0 <= r < numEq && 0 <= a < 2 + numVars && 0 <= b < numFluids + 3 ==>
        (r != k || !energyGroupSet || (b == 0 && a != 0 && !VarColumnOf(a, ElemTamb)) || (b != 0 && !NumericCell(a, b))) ==>
        jacobian[r, a, b] == old(jacobian[r, a, b])
    {
      if energyGroupSet {
        jacobian[k, 0, 0] := o.h - i.h;
        WriteNumericCells(k, filtered, numDeriv);
        WriteVarColumns(k, varDeriv);
      }
    }

    /** The columns of the energy group's custom variables other than Tamb
        in row `k`: `varDeriv[e]` in the mass flow position of variable
        `e`'s column. */
    method WriteVarColumns(k: nat, varDeriv: seq<real>)
      requires Valid() && k < numEq && |varDeriv| == EnergySize && VarColumns()
      modifies jacobian
      ensures forall e :: 0 <= e < ElemTamb && energy[e].isVar ==> jacobian[k, 2 + energy[e].varPos, 0] == varDeriv[e]
      ensures forall r, a, b :: 0 <= r < numEq && 0 <= a < 2 + numVars && 0 <= b < numFluids + 3 ==>
        (r != k || b != 0 || !VarColumnOf(a, ElemTamb)) ==> jacobian[r, a, b] == old(jacobian[r, a, b])
    {
      var e := 0;
      while e < EnergySize
        invariant 0 <= e <= EnergySize
        invariant forall j :: 0 <= j < e && j < ElemTamb && energy[j].isVar ==>
          jacobian[k, 2 + energy[j].varPos, 0] == varDeriv[j]
        invariant forall r, a, b :: 0 <= r < numEq && 0 <= a < 2 + numVars && 0 <= b < numFluids + 3 ==>
          (r != k || b != 0 || !VarColumnOf(a, ElemTamb)) ==> jacobian[r, a, b] == old(jacobian[r, a, b])
      {
        if e != ElemTamb && energy[e].isVar {
          jacobian[k, 2 + energy[e].varPos, 0] := varDeriv[e];
        }
        e := e + 1;
      }
    }

    /** Column `a` belongs to a custom variable among the first `n` group
        elements. */
    predicate VarColumnOf(a: nat, n: nat)
      reads this
      requires |energy| == EnergySize && n <= EnergySize
    {
      exists e :: 0 <= e < n && energy[e].isVar && a == 2 + energy[e].varPos
    }

    /** calc_parameters: Q, pr, and Q_loss when the energy group is set. */
    method CalcParameters(i: Flow, o: Flow) returns (r: Results)
      requires Valid() && i.p != 0.0
      modifies this
      ensures zeta == old(zeta) && hydro == old(hydro) && energy == old(energy)
      ensures r.q == i.m * (o.h - i.h) && r.pr * i.p == o.p
      ensures q == old(q).(val := r.q) && pr == old(pr).(val := r.pr)
      ensures energyGroupSet ==> qLoss == energy[ElemE].val * energy[ElemA].val - r.q
      ensures !energyGroupSet ==> qLoss == old(qLoss)
      ensures r.qLoss == qLoss
      ensures hydroGroupSet == old(hydroGroupSet) && energyGroupSet == old(energyGroupSet)
      ensures tambSI == old(tambSI) && numFluids == old(numFluids) && numVars == old(numVars) && numEq == old(numEq)
      ensures residual == old(residual) && jacobian == old(jacobian) && it == old(it)
      ensures alwaysAllEquations == old(alwaysAllEquations)
    {
      var heat := i.m * (o.h - i.h);
      var ratio := o.p / i.p;
      q := q.(val := heat);
      pr := pr.(val := ratio);
      if energyGroupSet {
        qLoss := energy[ElemE].val * energy[ElemA].val - heat;
      }
      r := Results(heat, ratio, qLoss);
    }
  }
}
