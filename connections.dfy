/** The connection record of the network and the per-connection parts of
    Network.init_set_properties and Network.init_count_connections_parameters
    (src/tespy/networks/network.py). */
module Connections {
  import opened Wrappers
  import opened Globals
  import opened Units

  /** A reference `val = obj.val * factor + delta` to the same property of
      another connection, named by its position in the network. */
  datatype Ref = Ref(obj: nat, factor: real, delta: real)

  /** One fluid property of a connection: its value in the given unit, its
      SI value, its starting value, whether it is fixed or referenced, its
      design value (`hasDesign` false where the source holds NaN) and its
      unit. */
  datatype Quantity = Quantity(
    val: real, valSI: real, val0: real,
    valSet: bool, refSet: bool, ref: Ref,
    design: real, hasDesign: bool,
    unit: string, unitSet: bool)

  /** The fluid vector of a connection: mass fractions, starting fractions
      and fixed flags keyed by fluid name, the balance flag and the design
      fractions. */
  datatype FluidVector = FluidVector(
    val: map<string, real>, val0: map<string, real>, valSet: map<string, bool>,
    balance: bool, design: map<string, real>)

  /** A connection: its nine properties, its fluid vector, the names of the
      properties fixed in design and in offdesign mode, and its mode flags. */
  datatype Conn = Conn(
    m: Quantity, p: Quantity, h: Quantity, t: Quantity, x: Quantity,
    v: Quantity, tdBp: Quantity, vol: Quantity, s: Quantity,
    fluid: FluidVector,
    design: seq<Prop>, offdesign: seq<Prop>,
    localDesign: bool, localOffdesign: bool, hasDesignPath: bool,
    newDesign: bool, goodStartingValues: bool)

  /** c.get_attr(prop). */
  function Get(c: Conn, prop: Prop): Quantity
  {
    match prop
    case M => c.m
    case P => c.p
    case H => c.h
    case T => c.t
    case X => c.x
    case V => c.v
    case TdBp => c.tdBp
    case Vol => c.vol
    case S => c.s
  }

  /** The connection with property `prop` replaced and nothing else changed. */
  function With(c: Conn, prop: Prop, q: Quantity): (r: Conn)
    ensures Get(r, prop) == q
    ensures forall other :: other != prop ==> Get(r, other) == Get(c, other)
    ensures r.fluid == c.fluid && r.design == c.design && r.offdesign == c.offdesign
    ensures r.localDesign == c.localDesign && r.localOffdesign == c.localOffdesign
    ensures r.hasDesignPath == c.hasDesignPath && r.newDesign == c.newDesign
    ensures r.goodStartingValues == c.goodStartingValues
  {
    match prop
    case M => c.(m := q)
    case P => c.(p := q)
    case H => c.(h := q)
    case T => c.(t := q)
    case X => c.(x := q)
    case V => c.(v := q)
    case TdBp => c.(tdBp := q)
    case Vol => c.(vol := q)
    case S => c.(s := q)
  }

  /** Two connections agreeing on all nine properties and on everything else
      are the same connection. */
  lemma {:induction false} SameProperties(a: Conn, b: Conn)
    requires forall prop :: Get(a, prop) == Get(b, prop)
    requires a.fluid == b.fluid && a.design == b.design && a.offdesign == b.offdesign
    requires a.localDesign == b.localDesign && a.localOffdesign == b.localOffdesign
    requires a.hasDesignPath == b.hasDesignPath && a.newDesign == b.newDesign
    requires a.goodStartingValues == b.goodStartingValues
    ensures a == b
  {
    assert Get(a, M) == Get(b, M) && Get(a, P) == Get(b, P) && Get(a, H) == Get(b, H);
    assert Get(a, T) == Get(b, T) && Get(a, X) == Get(b, X) && Get(a, V) == Get(b, V);
    assert Get(a, TdBp) == Get(b, TdBp) && Get(a, Vol) == Get(b, Vol) && Get(a, S) == Get(b, S);
  }

  /** Only the SI values of mass flow, pressure and enthalpy and the fluid
      fractions may differ between `a` and `b`. */
  predicate OnlyStateChanged(a: Conn, b: Conn)
  {
    && a.m == b.m.(valSI := a.m.valSI) && a.p == b.p.(valSI := a.p.valSI) && a.h == b.h.(valSI := a.h.valSI)
    && a.t == b.t && a.x == b.x && a.v == b.v && a.tdBp == b.tdBp && a.vol == b.vol && a.s == b.s
    && a.fluid == b.fluid.(val := a.fluid.val)
    && a.design == b.design && a.offdesign == b.offdesign
    && a.localDesign == b.localDesign && a.localOffdesign == b.localOffdesign
    && a.hasDesignPath == b.hasDesignPath && a.newDesign == b.newDesign
    && a.goodStartingValues == b.goodStartingValues
  }

  /** The network's unit for each property. */
  datatype NetUnits = NetUnits(m: string, v: string, p: string, h: string, t: string, vol: string, x: string, s: string)

  /** The network's unit for a property; the temperature difference to the
      boiling point uses the temperature unit. */
  function UnitFor(units: NetUnits, prop: Prop): string
  {
    match prop
    case M => units.m
    case V => units.v
    case P => units.p
    case H => units.h
    case T => units.t
    case TdBp => units.t
    case Vol => units.vol
    case X => units.x
    case S => units.s
  }

  /** Every network unit is one of the table's units. */
  predicate UnitsKnown(units: NetUnits)
  {
    forall prop :: KnownUnit(prop, UnitFor(units, prop))
  }

  /** The unit a property ends with in init_set_properties: its own unit if
      one was given, else the network's. */
  function EffectiveUnit(q: Quantity, prop: Prop, units: NetUnits): string
  {
    if q.unitSet then q.unit else UnitFor(units, prop)
  }

  /** One property in init_set_properties: the unit is defaulted and a fixed
      value gets its SI value. */
  function InitQuantity(prop: Prop, q: Quantity, units: NetUnits): (r: Quantity)
    requires q.valSet ==> KnownUnit(prop, EffectiveUnit(q, prop, units))
    ensures r.unit == EffectiveUnit(q, prop, units)
    ensures r.valSet ==> KnownUnit(prop, r.unit) && FromSI(prop, r.valSI, r.unit) == r.val
    ensures !q.valSet ==> r == q.(unit := r.unit)
    ensures r == q.(unit := r.unit, valSI := r.valSI)
  {
    var unit := EffectiveUnit(q, prop, units);
    if q.valSet then q.(unit := unit, valSI := ToSI(prop, q.val, unit)) else q.(unit := unit)
  }

  /** The nine properties in the order init_set_properties visits them. */
  const AllProps: seq<Prop> := [M, P, H, T, X, V, TdBp, Vol, S]

  lemma {:induction false} AllPropsComplete(prop: Prop)
    ensures prop in AllProps
  {
  }

  /** The unit check init_set_properties relies on: every fixed property
      has a unit from its table. */
  predicate UnitsValid(c: Conn, units: NetUnits)
  {
    forall prop :: Get(c, prop).valSet ==> KnownUnit(prop, EffectiveUnit(Get(c, prop), prop, units))
  }

  /** The fluids of a connection that the network does not know. */
  function UnknownFluids(fluids: seq<string>, fv: FluidVector): set<string>
  {
    set f | f in fv.val && f !in fluids
  }

  /** Which of the three cases of init_set_properties supplies fluid `f`:
      user value with its flag, starting value (only if no flag was given),
      or zero; `None` where the source writes no entry at all. */
  function FluidEntry(f: string, fv: FluidVector): Option<(real, bool)>
  {
    if f in fv.val && f in fv.valSet then Some((fv.val[f], fv.valSet[f]))
    else if f in fv.val0 then (if f !in fv.valSet then Some((fv.val0[f], false)) else None)
    else Some((0.0, false))
  }

  /** The fluid vector built by init_set_properties for a network with the
      given fluids, or the unknown fluids if the connection names one. */
  function InitFluid(fluids: seq<string>, fv: FluidVector): (r: Result<FluidVector, set<string>>)
    requires |fluids| > 0
    ensures r.Err? <==> exists f :: f in fv.val && f !in fluids
    ensures r.Err? ==> r.error == UnknownFluids(fluids, fv) && r.error != {}
    ensures r.Ok? ==>
      (r.value.val.Keys <= (set f | f in fluids) && r.value.val.Keys == r.value.valSet.Keys == r.value.val0.Keys)
    ensures r.Ok? ==> r.value.balance == fv.balance && r.value.design == fv.design
    ensures r.Ok? && |fluids| == 1 ==>
      r.value.val == map[fluids[0] := 1.0] && r.value.val0 == map[fluids[0] := 1.0]
      && fluids[0] in r.value.valSet && r.value.valSet[fluids[0]] == (fluids[0] in fv.valSet && fv.valSet[fluids[0]])
    ensures r.Ok? && |fluids| > 1 ==> forall f :: f in fluids ==>
      (f in r.value.val <==> FluidEntry(f, fv).Some?)
      && (f in r.value.val ==> r.value.val[f] == r.value.val0[f] == FluidEntry(f, fv).value.0
                               && r.value.valSet[f] == FluidEntry(f, fv).value.1)
  {
    assert forall f :: f in fv.val && f !in fluids ==> f in UnknownFluids(fluids, fv);
    if UnknownFluids(fluids, fv) != {} then
      Err(UnknownFluids(fluids, fv))
    else if |fluids| == 1 then
      var f0 := fluids[0];
      var flag := if f0 in fv.valSet then fv.valSet[f0] else false;
      Ok(fv.(val := map[f0 := 1.0], val0 := map[f0 := 1.0], valSet := map[f0 := flag]))
    else
      var keys := set f | f in fluids && FluidEntry(f, fv).Some?;
      Ok(fv.(val := map f | f in keys :: FluidEntry(f, fv).value.0,
             val0 := map f | f in keys :: FluidEntry(f, fv).value.0,
             valSet := map f | f in keys :: FluidEntry(f, fv).value.1))
  }

  /** A fluid the user fixed keeps its fraction and flag; a fluid nobody
      mentioned starts at zero and free. */
  lemma {:induction false} InitFluidKeepsUserValues(fluids: seq<string>, fv: FluidVector, f: string)
    requires |fluids| > 1 && f in fluids && InitFluid(fluids, fv).Ok?
    ensures f in fv.val && f in fv.valSet ==>
      f in InitFluid(fluids, fv).value.val && InitFluid(fluids, fv).value.val[f] == fv.val[f]
      && InitFluid(fluids, fv).value.valSet[f] == fv.valSet[f]
    ensures f !in fv.val && f !in fv.val0 ==>
      f in InitFluid(fluids, fv).value.val && InitFluid(fluids, fv).value.val[f] == 0.0
      && !InitFluid(fluids, fv).value.valSet[f]
  {
  }

  /** When every fixed flag comes with a fraction, as Connection.set_attr
      writes them, every network fluid gets an entry. Otherwise a fluid
      with a flag and a starting value but no fraction is dropped. */
  lemma {:induction false} InitFluidCoversNetworkFluids(fluids: seq<string>, fv: FluidVector)
    requires |fluids| > 0 && InitFluid(fluids, fv).Ok?
    requires fv.valSet.Keys <= fv.val.Keys
    ensures forall f :: f in fluids ==> f in InitFluid(fluids, fv).value.val && f in InitFluid(fluids, fv).value.valSet
  {
    var r := InitFluid(fluids, fv).value;
    if |fluids| > 1 {
      forall f | f in fluids ensures f in r.val && f in r.valSet {
        assert FluidEntry(f, fv).Some?;
      }
    } else {
      forall f | f in fluids ensures f in r.val && f in r.valSet {
        assert f == fluids[0];
      }
    }
  }

  /** A fluid with a fixed flag and a starting value but no fraction gets no
      entry in the multi-fluid case. */
  lemma {:induction false} InitFluidDropsFlagWithoutFraction(fluids: seq<string>, fv: FluidVector, f: string)
    requires |fluids| > 1 && f in fluids && InitFluid(fluids, fv).Ok?
    requires f !in fv.val && f in fv.val0 && f in fv.valSet
    ensures f !in InitFluid(fluids, fv).value.val
  {
  }

  function B(b: bool): nat
  {
    if b then 1 else 0
  }

  /** The number of fixed fluid fractions among the network fluids. */
  function FluidSetCount(fluids: seq<string>, valSet: map<string, bool>): (n: nat)
    ensures n <= |fluids|
  {
    if |fluids| == 0 then 0
    else
      var f := fluids[|fluids| - 1];
      FluidSetCount(fluids[..|fluids| - 1], valSet) + B(f in valSet && valSet[f])
  }

  /** init_count_connections_parameters: the equations a connection adds. */
  function ConnEquationCount(c: Conn, fluids: seq<string>): (n: nat)
    ensures n <= 12 + |fluids|
    ensures n == 0 <==>
      !c.m.valSet && !c.p.valSet && !c.h.valSet && !c.t.valSet && !c.x.valSet && !c.v.valSet && !c.tdBp.valSet
      && !c.m.refSet && !c.p.refSet && !c.h.refSet && !c.t.refSet
      && FluidSetCount(fluids, c.fluid.valSet) == 0 && !c.fluid.balance
  {
    B(c.m.valSet) + B(c.p.valSet) + B(c.h.valSet) + B(c.t.valSet) + B(c.x.valSet) + B(c.v.valSet) + B(c.tdBp.valSet)
    + B(c.m.refSet) + B(c.p.refSet) + B(c.h.refSet) + B(c.t.refSet)
    + FluidSetCount(fluids, c.fluid.valSet) + B(c.fluid.balance)
  }

  /** num_conn_eq: the sum over all connections. */
  function TotalConnEquations(conns: seq<Conn>, fluids: seq<string>): nat
  {
    NatSum(seq(|conns|, i requires 0 <= i < |conns| => ConnEquationCount(conns[i], fluids)))
  }

  lemma {:induction false} TotalConnEquationsStep(conns: seq<Conn>, fluids: seq<string>, i: nat)
    requires i < |conns|
    ensures TotalConnEquations(conns[..i + 1], fluids) == TotalConnEquations(conns[..i], fluids) + ConnEquationCount(conns[i], fluids)
  {
    var p := conns[..i + 1];
    var c := seq(|p|, k requires 0 <= k < |p| => ConnEquationCount(p[k], fluids));
    assert c[..i] == seq(i, k requires 0 <= k < i => ConnEquationCount(conns[..i][k], fluids));
  }
}
