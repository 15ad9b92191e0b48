/** The per-element parts of the network setup of TESPy
    (src/tespy/networks/network.py): the unit conversion and fluid vector of
    init_set_properties, the component counts, and what init_design and
    init_offdesign do to one connection or component. */
module Setup {
  import opened Wrappers
  import opened Globals
  import opened Units
  import opened Connections
  import opened Modes

  // ---------------------------------------------------------------------
  // init_set_properties

  /** The connection with every property's unit resolved and its set value
      converted to SI, one property at a time. */
  function ConnToSI(c: Conn, units: NetUnits): (r: Conn)
    requires UnitsValid(c, units)
    ensures r.fluid == c.fluid && SameConnFrame(r, c) && r.newDesign == c.newDesign
    ensures r.goodStartingValues == c.goodStartingValues
  {
    assert Get(c, M) == c.m && Get(c, P) == c.p && Get(c, H) == c.h && Get(c, T) == c.t && Get(c, X) == c.x;
    assert Get(c, V) == c.v && Get(c, TdBp) == c.tdBp && Get(c, Vol) == c.vol && Get(c, S) == c.s;
    c.(m := InitQuantity(M, c.m, units), p := InitQuantity(P, c.p, units), h := InitQuantity(H, c.h, units),
       t := InitQuantity(T, c.t, units), x := InitQuantity(X, c.x, units), v := InitQuantity(V, c.v, units),
       tdBp := InitQuantity(TdBp, c.tdBp, units), vol := InitQuantity(Vol, c.vol, units), s := InitQuantity(S, c.s, units))
  }

  /** After the conversion every property carries its effective unit, a
      fixed value converts back from SI to the value the user gave, and a
      free value keeps its SI value. */
  lemma ConnToSIRoundTrip(c: Conn, units: NetUnits, prop: Prop)
    requires UnitsValid(c, units)
    ensures Get(ConnToSI(c, units), prop) == InitQuantity(prop, Get(c, prop), units)
    ensures var q := Get(ConnToSI(c, units), prop);
            && q == Get(c, prop).(unit := q.unit, valSI := q.valSI)
            && q.unit == EffectiveUnit(Get(c, prop), prop, units)
            && (q.valSet ==> FromSI(prop, q.valSI, q.unit) == q.val)
            && (!q.valSet ==> q.valSI == Get(c, prop).valSI)
  {
    match prop
    case M => case P => case H => case T => case X => case V => case TdBp => case Vol => case S =>
  }

  /** The first part of init_set_properties for one connection: without
      init_previous its starting values no longer count as good, then its
      units and SI values are set. */
  function ConnWithSI(c: Conn, units: NetUnits, initPrevious: bool): (r: Conn)
    requires UnitsValid(c, units)
    ensures r.goodStartingValues == (initPrevious && c.goodStartingValues)
    ensures r.fluid == c.fluid
  {
    var c' := if initPrevious then c else c.(goodStartingValues := false);
    assert forall prop :: Get(c', prop) == Get(c, prop);
    ConnToSI(c', units)
  }

  /** init_set_properties for one connection: SI values, then the fluid
      vector over the network's fluids; a fluid the network does not know
      is an error. */
  function PrepareConn(c: Conn, units: NetUnits, fluids: seq<string>, initPrevious: bool): (r: Result<Conn, set<string>>)
    requires |fluids| > 0 && UnitsValid(c, units)
    ensures r.Err? <==> exists f :: f in c.fluid.val && f !in fluids
    ensures r.Err? ==> r.error == UnknownFluids(fluids, c.fluid) && r.error != {}
    ensures r.Ok? ==> r.value == ConnWithSI(c, units, initPrevious).(fluid := r.value.fluid)
    ensures r.Ok? ==> r.value.fluid == InitFluid(fluids, c.fluid).value
  {
    var withSI := ConnWithSI(c, units, initPrevious);
    match InitFluid(fluids, c.fluid)
    case Ok(fv) => Ok(withSI.(fluid := fv))
    case Err(e) => Err(e)
  }

  // ---------------------------------------------------------------------
  // Component counts

  /** num_comp_eq: the components' equations. */
  function TotalCompEq(comps: seq<NetComp>): nat
  {
    NatSum(seq(|comps|, k requires 0 <= k < |comps| => comps[k].numEq))
  }

  /** num_comp_vars: the components' custom variables. */
  function TotalCompVars(comps: seq<NetComp>): nat
  {
    NatSum(seq(|comps|, k requires 0 <= k < |comps| => comps[k].numVars))
  }

  lemma {:induction false} TotalCompStep(comps: seq<NetComp>, k: nat)
    requires k < |comps|
    ensures TotalCompEq(comps[..k + 1]) == TotalCompEq(comps[..k]) + comps[k].numEq
    ensures TotalCompVars(comps[..k + 1]) == TotalCompVars(comps[..k]) + comps[k].numVars
  {
    var p := comps[..k + 1];
    assert seq(|p|, j requires 0 <= j < |p| => p[j].numEq)[..k] == seq(k, j requires 0 <= j < k => comps[..k][j].numEq);
    assert seq(|p|, j requires 0 <= j < |p| => p[j].numVars)[..k] == seq(k, j requires 0 <= j < k => comps[..k][j].numVars);
  }

  /** The custom variables of component `k` sit after those of the
      components before it and before the end of the state vector. */
  lemma {:induction false} CompVarsBlockWithin(comps: seq<NetComp>, k: nat)
    requires k < |comps|
    ensures TotalCompVars(comps[..k]) + comps[k].numVars <= TotalCompVars(comps)
    decreases |comps| - k
  {
    TotalCompStep(comps, k);
    if k + 1 < |comps| {
      CompVarsBlockWithin(comps, k + 1);
    } else {
      assert comps[..k + 1] == comps;
    }
  }

  // ---------------------------------------------------------------------
  // init_design and init_offdesign, one element at a time

  /** init_design for one connection: with local_offdesign its design
      properties are freed and its offdesign properties fixed; otherwise
      its design values are cleared and, on redesign, the design
      properties fixed and the offdesign properties freed. */
  predicate ConnInitDesigned(c: Conn, r: Conn, redesign: bool)
  {
    if c.localOffdesign then ConnLocalOffdesignSwitched(c, r) else ConnDesignSwitched(c, r, redesign)
  }

  /** init_design for one component: with local_offdesign it switches to
      offdesign and is no longer new; otherwise, on redesign, the design
      parameters are fixed and the offdesign parameters freed. Then
      comp_init recounts its equations and variables from the switched
      parameters: `compInit` gives those two counts. */
  predicate CompInitDesigned(cp: NetComp, r: NetComp, redesign: bool, compInit: NetComp -> (nat, nat))
    requires ListsKnown(cp)
  {
    var s := r.(numEq := cp.numEq, numVars := cp.numVars);
    && (if cp.localOffdesign then CompOffdesignSwitched(cp, s.(newDesign := cp.newDesign)) && !s.newDesign
        else if redesign then CompDesignSwitched(cp, s)
        else s == cp)
    && (r.numEq, r.numVars) == compInit(s)
  }

  /** init_offdesign for one connection: unless local_design, it switches
      to offdesign. */
  predicate ConnInitOffdesigned(c: Conn, r: Conn)
  {
    if c.localDesign then r == c else ConnOffdesignSwitched(c, r)
  }

  /** init_offdesign for one component: unless local_design it switches
      to offdesign; comp_init then recounts it from the switched parameters
      (`compInit`), and after that it is no longer new. */
  predicate CompInitOffdesigned(cp: NetComp, r: NetComp, compInit: NetComp -> (nat, nat))
    requires ListsKnown(cp)
  {
    var s := r.(newDesign := cp.newDesign, numEq := cp.numEq, numVars := cp.numVars);
    && !r.newDesign
    && (if cp.localDesign then s == cp else CompOffdesignSwitched(cp, s))
    && (r.numEq, r.numVars) == compInit(s)
  }

}
