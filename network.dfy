/** The network object of TESPy (src/tespy/networks/network.py): its
    connections, components and busses, the equation and variable counts,
    and the state of the Newton solver. Setup (init_set_properties,
    init_design, init_offdesign, the connection count of init_properties)
    and the solve phase (solve_determination, solve_loop, solve_control,
    solve_components, solve_busses, solve_connections, matrix_inversion)
    are its methods. Fluid property calls, the components' own equations
    and the linear solve are inputs. */
module Solver {
  import opened Wrappers
  import opened Globals
  import opened Connections
  import opened Counting
  import opened Modes
  import opened Slots
  import opened Assembly
  import opened Step
  import opened ConnEquations
  import opened Setup
  import opened Newton

  /** The errors the setup raises: a connection holds fluids the network
      does not know, or a connection with local_offdesign has no design
      path. */
  datatype NetworkError =
    | ForeignFluid(conn: nat, names: set<string>)
    | MissingConnDesignPath(conn: nat)

  /** What one Newton iteration takes from outside the model: the
      components' rows (solve_components), what each bus sees of its
      components (calc_bus_value, bus_deriv), the residuals and the
      derivatives that need fluid property calls, and for each connection
      whether its fluid vector is a single fluid (hlp.single_fluid). */
  datatype IterInputs = IterInputs(
    compRows: seq<Row>, busComps: seq<seq<BusComp>>,
    res: (nat, PropRow) -> real, deriv: (nat, PropDeriv) -> real, single: seq<bool>)

  /** The increment filter of solve_loop: a column is filtered when the
      absolute value of its last increment is below err squared. */
  predicate IncrementFiltered(increment: seq<real>, col: nat)
  {
    col < |increment| && Abs(increment[col]) < ErrSq
  }

  /** What the connection rows of one iteration take from the fluid
      property functions and the increment filter. */
  function PropsOf(inp: IterInputs, increment: seq<real>): (prop: FluidProps)
    ensures forall col: nat :: prop.filtered(col) <==> IncrementFiltered(increment, col)
  {
    FluidProps(inp.res, inp.deriv, (col: nat) => IncrementFiltered(increment, col))
  }

  /** The inputs of every iteration, from the iteration number and the
      current connections and custom variables. */
  type InputSource = (nat, seq<Conn>, seq<seq<CustomVar>>) -> IterInputs

  /** The inputs of one iteration fit a network with these busses and
      counts: one overwriting row per component equation within the
      system's width, bus entries within the width, and one single-fluid
      flag per connection. */
  predicate FitsNetwork(inp: IterInputs, busses: seq<Bus>, numConns: nat, numConnVars: nat,
                        numCompEq: nat, numVars: nat)
  {
    && |inp.compRows| == numCompEq && RowsWithin(inp.compRows, numVars)
    && (forall i :: 0 <= i < |inp.compRows| ==> inp.compRows[i].mode == Always)
    && BussesWithin(busses, inp.busComps, numConns, numConnVars)
    && |inp.single| == numConns
  }

  /** The SI value ranges are well formed. */
  predicate RangesValid(ranges: Ranges)
  {
    ranges.m.lo <= ranges.m.hi && ranges.p.lo <= ranges.p.hi && ranges.h.lo <= ranges.h.hi
  }

  /** The network is set up for the Newton loop: the counts agree with
      the connections, components and busses, and the system is square. */
  predicate NetReady(fluids: seq<string>, ranges: Ranges, busses: seq<Bus>, conns: seq<Conn>,
                     comps: seq<NetComp>, compVars: seq<seq<CustomVar>>, numConnVars: nat, numConnEq: nat,
                     numBusEq: nat, numCompEq: nat, numCompVars: nat, numVars: nat)
  {
    && |fluids| > 0
    && RangesValid(ranges)
    && ConnsReady(conns, fluids)
    && numConnVars == |fluids| + 3
    && numConnEq == TotalConnEquations(conns, fluids)
    && numBusEq == NumBusEq(busses)
    && numCompEq == TotalCompEq(comps)
    && numCompVars == TotalCompVars(comps)
    && numVars == ConnPart(|conns|, numConnVars) + numCompVars
    && numCompEq + numConnEq + numBusEq == numVars
    && VarsPlaced(comps, compVars)
  }

  /** Stepping the connections and the custom variables keeps the
      network set up. */
  lemma StepKeepsNetReady(fluids: seq<string>, ranges: Ranges, busses: seq<Bus>, conns: seq<Conn>,
                          comps: seq<NetComp>, compVars: seq<seq<CustomVar>>, inc: seq<real>, iter: nat,
                          single: seq<bool>, numConnVars: nat, numConnEq: nat, numBusEq: nat, numCompEq: nat,
                          numCompVars: nat, numVars: nat)
    requires NetReady(fluids, ranges, busses, conns, comps, compVars,
                      numConnVars, numConnEq, numBusEq, numCompEq, numCompVars, numVars)
    requires |single| == |conns| && numVars <= |inc|
    ensures NetReady(fluids, ranges, busses, SteppedConns(conns, fluids, inc, iter, single, ranges), comps,
                     SteppedAllVars(compVars, comps, inc, ConnPart(|conns|, numConnVars)),
                     numConnVars, numConnEq, numBusEq, numCompEq, numCompVars, numVars)
  {
    SteppedConnsReady(conns, fluids, inc, iter, single, ranges);
  }

  /** The second part of solve_control: matrix_inversion, and, unless the
      system is linearly dependent, the step of every connection (range
      checked, twice in the first three iterations) and of every custom
      variable (clamped). */
  method SolveAndStep(solve: LinearSolver, m: seq<seq<real>>, b: seq<real>,
                      fluids: seq<string>, ranges: Ranges, busses: seq<Bus>, conns: seq<Conn>,
                      comps: seq<NetComp>, compVars: seq<seq<CustomVar>>, numConnVars: nat, numConnEq: nat,
                      numBusEq: nat, numCompEq: nat, numCompVars: nat, numVars: nat, iter: nat, single: seq<bool>)
    returns (inc: seq<real>, singular: bool, cs: seq<Conn>, vs: seq<seq<CustomVar>>)
    requires NetReady(fluids, ranges, busses, conns, comps, compVars,
                      numConnVars, numConnEq, numBusEq, numCompEq, numCompVars, numVars)
    requires SoundAt(solve, m, b) && |b| == numVars && |single| == |conns|
    ensures |inc| == numVars
    ensures singular <==> solve(m, b).None?
    ensures singular ==> inc == Zeros(numVars) && cs == conns && vs == compVars
    ensures !singular ==> inc == solve(m, b).value && Solves(m, inc, b)
    ensures !singular ==> cs == SteppedConns(conns, fluids, inc, iter, single, ranges)
    ensures !singular ==> vs == SteppedAllVars(compVars, comps, inc, ConnPart(|conns|, numConnVars))
    ensures NetReady(fluids, ranges, busses, cs, comps, vs,
                     numConnVars, numConnEq, numBusEq, numCompEq, numCompVars, numVars)
  {
    inc, singular := MatrixInversion(solve, m, b);
    cs, vs := conns, compVars;
    if singular {
      return;
    }
    cs := StepAndCheckConns(conns, fluids, inc, iter, single, ranges);
    if numCompVars > 0 {
      vs := StepAllVars(compVars, comps, inc, ConnPart(|conns|, numConnVars));
    } else {
      NoCustomVarsUnchanged(compVars, comps, inc, ConnPart(|conns|, numConnVars));
    }
    StepKeepsNetReady(fluids, ranges, busses, conns, comps, compVars, inc, iter, single,
                      numConnVars, numConnEq, numBusEq, numCompEq, numCompVars, numVars);
  }

  /** The recompute policy of the connection equations in iteration
      `iter`: every second iteration unless always_all_equations. */
  function IterPolicy(iter: nat, alwaysAll: bool): (pol: Policy)
    ensures ValidPolicy(pol) && pol.it == iter
    ensures pol.period == 2 && pol.always == alwaysAll
  {
    Policy(iter, 2, alwaysAll)
  }

  /** The rows of the busses with fixed power: one per such bus, within
      the system's width. */
  function BusRowsIn(busses: seq<Bus>, busComps: seq<seq<BusComp>>, numConns: nat, ncv: nat, width: nat): (rows: seq<Row>)
    requires BussesWithin(busses, busComps, numConns, ncv) && ConnPart(numConns, ncv) <= width
    ensures |rows| == NumBusEq(busses) && RowsWithin(rows, width)
    ensures rows == BusRows(busses, busComps, ncv)
  {
    ConnPartProduct(numConns, ncv);
    BusRowsCount(busses, busComps, ncv);
    BusRowsWithin(busses, busComps, numConns, ncv, width);
    BusRows(busses, busComps, ncv)
  }

  /** The rows of the connections: at most num_conn_eq, all of them in the
      first iteration, within the system's width. */
  function ConnRowsIn(conns: seq<Conn>, fluids: seq<string>, iter: nat, prop: FluidProps, width: nat): (rows: seq<Row>)
    requires ConnsReady(conns, fluids) && ConnPart(|conns|, |fluids| + 3) <= width
    ensures |rows| <= TotalConnEquations(conns, fluids) && RowsWithin(rows, width)
    ensures iter == 0 ==> |rows| == TotalConnEquations(conns, fluids)
    ensures rows == ConnectionRows(conns, fluids, iter, prop)
  {
    ConnPartProduct(|conns|, |fluids| + 3);
    ConnectionRowsCount(conns, fluids, iter, prop);
    ConnectionRowsWithin(conns, fluids, iter, prop, width);
    ConnectionRows(conns, fluids, iter, prop)
  }

  /** The state of the Newton solver: the iteration number, whether the
      residual norm still makes progress, whether the last linear solve
      found the system linearly dependent, the squared residual norm of
      every iteration so far, and the last increment. */
  datatype NewtonState = NewtonState(iter: nat, progress: bool, linDep: bool, res: seq<real>, increment: seq<real>)

  /** solve_control: the rows of the components, busses and connections,
      in this order, are written into the residual and the Jacobian; then
      the linear solve; and, unless the system is linearly dependent, each
      connection takes its increments and is range checked (twice in the
      first three iterations) and each custom variable takes its increment
      and is clamped. */
  method SolveControl(fluids: seq<string>, ranges: Ranges, busses: seq<Bus>, conns: seq<Conn>,
                      comps: seq<NetComp>, compVars: seq<seq<CustomVar>>, numConnVars: nat, numConnEq: nat,
                      numBusEq: nat, numCompEq: nat, numCompVars: nat, numVars: nat,
                      alwaysAll: bool, iter: nat, inp: IterInputs, increment: seq<real>, solve: LinearSolver,
                      residual: array<real>, jacobian: array2<real>)
    returns (inc: seq<real>, linDep: bool, cs: seq<Conn>, vs: seq<seq<CustomVar>>)
    requires NetReady(fluids, ranges, busses, conns, comps, compVars, numConnVars, numConnEq, numBusEq, numCompEq, numCompVars, numVars)
    requires residual.Length == numVars && jacobian.Length0 == numVars && jacobian.Length1 == numVars
    requires FitsNetwork(inp, busses, |conns|, numConnVars, numCompEq, numVars) && SolverSound(solve)
    modifies residual, jacobian
    ensures residual[..] == AssembledResidual(old(residual[..]), numCompEq, numConnEq, inp.compRows,
      BusRowsIn(busses, inp.busComps, |conns|, numConnVars, numVars),
      ConnRowsIn(conns, fluids, iter, PropsOf(inp, increment), numVars), IterPolicy(iter, alwaysAll))
    ensures Matrix(jacobian) == AssembledJacobian(old(Matrix(jacobian)), numVars, numCompEq, numConnEq, inp.compRows,
      BusRowsIn(busses, inp.busComps, |conns|, numConnVars, numVars),
      ConnRowsIn(conns, fluids, iter, PropsOf(inp, increment), numVars))
    ensures |inc| == numVars
    ensures linDep <==> solve(Matrix(jacobian), residual[..]).None?
    ensures linDep <==> Singular(Matrix(jacobian))
    ensures linDep ==> inc == Zeros(numVars) && cs == conns && vs == compVars
    ensures !linDep ==> inc == solve(Matrix(jacobian), residual[..]).value
    ensures !linDep ==> Solves(Matrix(jacobian), inc, residual[..])
    ensures !linDep ==> cs == SteppedConns(conns, fluids, inc, iter, inp.single, ranges)
    ensures !linDep ==> vs == SteppedAllVars(compVars, comps, inc, ConnPart(|conns|, numConnVars))
    ensures NetReady(fluids, ranges, busses, cs, comps, vs,
                     numConnVars, numConnEq, numBusEq, numCompEq, numCompVars, numVars)
  {
    var busRows := BusRowsIn(busses, inp.busComps, |conns|, numConnVars, numVars);
    var connRows := ConnRowsIn(conns, fluids, iter, PropsOf(inp, increment), numVars);
    AssembleRows(residual, jacobian, numCompEq, numConnEq, inp.compRows, busRows, connRows, IterPolicy(iter, alwaysAll));
    assert SoundOn(solve, Matrix(jacobian), residual[..]);
    inc, linDep, cs, vs := SolveAndStep(solve, Matrix(jacobian), residual[..], fluids, ranges, busses, conns, comps, compVars, numConnVars, numConnEq, numBusEq, numCompEq, numCompVars, numVars, iter, inp.single);
  }

  /** What stays fixed across the iterations of solve_loop: the network's
      fluids, value ranges, busses, components and counts,
      always_all_equations, the inputs of every iteration and the linear
      solver. */
  datatype LoopSetup = LoopSetup(
    fluids: seq<string>, ranges: Ranges, busses: seq<Bus>, comps: seq<NetComp>,
    numConnVars: nat, numConnEq: nat, numBusEq: nat, numCompEq: nat, numCompVars: nat, numVars: nat,
    alwaysAll: bool, inputs: InputSource, solve: LinearSolver)

  /** The network is set up for the Newton loop with these connections and
      custom variables. */
  predicate ReadyAt(ls: LoopSetup, conns: seq<Conn>, compVars: seq<seq<CustomVar>>)
  {
    NetReady(ls.fluids, ls.ranges, ls.busses, conns, ls.comps, compVars,
             ls.numConnVars, ls.numConnEq, ls.numBusEq, ls.numCompEq, ls.numCompVars, ls.numVars)
  }

  /** The inputs of every iteration fit the network. */
  ghost predicate InputsFit(ls: LoopSetup, numConns: nat)
  {
    forall it, cs, vs :: FitsNetwork(ls.inputs(it, cs, vs), ls.busses, numConns, ls.numConnVars, ls.numCompEq, ls.numVars)
  }

  /** The state of the network that one Newton iteration works on: the
      connections, the custom variables, the contents of the residual and
      the Jacobian, and the last increment. */
  datatype Snapshot = Snapshot(conns: seq<Conn>, vars: seq<seq<CustomVar>>, residual: seq<real>,
                               jacobian: seq<seq<real>>, increment: seq<real>)

  /** The linear solver fails on the system held by `s` (lin_dep). */
  predicate SolverFails(ls: LoopSetup, s: Snapshot)
  {
    ls.solve(s.jacobian, s.residual).None?
  }

  /** Iteration `it` can start from `s`: the network is set up, the
      iteration's inputs fit it, and the arrays have num_vars rows. */
  predicate IterationReady(ls: LoopSetup, s: Snapshot, it: nat)
  {
    && ReadyAt(ls, s.conns, s.vars)
    && FitsNetwork(ls.inputs(it, s.conns, s.vars), ls.busses, |s.conns|, ls.numConnVars, ls.numCompEq, ls.numVars)
    && |s.residual| == ls.numVars && |s.jacobian| == ls.numVars && Rect(s.jacobian, ls.numVars)
  }

  /** Iteration `it` of solve_loop from `s`, as a function of the state:
      the rows of the components, busses and connections (with the
      iteration's inputs) are written over the residual and the Jacobian;
      when the solver fails on the new system the increment is zero and
      the connections and custom variables stay; otherwise the increment
      is the solver's answer, and the connections and custom variables
      take their steps. */
  ghost function Iteration(ls: LoopSetup, s: Snapshot, it: nat): (s2: Snapshot)
    requires IterationReady(ls, s, it) && SolverSound(ls.solve)
    ensures ReadyAt(ls, s2.conns, s2.vars) && |s2.conns| == |s.conns| && |s2.increment| == ls.numVars
    ensures |s2.residual| == ls.numVars && |s2.jacobian| == ls.numVars && Rect(s2.jacobian, ls.numVars)
    ensures SolverFails(ls, s2) <==> Singular(s2.jacobian)
    ensures SolverFails(ls, s2) ==> s2.increment == Zeros(ls.numVars) && s2.conns == s.conns && s2.vars == s.vars
    ensures !SolverFails(ls, s2) ==> Solves(s2.jacobian, s2.increment, s2.residual)
  {
    var inp := ls.inputs(it, s.conns, s.vars);
    var busRows := BusRowsIn(ls.busses, inp.busComps, |s.conns|, ls.numConnVars, ls.numVars);
    var connRows := ConnRowsIn(s.conns, ls.fluids, it, PropsOf(inp, s.increment), ls.numVars);
    var r := AssembledResidual(s.residual, ls.numCompEq, ls.numConnEq, inp.compRows, busRows, connRows,
                               IterPolicy(it, ls.alwaysAll));
    var m := AssembledJacobian(s.jacobian, ls.numVars, ls.numCompEq, ls.numConnEq, inp.compRows, busRows, connRows);
    assert SoundOn(ls.solve, m, r);
    match ls.solve(m, r)
    case None => Snapshot(s.conns, s.vars, r, m, Zeros(ls.numVars))
    case Some(x) =>
      StepKeepsNetReady(ls.fluids, ls.ranges, ls.busses, s.conns, ls.comps, s.vars, x, it, inp.single,
                        ls.numConnVars, ls.numConnEq, ls.numBusEq, ls.numCompEq, ls.numCompVars, ls.numVars);
      Snapshot(SteppedConns(s.conns, ls.fluids, x, it, inp.single, ls.ranges),
               SteppedAllVars(s.vars, ls.comps, x, ConnPart(|s.conns|, ls.numConnVars)), r, m, x)
  }

  /** solve_loop can start from `s0`: the network is set up, the inputs
      of every iteration fit it, the arrays have num_vars rows and the
      solver is sound. */
  ghost predicate LoopStart(ls: LoopSetup, s0: Snapshot)
  {
    && ReadyAt(ls, s0.conns, s0.vars) && SolverSound(ls.solve) && InputsFit(ls, |s0.conns|)
    && |s0.residual| == ls.numVars && |s0.jacobian| == ls.numVars && Rect(s0.jacobian, ls.numVars)
  }

  /** The state iteration `it` leads to from `s`; a state no iteration
      can start from is left as it is. */
  ghost function Next(ls: LoopSetup, s: Snapshot, it: nat): Snapshot
  {
    if SolverSound(ls.solve) && IterationReady(ls, s, it) then Iteration(ls, s, it) else s
  }

  /** The state after the first `n` iterations of solve_loop from `s0`. */
  ghost function After(ls: LoopSetup, s0: Snapshot, n: nat): Snapshot
    decreases n
  {
    if n == 0 then s0 else Next(ls, After(ls, s0, n - 1), n - 1)
  }

  /** Iteration `k` of `trace` leads from its state `k` to its state
      `k + 1`. */
  ghost predicate Linked(ls: LoopSetup, trace: seq<Snapshot>, k: nat)
    requires k + 1 < |trace|
  {
    SolverSound(ls.solve) && IterationReady(ls, trace[k], k) && trace[k + 1] == Iteration(ls, trace[k], k)
  }

  /** `trace` is the sequence of states solve_loop visits: it starts
      where the loop can start, and each later state is the Iteration of
      the one before it, with that state's index as the iteration number. */
  ghost predicate IsTrace(ls: LoopSetup, trace: seq<Snapshot>)
  {
    && |trace| > 0 && LoopStart(ls, trace[0])
    && forall k: nat :: k + 1 < |trace| ==> Linked(ls, trace, k)
  }

  /** A link of a trace stays a link when the trace grows. */
  lemma LinkedKept(ls: LoopSetup, trace: seq<Snapshot>, s: Snapshot, k: nat)
    requires k + 1 < |trace| && Linked(ls, trace, k)
    ensures Linked(ls, trace + [s], k)
  {
    assert (trace + [s])[k] == trace[k] && (trace + [s])[k + 1] == trace[k + 1];
  }

  /** The Iteration of the last state of a trace links it to the new
      last state. */
  lemma LinkedLast(ls: LoopSetup, trace: seq<Snapshot>, s: Snapshot, k: nat)
    requires k + 1 == |trace| && SolverSound(ls.solve)
    requires IterationReady(ls, trace[k], k) && s == Iteration(ls, trace[k], k)
    ensures Linked(ls, trace + [s], k)
  {
    var t := trace + [s];
    assert t[k] == trace[k] && t[k + 1] == s;
  }

  /** One more iteration extends a trace. */
  lemma TraceExtended(ls: LoopSetup, trace: seq<Snapshot>, s: Snapshot)
    requires IsTrace(ls, trace) && SolverSound(ls.solve)
    requires IterationReady(ls, trace[|trace| - 1], |trace| - 1)
    requires s == Iteration(ls, trace[|trace| - 1], |trace| - 1)
    ensures IsTrace(ls, trace + [s])
  {
    forall k: nat | k + 1 < |trace| + 1
      ensures Linked(ls, trace + [s], k)
    {
      if k + 1 < |trace| {
        LinkedKept(ls, trace, s, k);
      } else {
        assert k == |trace| - 1;
        LinkedLast(ls, trace, s, k);
      }
    }
    assert (trace + [s])[0] == trace[0];
  }

  /** Each state of `trace` is the Next of the one before it. */
  ghost predicate Follows(ls: LoopSetup, trace: seq<Snapshot>)
  {
    forall k: nat :: k + 1 < |trace| ==> trace[k + 1] == Next(ls, trace[k], k)
  }

  /** In a trace each state is the Next of the one before it. */
  lemma TraceFollows(ls: LoopSetup, trace: seq<Snapshot>)
    requires IsTrace(ls, trace)
    ensures Follows(ls, trace)
  {
    forall k: nat | k + 1 < |trace|
      ensures trace[k + 1] == Next(ls, trace[k], k)
    {
      assert Linked(ls, trace, k);
    }
  }

  /** State `n` of a sequence of states each following the one before is
      the state After `n` iterations from its first: solve_loop is
      deterministic. */
  lemma {:induction false} TraceAfter(ls: LoopSetup, trace: seq<Snapshot>, n: nat)
    requires Follows(ls, trace) && n < |trace|
    ensures trace[n] == After(ls, trace[0], n)
    decreases n
  {
    if n > 0 {
      TraceAfter(ls, trace, n - 1);
      assert trace[n] == Next(ls, trace[n - 1], n - 1);
    }
  }

  /** One iteration of solve_loop: solve_control on the iteration's
      inputs, then the squared residual norm joins the history. */
  method NewtonIteration(ls: LoopSetup, conns: seq<Conn>, compVars: seq<seq<CustomVar>>,
                         residual: array<real>, jacobian: array2<real>, it: nat, st: NewtonState)
    returns (cs: seq<Conn>, vs: seq<seq<CustomVar>>, st': NewtonState)
    requires ReadyAt(ls, conns, compVars)
    requires residual.Length == ls.numVars && jacobian.Length0 == ls.numVars && jacobian.Length1 == ls.numVars
    requires FitsNetwork(ls.inputs(it, conns, compVars), ls.busses, |conns|, ls.numConnVars, ls.numCompEq, ls.numVars)
    requires SolverSound(ls.solve)
    modifies residual, jacobian
    ensures IterationReady(ls, Snapshot(conns, compVars, old(residual[..]), old(Matrix(jacobian)), st.increment), it)
    ensures Snapshot(cs, vs, residual[..], Matrix(jacobian), st'.increment)
            == Iteration(ls, Snapshot(conns, compVars, old(residual[..]), old(Matrix(jacobian)), st.increment), it)
    ensures st'.iter == it && st'.progress && st'.res == st.res + [NormSq(residual[..])]
    ensures st'.linDep <==> ls.solve(Matrix(jacobian), residual[..]).None?
  {
    var inc, singular;
    inc, singular, cs, vs := SolveControl(ls.fluids, ls.ranges, ls.busses, conns, ls.comps, compVars,
                                          ls.numConnVars, ls.numConnEq, ls.numBusEq, ls.numCompEq, ls.numCompVars,
                                          ls.numVars, ls.alwaysAll, it, ls.inputs(it, conns, compVars), st.increment, ls.solve,
                                          residual, jacobian);
    st' := NewtonState(it, true, singular, st.res + [NormSq(residual[..])], inc);
  }

  /** `res[k]` is the squared norm of the residual the state after
      iteration k of `trace` holds. */
  predicate NormsOf(trace: seq<Snapshot>, res: seq<real>)
  {
    |trace| == |res| + 1 && forall k :: 0 <= k < |res| ==> res[k] == NormSq(trace[k + 1].residual)
  }

  /** The loop of solve_loop has visited `trace` and holds its last state
      in `cs`, `vs`, the arrays and `st`, whose norms are those of the
      trace. */
  ghost predicate AtEndOf(ls: LoopSetup, trace: seq<Snapshot>, cs: seq<Conn>, vs: seq<seq<CustomVar>>,
                          residual: seq<real>, jacobian: seq<seq<real>>, st: NewtonState)
  {
    && IsTrace(ls, trace) && NormsOf(trace, st.res)
    && trace[|trace| - 1] == Snapshot(cs, vs, residual, jacobian, st.increment)
  }

  /** One pass of the loop of solve_loop: iteration |st.res| extends the
      trace by the state it reaches. */
  method NewtonPass(ls: LoopSetup, cs: seq<Conn>, vs: seq<seq<CustomVar>>, residual: array<real>,
                    jacobian: array2<real>, st: NewtonState, ghost trace: seq<Snapshot>)
    returns (cs': seq<Conn>, vs': seq<seq<CustomVar>>, st': NewtonState, ghost trace': seq<Snapshot>)
    requires residual.Length == ls.numVars && jacobian.Length0 == ls.numVars && jacobian.Length1 == ls.numVars
    requires AtEndOf(ls, trace, cs, vs, residual[..], Matrix(jacobian), st)
    requires ReadyAt(ls, cs, vs) && |cs| == |trace[0].conns|
    modifies residual, jacobian
    ensures trace' == trace + [Snapshot(cs', vs', residual[..], Matrix(jacobian), st'.increment)]
    ensures AtEndOf(ls, trace', cs', vs', residual[..], Matrix(jacobian), st')
    ensures ReadyAt(ls, cs', vs') && |cs'| == |cs| && |st'.increment| == ls.numVars
    ensures st'.iter == |st.res| && st'.progress && st'.res == st.res + [NormSq(residual[..])]
    ensures st'.linDep <==> SolverFails(ls, trace'[|trace'| - 1])
  {
    assert SolverSound(ls.solve) && InputsFit(ls, |cs|);
    ghost var last := Snapshot(cs, vs, residual[..], Matrix(jacobian), st.increment);
    assert trace[|trace| - 1] == last && |trace| - 1 == |st.res|;
    cs', vs', st' := NewtonIteration(ls, cs, vs, residual, jacobian, |st.res|, st);
    ghost var next := Snapshot(cs', vs', residual[..], Matrix(jacobian), st'.increment);
    assert IterationReady(ls, last, |st.res|) && next == Iteration(ls, last, |st.res|);
    TraceExtended(ls, trace, next);
    NormsExtended(trace, st.res, next);
    trace' := trace + [next];
  }

  /** How the loop of solve_loop stopped after visiting `trace` with the
      final solver state `st`: lin_dep holds exactly when the solver
      failed on the last system; there were at most max_iter iterations,
      and at least one when max_iter is positive; no iteration before the
      last met a stopping condition; fewer than max_iter iterations means
      the last one converged, was linearly dependent or stagnated; and
      progress is false exactly when the last one stagnated without
      converging or being linearly dependent. */
  ghost predicate Stopped(ls: LoopSetup, trace: seq<Snapshot>, st: NewtonState, maxIter: nat, minIter: nat)
    requires |st.res| < |trace|
  {
    && (st.linDep <==> |st.res| > 0 && SolverFails(ls, trace[|st.res|]))
    && |st.res| <= maxIter && (maxIter > 0 ==> |st.res| > 0)
    && (|st.res| > 0 ==> st.iter == |st.res| - 1)
    && (|st.res| > 0 ==> Running(st.res[..|st.res| - 1], minIter))
    && (|st.res| < maxIter ==>
          var k := |st.res| - 1;
          Converged(st.res, k, minIter) || st.linDep || Stagnated(st.res, k))
    && (!st.progress <==>
          |st.res| > 0 && !Converged(st.res, |st.res| - 1, minIter) && !st.linDep && Stagnated(st.res, |st.res| - 1))
  }

  /** solve_loop, started from `s0`, visited `trace` and ended in `end`
      with the solver state `st`: the trace starts at `s0`, its norms are
      those of `st`, it ends in `end`, which is the state After that many
      iterations, and the loop Stopped as its conditions say. */
  ghost predicate LoopEnded(ls: LoopSetup, s0: Snapshot, trace: seq<Snapshot>, end: Snapshot, st: NewtonState,
                            maxIter: nat, minIter: nat)
  {
    && IsTrace(ls, trace) && NormsOf(trace, st.res) && trace[0] == s0
    && trace[|st.res|] == end && end.increment == st.increment
    && Stopped(ls, trace, st, maxIter, minIter)
  }

  /** The state solve_loop ends in is the state After its iterations:
      the loop is deterministic. */
  lemma EndsAfter(ls: LoopSetup, s0: Snapshot, trace: seq<Snapshot>, end: Snapshot, st: NewtonState,
                  maxIter: nat, minIter: nat)
    requires LoopEnded(ls, s0, trace, end, st, maxIter, minIter)
    ensures LoopStart(ls, s0) && end == After(ls, s0, |st.res|)
  {
    TraceFollows(ls, trace);
    TraceAfter(ls, trace, |st.res|);
  }

  /** solve_loop: Newton iterations from the increments 1 until the
      residual norm is below err**0.5 after at least min_iter iterations,
      the system is linearly dependent, the norm stagnates past iteration
      40 (progress is then false), or max_iter iterations are done. `trace`
      is the sequence of states visited, from the arrays as given and the
      increments 1; `res` holds the squared norms of their residuals; the
      loop ends in the last state, which is the state After that many
      iterations. */
  method NewtonLoop(ls: LoopSetup, conns: seq<Conn>, compVars: seq<seq<CustomVar>>,
                    residual: array<real>, jacobian: array2<real>, maxIter: nat, minIter: nat,
                    ghost s0: Snapshot)
    returns (cs: seq<Conn>, vs: seq<seq<CustomVar>>, st: NewtonState, ghost trace: seq<Snapshot>)
    requires ReadyAt(ls, conns, compVars)
    requires residual.Length == ls.numVars && jacobian.Length0 == ls.numVars && jacobian.Length1 == ls.numVars
    requires SolverSound(ls.solve) && InputsFit(ls, |conns|)
    requires s0 == Snapshot(conns, compVars, residual[..], Matrix(jacobian), Ones(ls.numVars))
    modifies residual, jacobian
    ensures ReadyAt(ls, cs, vs) && |cs| == |conns| && |st.increment| == ls.numVars
    ensures LoopEnded(ls, s0, trace, Snapshot(cs, vs, residual[..], Matrix(jacobian), st.increment), st, maxIter, minIter)
  {
    cs, vs := conns, compVars;
    st := NewtonState(0, true, false, [], Ones(ls.numVars));
    trace := [Snapshot(conns, compVars, residual[..], Matrix(jacobian), st.increment)];
    var it := 0;
    while it < maxIter
      invariant it == |st.res| <= maxIter
      invariant AtEndOf(ls, trace, cs, vs, residual[..], Matrix(jacobian), st)
      invariant trace[0] == s0
      invariant ReadyAt(ls, cs, vs)
      invariant |cs| == |conns| && |st.increment| == ls.numVars && st.progress && !st.linDep
      invariant |st.res| > 0 ==> !SolverFails(ls, trace[it])
      invariant Running(st.res, minIter) && (|st.res| > 0 ==> Running(st.res[..|st.res| - 1], minIter))
      invariant |st.res| > 0 ==> st.iter == |st.res| - 1
    {
      ghost var before := st.res;
      cs, vs, st, trace := NewtonPass(ls, cs, vs, residual, jacobian, st, trace);
      assert st.res[..|st.res| - 1] == before;
      if Converged(st.res, it, minIter) || st.linDep {
        LoopEndedHere(ls, trace, cs, vs, residual[..], Matrix(jacobian), st, maxIter, minIter);
        return;
      }
      if Stagnated(st.res, it) {
        st := st.(progress := false);
        LoopEndedHere(ls, trace, cs, vs, residual[..], Matrix(jacobian), st, maxIter, minIter);
        return;
      }
      RunningExtended(before, NormSq(residual[..]), minIter);
      it := it + 1;
    }
    LoopEndedHere(ls, trace, cs, vs, residual[..], Matrix(jacobian), st, maxIter, minIter);
  }

  /** Where the loop of solve_loop stops, it has ended: the state it
      holds is the state After its iterations. */
  lemma LoopEndedHere(ls: LoopSetup, trace: seq<Snapshot>, cs: seq<Conn>, vs: seq<seq<CustomVar>>,
                      residual: seq<real>, jacobian: seq<seq<real>>, st: NewtonState, maxIter: nat, minIter: nat)
    requires AtEndOf(ls, trace, cs, vs, residual, jacobian, st)
    requires Stopped(ls, trace, st, maxIter, minIter)
    ensures LoopEnded(ls, trace[0], trace, Snapshot(cs, vs, residual, jacobian, st.increment), st, maxIter, minIter)
  {
  }

  /** The norm of a new state's residual extends the norms of a trace. */
  lemma NormsExtended(trace: seq<Snapshot>, res: seq<real>, s: Snapshot)
    requires NormsOf(trace, res)
    ensures NormsOf(trace + [s], res + [NormSq(s.residual)])
  {
    var t, r := trace + [s], res + [NormSq(s.residual)];
    forall k | 0 <= k < |r|
      ensures r[k] == NormSq(t[k + 1].residual)
    {
      if k < |res| {
        assert r[k] == res[k] && t[k + 1] == trace[k + 1];
      }
    }
  }

  /** init_set_properties turns connection `c` into `r`. */
  predicate PreparedAs(c: Conn, r: Conn, units: NetUnits, fluids: seq<string>, initPrevious: bool)
  {
    |fluids| > 0 && UnitsValid(c, units) && PrepareConn(c, units, fluids, initPrevious) == Ok(r)
  }

  /** The unit and SI part of init_set_properties for one connection,
    property by property. */
  method SetSIValues(c: Conn, units: NetUnits) returns (r: Conn)
    requires UnitsValid(c, units)
    ensures r == ConnToSI(c, units)
  {
    r := c;
    var k := 0;
    while k < |AllProps|
      invariant 0 <= k <= |AllProps|
      invariant forall p :: Get(r, p) == if p in AllProps[..k] then InitQuantity(p, Get(c, p), units) else Get(c, p)
      invariant r.fluid == c.fluid && SameConnFrame(r, c) && r.newDesign == c.newDesign
      invariant r.goodStartingValues == c.goodStartingValues
    {
      var p := AllProps[k];
      assert AllProps[..k + 1] == AllProps[..k] + [p];
      r := With(r, p, InitQuantity(p, Get(c, p), units));
      k := k + 1;
    }
    forall p ensures Get(r, p) == Get(ConnToSI(c, units), p) {
      AllPropsComplete(p);
      ConnToSIRoundTrip(c, units, p);
    }
    SameProperties(r, ConnToSI(c, units));
  }

  /** init_set_properties for one connection: the connection with its SI
    values, and the connection with its fluid vector too or the foreign
    fluids it holds. */
  method InitSetConnection(c0: Conn, units: NetUnits, fluids: seq<string>, initPrevious: bool)
    returns (withSI: Conn, r: Result<Conn, set<string>>)
    requires |fluids| > 0 && UnitsValid(c0, units)
    ensures withSI == ConnWithSI(c0, units, initPrevious)
    ensures r == PrepareConn(c0, units, fluids, initPrevious)
  {
    var c := if initPrevious then c0 else c0.(goodStartingValues := false);
    assert forall p :: Get(c, p) == Get(c0, p);
    withSI := SetSIValues(c, units);
    var fv := InitFluid(fluids, withSI.fluid);
    if fv.Err? {
      return withSI, Err(fv.error);
    }
    r := Ok(withSI.(fluid := fv.value));
  }

  /** How init_set_properties leaves the connections when it stops at the
    first connection holding a foreign fluid. */
  predicate SetupStopped(before: seq<Conn>, after: seq<Conn>, e: NetworkError, units: NetUnits, fluids: seq<string>, initPrevious: bool)
  {
    var k := e.conn;
    && |fluids| > 0 && e.ForeignFluid? && k < |after| == |before|
    && (forall i :: 0 <= i < k ==> PreparedAs(before[i], after[i], units, fluids, initPrevious))
    && UnitsValid(before[k], units)
    && PrepareConn(before[k], units, fluids, initPrevious).Err?
    && e.names == UnknownFluids(fluids, before[k].fluid)
    && after[k] == ConnWithSI(before[k], units, initPrevious)
    && (forall i :: k < i < |after| ==> after[i] == before[i])
  }

  /** Stopping at connection `i` whose fluids are not all network fluids
      leaves the connections as SetupStopped describes. */
  lemma PrepareStop(conns: seq<Conn>, cs: seq<Conn>, i: nat, withSI: Conn, units: NetUnits, fluids: seq<string>, initPrevious: bool)
    requires i < |cs| == |conns| && |fluids| > 0 && UnitsValid(conns[i], units)
    requires forall j :: 0 <= j < i ==> PreparedAs(conns[j], cs[j], units, fluids, initPrevious)
    requires forall j :: i <= j < |cs| ==> cs[j] == conns[j]
    requires PrepareConn(conns[i], units, fluids, initPrevious).Err?
    requires withSI == ConnWithSI(conns[i], units, initPrevious)
    ensures SetupStopped(conns, cs[i := withSI], ForeignFluid(i, PrepareConn(conns[i], units, fluids, initPrevious).error), units, fluids, initPrevious)
  {
  }

  /** The loop of init_set_properties over the connections. */
  method PrepareConns(conns: seq<Conn>, units: NetUnits, fluids: seq<string>, initPrevious: bool)
    returns (cs: seq<Conn>, r: Outcome<NetworkError>)
    requires |fluids| > 0
    requires forall i :: 0 <= i < |conns| ==> UnitsValid(conns[i], units)
    ensures |cs| == |conns|
    ensures r.Pass? <==> forall i :: 0 <= i < |conns| ==> PrepareConn(conns[i], units, fluids, initPrevious).Ok?
    ensures r.Pass? ==> forall i :: 0 <= i < |conns| ==> PreparedAs(conns[i], cs[i], units, fluids, initPrevious)
    ensures r.Fail? ==> SetupStopped(conns, cs, r.error, units, fluids, initPrevious)
  {
    cs := conns;
    var i := 0;
    while i < |cs|
      invariant 0 <= i <= |cs| && |cs| == |conns|
      invariant forall j :: 0 <= j < i ==> PreparedAs(conns[j], cs[j], units, fluids, initPrevious)
      invariant forall j :: i <= j < |cs| ==> cs[j] == conns[j]
    {
      var withSI, prepared := InitSetConnection(cs[i], units, fluids, initPrevious);
      if prepared.Err? {
        PrepareStop(conns, cs, i, withSI, units, fluids, initPrevious);
        cs := cs[i := withSI];
        return cs, Fail(ForeignFluid(i, prepared.error));
      }
      cs := cs[i := prepared.value];
      i := i + 1;
    }
    return cs, Pass;
  }

  /** The bus count of init_design and init_offdesign: the number of
    busses with fixed power. */
  method CountBusEquations(busses: seq<Bus>) returns (n: nat)
    ensures n == NumBusEq(busses)
  {
    n := 0;
    var b := 0;
    while b < |busses|
      invariant 0 <= b <= |busses|
      invariant n == Count(BusFlags(busses)[..b])
    {
      CountPrefixStep(BusFlags(busses), b);
      n := n + B(busses[b].pIsSet);
      b := b + 1;
    }
    assert BusFlags(busses)[..|busses|] == BusFlags(busses);
  }

  /** How init_design leaves the connections when it stops at the first
    connection with local_offdesign and no design path. */
  predicate DesignStopped(before: seq<Conn>, after: seq<Conn>, e: NetworkError, redesign: bool)
  {
    var k := e.conn;
    && e.MissingConnDesignPath? && k < |after| == |before|
    && before[k].localOffdesign && !before[k].hasDesignPath
    && (forall i :: 0 <= i < k ==> ConnInitDesigned(before[i], after[i], redesign))
    && (forall i :: k <= i < |after| ==> after[i] == before[i])
  }

  /** The connection loop of init_design. */
  method DesignConns(conns: seq<Conn>, redesign: bool) returns (cs: seq<Conn>, r: Outcome<NetworkError>)
    ensures |cs| == |conns|
    ensures r.Pass? <==> forall i :: 0 <= i < |conns| && conns[i].localOffdesign ==> conns[i].hasDesignPath
    ensures r.Pass? ==> forall i :: 0 <= i < |conns| ==> ConnInitDesigned(conns[i], cs[i], redesign)
    ensures r.Fail? ==> DesignStopped(conns, cs, r.error, redesign)
  {
    cs := conns;
    var i := 0;
    while i < |cs|
      invariant 0 <= i <= |cs| && |cs| == |conns|
      invariant forall j :: 0 <= j < i ==> (conns[j].localOffdesign ==> conns[j].hasDesignPath)
      invariant forall j :: 0 <= j < i ==> ConnInitDesigned(conns[j], cs[j], redesign)
      invariant forall j :: i <= j < |cs| ==> cs[j] == conns[j]
    {
      var c := cs[i];
      if c.localOffdesign {
        var switched := ConnLocalOffdesign(c);
        if switched.Err? {
          return cs, Fail(MissingConnDesignPath(i));
        }
        cs := cs[i := switched.value];
      } else {
        var switched := ConnToDesign(c, redesign);
        cs := cs[i := switched];
      }
      i := i + 1;
    }
    return cs, Pass;
  }

  /** The component part of init_design: every component is switched and
    recounted as CompInitDesigned says, and the new counts are added up. */
  method DesignComponents(comps: seq<NetComp>, redesign: bool, compInit: NetComp -> (nat, nat))
    returns (cs: seq<NetComp>, numEq: nat, numVars: nat)
    requires forall k :: 0 <= k < |comps| ==> ListsKnown(comps[k])
    ensures |cs| == |comps|
    ensures forall k :: 0 <= k < |cs| ==> CompInitDesigned(comps[k], cs[k], redesign, compInit)
    ensures numEq == TotalCompEq(cs) && numVars == TotalCompVars(cs)
  {
    cs := comps;
    numEq, numVars := 0, 0;
    var k := 0;
    while k < |cs|
      invariant 0 <= k <= |cs| && |cs| == |comps|
      invariant forall j :: 0 <= j < k ==> CompInitDesigned(comps[j], cs[j], redesign, compInit)
      invariant forall j :: k <= j < |cs| ==> cs[j] == comps[j]
      invariant numEq == TotalCompEq(cs[..k]) && numVars == TotalCompVars(cs[..k])
    {
      var cp := cs[k];
      var next := cp;
      if cp.localOffdesign {
        var switched := CompToOffdesign(cp);
        next := switched.(newDesign := false);
      } else if redesign {
        next := CompToDesign(cp);
      }
      // comp_init
      var counts := compInit(next);
      next := next.(numEq := counts.0, numVars := counts.1);
      cs := cs[k := next];
      TotalCompStep(cs, k);
      numVars := numVars + next.numVars;
      numEq := numEq + next.numEq;
      k := k + 1;
    }
    assert cs[..|cs|] == cs;
  }

  /** The connection loop of init_offdesign. */
  method OffdesignConns(conns: seq<Conn>) returns (cs: seq<Conn>)
    ensures |cs| == |conns|
    ensures forall i :: 0 <= i < |conns| ==> ConnInitOffdesigned(conns[i], cs[i])
  {
    cs := conns;
    var i := 0;
    while i < |cs|
      invariant 0 <= i <= |cs| && |cs| == |conns|
      invariant forall j :: 0 <= j < i ==> ConnInitOffdesigned(conns[j], cs[j])
      invariant forall j :: i <= j < |cs| ==> cs[j] == conns[j]
    {
      var c := cs[i];
      if !c.localDesign {
        c := ConnToOffdesign(c);
      }
      cs := cs[i := c];
      i := i + 1;
    }
  }

  /** The component part of init_offdesign: every component is switched and
    recounted as CompInitOffdesigned says, and the new counts are added up. */
  method OffdesignComponents(comps: seq<NetComp>, compInit: NetComp -> (nat, nat))
    returns (cs: seq<NetComp>, numEq: nat, numVars: nat)
    requires forall k :: 0 <= k < |comps| ==> ListsKnown(comps[k])
    ensures |cs| == |comps|
    ensures forall k :: 0 <= k < |cs| ==> CompInitOffdesigned(comps[k], cs[k], compInit)
    ensures numEq == TotalCompEq(cs) && numVars == TotalCompVars(cs)
  {
    cs := comps;
    numEq, numVars := 0, 0;
    var k := 0;
    while k < |cs|
      invariant 0 <= k <= |cs| && |cs| == |comps|
      invariant forall j :: 0 <= j < k ==> CompInitOffdesigned(comps[j], cs[j], compInit)
      invariant forall j :: k <= j < |cs| ==> cs[j] == comps[j]
      invariant numEq == TotalCompEq(cs[..k]) && numVars == TotalCompVars(cs[..k])
    {
      var cp := cs[k];
      if !cp.localDesign {
        cp := CompToOffdesign(cp);
      }
      // comp_init, then new_design is cleared
      var counts := compInit(cp);
      cp := cp.(numEq := counts.0, numVars := counts.1, newDesign := false);
      cs := cs[k := cp];
      TotalCompStep(cs, k);
      numVars := numVars + cp.numVars;
      numEq := numEq + cp.numEq;
      k := k + 1;
    }
    assert cs[..|cs|] == cs;
  }

  class Network {
    const fluids: seq<string>
    const units: NetUnits
    const ranges: Ranges
    const busses: seq<Bus>
    const redesign: bool
    const alwaysAllEquations: bool
    const initPrevious: bool

    var conns: seq<Conn>
    var comps: seq<NetComp>
    var compVars: seq<seq<CustomVar>>

    var numBusEq: nat
    var numCompEq: nat
    var numConnEq: nat
    var numCompVars: nat
    var numConnVars: nat
    var numVars: nat

    var newton: NewtonState
    var residual: array<real>
    var jacobian: array2<real>

    constructor (fluids: seq<string>, units: NetUnits, ranges: Ranges, busses: seq<Bus>,
                 conns: seq<Conn>, comps: seq<NetComp>, compVars: seq<seq<CustomVar>>,
                 redesign: bool, alwaysAllEquations: bool, initPrevious: bool)
      ensures this.fluids == fluids && this.units == units && this.ranges == ranges && this.busses == busses
      ensures this.conns == conns && this.comps == comps && this.compVars == compVars
      ensures this.redesign == redesign && this.alwaysAllEquations == alwaysAllEquations
      ensures this.initPrevious == initPrevious
      ensures numBusEq == 0 && numCompEq == 0 && numConnEq == 0 && numCompVars == 0
      ensures numConnVars == 0 && numVars == 0
      ensures newton == NewtonState(0, true, false, [], [])
      ensures residual.Length == 0 && jacobian.Length0 == 0 && jacobian.Length1 == 0
    {
      this.fluids := fluids;
      this.units := units;
      this.ranges := ranges;
      this.busses := busses;
      this.redesign := redesign;
      this.alwaysAllEquations := alwaysAllEquations;
      this.initPrevious := initPrevious;
      this.conns := conns;
      this.comps := comps;
      this.compVars := compVars;
      numBusEq, numCompEq, numConnEq, numCompVars, numConnVars, numVars := 0, 0, 0, 0, 0, 0;
      newton := NewtonState(0, true, false, [], []);
      residual := new real[0];
      jacobian := new real[0, 0];
    }

    /** The network is set up for the Newton loop: the counts agree with
      the connections, components and busses, and the system is square. */
    predicate Ready()
      reads this`conns, this`comps, this`compVars
      reads this`numConnVars, this`numConnEq, this`numBusEq, this`numCompEq, this`numCompVars, this`numVars
    {
      NetReady(fluids, ranges, busses, conns, comps, compVars,
               numConnVars, numConnEq, numBusEq, numCompEq, numCompVars, numVars)
    }

    // -------------------------------------------------------------------
    // Setup

    /** init_set_properties: every connection gets SI values and a fluid
      vector over the network's fluids, in order; the first connection
      holding a foreign fluid stops the setup with its SI values set and
      its fluid vector untouched. */
    method InitSetProperties() returns (r: Outcome<NetworkError>)
      requires |fluids| > 0
      requires forall i :: 0 <= i < |conns| ==> UnitsValid(conns[i], units)
      modifies this`conns
      ensures |conns| == |old(conns)|
      ensures r.Pass? <==> forall i :: 0 <= i < |conns| ==> PrepareConn(old(conns)[i], units, fluids, initPrevious).Ok?
      ensures r.Pass? ==> forall i :: 0 <= i < |conns| ==> PreparedAs(old(conns)[i], conns[i], units, fluids, initPrevious)
      ensures r.Fail? ==> SetupStopped(old(conns), conns, r.error, units, fluids, initPrevious)
    {
      var cs;
      cs, r := PrepareConns(conns, units, fluids, initPrevious);
      conns := cs;
    }

    /** init_count_connections_parameters: the equations connection `c`
      adds to num_conn_eq. */
    method InitCountConnectionsParameters(c: Conn)
      modifies this`numConnEq
      ensures numConnEq == old(numConnEq) + ConnEquationCount(c, fluids)
    {
      numConnEq := numConnEq + B(c.m.valSet) + B(c.p.valSet) + B(c.h.valSet) + B(c.t.valSet)
        + B(c.x.valSet) + B(c.v.valSet) + B(c.tdBp.valSet);
      numConnEq := numConnEq + B(c.m.refSet) + B(c.p.refSet) + B(c.h.refSet) + B(c.t.refSet);
      numConnEq := numConnEq + FluidSetCount(fluids, c.fluid.valSet);
      numConnEq := numConnEq + B(c.fluid.balance);
    }

    /** The counting pass of init_properties over all connections. */
    method CountConnections()
      modifies this`numConnEq
      ensures numConnEq == old(numConnEq) + TotalConnEquations(conns, fluids)
    {
      var i := 0;
      while i < |conns|
        invariant 0 <= i <= |conns|
        invariant numConnEq == old(numConnEq) + TotalConnEquations(conns[..i], fluids)
      {
        TotalConnEquationsStep(conns, fluids, i);
        InitCountConnectionsParameters(conns[i]);
        i := i + 1;
      }
      assert conns[..|conns|] == conns;
    }

    /** init_design: connections, then busses, then components. A
      connection with local_offdesign and no design path stops the setup;
      every other connection and every component is switched as
      ConnInitDesigned and CompInitDesigned say, and the counts comp_init
      gives the switched components (`compInit`) are added up. */
    method InitDesign(compInit: NetComp -> (nat, nat)) returns (r: Outcome<NetworkError>)
      requires forall k :: 0 <= k < |comps| ==> ListsKnown(comps[k])
      modifies this`conns, this`comps, this`numBusEq, this`numCompEq, this`numCompVars
      ensures |conns| == |old(conns)| && |comps| == |old(comps)|
      ensures r.Pass? <==> forall i :: 0 <= i < |conns| && old(conns)[i].localOffdesign ==> old(conns)[i].hasDesignPath
      ensures r.Fail? ==>
        && DesignStopped(old(conns), conns, r.error, redesign)
        && comps == old(comps) && numBusEq == old(numBusEq)
        && numCompEq == old(numCompEq) && numCompVars == old(numCompVars)
      ensures r.Pass? ==>
        && (forall i :: 0 <= i < |conns| ==> ConnInitDesigned(old(conns)[i], conns[i], redesign))
        && (forall k :: 0 <= k < |comps| ==> CompInitDesigned(old(comps)[k], comps[k], redesign, compInit))
        && numBusEq == old(numBusEq) + NumBusEq(busses)
        && numCompEq == old(numCompEq) + TotalCompEq(comps)
        && numCompVars == old(numCompVars) + TotalCompVars(comps)
    {
      var cs;
      cs, r := DesignConns(conns, redesign);
      conns := cs;
      if r.Fail? {
        return;
      }
      var nb := CountBusEquations(busses);
      var ps, ne, nv := DesignComponents(comps, redesign, compInit);
      numBusEq := numBusEq + nb;
      comps := ps;
      numCompEq, numCompVars := numCompEq + ne, numCompVars + nv;
    }

    /** init_offdesign: connections without local_design switch to
      offdesign, every component without local_design too; every component
      is recounted by comp_init (`compInit`) and is no longer new; then the
      busses are counted. */
    method InitOffdesign(compInit: NetComp -> (nat, nat))
      requires forall k :: 0 <= k < |comps| ==> ListsKnown(comps[k])
      modifies this`conns, this`comps, this`numBusEq, this`numCompEq, this`numCompVars
      ensures |conns| == |old(conns)| && |comps| == |old(comps)|
      ensures forall i :: 0 <= i < |conns| ==> ConnInitOffdesigned(old(conns)[i], conns[i])
      ensures forall k :: 0 <= k < |comps| ==> CompInitOffdesigned(old(comps)[k], comps[k], compInit)
      ensures numBusEq == old(numBusEq) + NumBusEq(busses)
      ensures numCompEq == old(numCompEq) + TotalCompEq(comps)
      ensures numCompVars == old(numCompVars) + TotalCompVars(comps)
    {
      var cs := OffdesignConns(conns);
      var ps, ne, nv := OffdesignComponents(comps, compInit);
      var nb := CountBusEquations(busses);
      conns, comps := cs, ps;
      numCompEq, numCompVars := numCompEq + ne, numCompVars + nv;
      numBusEq := numBusEq + nb;
    }

    /** solve_determination: the variable counts are set, and the system
      must be square. */
    method SolveDetermination() returns (r: Outcome<DeterminationError>)
      modifies this`numConnVars, this`numVars
      ensures numConnVars == NumConnVars(|fluids|)
      ensures numVars == NumVars(|fluids|, |conns|, numCompVars)
      ensures r == Determination(|fluids|, |conns|, numCompVars, numCompEq, numConnEq, numBusEq)
    {
      numConnVars := |fluids| + 3;
      numVars := |conns| * numConnVars + numCompVars;
      var n := numCompEq + numConnEq + numBusEq;
      if n > numVars {
        return Fail(TooMany(numVars, n));
      } else if n < numVars {
        return Fail(NotEnough(numVars, n));
      }
      return Pass;
    }

    // -------------------------------------------------------------------
    // The Newton loop

    /** The residual and the Jacobian of the loop, num_vars rows each,
      all zero. */
    method Alloc() returns (r: array<real>, m: array2<real>)
      ensures r.Length == numVars && m.Length0 == numVars && m.Length1 == numVars
      ensures fresh(r) && fresh(m)
      ensures r[..] == Zeros(numVars) && Matrix(m) == ZeroMatrix(numVars)
    {
      r := new real[numVars](_ => 0.0);
      m := new real[numVars, numVars]((_, _) => 0.0);
      MatrixExt(Matrix(m), ZeroMatrix(numVars), numVars);
    }

    /** What solve_loop keeps fixed, with these inputs and this solver. */
    function LoopOf(inputs: InputSource, solve: LinearSolver): (ls: LoopSetup)
      reads this`comps, this`numConnVars, this`numConnEq, this`numBusEq, this`numCompEq, this`numCompVars, this`numVars
      ensures Ready() ==> ReadyAt(ls, conns, compVars)
    {
      LoopSetup(fluids, ranges, busses, comps, numConnVars, numConnEq, numBusEq, numCompEq, numCompVars, numVars,
                alwaysAllEquations, inputs, solve)
    }

    /** solve_loop on the network's own state (NewtonLoop): the loop starts
      from a zero residual and Jacobian and the increments 1, visits the
      states of `trace`, and the connections and custom variables of the
      last one are stored in the network. */
    method SolveLoop(maxIter: nat, minIter: nat, inputs: InputSource, solve: LinearSolver)
      returns (ghost trace: seq<Snapshot>, ghost end: Snapshot)
      requires Ready() && SolverSound(solve) && InputsFit(LoopOf(inputs, solve), |conns|)
      modifies this`newton, this`residual, this`jacobian, this`conns, this`compVars
      ensures Ready() && |conns| == |old(conns)| && fresh(residual) && fresh(jacobian)
      ensures residual.Length == numVars && jacobian.Length0 == numVars && jacobian.Length1 == numVars
      ensures end == Snapshot(conns, compVars, residual[..], Matrix(jacobian), newton.increment)
      ensures LoopEnded(old(LoopOf(inputs, solve)), old(Snapshot(conns, compVars, Zeros(numVars), ZeroMatrix(numVars), Ones(numVars))),
                        trace, end, newton, maxIter, minIter)
    {
      var ls := LoopOf(inputs, solve);
      ghost var s0 := Snapshot(conns, compVars, Zeros(numVars), ZeroMatrix(numVars), Ones(numVars));
      var r, m := Alloc();
      var cs, vs, st;
      cs, vs, st, trace := NewtonLoop(ls, conns, compVars, r, m, maxIter, minIter, s0);
      end := Snapshot(cs, vs, r[..], Matrix(m), st.increment);
      Store(cs, vs, st, r, m);
    }

    /** The connections, custom variables, solver state and arrays that
      solve_loop leaves in the network; connections and custom variables
      the loop's setup is ready at keep the network Ready. */
    method Store(cs: seq<Conn>, vs: seq<seq<CustomVar>>, st: NewtonState, r: array<real>, m: array2<real>)
      requires NetReady(fluids, ranges, busses, cs, comps, vs,
                        numConnVars, numConnEq, numBusEq, numCompEq, numCompVars, numVars)
      modifies this`newton, this`residual, this`jacobian, this`conns, this`compVars
      ensures conns == cs && compVars == vs && newton == st && residual == r && jacobian == m
      ensures Ready()
    {
      conns, compVars, newton, residual, jacobian := cs, vs, st, r, m;
    }
  }
}
