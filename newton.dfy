/** The pieces of one Newton iteration of TESPy's network solver
    (src/tespy/networks/network.py): the step of a connection and of the
    custom variables (solve_control), the linear solve (matrix_inversion),
    the residual norms the loop compares (solve_loop), and where the rows of
    the components, connections and busses land in the equation system. */
module Newton {
  import opened Wrappers
  import opened Globals
  import opened Connections
  import opened Modes
  import opened Slots
  import opened Assembly
  import opened Step
  import opened ConnEquations
  import opened Setup
  import opened Counting

  /** A custom variable of a component: its position among the component's
      variables, its value and its bounds. */
  datatype CustomVar = CustomVar(pos: nat, val: real, minVal: real, maxVal: real)

  /** The linear solve of matrix_inversion: a solution of J x = -r, or
      none when J is singular. */
  type LinearSolver = (seq<seq<real>>, seq<real>) -> Option<seq<real>>

  // ---------------------------------------------------------------------
  // The Newton step of solve_control

  /** The state vector block of connection `i`. */
  function Block(inc: seq<real>, i: nat, ncv: nat): (b: seq<real>)
    requires (i + 1) * ncv <= |inc|
    ensures |b| == ncv
  {
    inc[i * ncv..(i + 1) * ncv]
  }

  /** A connection after the step of solve_control: its increment block is
      added and its properties are range-checked. */
  function SteppedConn(c: Conn, fluids: seq<string>, block: seq<real>, iter: nat, single: bool, ranges: Ranges): (r: Conn)
    requires |block| == 3 + |fluids| && (|fluids| > 1 ==> FluidsCovered(fluids, c.fluid))
    ensures OnlyStateChanged(r, c) && r.fluid.val.Keys == c.fluid.val.Keys
  {
    var s := StepConn(c, fluids, block);
    var once := CheckProps(s, iter, single, ranges);
    OnlyStateChangedTrans(once, s, c);
    once
  }

  lemma OnlyStateChangedTrans(a: Conn, b: Conn, c: Conn)
    requires OnlyStateChanged(a, b) && OnlyStateChanged(b, c)
    ensures OnlyStateChanged(a, c)
  {
  }

  /** The step never touches a fixed mass flow, pressure or enthalpy. */
  lemma SteppedConnKeepsFixed(c: Conn, fluids: seq<string>, block: seq<real>, iter: nat, single: bool, ranges: Ranges)
    requires |block| == 3 + |fluids| && (|fluids| > 1 ==> FluidsCovered(fluids, c.fluid))
    ensures var r := SteppedConn(c, fluids, block, iter, single, ranges);
            (c.m.valSet ==> r.m == c.m) && (c.p.valSet ==> r.p == c.p) && (c.h.valSet ==> r.h == c.h)
  {
    var s := StepConn(c, fluids, block);
    assert c.m.valSet ==> s.m == c.m;
    assert c.p.valSet ==> s.p == c.p;
    assert c.h.valSet ==> s.h == c.h;
  }

  /** After the step a free mass flow lies in its range, a positive
      pressure stays positive when the pressure range is positive, and
      every fraction of a mixture lies in [0, 1]. */
  lemma SteppedConnInRange(c: Conn, fluids: seq<string>, block: seq<real>, iter: nat, single: bool, ranges: Ranges)
    requires |block| == 3 + |fluids| && (|fluids| > 1 ==> FluidsCovered(fluids, c.fluid))
    ensures var r := SteppedConn(c, fluids, block, iter, single, ranges);
            && (!c.m.valSet && ranges.m.lo <= ranges.m.hi ==> ranges.m.lo <= r.m.valSI <= ranges.m.hi)
            && (c.p.valSI > 0.0 && 0.0 < ranges.p.lo <= ranges.p.hi ==> r.p.valSI > 0.0)
            && (|fluids| > 1 ==> forall f :: f in fluids ==> f in r.fluid.val && 0.0 <= r.fluid.val[f] <= 1.0)
  {
    var s := StepConn(c, fluids, block);
    if c.p.valSI > 0.0 && 0.0 < ranges.p.lo <= ranges.p.hi {
      PressureStaysPositive(c, fluids, block, iter, single, ranges);
    }
    if |fluids| > 1 {
      assert s.fluid.val == StepFluids(fluids, c.fluid, block);
    }
  }

  /** The second range check solve_control makes in its first three
      iterations changes nothing: the range check is idempotent. */
  lemma SecondCheckKeeps(c: Conn, fluids: seq<string>, block: seq<real>, iter: nat, single: bool, ranges: Ranges)
    requires |block| == 3 + |fluids| && (|fluids| > 1 ==> FluidsCovered(fluids, c.fluid))
    requires ranges.m.lo <= ranges.m.hi && ranges.p.lo <= ranges.p.hi && ranges.h.lo <= ranges.h.hi
    ensures var r := SteppedConn(c, fluids, block, iter, single, ranges);
            CheckProps(r, iter, single, ranges) == r
  {
    var r := SteppedConn(c, fluids, block, iter, single, ranges);
    var twice := CheckProps(r, iter, single, ranges);
    CheckPropsIdempotent(StepConn(c, fluids, block), iter, single, ranges);
    assert twice.m == r.m && twice.p == r.p && twice.h == r.h;
  }

  /** The custom variables of one component after their increments, each
      clamped into its bounds. */
  function SteppedVars(vars: seq<CustomVar>, inc: seq<real>, base: nat): (r: seq<CustomVar>)
    requires forall j :: 0 <= j < |vars| ==> base + vars[j].pos < |inc|
    ensures |r| == |vars|
    ensures forall j :: 0 <= j < |vars| ==> r[j] == vars[j].(val := r[j].val)
    ensures forall j :: 0 <= j < |vars| && vars[j].minVal <= vars[j].maxVal ==> vars[j].minVal <= r[j].val <= vars[j].maxVal
    ensures forall j :: 0 <= j < |vars| && vars[j].minVal <= vars[j].val + inc[base + vars[j].pos] <= vars[j].maxVal ==>
      r[j].val == vars[j].val + inc[base + vars[j].pos]
  {
    seq(|vars|, j requires 0 <= j < |vars| =>
      vars[j].(val := StepVar(vars[j].val, inc[base + vars[j].pos], vars[j].minVal, vars[j].maxVal)))
  }

  /** Each component's custom variables have positions below its variable
      count. */
  predicate VarsPlaced(comps: seq<NetComp>, compVars: seq<seq<CustomVar>>)
  {
    |compVars| == |comps|
    && forall k, j :: 0 <= k < |comps| && 0 <= j < |compVars[k]| ==> compVars[k][j].pos < comps[k].numVars
  }

  /** The state vector block of connection `i` lies inside the connection
      part of the vector. */
  lemma BlockFits(i: nat, n: nat, ncv: nat)
    requires i < n
    ensures (i + 1) * ncv <= ConnPart(n, ncv)
  {
    ConnPartProduct(n, ncv);
    var d := n - (i + 1);
    calc {
      n * ncv;
    ==
      ((i + 1) + d) * ncv;
    ==
      (i + 1) * ncv + d * ncv;
    }
  }

  /** Every connection after the step of solve_control: connection `i`
      takes block `i` of the increment. */
  function SteppedConns(conns: seq<Conn>, fluids: seq<string>, inc: seq<real>, iter: nat, single: seq<bool>, ranges: Ranges): (r: seq<Conn>)
    requires ConnsReady(conns, fluids) && |single| == |conns| && ConnPart(|conns|, |fluids| + 3) <= |inc|
    ensures |r| == |conns|
  {
    seq(|conns|, i requires 0 <= i < |conns| =>
      BlockFits(i, |conns|, |fluids| + 3);
      SteppedConn(conns[i], fluids, Block(inc, i, |fluids| + 3), iter, single[i], ranges))
  }

  /** The step changes only SI values and fractions, so the connections
      stay ready for assembly and add the same num_conn_eq. */
  lemma SteppedConnsReady(conns: seq<Conn>, fluids: seq<string>, inc: seq<real>, iter: nat, single: seq<bool>, ranges: Ranges)
    requires ConnsReady(conns, fluids) && |single| == |conns| && ConnPart(|conns|, |fluids| + 3) <= |inc|
    ensures ConnsReady(SteppedConns(conns, fluids, inc, iter, single, ranges), fluids)
    ensures TotalConnEquations(SteppedConns(conns, fluids, inc, iter, single, ranges), fluids) == TotalConnEquations(conns, fluids)
  {
    var r := SteppedConns(conns, fluids, inc, iter, single, ranges);
    forall i | 0 <= i < |conns|
      ensures OnlyStateChanged(r[i], conns[i]) && r[i].fluid.val.Keys == conns[i].fluid.val.Keys
    {
      BlockFits(i, |conns|, |fluids| + 3);
    }
    StepKeepsReady(conns, r, fluids);
  }

  /** The connection loop of solve_control: connection `i` takes block
      `i` of the increment and is range checked (solve_check_props). */
  method StepConns(conns: seq<Conn>, fluids: seq<string>, inc: seq<real>, iter: nat, single: seq<bool>, ranges: Ranges)
    returns (r: seq<Conn>)
    requires ConnsReady(conns, fluids) && |single| == |conns| && ConnPart(|conns|, |fluids| + 3) <= |inc|
    ensures r == SteppedConns(conns, fluids, inc, iter, single, ranges)
  {
    ghost var target := SteppedConns(conns, fluids, inc, iter, single, ranges);
    r := conns;
    var i := 0;
    while i < |r|
      invariant 0 <= i <= |r| && |r| == |conns|
      invariant forall j :: 0 <= j < i ==> r[j] == target[j]
      invariant forall j :: i <= j < |r| ==> r[j] == conns[j]
    {
      BlockFits(i, |conns|, |fluids| + 3);
      r := r[i := SteppedConn(r[i], fluids, Block(inc, i, |fluids| + 3), iter, single[i], ranges)];
      i := i + 1;
    }
  }

  /** The second range check of solve_control's first three iterations:
      on connections the step has just checked it changes nothing. */
  method RecheckConns(conns: seq<Conn>, ghost prev: seq<Conn>, fluids: seq<string>, inc: seq<real>, iter: nat,
                      single: seq<bool>, ranges: Ranges) returns (r: seq<Conn>)
    requires ranges.m.lo <= ranges.m.hi && ranges.p.lo <= ranges.p.hi && ranges.h.lo <= ranges.h.hi
    requires ConnsReady(prev, fluids) && |single| == |prev| && ConnPart(|prev|, |fluids| + 3) <= |inc|
    requires conns == SteppedConns(prev, fluids, inc, iter, single, ranges)
    ensures r == conns
  {
    r := conns;
    var i := 0;
    while i < |r|
      invariant 0 <= i <= |r| && r == conns
    {
      BlockFits(i, |prev|, |fluids| + 3);
      SecondCheckKeeps(prev[i], fluids, Block(inc, i, |fluids| + 3), iter, single[i], ranges);
      r := r[i := CheckProps(r[i], iter, single[i], ranges)];
      i := i + 1;
    }
  }

  /** The whole connection part of solve_control's step: the step with
      its range check, and in the first three iterations the second range
      check. */
  method StepAndCheckConns(conns: seq<Conn>, fluids: seq<string>, inc: seq<real>, iter: nat,
                           single: seq<bool>, ranges: Ranges) returns (r: seq<Conn>)
    requires ranges.m.lo <= ranges.m.hi && ranges.p.lo <= ranges.p.hi && ranges.h.lo <= ranges.h.hi
    requires ConnsReady(conns, fluids) && |single| == |conns| && ConnPart(|conns|, |fluids| + 3) <= |inc|
    ensures r == SteppedConns(conns, fluids, inc, iter, single, ranges)
  {
    r := StepConns(conns, fluids, inc, iter, single, ranges);
    if iter < 3 {
      r := RecheckConns(r, conns, fluids, inc, iter, single, ranges);
    }
  }

  /** A connection whose only changes are SI values and fractions adds the
      same equations. */
  lemma ConnEquationCountKept(a: Conn, b: Conn, fluids: seq<string>)
    requires OnlyStateChanged(a, b)
    ensures ConnEquationCount(a, fluids) == ConnEquationCount(b, fluids)
  {
  }

  /** Connections whose only changes are SI values and fractions add the
      same number of equations. */
  lemma TotalConnEquationsKept(conns: seq<Conn>, r: seq<Conn>, fluids: seq<string>)
    requires |r| == |conns| && forall i :: 0 <= i < |conns| ==> OnlyStateChanged(r[i], conns[i])
    ensures TotalConnEquations(r, fluids) == TotalConnEquations(conns, fluids)
  {
    forall i | 0 <= i < |conns|
      ensures ConnEquationCount(r[i], fluids) == ConnEquationCount(conns[i], fluids)
    {
      ConnEquationCountKept(r[i], conns[i], fluids);
    }
    assert seq(|r|, i requires 0 <= i < |r| => ConnEquationCount(r[i], fluids))
        == seq(|conns|, i requires 0 <= i < |conns| => ConnEquationCount(conns[i], fluids));
  }

  /** The step keeps the connections ready for assembly and keeps
      num_conn_eq. */
  lemma StepKeepsReady(conns: seq<Conn>, r: seq<Conn>, fluids: seq<string>)
    requires ConnsReady(conns, fluids) && |r| == |conns|
    requires forall i :: 0 <= i < |conns| ==> OnlyStateChanged(r[i], conns[i]) && r[i].fluid.val.Keys == conns[i].fluid.val.Keys
    ensures ConnsReady(r, fluids)
    ensures TotalConnEquations(r, fluids) == TotalConnEquations(conns, fluids)
  {
    TotalConnEquationsKept(conns, r, fluids);
    forall i | 0 <= i < |r|
      ensures FluidsCovered(fluids, r[i].fluid)
      ensures r[i].m.ref == conns[i].m.ref && r[i].p.ref == conns[i].p.ref && r[i].h.ref == conns[i].h.ref
      ensures r[i].m.refSet == conns[i].m.refSet && r[i].p.refSet == conns[i].p.refSet && r[i].h.refSet == conns[i].h.refSet
      ensures r[i].t.ref == conns[i].t.ref && r[i].t.refSet == conns[i].t.refSet
    {
      assert OnlyStateChanged(r[i], conns[i]);
      assert FluidsCovered(fluids, conns[i].fluid);
    }
  }

  /** The custom variables of every component after the step: those of
      component `k` sit at `base` plus the variables of the components
      before it. */
  function SteppedAllVars(compVars: seq<seq<CustomVar>>, comps: seq<NetComp>, inc: seq<real>, base: nat): (r: seq<seq<CustomVar>>)
    requires VarsPlaced(comps, compVars) && base + TotalCompVars(comps) <= |inc|
    ensures |r| == |compVars| && VarsPlaced(comps, r)
    ensures forall k :: 0 <= k < |r| ==> |r[k]| == |compVars[k]|
    ensures forall k, j :: 0 <= k < |r| && 0 <= j < |r[k]| && compVars[k][j].minVal <= compVars[k][j].maxVal ==>
      compVars[k][j].minVal <= r[k][j].val <= compVars[k][j].maxVal
  {
    seq(|comps|, k requires 0 <= k < |comps| =>
      CompVarsBlockWithin(comps, k);
      SteppedVars(compVars[k], inc, base + TotalCompVars(comps[..k])))
  }

  /** The custom variables of one component after the step, one by one:
      each takes its increment and is clamped into [min_val, max_val]. */
  method StepVars(vars: seq<CustomVar>, inc: seq<real>, base: nat) returns (r: seq<CustomVar>)
    requires forall j :: 0 <= j < |vars| ==> base + vars[j].pos < |inc|
    ensures r == SteppedVars(vars, inc, base)
  {
    r := vars;
    var j := 0;
    while j < |vars|
      invariant 0 <= j <= |vars| && |r| == |vars|
      invariant forall q :: 0 <= q < j ==> r[q] == SteppedVars(vars, inc, base)[q]
      invariant forall q :: j <= q < |vars| ==> r[q] == vars[q]
    {
      var v := r[j];
      var val := v.val + inc[base + v.pos];
      if val < v.minVal {
        val := v.minVal;
      } else if val > v.maxVal {
        val := v.maxVal;
      }
      r := r[j := v.(val := val)];
      j := j + 1;
    }
  }

  /** The custom-variable loop of solve_control: the variables of each
      component sit at `base`, after the connections' blocks, plus the
      variables of the components before it (sum_c_var). */
  method StepAllVars(compVars: seq<seq<CustomVar>>, comps: seq<NetComp>, inc: seq<real>, base: nat)
    returns (r: seq<seq<CustomVar>>)
    requires VarsPlaced(comps, compVars) && base + TotalCompVars(comps) <= |inc|
    ensures r == SteppedAllVars(compVars, comps, inc, base)
  {
    ghost var target := SteppedAllVars(compVars, comps, inc, base);
    r := compVars;
    var sumCVar := 0;
    var k := 0;
    while k < |comps|
      invariant 0 <= k <= |comps| && |r| == |comps|
      invariant sumCVar == TotalCompVars(comps[..k])
      invariant forall j :: 0 <= j < k ==> r[j] == target[j]
      invariant forall j :: k <= j < |comps| ==> r[j] == compVars[j]
    {
      CompVarsBlockWithin(comps, k);
      var stepped := StepVars(r[k], inc, base + sumCVar);
      r := r[k := stepped];
      TotalCompStep(comps, k);
      sumCVar := sumCVar + comps[k].numVars;
      k := k + 1;
    }
  }

  /** Variables placed below `n` exist only if `n` is positive. */
  lemma PositionsBelow(vars: seq<CustomVar>, n: nat)
    requires forall j :: 0 <= j < |vars| ==> vars[j].pos < n
    ensures |vars| > 0 ==> n > 0
  {
    if |vars| > 0 {
      assert vars[0].pos < n;
    }
  }

  /** Without custom variables (num_comp_vars == 0, where solve_control
      skips their loop) the step leaves them as they are. */
  lemma NoCustomVarsUnchanged(compVars: seq<seq<CustomVar>>, comps: seq<NetComp>, inc: seq<real>, base: nat)
    requires VarsPlaced(comps, compVars) && TotalCompVars(comps) == 0 && base <= |inc|
    ensures SteppedAllVars(compVars, comps, inc, base) == compVars
  {
    forall k | 0 <= k < |comps|
      ensures compVars[k] == []
    {
      CompVarsBlockWithin(comps, k);
      PositionsBelow(compVars[k], comps[k].numVars);
    }
  }

  /** A vector of zeros. */
  function Zeros(n: nat): (z: seq<real>)
    ensures |z| == n && forall i :: 0 <= i < n ==> z[i] == 0.0
  {
    seq(n, i => 0.0)
  }

  /** A vector of ones. */
  function Ones(n: nat): (o: seq<real>)
    ensures |o| == n && forall i :: 0 <= i < n ==> o[i] == 1.0
  {
    seq(n, i => 1.0)
  }

  /** A square matrix of zeros. */
  function ZeroMatrix(n: nat): (z: seq<seq<real>>)
    ensures |z| == n && Rect(z, n) && forall i, j :: 0 <= i < n && 0 <= j < n ==> z[i][j] == 0.0
  {
    seq(n, i => Zeros(n))
  }

  // ---------------------------------------------------------------------
  // The linear solve

  function Dot(a: seq<real>, b: seq<real>): real
    requires |a| == |b|
  {
    Sum(seq(|a|, i requires 0 <= i < |a| => a[i] * b[i]))
  }

  /** `x` solves `m x = -b`. */
  predicate Solves(m: seq<seq<real>>, x: seq<real>, b: seq<real>)
  {
    |m| == |b| && Rect(m, |x|) && forall i :: 0 <= i < |m| ==> Dot(m[i], x) == -b[i]
  }

  /** The solver's answer for the system `m x = -b`, if any, solves it. */
  predicate SoundAt(solve: LinearSolver, m: seq<seq<real>>, b: seq<real>)
  {
    solve(m, b).Some? ==> |solve(m, b).value| == |b| && Solves(m, solve(m, b).value, b)
  }

  /** `m` is singular: some nonzero vector solves m x = 0. */
  ghost predicate Singular(m: seq<seq<real>>)
  {
    exists x :: |x| == |m| && x != Zeros(|m|) && Solves(m, x, Zeros(|m|))
  }

  /** A solver as numpy.linalg.inv followed by the product with -r: it
      only returns solutions of the system it is given, and on a square
      system it fails exactly when the matrix is singular. */
  ghost predicate SolverSound(solve: LinearSolver)
  {
    forall m, b :: SoundOn(solve, m, b)
  }

  /** SolverSound on one system: the answer solves it, and on a square
      system the solver fails exactly when the matrix is singular. */
  ghost predicate SoundOn(solve: LinearSolver, m: seq<seq<real>>, b: seq<real>)
  {
    SoundAt(solve, m, b) && (|m| == |b| && Rect(m, |b|) ==> (solve(m, b).None? <==> Singular(m)))
  }

  /** matrix_inversion: when the solver fails the system is linearly
      dependent (lin_dep) and the increment is zero; otherwise the
      increment is the solver's answer, which solves J x = -r. For a sound
      solver on a square system, lin_dep holds exactly when J is singular. */
  method MatrixInversion(solve: LinearSolver, m: seq<seq<real>>, b: seq<real>) returns (inc: seq<real>, linDep: bool)
    ensures linDep <==> solve(m, b).None?
    ensures linDep ==> inc == Zeros(|b|)
    ensures !linDep ==> inc == solve(m, b).value
    ensures SoundAt(solve, m, b) && !linDep ==> |inc| == |b| && Solves(m, inc, b)
    ensures SoundOn(solve, m, b) && |m| == |b| && Rect(m, |b|) ==> (linDep <==> Singular(m))
  {
    var solution := solve(m, b);
    if solution.Some? {
      inc, linDep := solution.value, false;
    } else {
      inc, linDep := Zeros(|b|), true;
    }
  }

  // ---------------------------------------------------------------------
  // The loop controller of solve_loop

  /** The squared residual norm; the loop keeps squared norms, so that its
      comparisons need no square root (see NormBelowTolerance and NormRatioSquared). */
  function NormSq(v: seq<real>): real
  {
    Dot(v, v)
  }

  /** 0.95 squared. */
  const Damping: real := 0.9025

  /** A norm is below err**0.5 exactly when its square is below err. */
  lemma NormBelowTolerance(a: real)
    requires a >= 0.0
    ensures a < ErrSqrt <==> a * a < Globals.Err
  {
    ConstantsAgree();
    if a < ErrSqrt {
      assert a * a <= a * ErrSqrt;
      assert a * ErrSqrt < ErrSqrt * ErrSqrt;
    } else {
      assert a * a >= a * ErrSqrt;
      assert a * ErrSqrt >= ErrSqrt * ErrSqrt;
    }
  }

  /** One norm is at least 0.95 times another exactly when its square is
      at least 0.9025 times the other's square. */
  lemma NormRatioSquared(a: real, b: real)
    requires a >= 0.0 && b >= 0.0
    ensures a >= 0.95 * b <==> a * a >= Damping * (b * b)
  {
    var c := 0.95 * b;
    assert c * c == Damping * (b * b);
    if a >= c {
      SquareMonotone(c, a);
    } else {
      SquareStrict(a, c);
    }
  }

  lemma SquareMonotone(x: real, y: real)
    requires 0.0 <= x <= y
    ensures x * x <= y * y
  {
    assert x * x <= x * y;
  }

  lemma SquareStrict(x: real, y: real)
    requires 0.0 <= x < y
    ensures x * x < y * y
  {
    var d := y - x;
    assert y * y == x * x + 2.0 * x * d + d * d;
    assert x * d >= 0.0 && d * d > 0.0;
  }

  /** Iteration `k` converged: at least min_iter iterations and a residual
      norm below err**0.5. */
  predicate Converged(res: seq<real>, k: nat, minIter: nat)
    requires k < |res|
  {
    k >= minIter && res[k] < Globals.Err
  }

  /** Iteration `k` stagnated: past iteration 40, the last four norms are
      all at least 0.95 times the third-last, and the last is at least 0.95
      times the one before. */
  predicate Stagnated(res: seq<real>, k: nat)
    requires k < |res|
  {
    k > 40
    && (forall j :: k - 3 <= j <= k ==> res[j] >= Damping * res[k - 2])
    && res[k] >= Damping * res[k - 1]
  }

  /** No iteration of the history met a stopping condition. */
  predicate Running(res: seq<real>, minIter: nat)
  {
    forall k :: 0 <= k < |res| ==> !Converged(res, k, minIter) && !Stagnated(res, k)
  }

  /** A running history stays running when its new norm meets no stopping
      condition. */
  lemma {:induction false} RunningExtended(res: seq<real>, x: real, minIter: nat)
    requires Running(res, minIter)
    requires !Converged(res + [x], |res|, minIter) && !Stagnated(res + [x], |res|)
    ensures Running(res + [x], minIter)
  {
    forall k | 0 <= k < |res|
      ensures !Converged(res + [x], k, minIter) && !Stagnated(res + [x], k)
    {
      var r := res + [x];
      assert !Converged(res, k, minIter) && !Stagnated(res, k);
      assert r[k] == res[k];
      if k > 40 {
        assert forall j :: k - 3 <= j <= k ==> r[j] == res[j];
      }
    }
  }

  // ---------------------------------------------------------------------
  // Where solve_control's rows go

  /** The residual after one iteration's rows: components from row 0, the
      busses from num_comp_eq + num_conn_eq, the connections from
      num_comp_eq, in the order solve_control calls them. */
  function AssembledResidual(prev: seq<real>, numCompEq: nat, numConnEq: nat,
                             compRows: seq<Row>, busRows: seq<Row>, connRows: seq<Row>, pol: Policy): (r: seq<real>)
    requires ValidPolicy(pol) && |compRows| <= numCompEq && |connRows| <= numConnEq
    requires numCompEq + numConnEq + |busRows| <= |prev|
    ensures |r| == |prev|
  {
    var afterComps := ResidualAfter(prev, 0, compRows, pol);
    var afterBusses := ResidualAfter(afterComps, numCompEq + numConnEq, busRows, pol);
    ResidualAfter(afterBusses, numCompEq, connRows, pol)
  }

  function AssembledJacobian(prev: seq<seq<real>>, width: nat, numCompEq: nat, numConnEq: nat,
                             compRows: seq<Row>, busRows: seq<Row>, connRows: seq<Row>): (m: seq<seq<real>>)
    requires Rect(prev, width) && |compRows| <= numCompEq && |connRows| <= numConnEq
    requires numCompEq + numConnEq + |busRows| <= |prev|
    requires RowsWithin(compRows, width) && RowsWithin(busRows, width) && RowsWithin(connRows, width)
    ensures |m| == |prev| && Rect(m, width)
  {
    var afterComps := JacobianAfter(prev, width, 0, compRows);
    var afterBusses := JacobianAfter(afterComps, width, numCompEq + numConnEq, busRows);
    JacobianAfter(afterBusses, width, numCompEq, connRows)
  }

  /** The first part of solve_control: solve_components writes the
      components' rows from row 0, solve_busses the bus rows from
      num_comp_eq + num_conn_eq, solve_connections the connections' rows
      from num_comp_eq. */
  method AssembleRows(residual: array<real>, jacobian: array2<real>, numCompEq: nat, numConnEq: nat,
                      compRows: seq<Row>, busRows: seq<Row>, connRows: seq<Row>, pol: Policy)
    requires ValidPolicy(pol) && |compRows| <= numCompEq && |connRows| <= numConnEq
    requires numCompEq + numConnEq + |busRows| <= residual.Length == jacobian.Length0
    requires RowsWithin(compRows, jacobian.Length1) && RowsWithin(busRows, jacobian.Length1)
    requires RowsWithin(connRows, jacobian.Length1)
    modifies residual, jacobian
    ensures residual[..] == AssembledResidual(old(residual[..]), numCompEq, numConnEq, compRows, busRows, connRows, pol)
    ensures Matrix(jacobian) == AssembledJacobian(old(Matrix(jacobian)), jacobian.Length1, numCompEq, numConnEq,
      compRows, busRows, connRows)
  {
    var k := WriteRows(residual, jacobian, 0, compRows, pol);
    k := WriteRows(residual, jacobian, numCompEq + numConnEq, busRows, pol);
    k := WriteRows(residual, jacobian, numCompEq, connRows, pol);
  }

  /** The three groups of rows do not overlap: a component row holds the
      component's value, a bus row its bus residual, and a connection row
      whose mode overwrites holds the connection's value. */
  lemma {:induction false} AssembledRows(prev: seq<real>, numCompEq: nat, numConnEq: nat,
                                         compRows: seq<Row>, busRows: seq<Row>, connRows: seq<Row>, pol: Policy)
    requires ValidPolicy(pol) && |compRows| <= numCompEq && |connRows| <= numConnEq
    requires numCompEq + numConnEq + |busRows| <= |prev|
    requires forall i :: 0 <= i < |busRows| ==> busRows[i].mode == Always
    ensures var r := AssembledResidual(prev, numCompEq, numConnEq, compRows, busRows, connRows, pol);
            && (forall i :: 0 <= i < |compRows| && compRows[i].mode == Always ==> r[i] == compRows[i].value)
            && (forall i :: 0 <= i < |connRows| && connRows[i].mode == Always ==> r[numCompEq + i] == connRows[i].value)
            && (forall i :: 0 <= i < |busRows| ==> r[numCompEq + numConnEq + i] == busRows[i].value)
  {
    var afterComps := ResidualAfter(prev, 0, compRows, pol);
    var afterBusses := ResidualAfter(afterComps, numCompEq + numConnEq, busRows, pol);
    var r := ResidualAfter(afterBusses, numCompEq, connRows, pol);
    forall i | 0 <= i < |compRows| && compRows[i].mode == Always
      ensures r[i] == compRows[i].value
    {
      ResidualAfterAt(prev, 0, compRows, pol, i);
    }
    forall i | 0 <= i < |connRows| && connRows[i].mode == Always
      ensures r[numCompEq + i] == connRows[i].value
    {
      ResidualAfterAt(afterBusses, numCompEq, connRows, pol, i);
    }
    forall i | 0 <= i < |busRows|
      ensures r[numCompEq + numConnEq + i] == busRows[i].value
    {
      ResidualAfterAt(afterComps, numCompEq + numConnEq, busRows, pol, i);
    }
  }
}
