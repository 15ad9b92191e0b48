/** The per-connection part of the Newton update of Network.solve_control
    and the generic range check of Network.solve_check_props
    (src/tespy/networks/network.py). */
module Step {
  import opened Globals
  import opened Units
  import opened Topology
  import opened Connections

  /** The pressure after the relaxed update `p += inc / max(1, -inc / (0.5 p))`.
      At p == 0 the source divides by zero in floating point: the quotient
      is -inf, +inf or NaN, so the new pressure is `inc` for a positive
      increment and stays 0 otherwise. */
  function RelaxedPressure(p: real, inc: real): real
  {
    if p == 0.0 then (if inc > 0.0 then inc else 0.0)
    else p + inc / Max(1.0, -inc / (0.5 * p))
  }

  /** From a positive pressure the update takes the full increment unless
      that would drop below half the pressure, in which case it lands on
      exactly half: the new pressure is at least p/2 and stays positive. */
  lemma {:induction false} RelaxedPressurePositive(p: real, inc: real)
    requires p > 0.0
    ensures inc >= -0.5 * p ==> RelaxedPressure(p, inc) == p + inc
    ensures inc < -0.5 * p ==> RelaxedPressure(p, inc) == 0.5 * p
    ensures RelaxedPressure(p, inc) >= 0.5 * p > 0.0
  {
    var q := -inc / (0.5 * p);
    if inc < -0.5 * p {
      assert -inc > 0.5 * p;
      assert q > 1.0 by {
        assert q * (0.5 * p) == -inc;
      }
      assert inc / q == -0.5 * p by {
        assert q * (0.5 * p) == -inc;
        assert (inc / q) * q == inc;
        assert (-0.5 * p) * q == inc;
      }
    } else {
      assert q <= 1.0 by {
        assert q * (0.5 * p) == -inc;
        assert -inc <= 0.5 * p;
      }
    }
  }

  lemma RelaxedPressureHalf(p: real, inc: real)
    ensures p > 0.0 ==> RelaxedPressure(p, inc) >= 0.5 * p > 0.0
  {
    if p > 0.0 { RelaxedPressurePositive(p, inc); }
  }

  /** The step never leaves the non-negative pressures. */
  lemma {:induction false} RelaxedPressureNonNegative(p: real, inc: real)
    requires p >= 0.0
    ensures RelaxedPressure(p, inc) >= 0.0
    ensures p == 0.0 ==> RelaxedPressure(p, inc) == Max(0.0, inc)
  {
    if p > 0.0 { RelaxedPressurePositive(p, inc); }
  }

  /** Mass fractions within err of 0 or 1 snap to the bound. */
  function ClampFraction(x: real): (r: real)
    ensures r == 0.0 <==> x < Err
    ensures x < Err ==> r == 0.0
    ensures Err <= x && x > 1.0 - Err ==> r == 1.0
    ensures Err <= x <= 1.0 - Err ==> r == x
    ensures 0.0 <= r <= 1.0
  {
    if x < Err then 0.0 else if x > 1.0 - Err then 1.0 else x
  }

  /** Clamping a fraction twice is clamping it once. */
  lemma {:induction false} ClampFractionIdempotent(x: real)
    ensures ClampFraction(ClampFraction(x)) == ClampFraction(x)
  {
  }

  /** The position of a network fluid among the network fluids. */
  function FluidIndex(fluids: seq<string>, f: string): (j: nat)
    requires f in fluids
    ensures j < |fluids| && fluids[j] == f
  {
    FirstIndex(fluids, f)
  }

  /** The fraction of one fluid after its increment and the clamp. */
  function StepFraction(x: real, fixed: bool, inc: real): (r: real)
    ensures fixed && Err <= x <= 1.0 - Err ==> r == x
    ensures !fixed ==> r == ClampFraction(x + inc)
  {
    ClampFraction(if fixed then x else x + inc)
  }

  /** The fluid block of a connection is well formed for the step: every
      network fluid has a fraction and a fixed flag. */
  predicate FluidsCovered(fluids: seq<string>, fv: FluidVector)
  {
    forall f :: f in fluids ==> f in fv.val && f in fv.valSet
  }

  /** The fluid fractions after the step with increments `block[3 + j]`. */
  function StepFluids(fluids: seq<string>, fv: FluidVector, block: seq<real>): (val: map<string, real>)
    requires FluidsCovered(fluids, fv) && |block| == 3 + |fluids|
    ensures val.Keys == fv.val.Keys
    ensures forall f :: f in fluids ==> 0.0 <= val[f] <= 1.0
    ensures forall f :: f in val && f !in fluids ==> val[f] == fv.val[f]
  {
    map f | f in fv.val :: if f in fluids then StepFraction(fv.val[f], fv.valSet[f], block[3 + FluidIndex(fluids, f)]) else fv.val[f]
  }

  /** A connection after its increment block, before the range check: free
      mass flow and enthalpy take the full increment, free pressure the
      relaxed one; with more than one fluid every fraction is stepped and
      clamped. Fixed values are not touched. */
  function StepConn(c: Conn, fluids: seq<string>, block: seq<real>): (r: Conn)
    requires |block| == 3 + |fluids|
    requires |fluids| > 1 ==> FluidsCovered(fluids, c.fluid)
    ensures r.m.valSI == (if c.m.valSet then c.m.valSI else c.m.valSI + block[0])
    ensures r.h.valSI == (if c.h.valSet then c.h.valSI else c.h.valSI + block[2])
    ensures c.p.valSet ==> r.p.valSI == c.p.valSI
    ensures !c.p.valSet && c.p.valSI > 0.0 ==> r.p.valSI >= 0.5 * c.p.valSI > 0.0
    ensures OnlyStateChanged(r, c) && r.fluid.val.Keys == c.fluid.val.Keys
    ensures |fluids| <= 1 ==> r.fluid == c.fluid
  {
    RelaxedPressureHalf(c.p.valSI, block[1]);
    var m := if c.m.valSet then c.m.valSI else c.m.valSI + block[0];
    var p := if c.p.valSet then c.p.valSI else RelaxedPressure(c.p.valSI, block[1]);
    var h := if c.h.valSet then c.h.valSI else c.h.valSI + block[2];
    var fluid := if |fluids| > 1 then c.fluid.(val := StepFluids(fluids, c.fluid, block)) else c.fluid;
    c.(m := c.m.(valSI := m), p := c.p.(valSI := p), h := c.h.(valSI := h), fluid := fluid)
  }

  /** The SI value ranges of the network for mass flow, pressure and enthalpy. */
  datatype Ranges = Ranges(m: Range, p: Range, h: Range)

  /** The bound checks of solve_check_props: pressure and mass flow snap to
      a bound they reach (`<=`, `>=`), enthalpy to one it passes (`<`, `>`). */
  function ClampClosed(x: real, r: Range): real
  {
    if x <= r.lo then r.lo else if x >= r.hi then r.hi else x
  }

  function ClampOpen(x: real, r: Range): real
  {
    if x < r.lo then r.lo else if x > r.hi then r.hi else x
  }

  /** Both clamps land in a well-formed range and leave values strictly
      inside it alone. */
  lemma {:induction false} ClampsInRange(x: real, r: Range)
    ensures r.lo <= r.hi ==> r.lo <= ClampClosed(x, r) <= r.hi && r.lo <= ClampOpen(x, r) <= r.hi
    ensures r.lo < x < r.hi ==> ClampClosed(x, r) == x && ClampOpen(x, r) == x
    ensures r.lo <= r.hi ==> ClampClosed(ClampClosed(x, r), r) == ClampClosed(x, r)
    ensures r.lo <= r.hi ==> ClampOpen(ClampOpen(x, r), r) == ClampOpen(x, r)
  {
  }

  /** solve_check_props without the single-fluid branch: in the first four
      iterations and without good starting values, free pressure and
      enthalpy of a mixture are clamped into their generic ranges; the free
      mass flow is always clamped into its range. The temperature check is
      not part of this model. */
  function CheckProps(c: Conn, iter: nat, singleFluid: bool, ranges: Ranges): (r: Conn)
    ensures OnlyStateChanged(r, c) && r.fluid == c.fluid
    ensures c.m.valSet ==> r.m == c.m
    ensures c.p.valSet ==> r.p == c.p
    ensures c.h.valSet ==> r.h == c.h
    ensures !c.m.valSet && ranges.m.lo <= ranges.m.hi ==> ranges.m.lo <= r.m.valSI <= ranges.m.hi
    ensures singleFluid || iter >= 4 || c.goodStartingValues ==> r.p == c.p && r.h == c.h
    ensures !singleFluid && iter < 4 && !c.goodStartingValues && !c.p.valSet && ranges.p.lo <= ranges.p.hi ==>
      ranges.p.lo <= r.p.valSI <= ranges.p.hi
    ensures !singleFluid && iter < 4 && !c.goodStartingValues && !c.h.valSet && ranges.h.lo <= ranges.h.hi ==>
      ranges.h.lo <= r.h.valSI <= ranges.h.hi
  {
    var generic := !singleFluid && iter < 4 && !c.goodStartingValues;
    var p := if generic && !c.p.valSet then ClampClosed(c.p.valSI, ranges.p) else c.p.valSI;
    var h := if generic && !c.h.valSet then ClampOpen(c.h.valSI, ranges.h) else c.h.valSI;
    var m := if !c.m.valSet then ClampClosed(c.m.valSI, ranges.m) else c.m.valSI;
    ClampsInRange(c.p.valSI, ranges.p);
    ClampsInRange(c.h.valSI, ranges.h);
    ClampsInRange(c.m.valSI, ranges.m);
    c.(m := c.m.(valSI := m), p := c.p.(valSI := p), h := c.h.(valSI := h))
  }

  /** The range check is idempotent: applied again to its own result it
      changes nothing. The second pass solve_control makes in its first three
      iterations follows the components' convergence_check, which is not
      part of this model, so there the second pass acts on the same
      connection values as the first. */
  lemma {:induction false} CheckPropsIdempotent(c: Conn, iter: nat, singleFluid: bool, ranges: Ranges)
    requires ranges.m.lo <= ranges.m.hi && ranges.p.lo <= ranges.p.hi && ranges.h.lo <= ranges.h.hi
    ensures var once := CheckProps(c, iter, singleFluid, ranges);
            var twice := CheckProps(once, iter, singleFluid, ranges);
            twice.m.valSI == once.m.valSI && twice.p.valSI == once.p.valSI && twice.h.valSI == once.h.valSI
  {
    ClampsInRange(c.p.valSI, ranges.p);
    ClampsInRange(c.h.valSI, ranges.h);
    ClampsInRange(c.m.valSI, ranges.m);
  }

  /** A pressure that is positive before the step is still positive after
      the step and the range check, when the pressure range is positive. */
  lemma {:induction false} PressureStaysPositive(c: Conn, fluids: seq<string>, block: seq<real>, iter: nat, singleFluid: bool, ranges: Ranges)
    requires |block| == 3 + |fluids| && (|fluids| > 1 ==> FluidsCovered(fluids, c.fluid))
    requires c.p.valSI > 0.0 && 0.0 < ranges.p.lo <= ranges.p.hi
    ensures CheckProps(StepConn(c, fluids, block), iter, singleFluid, ranges).p.valSI > 0.0
  {
    var s := StepConn(c, fluids, block);
    ClampsInRange(s.p.valSI, ranges.p);
  }

  /** A custom component variable after its increment, clamped into
      [min_val, max_val]. */
  function StepVar(val: real, inc: real, minVal: real, maxVal: real): (r: real)
    ensures minVal <= maxVal ==> minVal <= r <= maxVal
    ensures minVal <= val + inc <= maxVal ==> r == val + inc
    ensures val + inc < minVal ==> r == minVal
    ensures minVal <= val + inc && val + inc > maxVal ==> r == maxVal
  {
    var v := val + inc;
    if v < minVal then minVal else if v > maxVal then maxVal else v
  }
}
