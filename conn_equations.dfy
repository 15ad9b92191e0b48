/** The rows of Network.solve_connections and Network.solve_busses
    (src/tespy/networks/network.py) as values: which rows each connection and
    each bus contributes, in which order, with which residual and which
    Jacobian entries. The residuals and derivatives that need a fluid
    property call, the solver's increment filter, and the bus values and
    derivatives of the components are inputs. */
module ConnEquations {
  import opened Globals
  import opened Units
  import opened Connections
  import opened Slots
  import opened Assembly
  import opened Step

  /** The rows whose residual needs a fluid property call: temperature,
      referenced temperature, vapour mass fraction, volumetric flow and the
      temperature difference to the boiling point. */
  datatype PropRow = TRow | TRefRow | XRow | VRow | TdBpRow

  /** The fluid property derivatives of one connection's flow the rows
      use: dT_mix_dph, dT_mix_pdh, dT_mix_ph_dfluid for the `j`-th network
      fluid, dh_mix_dpQ, v_mix_ph, dv_mix_dph, dv_mix_pdh and dT_bp_dp. */
  datatype PropDeriv = TMixDp | TMixDh | TMixDFluid(j: nat) | HMixDpQ | VMix | VMixDp | VMixDh | TBpDp

  /** What the fluid property rows take from the fluid property functions
      for connection `i`: the residual of each row, each derivative, and
      the solver's increment filter (a column whose last increment was
      below err squared). */
  datatype FluidProps = FluidProps(res: (nat, PropRow) -> real, deriv: (nat, PropDeriv) -> real, filtered: nat -> bool)

  /** Every column from `s` to `e - 1` is filtered. */
  predicate AllFiltered(prop: FluidProps, s: nat, e: nat)
  {
    forall c :: s <= c < e ==> prop.filtered(c)
  }

  /** The temperature rows write the fluid columns of connection `j`: the
      network has several fluids and not every one of those columns is
      filtered. */
  predicate FluidWritten(prop: FluidProps, j: nat, ncv: nat)
  {
    ncv != 4 && !AllFiltered(prop, j * ncv + 3, j * ncv + ncv)
  }

  /** The position of mass flow, pressure and enthalpy in a connection's
      block of the state vector. */
  function Pos(v: Prop): (n: nat)
    requires v == M || v == P || v == H
    ensures n <= 2
  {
    if v == M then 0 else if v == P then 1 else 2
  }

  /** Every reference that is set names a connection of the network. */
  predicate RefsWithin(conns: seq<Conn>)
  {
    forall i :: 0 <= i < |conns| ==>
      && (conns[i].m.refSet ==> conns[i].m.ref.obj < |conns|)
      && (conns[i].p.refSet ==> conns[i].p.ref.obj < |conns|)
      && (conns[i].h.refSet ==> conns[i].h.ref.obj < |conns|)
      && (conns[i].t.refSet ==> conns[i].t.ref.obj < |conns|)
  }

  /** The connections are ready for assembly: references resolve and every
      network fluid has a fraction and a fixed flag. */
  predicate ConnsReady(conns: seq<Conn>, fluids: seq<string>)
  {
    RefsWithin(conns) && forall i :: 0 <= i < |conns| ==> FluidsCovered(fluids, conns[i].fluid)
  }

  /** The reference row of a primary variable of connection `i`: residual
      `val - (ref.val * f + d)`, Jacobian +1 at the variable's own column and
      -f at the same variable of the referenced connection. */
  function RefRow(conns: seq<Conn>, i: nat, v: Prop, ncv: nat): Row
    requires i < |conns| && (v == M || v == P || v == H) && Get(conns[i], v).ref.obj < |conns|
  {
    var q := Get(conns[i], v);
    Row(q.valSI - (Get(conns[q.ref.obj], v).valSI * q.ref.factor + q.ref.delta), Always,
        [Entry(i * ncv + Pos(v), 1.0), Entry(q.ref.obj * ncv + Pos(v), -q.ref.factor)])
  }

  /** The reference row vanishes exactly when the reference holds; its
      Jacobian row is +1 at the own column, -f at the referenced column and
      untouched elsewhere. */
  lemma {:induction false} RefRowShape(conns: seq<Conn>, i: nat, v: Prop, ncv: nat, prev: seq<real>)
    requires i < |conns| && (v == M || v == P || v == H) && Get(conns[i], v).ref.obj < |conns|
    requires EntriesWithin(RefRow(conns, i, v, ncv).entries, |prev|)
    ensures var q := Get(conns[i], v);
            RefRow(conns, i, v, ncv).value == 0.0 <==>
              q.valSI == Get(conns[q.ref.obj], v).valSI * q.ref.factor + q.ref.delta
    ensures var q := Get(conns[i], v);
            var own := i * ncv + Pos(v);
            var other := q.ref.obj * ncv + Pos(v);
            var row := RowAfter(prev, RefRow(conns, i, v, ncv).entries);
            && row[other] == -q.ref.factor
            && (own != other ==> row[own] == 1.0)
            && (forall c :: 0 <= c < |prev| && c != own && c != other ==> row[c] == prev[c])
  {
    var e := RefRow(conns, i, v, ncv).entries;
    assert e[..1][..0] == [];
    assert RowAfter(prev, e[..1][..0]) == prev;
    assert RowAfter(prev, e[..1]) == prev[e[0].col := e[0].val];
    assert RowAfter(prev, e) == prev[e[0].col := e[0].val][e[1].col := e[1].val];
  }

  /** 1 minus the fractions of the listed fluids, subtracted in order. */
  function Remainder(fluids: seq<string>, val: map<string, real>): real
    requires forall f :: f in fluids ==> f in val
  {
    if |fluids| == 0 then 1.0
    else
      assert forall f :: f in fluids[..|fluids| - 1] ==> f in fluids;
      Remainder(fluids[..|fluids| - 1], val) - val[fluids[|fluids| - 1]]
  }

  /** The fractions of the listed fluids in order. */
  function Fractions(fluids: seq<string>, val: map<string, real>): (r: seq<real>)
    requires forall f :: f in fluids ==> f in val
    ensures |r| == |fluids| && forall j :: 0 <= j < |fluids| ==> r[j] == val[fluids[j]]
  {
    seq(|fluids|, j requires 0 <= j < |fluids| => val[fluids[j]])
  }

  /** The balance residual is 1 minus the sum of the fractions, so it
      vanishes exactly when the fractions add up to 1. */
  lemma {:induction false} RemainderIsOneMinusSum(fluids: seq<string>, val: map<string, real>)
    requires forall f :: f in fluids ==> f in val
    ensures Remainder(fluids, val) == 1.0 - Sum(Fractions(fluids, val))
    ensures Remainder(fluids, val) == 0.0 <==> Sum(Fractions(fluids, val)) == 1.0
  {
    if |fluids| > 0 {
      var n := |fluids| - 1;
      assert forall f :: f in fluids[..n] ==> f in fluids;
      RemainderIsOneMinusSum(fluids[..n], val);
      assert Fractions(fluids, val)[..n] == Fractions(fluids[..n], val);
    }
  }

  /** The fluid balance row of connection `i`, with its Jacobian entries at
      columns `i + 3 + j` as the source writes them. */
  function BalanceRow(c: Conn, i: nat, fluids: seq<string>): Row
    requires forall f :: f in fluids ==> f in c.fluid.val
  {
    Row(Remainder(fluids, c.fluid.val), Always,
        seq(|fluids|, j requires 0 <= j < |fluids| => Entry(i + 3 + j, -1.0)))
  }

  /** For every connection but the first, the balance columns `i + 3 + j`
      lie before the connection's own fluid block, which starts at
      `i * ncv + 3`; only for the first connection they are that block. */
  lemma {:induction false} BalanceColumnsBeforeOwnBlock(c: Conn, i: nat, fluids: seq<string>, j: nat)
    requires forall f :: f in fluids ==> f in c.fluid.val
    requires j < |fluids|
    ensures BalanceRow(c, i, fluids).entries[j].col == i + 3 + j
    ensures i >= 1 ==> BalanceRow(c, i, fluids).entries[j].col < i * (|fluids| + 3) + 3
    ensures i == 0 ==> BalanceRow(c, i, fluids).entries[j].col == i * (|fluids| + 3) + 3 + j
  {
    if i >= 1 {
      var ncv := |fluids| + 3;
      assert i * ncv == i + i * (ncv - 1);
      assert i * (ncv - 1) >= ncv - 1;
    }
  }

  /** The reference rows of mass flow, pressure and enthalpy of
      connection `i`, for the references that are set. */
  function RefRows(conns: seq<Conn>, i: nat, ncv: nat): seq<Row>
    requires i < |conns| && RefsWithin(conns)
  {
    var c := conns[i];
    (if c.m.refSet then [RefRow(conns, i, M, ncv)] else [])
    + (if c.p.refSet then [RefRow(conns, i, P, ncv)] else [])
    + (if c.h.refSet then [RefRow(conns, i, H, ncv)] else [])
  }

  /** The entries of a temperature row in the fluid columns of connection
      `j`: `sign` times dT_mix_ph_dfluid of connection `j`; none when the
      network has a single fluid or when every fluid column of that
      connection is filtered. */
  function FluidEntries(j: nat, ncv: nat, sign: real, prop: FluidProps): seq<Entry>
  {
    if !FluidWritten(prop, j, ncv) then []
    else seq(ncv - 3, f requires 0 <= f < ncv - 3 => Entry(j * ncv + 3 + f, sign * prop.deriv(j, TMixDFluid(f))))
  }

  /** The temperature row of connection `i`: minus dT/dp and dT/dh, then
      minus dT/dfluid. */
  function TempRow(i: nat, ncv: nat, prop: FluidProps): Row
  {
    var col := i * ncv;
    Row(prop.res(i, TRow), Always,
        [Entry(col + 1, -prop.deriv(i, TMixDp)), Entry(col + 2, -prop.deriv(i, TMixDh))]
        + FluidEntries(i, ncv, -1.0, prop))
  }

  /** Entries `a` and `b` in the pressure and enthalpy columns of the
      block starting at `col`. */
  function PressureEnthalpy(col: nat, a: real, b: real): seq<Entry>
  {
    [Entry(col + 1, a), Entry(col + 2, b)]
  }

  /** Minus a derivative of the referenced flow times the reference
      factor. */
  function RefScaled(d: real, ref: Ref): real
  {
    -(d * ref.factor)
  }

  /** The referenced temperature row of connection `i`: dT/dp and dT/dh
      of the own flow, minus those of the referenced flow times the factor,
      then dT/dfluid of the own flow and minus that of the referenced flow,
      the latter without the factor. */
  function TempRefRow(conns: seq<Conn>, i: nat, ncv: nat, prop: FluidProps): Row
    requires i < |conns| && conns[i].t.ref.obj < |conns|
  {
    Row(prop.res(i, TRefRow), Always, TempRefEntries(i, conns[i].t.ref, ncv, prop))
  }

  /** The Jacobian entries of the referenced temperature row of connection
      `i` with reference `ref`. */
  function TempRefEntries(i: nat, ref: Ref, ncv: nat, prop: FluidProps): seq<Entry>
  {
    PressureEnthalpy(i * ncv, prop.deriv(i, TMixDp), prop.deriv(i, TMixDh))
    + PressureEnthalpy(ref.obj * ncv, RefScaled(prop.deriv(ref.obj, TMixDp), ref), RefScaled(prop.deriv(ref.obj, TMixDh), ref))
    + (FluidEntries(i, ncv, 1.0, prop) + FluidEntries(ref.obj, ncv, -1.0, prop))
  }


  /** The vapour mass fraction row: minus dh/dp at saturation unless the
      pressure column is filtered, then 1 in the enthalpy column. */
  function QualityRow(i: nat, ncv: nat, prop: FluidProps): Row
  {
    var col := i * ncv;
    Row(prop.res(i, XRow), Throttled,
        (if prop.filtered(col + 1) then [] else [Entry(col + 1, -prop.deriv(i, HMixDpQ))])
        + [Entry(col + 2, 1.0)])
  }

  /** The volumetric flow row: minus the specific volume in the mass flow
      column, minus dv/dp and dv/dh times the mass flow. */
  function VolumeRow(c: Conn, i: nat, ncv: nat, prop: FluidProps): Row
  {
    var col := i * ncv;
    Row(prop.res(i, VRow), Throttled,
        [Entry(col, -prop.deriv(i, VMix)), Entry(col + 1, -(prop.deriv(i, VMixDp) * c.m.valSI)),
         Entry(col + 2, -(prop.deriv(i, VMixDh) * c.m.valSI))])
  }

  /** The row of the temperature difference to the boiling point: dT/dp
      minus dT_bp/dp unless the pressure column is filtered, dT/dh unless
      the enthalpy column is filtered. */
  function BoilingRow(i: nat, ncv: nat, prop: FluidProps): Row
  {
    var col := i * ncv;
    Row(prop.res(i, TdBpRow), Throttled,
        (if prop.filtered(col + 1) then [] else [Entry(col + 1, prop.deriv(i, TMixDp) - prop.deriv(i, TBpDp))])
        + (if prop.filtered(col + 2) then [] else [Entry(col + 2, prop.deriv(i, TMixDh))]))
  }

  /** The rows of connection `i` that need fluid property calls:
      temperature, referenced temperature, then vapour mass fraction,
      volumetric flow and temperature difference to the boiling point, the
      last three throttled. */
  function PropRows(conns: seq<Conn>, i: nat, ncv: nat, prop: FluidProps): seq<Row>
    requires i < |conns| && RefsWithin(conns)
  {
    var c := conns[i];
    (if c.t.valSet then [TempRow(i, ncv, prop)] else [])
    + (if c.t.refSet then [TempRefRow(conns, i, ncv, prop)] else [])
    + (if c.x.valSet then [QualityRow(i, ncv, prop)] else [])
    + (if c.v.valSet then [VolumeRow(c, i, ncv, prop)] else [])
    + (if c.tdBp.valSet then [BoilingRow(i, ncv, prop)] else [])
  }

  /** Writing the fluid entries of connection `j` puts `sign` times
      dT/dfluid in each fluid column of that connection when the network
      has several fluids and not every one of those columns is filtered,
      and leaves every other column as it was. */
  lemma {:induction false} FluidEntriesAfter(q: seq<real>, j: nat, ncv: nat, sign: real, prop: FluidProps)
    requires j * ncv + ncv <= |q|
    ensures EntriesWithin(FluidEntries(j, ncv, sign, prop), |q|)
    ensures var s := j * ncv + 3;
            var written := FluidWritten(prop, j, ncv);
            forall c :: 0 <= c < |q| ==>
              RowAfter(q, FluidEntries(j, ncv, sign, prop))[c]
                == if written && s <= c < j * ncv + ncv then sign * prop.deriv(j, TMixDFluid(c - s)) else q[c]
  {
    var s := j * ncv + 3;
    var e := FluidEntries(j, ncv, sign, prop);
    var written := FluidWritten(prop, j, ncv);
    assert forall k :: 0 <= k < |e| ==> e[k].col == s + k;
    assert EntriesWithin(e, |q|);
    forall c | 0 <= c < |q|
      ensures RowAfter(q, e)[c] == if written && s <= c < j * ncv + ncv then sign * prop.deriv(j, TMixDFluid(c - s)) else q[c]
    {
      if written && s <= c < j * ncv + ncv {
        RowAfterAt(q, e, c - s);
      } else {
        RowAfterOutside(q, e, c);
      }
    }
  }

  /** The temperature row puts minus dT/dp and minus dT/dh in the pressure
      and enthalpy columns of connection `i`; in its fluid columns minus
      dT/dfluid when the network has several fluids and not every one of
      those columns is filtered, and otherwise what was there; every other
      column keeps its entry. */
  lemma {:induction false} TempRowShape(i: nat, ncv: nat, prop: FluidProps, prev: seq<real>)
    requires ncv >= 3 && i * ncv + ncv <= |prev|
    ensures EntriesWithin(TempRow(i, ncv, prop).entries, |prev|)
    ensures var col := i * ncv;
            var written := FluidWritten(prop, i, ncv);
            forall c :: 0 <= c < |prev| ==>
              RowAfter(prev, TempRow(i, ncv, prop).entries)[c]
                == if c == col + 1 then -prop.deriv(i, TMixDp)
                   else if c == col + 2 then -prop.deriv(i, TMixDh)
                   else if written && col + 3 <= c < col + ncv then -prop.deriv(i, TMixDFluid(c - col - 3))
                   else prev[c]
  {
    var col := i * ncv;
    var pair := [Entry(col + 1, -prop.deriv(i, TMixDp)), Entry(col + 2, -prop.deriv(i, TMixDh))];
    var q := prev[col + 1 := -prop.deriv(i, TMixDp)][col + 2 := -prop.deriv(i, TMixDh)];
    FilteredPairAfter(prev, col, false, false, -prop.deriv(i, TMixDp), -prop.deriv(i, TMixDh));
    assert RowAfter(prev, pair) == q;
    var fl := FluidEntries(i, ncv, -1.0, prop);
    assert TempRow(i, ncv, prop).entries == pair + fl;
    FluidEntriesAfter(q, i, ncv, -1.0, prop);
    RowAfterConcat(prev, pair, fl);
  }

  /** The referenced temperature row puts dT/dp and dT/dh of connection
      `i` in its pressure and enthalpy columns, then minus those of the
      referenced connection times the factor in the referenced columns,
      then, when written, dT/dfluid of `i` in its fluid columns and minus
      dT/dfluid of the referenced connection in those of the referenced
      one; a later write wins where the columns coincide, and every other
      column keeps its entry. `col` and `rcol` are the first columns of the
      two connections' blocks. */
  lemma {:induction false} TempRefRowShape(i: nat, ref: Ref, col: nat, rcol: nat, ncv: nat, prop: FluidProps, prev: seq<real>)
    requires col == i * ncv && rcol == ref.obj * ncv
    requires ncv >= 3 && col + ncv <= |prev| && rcol + ncv <= |prev|
    ensures EntriesWithin(TempRefEntries(i, ref, ncv, prop), |prev|)
    ensures forall c :: 0 <= c < |prev| ==>
              RowAfter(prev, TempRefEntries(i, ref, ncv, prop))[c]
                == if FluidWritten(prop, ref.obj, ncv) && rcol + 3 <= c < rcol + ncv
                     then -prop.deriv(ref.obj, TMixDFluid(c - rcol - 3))
                   else if FluidWritten(prop, i, ncv) && col + 3 <= c < col + ncv
                     then prop.deriv(i, TMixDFluid(c - col - 3))
                   else if c == rcol + 2 then RefScaled(prop.deriv(ref.obj, TMixDh), ref)
                   else if c == rcol + 1 then RefScaled(prop.deriv(ref.obj, TMixDp), ref)
                   else if c == col + 2 then prop.deriv(i, TMixDh)
                   else if c == col + 1 then prop.deriv(i, TMixDp)
                   else prev[c]
  {
    var a, b := prop.deriv(i, TMixDp), prop.deriv(i, TMixDh);
    var x, y := RefScaled(prop.deriv(ref.obj, TMixDp), ref), RefScaled(prop.deriv(ref.obj, TMixDh), ref);
    var p1, p2 := PressureEnthalpy(col, a, b), PressureEnthalpy(rcol, x, y);
    var fl := FluidEntries(i, ncv, 1.0, prop) + FluidEntries(ref.obj, ncv, -1.0, prop);
    var q2 := prev[col + 1 := a][col + 2 := b][rcol + 1 := x][rcol + 2 := y];
    var own, other := FluidWritten(prop, i, ncv), FluidWritten(prop, ref.obj, ncv);
    PressureEnthalpyAfter(prev, col, a, b);
    PressureEnthalpyAfter(prev[col + 1 := a][col + 2 := b], rcol, x, y);
    RowAfterConcat(prev, p1, p2);
    TwoFluidBlocksAfter(q2, i, ref.obj, col, rcol, ncv, prop);
    RowAfterConcat(prev, p1 + p2, fl);
    TempRefCombine(RowAfter(q2, fl), prev, i, ref.obj, col, rcol, ncv, prop, own, other, a, b, x, y);
  }



  /** The fluid blocks written over the four pressure and enthalpy
      entries: each column holds the last value written to it. */
  lemma {:induction false} TempRefCombine(after: seq<real>, prev: seq<real>, i: nat, r: nat, col: nat, rcol: nat, ncv: nat,
                                          prop: FluidProps, own: bool, other: bool, a: real, b: real, x: real, y: real)
    requires col + 2 < |prev| && rcol + 2 < |prev| && |after| == |prev|
    requires var q := prev[col + 1 := a][col + 2 := b][rcol + 1 := x][rcol + 2 := y];
             forall c :: 0 <= c < |prev| ==>
               after[c] == if other && rcol + 3 <= c < rcol + ncv then -prop.deriv(r, TMixDFluid(c - rcol - 3))
                           else if own && col + 3 <= c < col + ncv then prop.deriv(i, TMixDFluid(c - col - 3))
                           else q[c]
    ensures forall c :: 0 <= c < |prev| ==>
              after[c] == if other && rcol + 3 <= c < rcol + ncv then -prop.deriv(r, TMixDFluid(c - rcol - 3))
                          else if own && col + 3 <= c < col + ncv then prop.deriv(i, TMixDFluid(c - col - 3))
                          else if c == rcol + 2 then y else if c == rcol + 1 then x
                          else if c == col + 2 then b else if c == col + 1 then a
                          else prev[c]
  {
  }

  /** The pressure and enthalpy entries update exactly those columns. */
  lemma {:induction false} PressureEnthalpyAfter(prev: seq<real>, col: nat, a: real, b: real)
    requires col + 2 < |prev|
    ensures EntriesWithin(PressureEnthalpy(col, a, b), |prev|)
    ensures RowAfter(prev, PressureEnthalpy(col, a, b)) == prev[col + 1 := a][col + 2 := b]
  {
    FilteredPairAfter(prev, col, false, false, a, b);
    assert PressureEnthalpy(col, a, b) == [] + [Entry(col + 1, a)] + [Entry(col + 2, b)];
  }

  /** The fluid entries of connection `i`, then minus those of connection
      `r`: the later write wins where the blocks coincide. */
  lemma {:induction false} TwoFluidBlocksAfter(q: seq<real>, i: nat, r: nat, col: nat, rcol: nat, ncv: nat, prop: FluidProps)
    requires col == i * ncv && rcol == r * ncv
    requires col + ncv <= |q| && rcol + ncv <= |q|
    ensures EntriesWithin(FluidEntries(i, ncv, 1.0, prop) + FluidEntries(r, ncv, -1.0, prop), |q|)
    ensures var own, other := FluidWritten(prop, i, ncv), FluidWritten(prop, r, ncv);
            forall c :: 0 <= c < |q| ==>
              RowAfter(q, FluidEntries(i, ncv, 1.0, prop) + FluidEntries(r, ncv, -1.0, prop))[c]
                == if other && rcol + 3 <= c < rcol + ncv then -prop.deriv(r, TMixDFluid(c - rcol - 3))
                   else if own && col + 3 <= c < col + ncv then prop.deriv(i, TMixDFluid(c - col - 3))
                   else q[c]
  {
    var f1, f2 := FluidEntries(i, ncv, 1.0, prop), FluidEntries(r, ncv, -1.0, prop);
    FluidEntriesAfter(q, i, ncv, 1.0, prop);
    FluidEntriesAfter(RowAfter(q, f1), r, ncv, -1.0, prop);
    RowAfterConcat(q, f1, f2);
  }

  /** Up to two entries in the pressure and enthalpy columns after
      `col`, each left out when its column is filtered, update exactly
      those columns. */
  lemma {:induction false} FilteredPairAfter(prev: seq<real>, col: nat, f1: bool, f2: bool, a: real, b: real)
    requires col + 2 < |prev|
    ensures var e := (if f1 then [] else [Entry(col + 1, a)]) + (if f2 then [] else [Entry(col + 2, b)]);
            && EntriesWithin(e, |prev|)
            && RowAfter(prev, e) == prev[col + 1 := if f1 then prev[col + 1] else a][col + 2 := if f2 then prev[col + 2] else b]
  {
    var p, h := Entry(col + 1, a), Entry(col + 2, b);
    var e := (if f1 then [] else [p]) + (if f2 then [] else [h]);
    assert [p][..0] == [] && [h][..0] == [] && [p, h][..1] == [p];
    if f1 && f2 {
      assert e == [];
    } else if f1 {
      assert e == [h];
    } else if f2 {
      assert e == [p];
    } else {
      assert e == [p, h];
    }
  }

  /** The vapour mass fraction row puts 1 in the enthalpy column of
      connection `i` and minus dh/dp at saturation in its pressure column
      unless that column is filtered, when the pressure column keeps its
      entry; every other column keeps its entry. */
  lemma {:induction false} QualityRowShape(i: nat, ncv: nat, prop: FluidProps, prev: seq<real>)
    requires ncv >= 3 && i * ncv + ncv <= |prev|
    ensures EntriesWithin(QualityRow(i, ncv, prop).entries, |prev|)
    ensures var col := i * ncv;
            RowAfter(prev, QualityRow(i, ncv, prop).entries)
              == prev[col + 1 := if prop.filtered(col + 1) then prev[col + 1] else -prop.deriv(i, HMixDpQ)][col + 2 := 1.0]
  {
    var col := i * ncv;
    var f := prop.filtered(col + 1);
    FilteredPairAfter(prev, col, f, false, -prop.deriv(i, HMixDpQ), 1.0);
    assert QualityRow(i, ncv, prop).entries
        == (if f then [] else [Entry(col + 1, -prop.deriv(i, HMixDpQ))]) + (if false then [] else [Entry(col + 2, 1.0)]);
  }

  /** The volumetric flow row puts minus the specific volume in the mass
      flow column of connection `i` and minus dv/dp and dv/dh times the
      mass flow in its pressure and enthalpy columns; every other column
      keeps its entry. */
  lemma {:induction false} VolumeRowShape(c: Conn, i: nat, ncv: nat, prop: FluidProps, prev: seq<real>)
    requires ncv >= 3 && i * ncv + ncv <= |prev|
    ensures EntriesWithin(VolumeRow(c, i, ncv, prop).entries, |prev|)
    ensures var col := i * ncv;
            RowAfter(prev, VolumeRow(c, i, ncv, prop).entries)
              == prev[col := -prop.deriv(i, VMix)][col + 1 := -(prop.deriv(i, VMixDp) * c.m.valSI)]
                     [col + 2 := -(prop.deriv(i, VMixDh) * c.m.valSI)]
  {
    var col := i * ncv;
    var x, y, z := -prop.deriv(i, VMix), -(prop.deriv(i, VMixDp) * c.m.valSI), -(prop.deriv(i, VMixDh) * c.m.valSI);
    var e := VolumeRow(c, i, ncv, prop).entries;
    assert |e| == 3 && e[0] == Entry(col, x) && e[1] == Entry(col + 1, y) && e[2] == Entry(col + 2, z);
    assert e == [Entry(col, x), Entry(col + 1, y), Entry(col + 2, z)];
    TripleAfter(prev, col, x, y, z);
  }

  /** Three entries in consecutive columns update exactly those columns. */
  lemma {:induction false} TripleAfter(prev: seq<real>, col: nat, x: real, y: real, z: real)
    requires col + 2 < |prev|
    ensures EntriesWithin([Entry(col, x), Entry(col + 1, y), Entry(col + 2, z)], |prev|)
    ensures RowAfter(prev, [Entry(col, x), Entry(col + 1, y), Entry(col + 2, z)])
              == prev[col := x][col + 1 := y][col + 2 := z]
  {
    var e := [Entry(col, x), Entry(col + 1, y), Entry(col + 2, z)];
    assert e[..2] == [e[0], e[1]] && [e[0], e[1]][..1] == [e[0]] && [e[0]][..0] == [];
    assert RowAfter(prev, [e[0]]) == prev[col := x];
    assert RowAfter(prev, [e[0], e[1]]) == prev[col := x][col + 1 := y];
  }

  /** The row of the temperature difference to the boiling point puts
      dT/dp minus dT_bp/dp in the pressure column and dT/dh in the enthalpy
      column of connection `i`, each unless its column is filtered, when it
      keeps its entry; every other column keeps its entry. */
  lemma {:induction false} BoilingRowShape(i: nat, ncv: nat, prop: FluidProps, prev: seq<real>)
    requires ncv >= 3 && i * ncv + ncv <= |prev|
    ensures EntriesWithin(BoilingRow(i, ncv, prop).entries, |prev|)
    ensures var col := i * ncv;
            RowAfter(prev, BoilingRow(i, ncv, prop).entries)
              == prev[col + 1 := if prop.filtered(col + 1) then prev[col + 1] else prop.deriv(i, TMixDp) - prop.deriv(i, TBpDp)]
                     [col + 2 := if prop.filtered(col + 2) then prev[col + 2] else prop.deriv(i, TMixDh)]
  {
    var col := i * ncv;
    var f1, f2 := prop.filtered(col + 1), prop.filtered(col + 2);
    var a, b := prop.deriv(i, TMixDp) - prop.deriv(i, TBpDp), prop.deriv(i, TMixDh);
    FilteredPairAfter(prev, col, f1, f2, a, b);
    assert BoilingRow(i, ncv, prop).entries
        == (if f1 then [] else [Entry(col + 1, a)]) + (if f2 then [] else [Entry(col + 2, b)]);
  }

  function BalanceRows(c: Conn, i: nat, fluids: seq<string>): seq<Row>
    requires FluidsCovered(fluids, c.fluid)
  {
    if c.fluid.balance then [BalanceRow(c, i, fluids)] else []
  }

  /** The rows connection `i` writes in every iteration, in source order:
      references, fluid property rows, fluid balance. */
  function DynamicRows(conns: seq<Conn>, i: nat, fluids: seq<string>, ncv: nat,
                       prop: FluidProps): seq<Row>
    requires i < |conns| && ConnsReady(conns, fluids)
  {
    RefRows(conns, i, ncv) + PropRows(conns, i, ncv, prop) + BalanceRows(conns[i], i, fluids)
  }

  /** The fixed-fraction rows of connection `i` for the first `n` fluids:
      Jacobian 1 in the fraction's column, residual slot untouched. */
  function FluidFixedRows(c: Conn, i: nat, fluids: seq<string>, ncv: nat, n: nat): seq<Row>
    requires n <= |fluids| && FluidsCovered(fluids, c.fluid)
  {
    if n == 0 then []
    else
      FluidFixedRows(c, i, fluids, ncv, n - 1)
      + (if c.fluid.valSet[fluids[n - 1]] then [Row(0.0, Untouched, [Entry(i * ncv + 3 + (n - 1), 1.0)])] else [])
  }

  /** The rows connection `i` writes in the first iteration only: fixed
      mass flow, pressure and enthalpy (residual 0, Jacobian 1), then fixed
      fractions. */
  function FixedRows(c: Conn, i: nat, fluids: seq<string>, ncv: nat): seq<Row>
    requires FluidsCovered(fluids, c.fluid)
  {
    (if c.m.valSet then [Row(0.0, Always, [Entry(i * ncv, 1.0)])] else [])
    + (if c.p.valSet then [Row(0.0, Always, [Entry(i * ncv + 1, 1.0)])] else [])
    + (if c.h.valSet then [Row(0.0, Always, [Entry(i * ncv + 2, 1.0)])] else [])
    + FluidFixedRows(c, i, fluids, ncv, |fluids|)
  }

  /** The per-iteration rows of every connection, one block per
      connection. */
  function DynamicBlocks(conns: seq<Conn>, fluids: seq<string>, ncv: nat, prop: FluidProps): (b: seq<seq<Row>>)
    requires ConnsReady(conns, fluids)
    ensures |b| == |conns| && forall i :: 0 <= i < |conns| ==> b[i] == DynamicRows(conns, i, fluids, ncv, prop)
  {
    seq(|conns|, i requires 0 <= i < |conns| => DynamicRows(conns, i, fluids, ncv, prop))
  }

  /** The first-iteration rows of every connection, one block per
      connection. */
  function FixedBlocks(conns: seq<Conn>, fluids: seq<string>, ncv: nat): (b: seq<seq<Row>>)
    requires ConnsReady(conns, fluids)
    ensures |b| == |conns| && forall i :: 0 <= i < |conns| ==> b[i] == FixedRows(conns[i], i, fluids, ncv)
  {
    seq(|conns|, i requires 0 <= i < |conns| => FixedRows(conns[i], i, fluids, ncv))
  }

  /** The rows solve_connections writes from row num_comp_eq on: the
      per-iteration rows of every connection, then, in the first iteration,
      the fixed rows of every connection. */
  function ConnectionRows(conns: seq<Conn>, fluids: seq<string>, iter: nat, prop: FluidProps): seq<Row>
    requires ConnsReady(conns, fluids)
  {
    var ncv := |fluids| + 3;
    Flatten(DynamicBlocks(conns, fluids, ncv, prop)) + (if iter == 0 then Flatten(FixedBlocks(conns, fluids, ncv)) else [])
  }

  lemma {:induction false} FluidFixedRowsCount(c: Conn, i: nat, fluids: seq<string>, ncv: nat, n: nat)
    requires n <= |fluids| && FluidsCovered(fluids, c.fluid)
    ensures |FluidFixedRows(c, i, fluids, ncv, n)| == FluidSetCount(fluids[..n], c.fluid.valSet)
  {
    if n > 0 {
      FluidFixedRowsCount(c, i, fluids, ncv, n - 1);
      assert fluids[..n][..n - 1] == fluids[..n - 1];
      assert fluids[..n][n - 1] == fluids[n - 1];
    }
  }

  lemma {:induction false} RefRowsCount(conns: seq<Conn>, i: nat, ncv: nat)
    requires i < |conns| && RefsWithin(conns)
    ensures |RefRows(conns, i, ncv)| == B(conns[i].m.refSet) + B(conns[i].p.refSet) + B(conns[i].h.refSet)
  {
  }

  lemma {:induction false} PropRowsCount(conns: seq<Conn>, i: nat, ncv: nat, prop: FluidProps)
    requires i < |conns| && RefsWithin(conns)
    ensures var c := conns[i];
            |PropRows(conns, i, ncv, prop)| == B(c.t.valSet) + B(c.t.refSet) + B(c.x.valSet) + B(c.v.valSet) + B(c.tdBp.valSet)
  {
  }

  lemma {:induction false} DynamicRowsCount(conns: seq<Conn>, i: nat, fluids: seq<string>, ncv: nat, prop: FluidProps)
    requires i < |conns| && ConnsReady(conns, fluids)
    ensures var c := conns[i];
            |DynamicRows(conns, i, fluids, ncv, prop)| ==
              B(c.m.refSet) + B(c.p.refSet) + B(c.h.refSet)
              + B(c.t.valSet) + B(c.t.refSet) + B(c.x.valSet) + B(c.v.valSet) + B(c.tdBp.valSet)
              + B(c.fluid.balance)
  {
    RefRowsCount(conns, i, ncv);
    PropRowsCount(conns, i, ncv, prop);
  }

  lemma {:induction false} FixedRowsCount(c: Conn, i: nat, fluids: seq<string>, ncv: nat)
    requires FluidsCovered(fluids, c.fluid)
    ensures |FixedRows(c, i, fluids, ncv)| == B(c.m.valSet) + B(c.p.valSet) + B(c.h.valSet) + FluidSetCount(fluids, c.fluid.valSet)
  {
    FluidFixedRowsCount(c, i, fluids, ncv, |fluids|);
    assert fluids[..|fluids|] == fluids;
  }

  /** A connection writes exactly as many rows, counting the first
      iteration's fixed rows, as init_count_connections_parameters counts
      for it. */
  lemma {:induction false} ConnRowsCount(conns: seq<Conn>, i: nat, fluids: seq<string>, ncv: nat, prop: FluidProps)
    requires i < |conns| && ConnsReady(conns, fluids)
    ensures |DynamicRows(conns, i, fluids, ncv, prop)| + |FixedRows(conns[i], i, fluids, ncv)| == ConnEquationCount(conns[i], fluids)
  {
    DynamicRowsCount(conns, i, fluids, ncv, prop);
    FixedRowsCount(conns[i], i, fluids, ncv);
  }

  /** Blocks of per-iteration and first-iteration rows whose sizes add up
      to the counts block by block add up to the sum of the first n
      counts. */
  lemma {:induction false} PairedRowsCount(d: seq<seq<Row>>, f: seq<seq<Row>>, counts: seq<nat>, n: nat)
    requires n <= |counts| && |d| == |counts| && |f| == |counts|
    requires forall i :: 0 <= i < |counts| ==> |d[i]| + |f[i]| == counts[i]
    ensures TotalRows(d[..n]) + TotalRows(f[..n]) == NatSum(counts[..n])
  {
    if n > 0 {
      PairedRowsCount(d, f, counts, n - 1);
      TotalRowsLast(d, n);
      TotalRowsLast(f, n);
      assert counts[..n][..n - 1] == counts[..n - 1];
    }
  }

  lemma AllRowsCount(conns: seq<Conn>, fluids: seq<string>, ncv: nat, prop: FluidProps, n: nat)
    requires n <= |conns| && ConnsReady(conns, fluids)
    ensures TotalRows(DynamicBlocks(conns, fluids, ncv, prop)[..n]) + TotalRows(FixedBlocks(conns, fluids, ncv)[..n])
            == TotalConnEquations(conns[..n], fluids)
  {
    var d := DynamicBlocks(conns, fluids, ncv, prop);
    var f := FixedBlocks(conns, fluids, ncv);
    var counts := seq(|conns|, i requires 0 <= i < |conns| => ConnEquationCount(conns[i], fluids));
    forall i | 0 <= i < |conns|
      ensures |d[i]| + |f[i]| == counts[i]
    {
      ConnRowsCount(conns, i, fluids, ncv, prop);
    }
    PairedRowsCount(d, f, counts, n);
    assert counts[..n] == seq(n, i requires 0 <= i < n => ConnEquationCount(conns[..n][i], fluids));
  }

  /** In the first iteration solve_connections fills exactly num_conn_eq
      rows; later iterations fill no more than that. */
  lemma {:induction false} ConnectionRowsCount(conns: seq<Conn>, fluids: seq<string>, iter: nat, prop: FluidProps)
    requires ConnsReady(conns, fluids)
    ensures iter == 0 ==> |ConnectionRows(conns, fluids, iter, prop)| == TotalConnEquations(conns, fluids)
    ensures |ConnectionRows(conns, fluids, iter, prop)| <= TotalConnEquations(conns, fluids)
  {
    var ncv := |fluids| + 3;
    var d := DynamicBlocks(conns, fluids, ncv, prop);
    var f := FixedBlocks(conns, fluids, ncv);
    AllRowsCount(conns, fluids, ncv, prop, |conns|);
    FlattenLength(d);
    FlattenLength(f);
    assert d[..|conns|] == d && f[..|conns|] == f;
    assert conns[..|conns|] == conns;
  }

  /** The per-iteration rows of connection `i` sit right after those of the
      connections before it. */
  lemma {:induction false} DynamicRowsPlace(conns: seq<Conn>, fluids: seq<string>, iter: nat, prop: FluidProps, i: nat, r: nat)
    requires i < |conns| && ConnsReady(conns, fluids) && r < |DynamicRows(conns, i, fluids, |fluids| + 3, prop)|
    ensures var before := TotalRows(DynamicBlocks(conns, fluids, |fluids| + 3, prop)[..i]);
            && before + r < |ConnectionRows(conns, fluids, iter, prop)|
            && ConnectionRows(conns, fluids, iter, prop)[before + r] == DynamicRows(conns, i, fluids, |fluids| + 3, prop)[r]
  {
    var d := DynamicBlocks(conns, fluids, |fluids| + 3, prop);
    var tail := if iter == 0 then Flatten(FixedBlocks(conns, fluids, |fluids| + 3)) else [];
    FlattenPlaceThen(d, tail, i, r);
  }

  // ---------------------------------------------------------------------
  // Column bounds

  /** Column `off` of block `i` lies inside `n` blocks of width `ncv`. */
  lemma BlockColumn(i: nat, n: nat, ncv: nat, off: nat)
    requires i < n && off < ncv
    ensures i * ncv + off < n * ncv
  {
    assert (i + 1) * ncv <= n * ncv by {
      assert n * ncv == (i + 1) * ncv + (n - i - 1) * ncv;
    }
  }

  /** The balance columns lie inside the connection blocks. */
  lemma BalanceColumn(i: nat, n: nat, nf: nat, j: nat)
    requires i < n && j < nf
    ensures i + 3 + j < n * (nf + 3)
  {
    assert n * (nf + 3) == n + (nf + 2) + (n - 1) * (nf + 2) by {
      assert n * (nf + 3) == n + n * (nf + 2);
      assert n * (nf + 2) == (nf + 2) + (n - 1) * (nf + 2);
    }
  }

  lemma {:induction false} RefRowsWithin(conns: seq<Conn>, i: nat, ncv: nat)
    requires i < |conns| && RefsWithin(conns) && ncv >= 3
    ensures RowsWithin(RefRows(conns, i, ncv), |conns| * ncv)
  {
    var n := |conns|;
    var c := conns[i];
    BlockColumn(i, n, ncv, 0);
    BlockColumn(i, n, ncv, 1);
    BlockColumn(i, n, ncv, 2);
    if c.m.refSet { BlockColumn(c.m.ref.obj, n, ncv, 0); }
    if c.p.refSet { BlockColumn(c.p.ref.obj, n, ncv, 1); }
    if c.h.refSet { BlockColumn(c.h.ref.obj, n, ncv, 2); }
  }

  lemma {:induction false} BalanceRowsWithin(c: Conn, i: nat, numConns: nat, fluids: seq<string>)
    requires i < numConns && FluidsCovered(fluids, c.fluid)
    ensures RowsWithin(BalanceRows(c, i, fluids), numConns * (|fluids| + 3))
  {
    if c.fluid.balance {
      var e := BalanceRow(c, i, fluids).entries;
      forall j | 0 <= j < |fluids| ensures e[j].col < numConns * (|fluids| + 3) {
        BalanceColumn(i, numConns, |fluids|, j);
      }
    }
  }

  lemma {:induction false} DynamicRowsWithin(conns: seq<Conn>, i: nat, fluids: seq<string>, prop: FluidProps)
    requires i < |conns| && ConnsReady(conns, fluids)
    ensures RowsWithin(DynamicRows(conns, i, fluids, |fluids| + 3, prop), |conns| * (|fluids| + 3))
  {
    var ncv := |fluids| + 3;
    RefRowsWithin(conns, i, ncv);
    PropRowsWithin(conns, i, ncv, prop);
    BalanceRowsWithin(conns[i], i, |conns|, fluids);
    var a := RefRows(conns, i, ncv);
    var b := PropRows(conns, i, ncv, prop);
    var c := BalanceRows(conns[i], i, fluids);
    RowsWithinConcat(a, b, |conns| * ncv);
    RowsWithinConcat(a + b, c, |conns| * ncv);
  }

  lemma RowsWithinConcat(a: seq<Row>, b: seq<Row>, width: nat)
    requires RowsWithin(a, width) && RowsWithin(b, width)
    ensures RowsWithin(a + b, width)
  {
    assert forall i :: 0 <= i < |a + b| ==> (a + b)[i] == if i < |a| then a[i] else b[i - |a|];
  }

  /** The fluid entries of connection `j` address its own fluid columns. */
  lemma {:induction false} FluidEntriesWithin(j: nat, n: nat, ncv: nat, sign: real, prop: FluidProps)
    requires j < n
    ensures EntriesWithin(FluidEntries(j, ncv, sign, prop), n * ncv)
  {
    var e := FluidEntries(j, ncv, sign, prop);
    forall k | 0 <= k < |e| ensures e[k].col < n * ncv {
      BlockColumn(j, n, ncv, 3 + k);
    }
  }

  lemma {:induction false} TempRowWithin(i: nat, n: nat, ncv: nat, prop: FluidProps)
    requires i < n && ncv >= 3
    ensures EntriesWithin(TempRow(i, ncv, prop).entries, n * ncv)
  {
    BlockColumn(i, n, ncv, 1);
    BlockColumn(i, n, ncv, 2);
    FluidEntriesWithin(i, n, ncv, -1.0, prop);
  }

  lemma {:induction false} TempRefRowWithin(conns: seq<Conn>, i: nat, ncv: nat, prop: FluidProps)
    requires i < |conns| && conns[i].t.ref.obj < |conns| && ncv >= 3
    ensures EntriesWithin(TempRefRow(conns, i, ncv, prop).entries, |conns| * ncv)
  {
    var n := |conns|;
    var r := conns[i].t.ref.obj;
    BlockColumn(i, n, ncv, 1);
    BlockColumn(i, n, ncv, 2);
    BlockColumn(r, n, ncv, 1);
    BlockColumn(r, n, ncv, 2);
    FluidEntriesWithin(i, n, ncv, 1.0, prop);
    FluidEntriesWithin(r, n, ncv, -1.0, prop);
  }

  lemma {:induction false} ThrottledRowsWithin(c: Conn, i: nat, n: nat, ncv: nat, prop: FluidProps)
    requires i < n && ncv >= 3
    ensures EntriesWithin(QualityRow(i, ncv, prop).entries, n * ncv)
    ensures EntriesWithin(VolumeRow(c, i, ncv, prop).entries, n * ncv)
    ensures EntriesWithin(BoilingRow(i, ncv, prop).entries, n * ncv)
  {
    BlockColumn(i, n, ncv, 0);
    BlockColumn(i, n, ncv, 1);
    BlockColumn(i, n, ncv, 2);
  }

  lemma {:induction false} PropRowsWithin(conns: seq<Conn>, i: nat, ncv: nat, prop: FluidProps)
    requires i < |conns| && RefsWithin(conns) && ncv >= 3
    ensures RowsWithin(PropRows(conns, i, ncv, prop), |conns| * ncv)
  {
    var w := |conns| * ncv;
    var c := conns[i];
    TempRowWithin(i, |conns|, ncv, prop);
    ThrottledRowsWithin(c, i, |conns|, ncv, prop);
    var t := if c.t.valSet then [TempRow(i, ncv, prop)] else [];
    var tr := if c.t.refSet then [TempRefRow(conns, i, ncv, prop)] else [];
    var x := if c.x.valSet then [QualityRow(i, ncv, prop)] else [];
    var v := if c.v.valSet then [VolumeRow(c, i, ncv, prop)] else [];
    var td := if c.tdBp.valSet then [BoilingRow(i, ncv, prop)] else [];
    if c.t.refSet {
      TempRefRowWithin(conns, i, ncv, prop);
    }
    assert PropRows(conns, i, ncv, prop) == t + tr + x + v + td;
    RowsWithinConcat(t, tr, w);
    RowsWithinConcat(t + tr, x, w);
    RowsWithinConcat(t + tr + x, v, w);
    RowsWithinConcat(t + tr + x + v, td, w);
  }

  lemma {:induction false} FluidFixedRowsWithin(c: Conn, i: nat, fluids: seq<string>, numConns: nat, n: nat)
    requires i < numConns && n <= |fluids| && FluidsCovered(fluids, c.fluid)
    ensures RowsWithin(FluidFixedRows(c, i, fluids, |fluids| + 3, n), numConns * (|fluids| + 3))
  {
    if n > 0 {
      FluidFixedRowsWithin(c, i, fluids, numConns, n - 1);
      BlockColumn(i, numConns, |fluids| + 3, 3 + (n - 1));
    }
  }

  lemma {:induction false} FixedRowsWithin(c: Conn, i: nat, fluids: seq<string>, numConns: nat)
    requires i < numConns && FluidsCovered(fluids, c.fluid)
    ensures RowsWithin(FixedRows(c, i, fluids, |fluids| + 3), numConns * (|fluids| + 3))
  {
    BlockColumn(i, numConns, |fluids| + 3, 0);
    BlockColumn(i, numConns, |fluids| + 3, 1);
    BlockColumn(i, numConns, |fluids| + 3, 2);
    FluidFixedRowsWithin(c, i, fluids, numConns, |fluids|);
  }

  /** Every Jacobian entry of the connection rows addresses a connection
      column. */
  lemma {:induction false} ConnectionRowsWithin(conns: seq<Conn>, fluids: seq<string>, iter: nat, prop: FluidProps, width: nat)
    requires ConnsReady(conns, fluids) && width >= |conns| * (|fluids| + 3)
    ensures RowsWithin(ConnectionRows(conns, fluids, iter, prop), width)
  {
    var ncv := |fluids| + 3;
    var d := DynamicBlocks(conns, fluids, ncv, prop);
    var f := FixedBlocks(conns, fluids, ncv);
    forall i | 0 <= i < |conns| ensures RowsWithin(d[i], width) && RowsWithin(f[i], width) {
      DynamicRowsWithin(conns, i, fluids, prop);
      FixedRowsWithin(conns[i], i, fluids, |conns|);
    }
    FlattenWithin(d, width);
    FlattenWithin(f, width);
  }

  // ---------------------------------------------------------------------
  // Busses

  /** A bus: whether its total power is fixed, and its value. */
  datatype Bus = Bus(pIsSet: bool, pVal: real)

  /** What a bus sees of one of its components: the positions of the
      component's connections, its bus value (calc_bus_value) and its bus
      derivative blocks (bus_deriv), one block per connection. */
  datatype BusComp = BusComp(connLocs: seq<nat>, value: real, deriv: seq<seq<real>>)

  predicate BusCompWithin(bc: BusComp, numConns: nat, ncv: nat)
  {
    |bc.deriv| == |bc.connLocs|
    && forall j :: 0 <= j < |bc.connLocs| ==> bc.connLocs[j] < numConns && |bc.deriv[j]| == ncv
  }

  predicate BussesWithin(busses: seq<Bus>, busComps: seq<seq<BusComp>>, numConns: nat, ncv: nat)
  {
    |busComps| == |busses|
    && forall b, k :: 0 <= b < |busComps| && 0 <= k < |busComps[b]| ==> BusCompWithin(busComps[b][k], numConns, ncv)
  }

  /** The negated derivative block of one connection, placed over that
      connection's columns. */
  function BlockEntries(loc: nat, block: seq<real>, ncv: nat): seq<Entry>
  {
    seq(|block|, v requires 0 <= v < |block| => Entry(loc * ncv + v, -block[v]))
  }

  /** The entries of the first `n` connections of a bus component. */
  function CompEntries(bc: BusComp, ncv: nat, n: nat): seq<Entry>
    requires n <= |bc.connLocs| && |bc.deriv| == |bc.connLocs|
  {
    if n == 0 then [] else CompEntries(bc, ncv, n - 1) + BlockEntries(bc.connLocs[n - 1], bc.deriv[n - 1], ncv)
  }

  function BusEntries(comps: seq<BusComp>, ncv: nat): seq<Entry>
    requires forall k :: 0 <= k < |comps| ==> |comps[k].deriv| == |comps[k].connLocs|
  {
    if |comps| == 0 then []
    else
      var last := comps[|comps| - 1];
      BusEntries(comps[..|comps| - 1], ncv) + CompEntries(last, ncv, |last.connLocs|)
  }

  /** The bus residual: the fixed power minus the components' bus values,
      subtracted in order. */
  function BusResidual(pVal: real, comps: seq<BusComp>): real
  {
    if |comps| == 0 then pVal else BusResidual(pVal, comps[..|comps| - 1]) - comps[|comps| - 1].value
  }

  function BusValues(comps: seq<BusComp>): (r: seq<real>)
    ensures |r| == |comps| && forall k :: 0 <= k < |comps| ==> r[k] == comps[k].value
  {
    seq(|comps|, k requires 0 <= k < |comps| => comps[k].value)
  }

  /** A bus row vanishes exactly when the components' bus values add up to
      the fixed power. */
  lemma {:induction false} BusResidualZero(pVal: real, comps: seq<BusComp>)
    ensures BusResidual(pVal, comps) == pVal - Sum(BusValues(comps))
    ensures BusResidual(pVal, comps) == 0.0 <==> Sum(BusValues(comps)) == pVal
  {
    if |comps| > 0 {
      BusResidualZero(pVal, comps[..|comps| - 1]);
      assert BusValues(comps)[..|comps| - 1] == BusValues(comps[..|comps| - 1]);
    }
  }

  /** The rows solve_busses writes: one per bus with fixed power, in bus
      order. */
  function BusRows(busses: seq<Bus>, busComps: seq<seq<BusComp>>, ncv: nat): seq<Row>
    requires |busComps| == |busses|
    requires forall b, k :: 0 <= b < |busComps| && 0 <= k < |busComps[b]| ==> |busComps[b][k].deriv| == |busComps[b][k].connLocs|
  {
    if |busses| == 0 then []
    else
      var n := |busses| - 1;
      BusRows(busses[..n], busComps[..n], ncv)
      + (if busses[n].pIsSet then [Row(BusResidual(busses[n].pVal, busComps[n]), Always, BusEntries(busComps[n], ncv))] else [])
  }

  /** The fixed-power flags of the busses. */
  function BusFlags(busses: seq<Bus>): (f: seq<bool>)
    ensures |f| == |busses| && forall b :: 0 <= b < |busses| ==> f[b] == busses[b].pIsSet
  {
    seq(|busses|, b requires 0 <= b < |busses| => busses[b].pIsSet)
  }

  /** num_bus_eq: the number of busses with fixed power. */
  function NumBusEq(busses: seq<Bus>): nat
  {
    Count(BusFlags(busses))
  }

  /** solve_busses writes exactly num_bus_eq rows. */
  lemma {:induction false} BusRowsCount(busses: seq<Bus>, busComps: seq<seq<BusComp>>, ncv: nat)
    requires |busComps| == |busses|
    requires forall b, k :: 0 <= b < |busComps| && 0 <= k < |busComps[b]| ==> |busComps[b][k].deriv| == |busComps[b][k].connLocs|
    ensures |BusRows(busses, busComps, ncv)| == NumBusEq(busses)
  {
    if |busses| > 0 {
      var n := |busses| - 1;
      BusRowsCount(busses[..n], busComps[..n], ncv);
      assert BusFlags(busses)[..n] == BusFlags(busses[..n]);
    }
  }

  lemma {:induction false} BlockEntriesWithin(loc: nat, block: seq<real>, numConns: nat, ncv: nat)
    requires loc < numConns && |block| == ncv
    ensures EntriesWithin(BlockEntries(loc, block, ncv), numConns * ncv)
  {
    var e := BlockEntries(loc, block, ncv);
    forall v | 0 <= v < |block| ensures e[v].col < numConns * ncv {
      BlockColumn(loc, numConns, ncv, v);
    }
  }

  lemma {:induction false} CompEntriesWithin(bc: BusComp, numConns: nat, ncv: nat, n: nat)
    requires n <= |bc.connLocs| && BusCompWithin(bc, numConns, ncv)
    ensures EntriesWithin(CompEntries(bc, ncv, n), numConns * ncv)
  {
    if n > 0 {
      CompEntriesWithin(bc, numConns, ncv, n - 1);
      BlockEntriesWithin(bc.connLocs[n - 1], bc.deriv[n - 1], numConns, ncv);
    }
  }

  lemma {:induction false} BusEntriesWithin(comps: seq<BusComp>, numConns: nat, ncv: nat)
    requires forall k :: 0 <= k < |comps| ==> |comps[k].deriv| == |comps[k].connLocs|
    requires forall k :: 0 <= k < |comps| ==> BusCompWithin(comps[k], numConns, ncv)
    ensures EntriesWithin(BusEntries(comps, ncv), numConns * ncv)
  {
    if |comps| > 0 {
      BusEntriesWithin(comps[..|comps| - 1], numConns, ncv);
      var last := comps[|comps| - 1];
      CompEntriesWithin(last, numConns, ncv, |last.connLocs|);
    }
  }

  /** Every Jacobian entry of the bus rows addresses a connection column. */
  lemma {:induction false} BusRowsWithin(busses: seq<Bus>, busComps: seq<seq<BusComp>>, numConns: nat, ncv: nat, width: nat)
    requires BussesWithin(busses, busComps, numConns, ncv) && width >= numConns * ncv
    ensures RowsWithin(BusRows(busses, busComps, ncv), width)
  {
    if |busses| > 0 {
      var n := |busses| - 1;
      BusRowsWithin(busses[..n], busComps[..n], numConns, ncv, width);
      BusEntriesWithin(busComps[n], numConns, ncv);
    }
  }
}
