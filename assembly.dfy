/** The row writer of the network's equation system: each row has a
    residual value, a write mode and Jacobian entries, and rows are written
    in order at a running row index, as Network.solve_connections and
    Network.solve_busses do (src/tespy/networks/network.py). */
module Assembly {
  import opened Globals
  import opened Slots

  /** One Jacobian entry of a row: its column and its value. */
  datatype Entry = Entry(col: nat, val: real)

  /** One equation row: its residual value, how the residual slot is written
      (Slots.Mode), and its Jacobian entries in the order the source writes
      them. */
  datatype Row = Row(value: real, mode: Mode, entries: seq<Entry>)

  predicate EntriesWithin(entries: seq<Entry>, width: nat)
  {
    forall e :: e in entries ==> e.col < width
  }

  predicate RowsWithin(rows: seq<Row>, width: nat)
  {
    forall i :: 0 <= i < |rows| ==> EntriesWithin(rows[i].entries, width)
  }

  /** A Jacobian row after its entries are written in order: a later entry
      for a column overwrites an earlier one. */
  function RowAfter(prev: seq<real>, entries: seq<Entry>): (r: seq<real>)
    requires EntriesWithin(entries, |prev|)
    ensures |r| == |prev|
  {
    if |entries| == 0 then prev
    else
      var e := entries[|entries| - 1];
      assert forall x :: x in entries[..|entries| - 1] ==> x in entries;
      RowAfter(prev, entries[..|entries| - 1])[e.col := e.val]
  }

  /** Columns no entry names keep their value. */
  lemma {:induction false} RowAfterOutside(prev: seq<real>, entries: seq<Entry>, c: nat)
    requires EntriesWithin(entries, |prev|) && c < |prev|
    requires forall e :: e in entries ==> e.col != c
    ensures RowAfter(prev, entries)[c] == prev[c]
  {
    if |entries| > 0 {
      assert forall x :: x in entries[..|entries| - 1] ==> x in entries;
      RowAfterOutside(prev, entries[..|entries| - 1], c);
    }
  }

  /** Writing two lists of entries one after the other is writing their
      concatenation. */
  lemma {:induction false} RowAfterConcat(prev: seq<real>, a: seq<Entry>, b: seq<Entry>)
    requires EntriesWithin(a, |prev|) && EntriesWithin(b, |prev|)
    ensures EntriesWithin(a + b, |prev|)
    ensures RowAfter(prev, a + b) == RowAfter(RowAfter(prev, a), b)
  {
    if |b| > 0 {
      var n := |b| - 1;
      assert forall x :: x in b[..n] ==> x in b;
      RowAfterConcat(prev, a, b[..n]);
      assert (a + b)[..|a + b| - 1] == a + b[..n];
    } else {
      assert a + b == a;
    }
  }

  /** A column some entry names holds the value of the last such entry. */
  lemma {:induction false} RowAfterAt(prev: seq<real>, entries: seq<Entry>, j: nat)
    requires EntriesWithin(entries, |prev|) && j < |entries|
    requires forall k :: j < k < |entries| ==> entries[k].col != entries[j].col
    ensures RowAfter(prev, entries)[entries[j].col] == entries[j].val
  {
    var n := |entries| - 1;
    if j < n {
      assert forall x :: x in entries[..n] ==> x in entries;
      RowAfterAt(prev, entries[..n], j);
    }
  }

  /** The rows of consecutive blocks, one block after the other. */
  function Flatten(blocks: seq<seq<Row>>): seq<Row>
  {
    if |blocks| == 0 then [] else Flatten(blocks[..|blocks| - 1]) + blocks[|blocks| - 1]
  }

  /** The total number of rows of the blocks. */
  function TotalRows(blocks: seq<seq<Row>>): nat
  {
    if |blocks| == 0 then 0 else TotalRows(blocks[..|blocks| - 1]) + |blocks[|blocks| - 1]|
  }

  /** The rows of the first `n` blocks are those of the first `n - 1` and
      then the rows of block `n - 1`. */
  lemma TotalRowsLast(blocks: seq<seq<Row>>, n: nat)
    requires 0 < n <= |blocks|
    ensures TotalRows(blocks[..n]) == TotalRows(blocks[..n - 1]) + |blocks[n - 1]|
  {
    assert blocks[..n][..n - 1] == blocks[..n - 1];
  }

  lemma {:induction false} FlattenLength(blocks: seq<seq<Row>>)
    ensures |Flatten(blocks)| == TotalRows(blocks)
  {
    if |blocks| > 0 {
      FlattenLength(blocks[..|blocks| - 1]);
    }
  }

  /** The rows of the first `i` blocks are a prefix of the rows of all
      blocks. */
  lemma {:induction false} FlattenPrefix(blocks: seq<seq<Row>>, i: nat)
    requires i <= |blocks|
    ensures |Flatten(blocks[..i])| <= |Flatten(blocks)|
    ensures Flatten(blocks)[..|Flatten(blocks[..i])|] == Flatten(blocks[..i])
    decreases |blocks| - i
  {
    if i == |blocks| {
      assert blocks[..i] == blocks;
    } else {
      var n := |blocks| - 1;
      FlattenPrefix(blocks[..n], i);
      assert blocks[..n][..i] == blocks[..i];
      var p := Flatten(blocks[..n]);
      var q := Flatten(blocks[..i]);
      assert Flatten(blocks) == p + blocks[n];
      assert (p + blocks[n])[..|q|] == p[..|q|];
    }
  }

  /** Row `r` of block `i` sits right after the rows of the blocks before
      it. */
  lemma {:induction false} FlattenPlace(blocks: seq<seq<Row>>, i: nat, r: nat)
    requires i < |blocks| && r < |blocks[i]|
    ensures |Flatten(blocks[..i])| + r < |Flatten(blocks)|
    ensures Flatten(blocks)[|Flatten(blocks[..i])| + r] == blocks[i][r]
  {
    FlattenPrefix(blocks, i + 1);
    var next := Flatten(blocks[..i + 1]);
    var q := Flatten(blocks[..i]);
    assert blocks[..i + 1][..i] == blocks[..i];
    assert next == q + blocks[i];
    var all := Flatten(blocks);
    assert all[|q| + r] == all[..|next|][|q| + r];
  }

  /** The same, with further rows after the blocks. */
  lemma {:induction false} FlattenPlaceThen(blocks: seq<seq<Row>>, tail: seq<Row>, i: nat, r: nat)
    requires i < |blocks| && r < |blocks[i]|
    ensures TotalRows(blocks[..i]) + r < |Flatten(blocks) + tail|
    ensures (Flatten(blocks) + tail)[TotalRows(blocks[..i]) + r] == blocks[i][r]
  {
    FlattenPlace(blocks, i, r);
    FlattenLength(blocks[..i]);
  }

  /** Blocks whose entries lie within a width flatten to rows within it. */
  lemma {:induction false} FlattenWithin(blocks: seq<seq<Row>>, width: nat)
    requires forall i :: 0 <= i < |blocks| ==> RowsWithin(blocks[i], width)
    ensures RowsWithin(Flatten(blocks), width)
  {
    if |blocks| > 0 {
      FlattenWithin(blocks[..|blocks| - 1], width);
    }
  }

  /** A matrix of the given width. */
  predicate Rect(m: seq<seq<real>>, width: nat)
  {
    forall i :: 0 <= i < |m| ==> |m[i]| == width
  }

  /** The contents of a two-dimensional array as rows. */
  function Matrix(a: array2<real>): (m: seq<seq<real>>)
    reads a
    ensures |m| == a.Length0 && Rect(m, a.Length1)
    ensures forall i, j :: 0 <= i < a.Length0 && 0 <= j < a.Length1 ==> m[i][j] == a[i, j]
  {
    seq(a.Length0, i reads a requires 0 <= i < a.Length0 =>
      seq(a.Length1, j reads a requires 0 <= j < a.Length1 => a[i, j]))
  }

  /** Two matrices of the same shape that agree everywhere are equal. */
  lemma MatrixExt(m1: seq<seq<real>>, m2: seq<seq<real>>, width: nat)
    requires |m1| == |m2| && Rect(m1, width) && Rect(m2, width)
    requires forall i, j :: 0 <= i < |m1| && 0 <= j < width ==> m1[i][j] == m2[i][j]
    ensures m1 == m2
  {
    forall i | 0 <= i < |m1|
      ensures m1[i] == m2[i]
    {
      assert forall j :: 0 <= j < width ==> m1[i][j] == m2[i][j];
    }
  }

  /** The residual vector after rows are written from row `k` on. */
  function ResidualAfter(prev: seq<real>, k: nat, rows: seq<Row>, pol: Policy): (r: seq<real>)
    requires ValidPolicy(pol) && k + |rows| <= |prev|
    ensures |r| == |prev|
    ensures forall i :: 0 <= i < |prev| && !(k <= i < k + |rows|) ==> r[i] == prev[i]
  {
    seq(|prev|, i requires 0 <= i < |prev| =>
      if k <= i < k + |rows| then Written(prev[i], Slot(true, rows[i - k].value, rows[i - k].mode), pol)
      else prev[i])
  }

  /** The Jacobian after rows are written from row `k` on. */
  function JacobianAfter(prev: seq<seq<real>>, width: nat, k: nat, rows: seq<Row>): (m: seq<seq<real>>)
    requires Rect(prev, width) && k + |rows| <= |prev| && RowsWithin(rows, width)
    ensures |m| == |prev| && Rect(m, width)
    ensures forall i :: 0 <= i < |prev| && !(k <= i < k + |rows|) ==> m[i] == prev[i]
  {
    seq(|prev|, i requires 0 <= i < |prev| =>
      if k <= i < k + |rows| then RowAfter(prev[i], rows[i - k].entries) else prev[i])
  }

  /** A row whose mode overwrites the residual holds its value. */
  lemma {:induction false} ResidualAfterAt(prev: seq<real>, k: nat, rows: seq<Row>, pol: Policy, i: nat)
    requires ValidPolicy(pol) && k + |rows| <= |prev| && i < |rows| && rows[i].mode == Always
    ensures ResidualAfter(prev, k, rows, pol)[k + i] == rows[i].value
  {
  }

  /** Write one row's entries into the Jacobian in order. */
  method WriteEntries(jacobian: array2<real>, row: nat, entries: seq<Entry>)
    requires row < jacobian.Length0 && EntriesWithin(entries, jacobian.Length1)
    modifies jacobian
    ensures Matrix(jacobian) == old(Matrix(jacobian))[row := RowAfter(old(Matrix(jacobian))[row], entries)]
  {
    ghost var prev := Matrix(jacobian);
    var i := 0;
    while i < |entries|
      invariant 0 <= i <= |entries|
      invariant EntriesWithin(entries[..i], jacobian.Length1)
      invariant Matrix(jacobian) == prev[row := RowAfter(prev[row], entries[..i])]
    {
      assert entries[..i + 1][..i] == entries[..i];
      assert EntriesWithin(entries[..i + 1], jacobian.Length1);
      jacobian[row, entries[i].col] := entries[i].val;
      MatrixExt(Matrix(jacobian), prev[row := RowAfter(prev[row], entries[..i + 1])], jacobian.Length1);
      i := i + 1;
    }
    assert entries[..|entries|] == entries;
  }

  /** Write the rows from row `k0` on: each row's residual slot by its mode,
      then its Jacobian entries; returns the row after the last one. */
  method WriteRows(residual: array<real>, jacobian: array2<real>, k0: nat, rows: seq<Row>, pol: Policy)
    returns (k: nat)
    requires ValidPolicy(pol) && k0 + |rows| <= residual.Length && k0 + |rows| <= jacobian.Length0
    requires RowsWithin(rows, jacobian.Length1)
    modifies residual, jacobian
    ensures k == k0 + |rows|
    ensures residual[..] == ResidualAfter(old(residual[..]), k0, rows, pol)
    ensures Matrix(jacobian) == JacobianAfter(old(Matrix(jacobian)), jacobian.Length1, k0, rows)
  {
    ghost var prevRes := residual[..];
    ghost var prevJac := Matrix(jacobian);
    k := k0;
    var i := 0;
    while i < |rows|
      invariant 0 <= i <= |rows| && k == k0 + i
      invariant residual[..] == ResidualAfter(prevRes, k0, rows[..i], pol)
      invariant Matrix(jacobian) == JacobianAfter(prevJac, jacobian.Length1, k0, rows[..i])
    {
      assert rows[..i + 1][..i] == rows[..i];
      var row := rows[i];
      residual[k] := Written(residual[k], Slot(true, row.value, row.mode), pol);
      assert residual[..] == ResidualAfter(prevRes, k0, rows[..i + 1], pol);
      WriteEntries(jacobian, k, row.entries);
      MatrixExt(Matrix(jacobian), JacobianAfter(prevJac, jacobian.Length1, k0, rows[..i + 1]), jacobian.Length1);
      k := k + 1;
      i := i + 1;
    }
    assert rows[..|rows|] == rows;
  }
}
