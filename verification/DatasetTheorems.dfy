/** The sparse and the dense form of a dataset hold the same grid. */
module DatasetTheorems {
  import opened Common
  import opened Datasets

  datatype Write = Write(row: nat, column: nat, value: Stored)

  predicate Inside(ws: seq<Write>, rows: nat, columns: nat) {
    forall i :: 0 <= i < |ws| ==> ws[i].row < rows && ws[i].column < columns
  }

  /** A dataset of this size after a sequence of setter calls, first to last. */
  function After(ds: Dataset, ws: seq<Write>): (r: Dataset)
    requires WellFormed(ds) && Inside(ws, RowCount(ds), ColumnCount(ds))
    ensures WellFormed(r) && r.Packet? == ds.Packet?
    ensures RowCount(r) == RowCount(ds) && ColumnCount(r) == ColumnCount(ds)
  {
    if ws == [] then ds
    else
      var n := |ws| - 1;
      Put(After(ds, ws[..n]), ws[n].row, ws[n].column, ws[n].value)
  }

  /** The value of the last call for this cell. */
  function LastWrite(ws: seq<Write>, row: nat, column: nat): Option<Value> {
    if ws == [] then None
    else
      var n := |ws| - 1;
      if ws[n].row == row && ws[n].column == column then Some(ws[n].value) else LastWrite(ws[..n], row, column)
  }

  /** A setter stores its value in its cell and changes no other cell. */
  lemma PutChangesOneCell(ds: Dataset, row: nat, column: nat, v: Stored, r: nat, c: nat)
    requires WellFormed(ds) && CanStore(ds, row, column) && InRange(Put(ds, row, column, v), r, c)
    ensures var after := RawValue(Put(ds, row, column, v), r, c);
            if r == row && c == column then after == Some(v)
            else after == if InRange(ds, r, c) then RawValue(ds, r, c) else None
  {
    if ds.Packet? && !InRange(ds, r, c) && (r != row || c != column) {
      assert row in ds.cells ==> row < ds.rowCount;
      assert r in ds.cells && c in ds.cells[r] ==> InRange(ds, r, c);
    }
  }

  /** A packet grows just enough to hold the cell. */
  lemma PutGrowsToFit(ds: Dataset, row: nat, column: nat, v: Stored)
    requires WellFormed(ds) && CanStore(ds, row, column)
    ensures var ds' := Put(ds, row, column, v);
            && InRange(ds', row, column)
            && RowCount(ds') == (if row < RowCount(ds) then RowCount(ds) else row + 1)
            && ColumnCount(ds') == (if column < ColumnCount(ds) then ColumnCount(ds) else column + 1)
  {
  }

  lemma {:induction false} FlatHoldsLastWrites(rows: nat, columns: nat, ws: seq<Write>, r: nat, c: nat)
    requires Inside(ws, rows, columns) && r < rows && c < columns
    ensures var w := LastWrite(ws, r, c);
            RawValue(After(BlankFlat(rows, columns), ws), r, c) == Some(if w.Some? then w.value else NotSet)
    decreases |ws|
  {
    if ws != [] {
      FlatHoldsLastWrites(rows, columns, ws[..|ws| - 1], r, c);
    }
  }

  lemma {:induction false} PacketHoldsLastWrites(rows: nat, columns: nat, ws: seq<Write>, r: nat, c: nat)
    requires Inside(ws, rows, columns) && r < rows && c < columns
    ensures RawValue(After(Packet(columns, rows, map[]), ws), r, c) == LastWrite(ws, r, c)
    decreases |ws|
  {
    if ws != [] {
      PacketHoldsLastWrites(rows, columns, ws[..|ws| - 1], r, c);
    }
  }

  /** The same setter calls on a flat dataset made r x c and on a packet grown to r x c give equal
      counts, equal types in every cell, and equal values in every written cell. */
  lemma FormsAgree(rows: nat, columns: nat, ws: seq<Write>, r: nat, c: nat)
    requires Inside(ws, rows, columns) && r < rows && c < columns
    ensures var flat := After(BlankFlat(rows, columns), ws);
            var packet := After(Grown(EMPTY_PACKET, rows, columns), ws);
            && RowCount(flat) == RowCount(packet) == rows && ColumnCount(flat) == ColumnCount(packet) == columns
            && CellType(flat, r, c) == CellType(packet, r, c)
            && (LastWrite(ws, r, c).Some? ==> RawValue(flat, r, c) == RawValue(packet, r, c) == LastWrite(ws, r, c))
  {
    FlatHoldsLastWrites(rows, columns, ws, r, c);
    PacketHoldsLastWrites(rows, columns, ws, r, c);
  }

  /** hasValue tells the forms apart on exactly the cells that were never written. */
  lemma HasValueDiffersIff(rows: nat, columns: nat, ws: seq<Write>, r: nat, c: nat)
    requires Inside(ws, rows, columns) && r < rows && c < columns
    ensures var flat := RawValue(After(BlankFlat(rows, columns), ws), r, c);
            var packet := RawValue(After(Packet(columns, rows, map[]), ws), r, c);
            flat.Some? != packet.Some? <==> LastWrite(ws, r, c).None?
  {
    FlatHoldsLastWrites(rows, columns, ws, r, c);
    PacketHoldsLastWrites(rows, columns, ws, r, c);
  }

  /** Clearing empties one cell, keeps all others and the counts. */
  lemma ClearChangesOneCell(ds: Dataset, row: nat, column: nat, r: nat, c: nat)
    requires ds.Packet? && WellFormed(ds) && InRange(ds, r, c)
    ensures var ds' := Cleared(ds, row, column);
            && RowCount(ds') == RowCount(ds) && ColumnCount(ds') == ColumnCount(ds)
            && RawValue(ds', r, c) == if r == row && c == column then None else RawValue(ds, r, c)
  {
    if row in ds.cells {
      var left := ds.cells[row] - {column};
      forall x | x in ds.cells[row] && x != column ensures x in left && left != map[] {
      }
    }
  }

  /** A packet has a row in memory exactly if the row holds a value. */
  lemma RowInMemoryIff(ds: Dataset, row: nat)
    requires ds.Packet? && WellFormed(ds)
    ensures HasRow(ds, row) <==> exists c: nat :: c < ds.columnCount && row < ds.rowCount && RawValue(ds, row, c).Some?
  {
    if HasRow(ds, row) {
      var c :| c in ds.cells[row];
      assert RawValue(ds, row, c).Some?;
    }
  }

  /** Clearing undoes the setting of an empty cell, rows included. */
  lemma ClearUndoesPut(ds: Dataset, row: nat, column: nat, v: Stored)
    requires ds.Packet? && WellFormed(ds) && InRange(ds, row, column) && RawValue(ds, row, column).None?
    ensures Cleared(Put(ds, row, column, v), row, column) == ds
  {
    var was := if row in ds.cells then ds.cells[row] else map[];
    assert was[column := v] - {column} == was;
    if row in ds.cells {
      assert ds.cells[row := was[column := v]][row := was] == ds.cells;
    } else {
      assert ds.cells[row := was[column := v]] - {row} == ds.cells;
    }
  }
}
