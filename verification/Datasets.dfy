/** The two dataset representations of hrs_server/api/src/hrs_converter.cpp: a sparse "packet" of maps
    and a dense "flat" table, behind one wrapper. */
module Datasets {
  import opened Common

  /** The oneof of a cell. */
  datatype Value =
    | NotSet
    | VString(s: string)
    | VInt(i: int)
    | VDouble(d: real)
    | VBool(b: bool)
    | VBytes(bytes: seq<bv8>)
    | VDateTime(ms: nat)
    | VTime(sec: nat)
    | VNull

  /** What a setter stores. */
  type Stored = v: Value | v != NotSet witness VNull

  datatype DataType = Empty | Null | String | Int | Double | Bool | Bytes | DateTime | Time

  datatype Dataset =
    | Packet(columnCount: nat, rowCount: nat, cells: map<nat, map<nat, Value>>)
    | Flat(width: nat, rows: seq<seq<Value>>)

  /** Every row of a flat dataset has a cell for each column; a packet stores neither empty rows nor
      unset cells, and none outside of its counts. */
  predicate WellFormed(ds: Dataset) {
    match ds
    case Flat(columns, rows) => forall r :: 0 <= r < |rows| ==> |rows[r]| == columns
    case Packet(columns, rows, cells) =>
      && (forall r :: r in cells ==> r < rows && cells[r] != map[])
      && (forall r, c :: r in cells && c in cells[r] ==> c < columns && cells[r][c] != NotSet)
  }

  function RowCount(ds: Dataset): nat { if ds.Packet? then ds.rowCount else |ds.rows| }

  function ColumnCount(ds: Dataset): nat { if ds.Packet? then ds.columnCount else ds.width }

  predicate InRange(ds: Dataset, row: nat, column: nat) { row < RowCount(ds) && column < ColumnCount(ds) }

  predicate HasRow(ds: Dataset, row: nat) { if ds.Packet? then row in ds.cells else row < |ds.rows| }

  /** The const rawValue: the stored cell, if there is one. */
  function RawValue(ds: Dataset, row: nat, column: nat): Option<Value>
    requires WellFormed(ds) && InRange(ds, row, column)
  {
    if ds.Flat? then Some(ds.rows[row][column])
    else if row in ds.cells && column in ds.cells[row] then Some(ds.cells[row][column])
    else None
  }

  function TypeOf(v: Option<Value>): DataType {
    match v
    case None => Empty
    case Some(NotSet) => Empty
    case Some(VString(_)) => String
    case Some(VInt(_)) => Int
    case Some(VDouble(_)) => Double
    case Some(VBool(_)) => Bool
    case Some(VBytes(_)) => Bytes
    case Some(VDateTime(_)) => DateTime
    case Some(VTime(_)) => Time
    case Some(VNull) => Null
  }

  function CellType(ds: Dataset, row: nat, column: nat): DataType
    requires WellFormed(ds) && InRange(ds, row, column)
  {
    TypeOf(RawValue(ds, row, column))
  }

  function Grown(ds: Dataset, rows: nat, columns: nat): Dataset {
    if ds.Flat? then ds
    else ds.(rowCount := Max(ds.rowCount, rows), columnCount := Max(ds.columnCount, columns))
  }

  /** A setter can store at this place: a packet grows, a flat dataset does not. */
  predicate CanStore(ds: Dataset, row: nat, column: nat) { ds.Packet? || InRange(ds, row, column) }

  function Put(ds: Dataset, row: nat, column: nat, v: Stored): (r: Dataset)
    requires WellFormed(ds) && CanStore(ds, row, column)
    ensures WellFormed(r) && r.Packet? == ds.Packet?
  {
    match ds
    case Flat(_, rows) => ds.(rows := rows[row := rows[row][column := v]])
    case Packet(_, _, cells) =>
      var was := if row in cells then cells[row] else map[];
      var now: map<nat, Value> := was[column := v];
      assert column in now;
      Grown(ds, row + 1, column + 1).(cells := cells[row := now])
  }

  function Cleared(ds: Dataset, row: nat, column: nat): (r: Dataset)
    requires ds.Packet? && WellFormed(ds)
    ensures WellFormed(r)
  {
    if row !in ds.cells then ds
    else
      var left := ds.cells[row] - {column};
      ds.(cells := if left == map[] then ds.cells - {row} else ds.cells[row := left])
  }

  function BlankFlat(rows: nat, columns: nat): (r: Dataset)
    ensures WellFormed(r)
  {
    Flat(columns, seq(rows, _ => seq(columns, _ => NotSet)))
  }

  const EMPTY_PACKET: Dataset := Packet(0, 0, map[])

  // ----- the wrapper -----

  class DatasetWrapper {
    var data: Dataset

    constructor (ds: Dataset)
      ensures data == ds
    {
      data := ds;
    }

    /** A flat dataset cannot grow; the assertion it makes lets smaller counts through. */
    method Grow(rows: nat, columns: nat)
      requires data.Flat? ==> rows < |data.rows| && columns < data.width
      modifies this
      ensures data == Grown(old(data), rows, columns)
    {
      if data.Packet? {
        if rows > data.rowCount {
          data := data.(rowCount := rows);
        }
        if columns > data.columnCount {
          data := data.(columnCount := columns);
        }
      }
    }

    /** The non-const rawValue with create set: the row and the cell exist afterwards. */
    method CreateCell(row: nat, column: nat)
      requires WellFormed(data) && CanStore(data, row, column)
      modifies this
      ensures data.Flat? ==> data == old(data)
      ensures data.Packet? == old(data).Packet?
      ensures data.Packet? ==>
                var cells := old(data).cells;
                var was := if row in cells then cells[row] else map[];
                data == Grown(old(data), row + 1, column + 1)
                        .(cells := cells[row := if column in was then was else was[column := NotSet]])
    {
      if data.Packet? {
        Grow(row + 1, column + 1);
        if row !in data.cells {
          data := data.(cells := data.cells[row := map[]]);
        }
        if column !in data.cells[row] {
          var cells: map<nat, Value> := data.cells[row][column := NotSet];
          data := data.(cells := data.cells[row := cells]);
        }
      }
    }

    method SetValue(row: nat, column: nat, v: Stored)
      requires WellFormed(data) && CanStore(data, row, column)
      modifies this
      ensures data == Put(old(data), row, column, v)
    {
      CreateCell(row, column);
      if data.Packet? {
        ghost var was := if row in old(data).cells then old(data).cells[row] else map[];
        assert data.cells[row][column := v] == was[column := v];
        var cells: map<nat, Value> := data.cells[row][column := v];
        data := data.(cells := data.cells[row := cells]);
      } else {
        data := data.(rows := data.rows[row := data.rows[row][column := v]]);
      }
    }

    method ClearValue(row: nat, column: nat)
      requires data.Packet? && WellFormed(data) && InRange(data, row, column)
      modifies this
      ensures data == Cleared(old(data), row, column)
    {
      if row !in data.cells {
        return;
      }
      data := data.(cells := data.cells[row := data.cells[row] - {column}]);
      if data.cells[row] == map[] {
        data := data.(cells := data.cells - {row});
      }
    }
  }

  /** The loops that build a flat dataset of unset cells. */
  method MakeFlat(rowCount: nat, columnCount: nat) returns (ds: Dataset)
    ensures ds == BlankFlat(rowCount, columnCount)
  {
    var rows: seq<seq<Value>> := [];
    for row := 0 to rowCount
      invariant rows == seq(row, _ => seq(columnCount, _ => NotSet))
    {
      var cells: seq<Value> := [];
      for column := 0 to columnCount
        invariant cells == seq(column, _ => NotSet)
      {
        cells := cells + [NotSet];
      }
      rows := rows + [cells];
    }
    ds := Flat(columnCount, rows);
  }

  // ----- the container and its writer -----

  /** A DataContainer and the writer on it.  The messages in `datasets` and the wrappers in the cache
      are the same objects: a wrapper writes through to its container. */
  class Container {
    const packetData: bool
    var datasets: map<nat, DatasetWrapper>
    var writers: map<nat, DatasetWrapper>

    ghost predicate Valid()
      reads this
    {
      forall id :: id in writers ==> id in datasets && writers[id] == datasets[id]
    }

    constructor (packetData: bool)
      ensures Valid() && this.packetData == packetData && datasets == map[] && writers == map[]
    {
      this.packetData := packetData;
      datasets := map[];
      writers := map[];
    }

    /** A wrapper on the dataset with this id: the cached one, or a new one; the dataset is made if it
        is missing.  A missing flat dataset can only be made by InitDataset. */
    method WriterHelper(id: nat, create: bool, rowCount: nat, columnCount: nat) returns (w: DatasetWrapper)
      requires Valid() && (packetData || create || id in datasets)
      modifies this
      ensures Valid() && id in datasets && w == datasets[id] && writers == old(writers)[id := w]
      ensures old(id in datasets) ==> datasets == old(datasets)
      ensures old(id !in datasets) ==> fresh(w) && datasets == old(datasets)[id := w]
      ensures old(id !in datasets) ==> w.data == if packetData then EMPTY_PACKET else BlankFlat(rowCount, columnCount)
    {
      if id in writers {
        return writers[id];
      }
      if id !in datasets {
        var ds := EMPTY_PACKET;
        if !packetData {
          ds := MakeFlat(rowCount, columnCount);
        }
        var made := new DatasetWrapper(ds);
        datasets := datasets[id := made];
      }
      w := datasets[id];
      writers := writers[id := w];
    }

    /** A dataset that is there already keeps its cells; a packet grows, a flat one keeps its size. */
    method InitDataset(id: nat, rowCount: nat, columnCount: nat) returns (w: DatasetWrapper)
      requires Valid() && forall i :: i in datasets ==> datasets[i].data.Packet? == packetData
      modifies this, datasets.Values
      ensures Valid() && id in datasets && w == datasets[id] && writers == old(writers)[id := w]
      ensures old(id !in datasets) ==> fresh(w) && datasets == old(datasets)[id := w]
      ensures old(id !in datasets) ==>
                w.data == if packetData then Packet(columnCount, rowCount, map[]) else BlankFlat(rowCount, columnCount)
      ensures old(id in datasets) ==> datasets == old(datasets)
      ensures old(id in datasets) ==>
                w.data == if packetData then Grown(old(datasets[id].data), rowCount, columnCount)
                          else old(datasets[id].data)
      ensures forall i :: i in old(datasets) && old(datasets)[i] != w ==> datasets[i].data == old(datasets[i].data)
    {
      if packetData {
        w := WriterHelper(id, false, 0, 0);
        w.Grow(rowCount, columnCount);
      } else {
        w := WriterHelper(id, true, rowCount, columnCount);
      }
    }

    /** The dataset as a reader of the container sees it. */
    function Read(id: nat): Dataset
      requires id in datasets
      reads this, datasets.Values
    {
      datasets[id].data
    }
  }

  // ----- the reply to an SQL request -----

  /** The kind of value that each type of a cell stands for. */
  lemma TypesOfCells(v: Value)
    ensures TypeOf(None) == Empty && (TypeOf(Some(v)) == Empty <==> v.NotSet?)
    ensures TypeOf(Some(v)) == String <==> v.VString?
    ensures TypeOf(Some(v)) == Int <==> v.VInt?
    ensures TypeOf(Some(v)) == Double <==> v.VDouble?
    ensures TypeOf(Some(v)) == Bool <==> v.VBool?
    ensures TypeOf(Some(v)) == Bytes <==> v.VBytes?
    ensures TypeOf(Some(v)) == DateTime <==> v.VDateTime?
    ensures TypeOf(Some(v)) == Time <==> v.VTime?
    ensures TypeOf(Some(v)) == Null <==> v.VNull?
  {
  }

  /** A result set as the database driver answers it: every row has a text for each column. */
  datatype ResultSet = ResultSet(columns: nat, rows: seq<seq<string>>)

  predicate Rectangular(q: ResultSet) { forall r :: 0 <= r < |q.rows| ==> |q.rows[r]| == q.columns }

  /** What becomes of a request: no query object could be made, or the query was executed. */
  datatype Execution =
    | NoQuery(code: int, text: string)
    | ExecError(code: int, text: string)
    | Command
    | Select(result: ResultSet)

  const DATASET_ID: nat := 1

  /** The cells of the first rows, and of the first cells of the next row, are filled in. */
  predicate Filled(ds: Dataset, q: ResultSet, row: nat, column: nat)
    requires Rectangular(q) && WellFormed(ds) && ds.Flat? && ds.width == q.columns && |ds.rows| == |q.rows|
  {
    forall r, c :: 0 <= r < |q.rows| && 0 <= c < q.columns && (r < row || (r == row && c < column))
                   ==> ds.rows[r][c] == VString(q.rows[r][c])
  }

  /** A successful select is answered with a container that reads back as the result set, an error with
      its code and text, a command with neither.  The number of the result type is sent with each; it is
      asked of the query, so that without one the handler follows a null pointer and there is no reply. */
  method HandleRequest(e: Execution) returns (resultType: Option<nat>, error: Option<(int, string)>, data: Container?)
    requires e.Select? ==> Rectangular(e.result)
    ensures resultType == None <==> e.NoQuery?
    ensures (resultType == Some(1) <==> e.ExecError?) && (resultType == Some(2) <==> e.Select?)
    ensures resultType == Some(3) <==> e.Command?
    ensures error == if e.ExecError? then Some((e.code, e.text)) else None
    ensures e.Select? <==> data != null
    ensures data != null ==>
              && fresh(data) && DATASET_ID in data.datasets && !data.packetData
              && var ds := data.Read(DATASET_ID);
                 var q := e.result;
                 && WellFormed(ds) && RowCount(ds) == |q.rows| && ColumnCount(ds) == q.columns
                 && forall r, c :: 0 <= r < |q.rows| && 0 <= c < q.columns
                                   ==> RawValue(ds, r, c) == Some(VString(q.rows[r][c]))
  {
    resultType, error, data := None, None, null;
    if e.NoQuery? {
      return;
    }
    resultType := Some(if e.ExecError? then 1 else if e.Select? then 2 else 3);
    if e.ExecError? {
      error := Some((e.code, e.text));
      return;
    }
    if e.Command? {
      return;
    }
    var q := e.result;
    var container := new Container(false);
    var first := container.InitDataset(DATASET_ID, |q.rows|, q.columns);
    for row := 0 to |q.rows|
      invariant fresh(container) && container.Valid() && !container.packetData && DATASET_ID in container.datasets
      invariant container.datasets[DATASET_ID] == first && fresh(first)
      invariant WellFormed(first.data) && first.data.Flat?
      invariant |first.data.rows| == |q.rows| && first.data.width == q.columns
      invariant Filled(first.data, q, row, 0)
    {
      for column := 0 to q.columns
        invariant fresh(container) && container.Valid() && !container.packetData && DATASET_ID in container.datasets
        invariant container.datasets[DATASET_ID] == first && fresh(first)
        invariant WellFormed(first.data) && first.data.Flat?
        invariant |first.data.rows| == |q.rows| && first.data.width == q.columns
        invariant Filled(first.data, q, row, column)
      {
        var w := container.WriterHelper(DATASET_ID, false, 0, 0);
        w.SetValue(row, column, VString(q.rows[row][column]));
      }
    }
    data := container;
  }
}
