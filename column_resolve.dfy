/// The standalone `resolve`: in a result set of named columns and positional
/// rows, every cell of a listed column is replaced by an IPFS `get` of it.
/// The result set passed in is updated in place and is itself the answer.
module ColumnResolve {
  import opened Values

  datatype Column = Column(name: string)

  /**
   * A cell of a row: a value as the query returned it, or what `ipfs.get`
   * returned for a cell, which is a pending stream of the content and not
   * the content itself.
   */
  datatype Cell = Plain(value: Value) | Fetched(path: Cell)

  class ResultSet {
    var columns: seq<Column>
    var rows: seq<seq<Cell>>

    constructor (columns: seq<Column>, rows: seq<seq<Cell>>)
      ensures this.columns == columns && this.rows == rows
    {
      this.columns := columns;
      this.rows := rows;
    }
  }

  /** The positions of the columns whose names are listed, in increasing order. */
  function Selected(columns: seq<Column>, names: seq<string>): (indices: seq<nat>)
    ensures forall k: nat :: k in indices <==> k < |columns| && columns[k].name in names
    ensures forall i | 0 <= i < |indices| :: indices[i] < |columns|
    ensures forall i, j | 0 <= i < j < |indices| :: indices[i] < indices[j]
    decreases |columns|
  {
    if columns == [] then []
    else
      var n := |columns| - 1;
      var init := Selected(columns[..n], names);
      if columns[n].name in names then init + [n] else init
  }

  /** The `forEach` that pushes the position of every listed column. */
  method ColumnIndices(columns: seq<Column>, columnsToResolve: seq<string>) returns (resolveColumnIndex: seq<nat>)
    ensures resolveColumnIndex == Selected(columns, columnsToResolve)
  {
    resolveColumnIndex := [];
    for key := 0 to |columns|
      invariant resolveColumnIndex == Selected(columns[..key], columnsToResolve)
    {
      assert columns[..key + 1][..key] == columns[..key];
      if columns[key].name in columnsToResolve {
        resolveColumnIndex := resolveColumnIndex + [key];
      }
    }
    assert columns[..|columns|] == columns;
  }

  /** The `row.map` callback: a cell at a listed position is fetched, any other kept. */
  function ResolveCells(row: seq<Cell>, indices: seq<nat>): (out: seq<Cell>)
    ensures |out| == |row|
    ensures forall k | 0 <= k < |row| :: out[k] == if k in indices then Fetched(row[k]) else row[k]
  {
    seq(|row|, k requires 0 <= k < |row| => if k in indices then Fetched(row[k]) else row[k])
  }

  /**
   * `resolve(resultSet, columnsToResolve)`: the rows of the result set are
   * replaced, in place, by rows whose listed columns are fetched; the result
   * set itself is returned.
   */
  method Resolve(resultSet: ResultSet, columnsToResolve: seq<string>) returns (r: ResultSet)
    modifies resultSet`rows
    ensures r == resultSet
    ensures resultSet.columns == old(resultSet.columns)
    ensures |resultSet.rows| == |old(resultSet.rows)|
    ensures forall i | 0 <= i < |resultSet.rows| ::
      && |resultSet.rows[i]| == |old(resultSet.rows)[i]|
      && forall k | 0 <= k < |resultSet.rows[i]| ::
           resultSet.rows[i][k] ==
             if k < |resultSet.columns| && resultSet.columns[k].name in columnsToResolve
             then Fetched(old(resultSet.rows)[i][k]) else old(resultSet.rows)[i][k]
  {
    var resolveColumnIndex := ColumnIndices(resultSet.columns, columnsToResolve);
    var resolveSet := resultSet;
    var rows := resultSet.rows;
    resolveSet.rows := seq(|rows|, i requires 0 <= i < |rows| => ResolveCells(rows[i], resolveColumnIndex));
    r := resolveSet;
  }

  /** How many `get`s a cell has been through. */
  function Depth(c: Cell): (d: nat)
    ensures c.Fetched? ==> d == Depth(c.path) + 1
  {
    if c.Plain? then 0 else Depth(c.path) + 1
  }

  /** With no listed column present, every row is kept as it is. */
  lemma {:induction false} NothingSelected(columns: seq<Column>, names: seq<string>, row: seq<Cell>)
    requires forall k | 0 <= k < |columns| :: columns[k].name !in names
    decreases |columns|
    ensures Selected(columns, names) == []
    ensures ResolveCells(row, Selected(columns, names)) == row
  {
    if columns != [] {
      var n := |columns| - 1;
      NothingSelected(columns[..n], names, row);
      assert columns[n].name !in names;
    }
  }

  /**
   * Resolving twice fetches a listed cell twice: the second `get` is handed
   * the stream of the first, not the content it names.
   */
  lemma ResolveTwice(row: seq<Cell>, indices: seq<nat>, k: nat)
    requires k < |row| && k in indices
    ensures ResolveCells(ResolveCells(row, indices), indices)[k] == Fetched(Fetched(row[k]))
    ensures ResolveCells(ResolveCells(row, indices), indices) != ResolveCells(row, indices)
  {
    var once := ResolveCells(row, indices);
    assert once[k] == Fetched(row[k]);
    assert Depth(Fetched(once[k])) != Depth(once[k]);
  }
}
