/** Values and rows as the engine compares them.
    A `Value` is what a `DataType` means once its representation is forgotten, so
    that `==` here is `DataType` equality (`DataTypes.EqIsSameMeaning`). */
module Values {

  const WORD32: int := 0x1_0000_0000

  type Byte = b: int | 0 <= b < 256

  datatype Value =
    | Null
    | Integer(n: int)
    | Fixed(whole: int, frac: int)
    | Chars(bytes: seq<Byte>)
    | Instant(secs: int, nanos: int)

  type Row = seq<Value>

  /** Column of a row. NULL beyond its end, where the source's indexing panics: view creation validates column
      indices, but a row that fills a view has only the columns of its SELECT, without the key appended. */
  function Column(row: Row, c: nat): Value {
    if c < |row| then row[c] else Null
  }

  /** The values of the given columns, in order. */
  function Columns(row: Row, cols: seq<nat>): (r: Row)
    ensures |r| == |cols|
  {
    if cols == [] then [] else Columns(row, cols[..|cols| - 1]) + [Column(row, cols[|cols| - 1])]
  }

  /** Which value stands where. */
  lemma {:induction false} ColumnsAt(row: Row, cols: seq<nat>, i: nat)
    requires i < |cols|
    ensures Columns(row, cols)[i] == Column(row, cols[i])
  {
    var last := |cols| - 1;
    if i < last { ColumnsAt(row, cols[..last], i); }
  }

  /** The row has these values in these columns, one by one. */
  predicate HasValues(row: Row, cols: seq<nat>, values: seq<Value>) {
    |values| == |cols| && forall i :: 0 <= i < |cols| ==> Column(row, cols[i]) == values[i]
  }

  lemma ColumnsExactly(row: Row, cols: seq<nat>, values: seq<Value>)
    ensures Columns(row, cols) == values <==> HasValues(row, cols, values)
  {
    forall i | 0 <= i < |cols| ensures Columns(row, cols)[i] == Column(row, cols[i]) { ColumnsAt(row, cols, i); }
    if HasValues(row, cols, values) { assert Columns(row, cols) == values; }
  }

  datatype Option<+T> = None | Some(value: T)
}
