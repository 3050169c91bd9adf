/**
 * Data frames as named columns over rows of optional cells. A missing cell
 * stands for pandas' NaN/NaT/None; numbers are whole numbers.
 */
module Tables {
  import opened Wrappers

  datatype Value = Num(n: int) | Str(s: string) | Time(t: int) | Bool(b: bool)

  /** One cell: None is a missing value. */
  type Cell = Option<Value>

  type Row = seq<Cell>

  datatype Table = Table(columns: seq<string>, rows: seq<Row>) {
    /** Every row has one cell per column. */
    predicate Valid() {
      forall i :: 0 <= i < |rows| ==> |rows[i]| == |columns|
    }
  }

  function Min(a: nat, b: nat): nat {
    if a <= b then a else b
  }

  /** `t.head(n)`: the same columns and the first `n` rows, or all of them when there are fewer. */
  function Head(t: Table, n: nat): (h: Table)
    ensures h.columns == t.columns
    ensures |h.rows| == Min(n, |t.rows|) && h.rows == t.rows[..|h.rows|]
  {
    Table(t.columns, t.rows[..Min(n, |t.rows|)])
  }

  /** The number of times `name` appears among `cols`. */
  function Occurrences(cols: seq<string>, name: string): nat {
    multiset(cols)[name]
  }

  /** The position of the first column called `name`. */
  function ColumnIndex(cols: seq<string>, name: string): (r: Option<nat>)
    ensures r.Some? <==> name in cols
    ensures r.Some? ==> r.value < |cols| && cols[r.value] == name && name !in cols[..r.value]
  {
    if cols == [] then None
    else if cols[0] == name then Some(0)
    else match ColumnIndex(cols[1..], name)
      case Some(k) => assert cols[1..][..k] == cols[1..k + 1]; Some(k + 1)
      case None => None
  }
}
