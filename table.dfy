/**
  A data frame as the readers hand it over: named columns of cells, each column as long
  as the frame has rows. Only the frame operations the pipeline uses are modelled:
  column lookup `df[name]`, `'name' in df.columns`, `df.dropna(axis=1)`, `df.size`,
  `df.isnull().values.any()` and row access.
*/
module Table {
  import opened Wrappers

  datatype Cell = Num(x: real) | Text(t: string) | Missing

  datatype Column = Column(name: string, cells: seq<Cell>)

  datatype Frame = Frame(rows: nat, columns: seq<Column>)

  /** Every column has one cell per row, and column names are distinct. */
  ghost predicate Valid(f: Frame) {
    && (forall c :: c in f.columns ==> |c.cells| == f.rows)
    && (forall i, j :: 0 <= i < j < |f.columns| ==> f.columns[i].name != f.columns[j].name)
  }

  /** `name in df.columns`. */
  predicate Has(f: Frame, name: string) {
    exists c :: c in f.columns && c.name == name
  }

  /** `df[name]`: the column's cells, or `KeyError` when there is no such column. */
  function Get(f: Frame, name: string): (r: Result<seq<Cell>, Exception>)
    ensures r.Ok? <==> Has(f, name)
    ensures r.Err? ==> r.error == KeyError(name)
    ensures r.Ok? ==> exists c :: c in f.columns && c.name == name && c.cells == r.value
  {
    GetIn(f.columns, name)
  }

  function GetIn(cols: seq<Column>, name: string): (r: Result<seq<Cell>, Exception>)
    ensures r.Ok? <==> exists c :: c in cols && c.name == name
    ensures r.Err? ==> r.error == KeyError(name)
    ensures r.Ok? ==> exists c :: c in cols && c.name == name && c.cells == r.value
  {
    if cols == [] then Err(KeyError(name))
    else if cols[0].name == name then Ok(cols[0].cells)
    else
      assert forall c :: c in cols ==> c == cols[0] || c in cols[1..];
      GetIn(cols[1..], name)
  }

  /** The columns that satisfy `keep`, in their original order. */
  function FilterColumns(cols: seq<Column>, keep: Column -> bool): (r: seq<Column>)
    ensures |r| <= |cols|
    ensures forall c :: c in r <==> c in cols && keep(c)
  {
    if cols == [] then []
    else
      var rest := FilterColumns(cols[1..], keep);
      assert forall c :: c in cols <==> c == cols[0] || c in cols[1..];
      if keep(cols[0]) then [cols[0]] + rest else rest
  }

  /**
    Filtering keeps the relative order of the columns it keeps: the filter of a
    concatenation is the concatenation of the filters.
  */
  lemma {:induction false} FilterColumnsAppend(a: seq<Column>, b: seq<Column>, keep: Column -> bool)
    ensures FilterColumns(a + b, keep) == FilterColumns(a, keep) + FilterColumns(b, keep)
  {
    if a == [] {
      assert a + b == b;
    } else {
      assert (a + b)[0] == a[0];
      assert (a + b)[1..] == a[1..] + b;
      FilterColumnsAppend(a[1..], b, keep);
    }
  }

  predicate NoMissing(c: Column) {
    forall k :: 0 <= k < |c.cells| ==> c.cells[k] != Missing
  }

  /** `df.dropna(axis=1)`: every column holding a missing value is dropped. */
  function DropNaColumns(f: Frame): (r: Frame)
    ensures r.rows == f.rows
    ensures forall c :: c in r.columns <==> c in f.columns && NoMissing(c)
  {
    Frame(f.rows, FilterColumns(f.columns, NoMissing))
  }

  /** `df.size`: rows times columns. */
  function Size(f: Frame): nat {
    f.rows * |f.columns|
  }

  /** `df.isnull().values.any()`. */
  predicate AnyMissing(f: Frame) {
    exists c :: c in f.columns && !NoMissing(c)
  }

  /** Row `i` of a valid frame, one cell per column. */
  function Row(f: Frame, i: nat): (r: seq<Cell>)
    requires Valid(f) && i < f.rows
    ensures |r| == |f.columns|
    ensures forall k :: 0 <= k < |r| ==> r[k] == f.columns[k].cells[i]
  {
    seq(|f.columns|, k requires 0 <= k < |f.columns| => f.columns[k].cells[i])
  }

  /** `df.values`: the frame as a sequence of rows. */
  function Rows(f: Frame): (r: seq<seq<Cell>>)
    requires Valid(f)
    ensures |r| == f.rows
    ensures forall i :: 0 <= i < f.rows ==> r[i] == Row(f, i)
  {
    seq(f.rows, i requires 0 <= i < f.rows => Row(f, i))
  }
}
