/** Spreadsheets as pandas sees them: a column list and rows of cells, NaN standing for an
    empty or missing cell; and the files on disk, each holding one named sheet. */
module Sheets {
  import opened Text
  import opened Dedup

  /** A cell: NaN, a string, or an integer. */
  datatype Cell = Null | Str(s: string) | Num(i: int)

  /** One row: the cells it has, by column name. */
  type Row = map<string, Cell>

  datatype Sheet = Sheet(columns: seq<string>, rows: seq<Row>)

  /** An .xlsx file as the model keeps it: the name of its sheet and the sheet. */
  datatype Workbook = Workbook(sheetName: string, table: Sheet)

  type Files = map<string, Workbook>

  /** `row[col]`, a cell the row does not have reading as NaN. */
  function CellAt(row: Row, col: string): Cell {
    if col in row then row[col] else Null
  }

  /** `"" if pd.isna(v) else str(v)`. */
  function CellName(c: Cell): string {
    match c
    case Null => ""
    case Str(s) => s
    case Num(i) => DecimalString(i)
  }

  /** The column of cells `df[col]`, one per row. */
  function ColumnCells(rows: seq<Row>, col: string): (r: seq<Cell>)
    ensures |r| == |rows| && forall i :: 0 <= i < |rows| ==> r[i] == CellAt(rows[i], col)
  {
    seq(|rows|, i requires 0 <= i < |rows| => CellAt(rows[i], col))
  }

  /** `rows[mask]`: the rows for which keep holds, in their order. */
  function Where(rows: seq<Row>, keep: Row -> bool): (r: seq<Row>)
    ensures |r| <= |rows|
  {
    if rows == [] then []
    else Where(rows[..|rows| - 1], keep) + (if keep(rows[|rows| - 1]) then [rows[|rows| - 1]] else [])
  }

  /** The mask `df[col] == c`. */
  function CellIs(col: string, c: Cell): Row -> bool {
    (r: Row) => CellAt(r, col) == c
  }

  /** The mask `df[col] != c`. */
  function CellIsNot(col: string, c: Cell): Row -> bool {
    (r: Row) => CellAt(r, col) != c
  }

  function SameCell(c: Cell): Cell { c }

  /** The group keys of `df.groupby(col, dropna=False)`: the distinct cells of the column,
      NaN included, each once, in order of first appearance. */
  function GroupKeys(rows: seq<Row>, col: string): seq<Cell> {
    DedupBy(ColumnCells(rows, col), SameCell)
  }

  /** A row is kept by Where exactly when it is one of the input rows and keep holds for it,
      and Where keeps them in input order. */
  lemma {:induction false} WhereIff(rows: seq<Row>, keep: Row -> bool, r: Row)
    ensures r in Where(rows, keep) <==> r in rows && keep(r)
  {
    if rows != [] {
      var p := rows[..|rows| - 1];
      WhereIff(p, keep, r);
      assert rows == p + [rows[|rows| - 1]];
    }
  }

  /** A kept row keeps its multiplicity; any other row is gone. */
  lemma {:induction false} WhereCount(rows: seq<Row>, keep: Row -> bool, r: Row)
    ensures multiset(Where(rows, keep))[r] == if keep(r) then multiset(rows)[r] else 0
  {
    if rows != [] {
      var p := rows[..|rows| - 1];
      WhereCount(p, keep, r);
      assert rows == p + [rows[|rows| - 1]];
    }
  }

  lemma {:induction false} WhereIsSubseq(rows: seq<Row>, keep: Row -> bool)
    ensures SubseqOf(Where(rows, keep), rows)
  {
    if rows != [] {
      var p, x := rows[..|rows| - 1], rows[|rows| - 1];
      WhereIsSubseq(p, keep);
      var w := Where(rows, keep);
      if keep(x) {
        assert w == Where(p, keep) + [x];
        assert w[..|w| - 1] == Where(p, keep) && w[|w| - 1] == x;
        assert SubseqOf(w[..|w| - 1], rows[..|rows| - 1]);
      } else {
        assert w == Where(p, keep);
        SubseqOfSnoc(Where(p, keep), p, x);
      }
    }
  }

  /** Applying the same mask twice keeps the same rows. */
  lemma {:induction false} WhereIdempotent(rows: seq<Row>, keep: Row -> bool)
    ensures Where(Where(rows, keep), keep) == Where(rows, keep)
  {
    if rows != [] {
      var p, x := rows[..|rows| - 1], rows[|rows| - 1];
      WhereIdempotent(p, keep);
      var w := Where(rows, keep);
      if keep(x) {
        assert w == Where(p, keep) + [x];
        assert w[..|w| - 1] == Where(p, keep) && w[|w| - 1] == x;
        assert Where(w, keep) == Where(Where(p, keep), keep) + [x];
      } else {
        assert w == Where(p, keep);
      }
    }
  }

  /** The group keys are exactly the cells of the column, each once. */
  lemma GroupKeysFacts(rows: seq<Row>, col: string, c: Cell)
    ensures c in GroupKeys(rows, col) <==> exists i :: 0 <= i < |rows| && CellAt(rows[i], col) == c
    ensures NoDupKeys(GroupKeys(rows, col), SameCell)
  {
    var cells := ColumnCells(rows, col);
    DedupKeySet(cells, SameCell);
    DedupNoDup(cells, SameCell);
    var g := GroupKeys(rows, col);
    assert c in g <==> c in KeySet(g, SameCell) by {
      if c in g { var j :| 0 <= j < |g| && g[j] == c; assert SameCell(g[j]) == c; }
    }
    assert c in KeySet(cells, SameCell) <==> exists i :: 0 <= i < |rows| && CellAt(rows[i], col) == c by {
      if c in KeySet(cells, SameCell) {
        var i :| 0 <= i < |cells| && SameCell(cells[i]) == c;
        assert CellAt(rows[i], col) == c;
      }
      if exists i :: 0 <= i < |rows| && CellAt(rows[i], col) == c {
        var i :| 0 <= i < |rows| && CellAt(rows[i], col) == c;
        assert SameCell(cells[i]) == c;
      }
    }
  }
}
