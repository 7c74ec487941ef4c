/** In-memory tables as the spreadsheet reader hands them over: a header of
    column names and rows of cells, plus the two frame operations the loader
    applies to them (keep a declared set of columns, rename columns). */
module Tables {
  import opened Optional
  import Seqs

  /** One spreadsheet cell. `Blank` is an empty cell, which the pipeline
      treats as a missing value. */
  datatype Cell = Blank | Text(s: string) | Num(n: int)

  /** A sheet read with a header row: column names and data rows. A row may be
      shorter than the header; the cells it lacks read as `Blank`. */
  datatype Frame = Frame(columns: seq<string>, rows: seq<seq<Cell>>)

  /** The cell of `row` under column position `j`. */
  function CellAt(row: seq<Cell>, j: nat): Cell {
    if j < |row| then row[j] else Blank
  }

  /** Position of the first column called `name`, if any. */
  function IndexOf(columns: seq<string>, name: string): (r: Option<nat>)
    ensures r.None? <==> name !in columns
    ensures r.Some? ==> r.value < |columns| && columns[r.value] == name
                        && name !in columns[..r.value]
  {
    if |columns| == 0 then None
    else if columns[0] == name then Some(0)
    else match IndexOf(columns[1..], name)
      case None => None
      case Some(k) =>
        assert columns[..k + 1] == [columns[0]] + columns[1..][..k];
        Some(k + 1)
  }

  /** The cells of the first column called `name`, if there is one. */
  function Column(f: Frame, name: string): (r: Option<seq<Cell>>)
    ensures r.None? <==> name !in f.columns
    ensures r.Some? ==> |r.value| == |f.rows|
  {
    match IndexOf(f.columns, name)
    case None => None
    case Some(j) => Some(seq(|f.rows|, i requires 0 <= i < |f.rows| => CellAt(f.rows[i], j)))
  }

  /** Column `k` is kept when its name is declared and it is the first
      column with that name (the reader renames later duplicates, so those
      never match a declared name). */
  predicate Picked(columns: seq<string>, usecols: seq<string>, k: nat)
    requires k < |columns|
  {
    columns[k] in usecols && columns[k] !in columns[..k]
  }

  /** Positions, from `j` on and in file order, of the columns kept. */
  function Picks(columns: seq<string>, usecols: seq<string>, j: nat): (r: seq<nat>)
    requires j <= |columns|
    decreases |columns| - j
    ensures forall i :: 0 <= i < |r| ==> j <= r[i] < |columns| && Picked(columns, usecols, r[i])
    ensures forall k :: j <= k < |columns| && Picked(columns, usecols, k) ==> k in r
    ensures forall a, b :: 0 <= a < b < |r| ==> r[a] < r[b]
  {
    if j == |columns| then []
    else if Picked(columns, usecols, j) then [j] + Picks(columns, usecols, j + 1)
    else Picks(columns, usecols, j + 1)
  }

  /** Restrict a frame to the declared columns, keeping file order. */
  function Select(f: Frame, usecols: seq<string>): (r: Frame)
    ensures |r.rows| == |f.rows|
    ensures forall u :: u in usecols && u in f.columns ==> u in r.columns
    ensures forall c :: c in r.columns ==> c in usecols && c in f.columns
    ensures Seqs.Distinct(r.columns)
    ensures forall u :: u in f.columns && u in usecols ==>
              var j := IndexOf(f.columns, u).value;
              var k := IndexOf(r.columns, u).value;
              forall i :: 0 <= i < |f.rows| ==> CellAt(r.rows[i], k) == CellAt(f.rows[i], j)
  {
    var ps := Picks(f.columns, usecols, 0);
    var cols := seq(|ps|, p requires 0 <= p < |ps| => f.columns[ps[p]]);
    var rows := seq(|f.rows|, i requires 0 <= i < |f.rows| =>
                      seq(|ps|, p requires 0 <= p < |ps| => CellAt(f.rows[i], ps[p])));
    SelectFacts(f, usecols, ps, cols);
    Frame(cols, rows)
  }

  /** What the positions chosen by `Picks` give: every declared column that
      exists is kept once, at the position of its first occurrence. */
  lemma SelectFacts(f: Frame, usecols: seq<string>, ps: seq<nat>, cols: seq<string>)
    requires ps == Picks(f.columns, usecols, 0)
    requires |cols| == |ps| && forall p :: 0 <= p < |ps| ==> cols[p] == f.columns[ps[p]]
    ensures Seqs.Distinct(cols)
    ensures forall c :: c in cols ==> c in usecols && c in f.columns
    ensures forall u :: u in f.columns && u in usecols ==>
              exists p :: 0 <= p < |ps| && ps[p] == IndexOf(f.columns, u).value
                          && IndexOf(cols, u) == Some(p)
  {
    PicksDistinct(f, usecols, ps, cols);
    forall u | u in f.columns && u in usecols
      ensures exists p :: 0 <= p < |ps| && ps[p] == IndexOf(f.columns, u).value
                          && IndexOf(cols, u) == Some(p)
    {
      PickedAt(f, usecols, ps, cols, u);
    }
  }

  /** The kept columns carry distinct names. */
  lemma PicksDistinct(f: Frame, usecols: seq<string>, ps: seq<nat>, cols: seq<string>)
    requires ps == Picks(f.columns, usecols, 0)
    requires |cols| == |ps| && forall p :: 0 <= p < |ps| ==> cols[p] == f.columns[ps[p]]
    ensures Seqs.Distinct(cols)
  {
    forall a, b | 0 <= a < b < |cols|
      ensures cols[a] != cols[b]
    {
      assert ps[a] < ps[b];
      assert f.columns[ps[a]] in f.columns[..ps[b]];
    }
  }

  /** A declared column that exists is kept at the position of its first
      occurrence. */
  lemma PickedAt(f: Frame, usecols: seq<string>, ps: seq<nat>, cols: seq<string>, u: string)
    requires ps == Picks(f.columns, usecols, 0)
    requires |cols| == |ps| && forall p :: 0 <= p < |ps| ==> cols[p] == f.columns[ps[p]]
    requires Seqs.Distinct(cols)
    requires u in f.columns && u in usecols
    ensures exists p :: 0 <= p < |ps| && ps[p] == IndexOf(f.columns, u).value
                        && IndexOf(cols, u) == Some(p)
  {
    var j := IndexOf(f.columns, u).value;
    assert Picked(f.columns, usecols, j);
    var p :| 0 <= p < |ps| && ps[p] == j;
    assert cols[p] == u;
    assert u in cols;
    var q := IndexOf(cols, u).value;
    assert q == p;
  }

  /** The name a column takes under a rename map; unmapped names stay. */
  function Renamed(renameMap: map<string, string>, c: string): string {
    if c in renameMap then renameMap[c] else c
  }

  /** Rename the columns of a frame; the cells do not move. */
  function Rename(f: Frame, renameMap: map<string, string>): (r: Frame)
    ensures r.rows == f.rows
    ensures |r.columns| == |f.columns|
    ensures forall j :: 0 <= j < |f.columns| ==> r.columns[j] == Renamed(renameMap, f.columns[j])
  {
    Frame(seq(|f.columns|, j requires 0 <= j < |f.columns| => Renamed(renameMap, f.columns[j])), f.rows)
  }

  /** No two columns are renamed to the same name. */
  predicate Injective(m: map<string, string>) {
    forall a, b :: a in m && b in m && a != b ==> m[a] != m[b]
  }

  /** Keeping a declared column that exists keeps its cells. */
  lemma SelectedColumn(f: Frame, usecols: seq<string>, u: string)
    requires u in usecols && u in f.columns
    ensures Column(Select(f, usecols), u) == Column(f, u)
  {
    var r := Select(f, usecols);
    assert u in r.columns;
    var j := IndexOf(f.columns, u).value;
    var k := IndexOf(r.columns, u).value;
    var lhs := Column(r, u).value;
    var rhs := Column(f, u).value;
    forall i | 0 <= i < |lhs|
      ensures lhs[i] == rhs[i]
    {
      assert lhs[i] == CellAt(r.rows[i], k);
      assert rhs[i] == CellAt(f.rows[i], j);
    }
    assert lhs == rhs;
  }

  /** Under an injective renaming of every column of a frame whose column
      names are distinct, the new name of a column holds that column's cells. */
  lemma RenamedColumn(f: Frame, m: map<string, string>, u: string)
    requires Seqs.Distinct(f.columns)
    requires forall c :: c in f.columns ==> c in m
    requires Injective(m)
    requires u in f.columns
    ensures Column(Rename(f, m), m[u]) == Column(f, u)
  {
    var r := Rename(f, m);
    var k := IndexOf(f.columns, u).value;
    assert r.columns[k] == m[u];
    forall q | 0 <= q < k
      ensures r.columns[q] != m[u]
    {
      assert f.columns[q] in f.columns;
    }
    var q := IndexOf(r.columns, m[u]).value;
    assert q == k;
  }
}
