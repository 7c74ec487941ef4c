/** The regional summary: for each region of the other-advisors pivot, the
    number of distinct advisor ids in each sales range, with a total column
    and a total row. */
module Resumen {
  import opened Optional
  import opened Tables
  import opened Rangos
  import opened Pivot
  import Seqs

  /** One summary line: a region (or the total label) with one count per
      range, in label order, and the line's total. */
  datatype SummaryRow = SummaryRow(regional: Cell, counts: seq<int>, total: int)

  /** Label of the total line. */
  const TotalGeneral: Cell := Text("Total General")

  /** The advisor ids of the pivot lines of region `reg` in range `rg`. */
  function AdvisorsIn(prs: seq<PivotRow>, reg: Cell, rg: Rango): set<Cell> {
    set i | 0 <= i < |prs| && prs[i].key.regional == reg && prs[i].rango == rg :: prs[i].key.cedula
  }

  /** The regions of the pivot lines, each once. */
  function Regions(prs: seq<PivotRow>): (rs: seq<Cell>)
    ensures Seqs.Distinct(rs)
    ensures forall reg :: reg in rs <==> exists i :: 0 <= i < |prs| && prs[i].key.regional == reg
  {
    var all := seq(|prs|, i requires 0 <= i < |prs| => prs[i].key.regional);
    assert forall i :: 0 <= i < |prs| ==> all[i] == prs[i].key.regional;
    Seqs.Dedup(all)
  }

  /** The line of region `reg`: the distinct-advisor count of each range
      and their sum. */
  function RegionLine(prs: seq<PivotRow>, reg: Cell): (r: SummaryRow)
    ensures r.regional == reg
    ensures |r.counts| == |AllRangos|
    ensures forall j :: 0 <= j < |AllRangos| ==> r.counts[j] == |AdvisorsIn(prs, reg, AllRangos[j])|
    ensures r.total == Seqs.Sum(r.counts)
  {
    var counts := seq(|AllRangos|, j requires 0 <= j < |AllRangos| => |AdvisorsIn(prs, reg, AllRangos[j])|);
    SummaryRow(reg, counts, Seqs.Sum(counts))
  }

  /** Every line has one count per range. */
  predicate Rectangular(body: seq<SummaryRow>) {
    forall i :: 0 <= i < |body| ==> |body[i].counts| == |AllRangos|
  }

  /** The sum of column `j` over the lines. */
  function ColumnSum(body: seq<SummaryRow>, j: nat): int
    requires Rectangular(body) && j < |AllRangos|
  {
    if |body| == 0 then 0 else body[0].counts[j] + ColumnSum(body[1..], j)
  }

  /** The sum of the total column over the lines. */
  function TotalsSum(body: seq<SummaryRow>): int {
    Seqs.SumOf(body, LineTotal)
  }

  function LineTotal(line: SummaryRow): int {
    line.total
  }

  lemma TotalsSumOne(line: SummaryRow)
    ensures TotalsSum([line]) == line.total
  {
    assert [line][1..] == [];
    assert Seqs.SumOf([], LineTotal) == 0;
  }

  /** The column sums of the lines, computed line by line. */
  function ColumnSums(body: seq<SummaryRow>): (r: seq<int>)
    requires Rectangular(body)
    ensures |r| == |AllRangos|
    ensures forall j :: 0 <= j < |AllRangos| ==> r[j] == ColumnSum(body, j)
  {
    if |body| == 0 then Seqs.Zeros(|AllRangos|)
    else Seqs.Add(body[0].counts, ColumnSums(body[1..]))
  }

  /** The summary of the other-advisors pivot: `None` when that pivot has
      no columns (there is no region column to group on); otherwise one
      line per region of the pivot followed by the total line. */
  function Summarize(t: PivotTable): (r: Option<seq<SummaryRow>>)
    ensures r.None? <==> t.NoColumns?
    ensures r.Some? ==>
              var regions := Regions(t.rows);
              && |r.value| == |regions| + 1
              && Rectangular(r.value)
              && (forall i :: 0 <= i < |regions| ==> r.value[i] == RegionLine(t.rows, regions[i]))
              && r.value[|regions|].regional == TotalGeneral
              && (forall j :: 0 <= j < |AllRangos| ==>
                    r.value[|regions|].counts[j] == ColumnSum(r.value[..|regions|], j))
              && r.value[|regions|].total == TotalsSum(r.value[..|regions|])
  {
    match t
    case NoColumns => None
    case Table(_, prs) =>
      var regions := Regions(prs);
      var body := seq(|regions|, i requires 0 <= i < |regions| => RegionLine(prs, regions[i]));
      var totals := SummaryRow(TotalGeneral, ColumnSums(body), TotalsSum(body));
      assert (body + [totals])[..|regions|] == body;
      Some(body + [totals])
  }

  /** The sum of every range cell of the lines. */
  function CellsSum(body: seq<SummaryRow>): int {
    Seqs.SumOf(body, LineCells)
  }

  function LineCells(line: SummaryRow): int {
    Seqs.Sum(line.counts)
  }

  /** Summing the total row over the ranges gives the same grand total as
      summing the total column over the regions: the total line's cells
      add up to its own total cell. */
  lemma {:induction false} GrandTotal(body: seq<SummaryRow>)
    requires Rectangular(body)
    requires forall i :: 0 <= i < |body| ==> body[i].total == Seqs.Sum(body[i].counts)
    ensures Seqs.Sum(ColumnSums(body)) == TotalsSum(body)
    ensures TotalsSum(body) == CellsSum(body)
  {
    if |body| > 0 {
      GrandTotal(body[1..]);
      Seqs.SumAdd(body[0].counts, ColumnSums(body[1..]));
    }
  }

  /** In the summary, the grand-total cell equals the sum of the total
      line's range cells, the sum of the region lines' totals and the sum
      of all the region lines' range cells. */
  lemma SummaryTotalsAgree(t: PivotTable)
    requires Summarize(t).Some?
    ensures var r := Summarize(t).value;
            var last := r[|r| - 1];
            && last.total == Seqs.Sum(last.counts)
            && last.total == TotalsSum(r[..|r| - 1])
            && last.total == CellsSum(r[..|r| - 1])
  {
    var r := Summarize(t).value;
    var n := |r| - 1;
    var body := r[..n];
    assert forall i :: 0 <= i < |body| ==> body[i].total == Seqs.Sum(body[i].counts);
    assert r[n].counts == ColumnSums(body);
    GrandTotal(body);
  }
}
