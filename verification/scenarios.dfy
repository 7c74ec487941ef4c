/** Worked cases of the pipeline on small inputs: what one advisor's
    sales become in the pivot, how a repeated register id repeats a sale,
    and why the summary's grand total counts pivot lines per range rather
    than distinct advisors. */
module Scenarios {
  import opened Optional
  import opened Tables
  import opened Records
  import opened Segmentation
  import opened Rangos
  import opened Pivot
  import opened Resumen
  import opened Reporte
  import Seqs

  const Norte: Cell := Text("NORTE")
  const Id: Cell := Num(1017)
  const Ana: Cell := Text("ANA")
  const Retail: Cell := Text("RETAIL")
  const Efectivo: Cell := Text("EFECTIVO")
  const Tarjeta: Cell := Text("TARJETA")

  /** The consolidated rows of one advisor who sold 1,000,000 in cash and
      200,000 by card. */
  const AnaRows: seq<Row> := [Row(Norte, Id, Ana, Efectivo, 1000000, Retail),
                              Row(Norte, Id, Ana, Tarjeta, 200000, Retail)]
  const AnaKey: Key := Key(Norte, Id, Ana, Retail)

  /** Those rows keep one key and two payment methods. */
  lemma AnaKeysAndMethods()
    ensures Filter(AnaRows, Grouped) == AnaRows
    ensures Methods(AnaRows) == [Efectivo, Tarjeta]
    ensures Keys(AnaRows) == [AnaKey]
  {
    var rows := AnaRows;
    assert Grouped(rows[0]) && Grouped(rows[1]);
    FilterKeepsAll(rows, Grouped);
    AnaMethods();
    DedupPair(AnaKey, AnaKey);
    assert seq(2, i requires 0 <= i < 2 => KeyOf(rows[i])) == [AnaKey, AnaKey];
  }

  /** Those rows have two payment methods. */
  lemma AnaMethods()
    ensures Methods(AnaRows) == [Efectivo, Tarjeta]
  {
    var rows := AnaRows;
    DedupPair(Efectivo, Tarjeta);
    assert seq(2, i requires 0 <= i < 2 => MethodOf(rows[i])) == [Efectivo, Tarjeta];
  }

  /** The sales of that key under each method. */
  lemma AnaAmounts()
    ensures Where(AnaRows, KeyOf, AnaKey) == AnaRows
    ensures Total(Where(AnaRows, MethodOf, Efectivo)) == 1000000
    ensures Total(Where(AnaRows, MethodOf, Tarjeta)) == 200000
    ensures Total(AnaRows) == 1200000
  {
    var rows := AnaRows;
    assert rows[1..] == [rows[1]] && rows[1..][1..] == [];
    assert Where([], KeyOf, AnaKey) == [];
    assert Where([rows[1]], KeyOf, AnaKey) == [rows[1]];
    assert Where([], MethodOf, Efectivo) == [] && Where([], MethodOf, Tarjeta) == [];
    assert Where([rows[1]], MethodOf, Efectivo) == [];
    assert Where([rows[1]], MethodOf, Tarjeta) == [rows[1]];
    assert Where(rows, MethodOf, Efectivo) == [rows[0]];
    assert Where(rows, MethodOf, Tarjeta) == [rows[1]];
    TotalOfOne(rows[0]);
    TotalOfOne(rows[1]);
    assert Total(rows) == rows[0].ventas + Total(rows[1..]);
  }

  /** The line of that key. */
  lemma AnaLine()
    ensures Methods(AnaRows) == [Efectivo, Tarjeta]
    ensures MakeRow(AnaRows, [Efectivo, Tarjeta], AnaKey)
            == PivotRow(AnaKey, [1000000, 200000], 1200000, Hasta5)
  {
    AnaMethods();
    AnaAmounts();
    var ms := [Efectivo, Tarjeta];
    var pr := MakeRow(AnaRows, ms, AnaKey);
    assert LineOf(AnaRows, ms, pr) && pr.key == AnaKey;
    assert pr.amounts[0] == Total(Where(AnaRows, MethodOf, ms[0])) == 1000000;
    assert pr.amounts[1] == Total(Where(AnaRows, MethodOf, ms[1])) == 200000;
    assert pr.amounts == [1000000, 200000];
    assert pr.total == Total(AnaRows) == 1200000;
    BinsDisjoint(1200000, 1);
  }

  /** The pivot of those rows has one line with a cell per method, total
      1,200,000, in the lowest range of positive sales. */
  lemma OneAdvisorTwoMethods()
    ensures BuildPivot(AnaRows)
            == Table([Efectivo, Tarjeta], [PivotRow(AnaKey, [1000000, 200000], 1200000, Hasta5)])
  {
    AnaKeysAndMethods();
    AnaLine();
    var ms := [Efectivo, Tarjeta];
    assert BuildPivot(AnaRows) == Table(ms, Lines(AnaRows, ms, [AnaKey]));
    assert Lines(AnaRows, ms, [AnaKey]) == [MakeRow(AnaRows, ms, AnaKey)] + Lines(AnaRows, ms, []);
  }

  /** A register that lists an advisor id twice, with two types, repeats
      each sale of that advisor once per entry: the consolidated rows carry
      twice the sold amount. */
  lemma RepeatedIdRepeatsSale()
    ensures var sale := SalesRow(Norte, Id, Ana, Efectivo, 100);
            var register := [AdvisorRow(Id, Retail), AdvisorRow(Id, CorretajeTipo)];
            && LeftJoin([sale], register)
               == [Extend(sale, Retail), Extend(sale, CorretajeTipo)]
            && Total(LeftJoin([sale], register)) == 2 * sale.ventas
  {
    var sale := SalesRow(Norte, Id, Ana, Efectivo, 100);
    var register := [AdvisorRow(Id, Retail), AdvisorRow(Id, CorretajeTipo)];
    assert register[1..] == [register[1]] && register[1..][1..] == [];
    assert Matches(register, Id) == register;
    var rows := [Extend(sale, Retail), Extend(sale, CorretajeTipo)];
    assert JoinOne(sale, register) == rows;
    assert LeftJoin([sale], register) == rows + LeftJoin([], register);
    assert rows[1..] == [rows[1]] && rows[1..][1..] == [];
    TotalOfOne(rows[1]);
  }

  const AnaMaria: Cell := Text("ANA MARIA")

  /** Two consolidated rows of one advisor id in one region, whose name is
      spelled two ways, with cash sales of 1,000,000 and 7,000,000. */
  const TwoNameRows: seq<Row> := [Row(Norte, Id, Ana, Efectivo, 1000000, Retail),
                                  Row(Norte, Id, AnaMaria, Efectivo, 7000000, Retail)]

  /** The pivot lines those rows yield: one per spelling, in different
      ranges. */
  const TwoNames: seq<PivotRow> := [
    PivotRow(Key(Norte, Id, Ana, Retail), [1000000], 1000000, Hasta5),
    PivotRow(Key(Norte, Id, AnaMaria, Retail), [7000000], 7000000, De6a15)]

  /** Those rows keep two keys and one payment method. */
  lemma TwoNameKeysAndMethods()
    ensures Filter(TwoNameRows, Grouped) == TwoNameRows
    ensures Methods(TwoNameRows) == [Efectivo]
    ensures Keys(TwoNameRows) == [Key(Norte, Id, Ana, Retail), Key(Norte, Id, AnaMaria, Retail)]
  {
    var rows := TwoNameRows;
    assert Grouped(rows[0]) && Grouped(rows[1]);
    FilterKeepsAll(rows, Grouped);
    TwoNameMethods();
    TwoNameKeys();
  }

  /** Those rows have two keys, one per spelling of the name. */
  lemma TwoNameKeys()
    ensures Keys(TwoNameRows) == [Key(Norte, Id, Ana, Retail), Key(Norte, Id, AnaMaria, Retail)]
  {
    var rows := TwoNameRows;
    var k0 := Key(Norte, Id, Ana, Retail);
    var k1 := Key(Norte, Id, AnaMaria, Retail);
    assert |Ana.s| != |AnaMaria.s|;
    DedupPair(k0, k1);
    assert seq(2, i requires 0 <= i < 2 => KeyOf(rows[i])) == [k0, k1];
  }

  /** Those rows have one payment method. */
  lemma TwoNameMethods()
    ensures Methods(TwoNameRows) == [Efectivo]
  {
    var rows := TwoNameRows;
    DedupPair(Efectivo, Efectivo);
    assert seq(2, i requires 0 <= i < 2 => MethodOf(rows[i])) == [Efectivo, Efectivo];
  }

  /** The sales of each key of those rows. */
  lemma TwoNameGroups()
    ensures Where(TwoNameRows, KeyOf, Key(Norte, Id, Ana, Retail)) == [TwoNameRows[0]]
    ensures Where(TwoNameRows, KeyOf, Key(Norte, Id, AnaMaria, Retail)) == [TwoNameRows[1]]
    ensures Where([TwoNameRows[0]], MethodOf, Efectivo) == [TwoNameRows[0]]
    ensures Where([TwoNameRows[1]], MethodOf, Efectivo) == [TwoNameRows[1]]
    ensures Total([TwoNameRows[0]]) == 1000000 && Total([TwoNameRows[1]]) == 7000000
  {
    var rows := TwoNameRows;
    assert rows[1..] == [rows[1]] && rows[1..][1..] == [];
    assert [rows[0]][1..] == [];
    TotalOfOne(rows[0]);
    TotalOfOne(rows[1]);
    var k0 := Key(Norte, Id, Ana, Retail);
    var k1 := Key(Norte, Id, AnaMaria, Retail);
    assert Where([], KeyOf, k0) == [] && Where([], KeyOf, k1) == [];
    assert Where([rows[1]], KeyOf, k0) == [];
    assert Where([rows[1]], KeyOf, k1) == [rows[1]];
    assert Where([], MethodOf, Efectivo) == [];
  }

  /** The line of the first spelling. */
  lemma FirstNameLine()
    ensures Methods(TwoNameRows) == [Efectivo]
    ensures MakeRow(TwoNameRows, [Efectivo], Key(Norte, Id, Ana, Retail))
            == PivotRow(Key(Norte, Id, Ana, Retail), [1000000], 1000000, Hasta5)
  {
    TwoNameMethods();
    TwoNameGroups();
    var x := TwoNameRows[0];
    assert x.ventas == 1000000 && MethodOf(x) == Efectivo;
    SingleLine(TwoNameRows, Efectivo, Key(Norte, Id, Ana, Retail), x);
    BinsDisjoint(1000000, 1);
  }

  /** The line of the second spelling. */
  lemma SecondNameLine()
    ensures Methods(TwoNameRows) == [Efectivo]
    ensures MakeRow(TwoNameRows, [Efectivo], Key(Norte, Id, AnaMaria, Retail))
            == PivotRow(Key(Norte, Id, AnaMaria, Retail), [7000000], 7000000, De6a15)
  {
    TwoNameMethods();
    TwoNameGroups();
    var x := TwoNameRows[1];
    assert x.ventas == 7000000 && MethodOf(x) == Efectivo;
    SingleLine(TwoNameRows, Efectivo, Key(Norte, Id, AnaMaria, Retail), x);
    BinsDisjoint(7000000, 2);
  }

  /** The lines of the two keys of those rows. */
  lemma TwoNamesLines()
    ensures Methods(TwoNameRows) == [Efectivo]
    ensures Lines(TwoNameRows, [Efectivo], [Key(Norte, Id, Ana, Retail), Key(Norte, Id, AnaMaria, Retail)])
            == TwoNames
  {
    FirstNameLine();
    SecondNameLine();
    var ms := [Efectivo];
    var k0 := Key(Norte, Id, Ana, Retail);
    var k1 := Key(Norte, Id, AnaMaria, Retail);
    assert [k0, k1][1..] == [k1] && [k1][1..] == [];
    assert Lines(TwoNameRows, ms, [k1]) == [MakeRow(TwoNameRows, ms, k1)] + Lines(TwoNameRows, ms, []);
    assert Lines(TwoNameRows, ms, [k0, k1]) == [MakeRow(TwoNameRows, ms, k0)] + Lines(TwoNameRows, ms, [k1]);
  }

  /** The pivot of those rows is the two lines above. */
  lemma TwoNamesPivot()
    ensures BuildPivot(TwoNameRows) == Table([Efectivo], TwoNames)
  {
    TwoNameKeysAndMethods();
    TwoNamesLines();
  }

  /** The report of those rows puts both of them on the other-types sheet,
      whose pivot is the two lines above. */
  lemma TwoNamesReport()
    ensures Process(TwoNameRows).Some?
    ensures Process(TwoNameRows).value.asesores == Table([Efectivo], TwoNames)
  {
    var rows := TwoNameRows;
    assert IsAsesor(rows[0]) && IsAsesor(rows[1]);
    FilterKeepsAll(rows, IsAsesor);
    TwoNamesPivot();
  }

  /** The advisor ids of each range of those lines. */
  lemma TwoNamesCells()
    ensures AdvisorsIn(TwoNames, Norte, Hasta5) == {Id}
    ensures AdvisorsIn(TwoNames, Norte, De6a15) == {Id}
    ensures forall rg :: rg != Hasta5 && rg != De6a15 ==> AdvisorsIn(TwoNames, Norte, rg) == {}
  {
    assert TwoNames[0].key.cedula == Id && TwoNames[1].key.cedula == Id;
  }

  /** Those lines have one region, and its summary line counts the id in
      two ranges. */
  lemma TwoNamesLine()
    ensures Regions(TwoNames) == [Norte]
    ensures RegionLine(TwoNames, Norte) == SummaryRow(Norte, [0, 1, 1, 0, 0, 0, 0, 0], 2)
  {
    TwoNamesRegions();
    TwoNamesCells();
    var line := RegionLine(TwoNames, Norte);
    assert line.counts == [0, 1, 1, 0, 0, 0, 0, 0];
    SumOfCounts();
  }

  lemma TwoNamesRegions()
    ensures Regions(TwoNames) == [Norte]
  {
    DedupPair(Norte, Norte);
    assert seq(2, i requires 0 <= i < 2 => TwoNames[i].key.regional) == [Norte, Norte];
  }

  /** The summary of those lines: the region line and the total line. */
  lemma TwoNamesSummary()
    ensures var line := RegionLine(TwoNames, Norte);
            Summarize(Table([Efectivo], TwoNames))
            == Some([line, SummaryRow(TotalGeneral, ColumnSums([line]), TotalsSum([line]))])
  {
    TwoNamesRegions();
    var line := RegionLine(TwoNames, Norte);
    var regions := Regions(TwoNames);
    var body := seq(|regions|, i requires 0 <= i < |regions| => RegionLine(TwoNames, regions[i]));
    assert body == [line];
    assert body + [SummaryRow(TotalGeneral, ColumnSums(body), TotalsSum(body))]
           == [line, SummaryRow(TotalGeneral, ColumnSums([line]), TotalsSum([line]))];
  }

  /** The summary counts one advisor id once per range cell, so the report
      built from two rows of one advisor whose name is spelled two ways, and
      whose two lines fall in different ranges, has a grand total of 2 while
      the rows hold one distinct advisor id. */
  lemma GrandTotalCountsPerRange()
    ensures Process(TwoNameRows).Some?
    ensures var r := Process(TwoNameRows).value.resumen;
            && |r| == 2
            && r[0].counts == [0, 1, 1, 0, 0, 0, 0, 0]
            && r[1].regional == TotalGeneral
            && r[1].total == 2
  {
    TwoNamesReport();
    TwoNamesLine();
    TwoNamesSummary();
    TotalsSumOne(SummaryRow(Norte, [0, 1, 1, 0, 0, 0, 0, 0], 2));
  }

  /** Those rows, and so the two pivot lines, hold a single advisor id:
      a count of distinct advisors would be 1. */
  lemma TwoNamesOneId()
    ensures (set x | x in TwoNameRows :: x.cedula) == {Id}
    ensures (set pr | pr in TwoNames :: pr.key.cedula) == {Id}
  {
    assert TwoNameRows[0] in TwoNameRows;
    assert TwoNames[0] in TwoNames;
  }

  lemma SumOfCounts()
    ensures Seqs.Sum([0, 1, 1, 0, 0, 0, 0, 0]) == 2
  {
    var c := [0, 1, 1, 0, 0, 0, 0, 0];
    assert c == [0, 1, 1] + Seqs.Zeros(5);
    Seqs.SumAppend([0, 1, 1], Seqs.Zeros(5));
    assert [0, 1, 1][1..] == [1, 1] && [1, 1][1..] == [1] && [1][1..] == [];
  }

  /** Removing repeats from two elements. */
  lemma DedupPair<T(!new)>(a: T, b: T)
    ensures Seqs.Dedup([a, b]) == if a == b then [a] else [a, b]
  {
    assert [a, b][..1] == [a];
    assert [a][..0] == [];
  }
}
