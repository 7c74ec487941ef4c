/** The whole report run: load both sources, join them, split the rows,
    pivot each part and summarise the other-advisors pivot by region. The
    run either yields the four sheets or fails as a whole. */
module Reporte {
  import opened Optional
  import opened Tables
  import opened FinancieraModel
  import opened Loader
  import opened Records
  import opened Segmentation
  import opened Rangos
  import opened Pivot
  import opened Resumen
  import Seqs

  /** The four sheets of the written workbook, written in this order as
      "Resumen Regional", "corretaje", "asesores" and "sin registrar". */
  datatype Report = Report(
    resumen: seq<SummaryRow>,
    corretaje: PivotTable,
    asesores: PivotTable,
    sinRegistrar: PivotTable)

  /** The processing stage over the consolidated rows: it fails only when
      no row has a registered type other than brokerage, since the summary
      then has no region column to group on. */
  function Process(rows: seq<Row>): (r: Option<Report>)
    ensures r.None? <==> forall x :: x in rows ==> !IsAsesor(x)
    ensures r.Some? ==>
              var p := Split(rows);
              && r.value.corretaje == BuildPivot(p.corretaje)
              && r.value.asesores == BuildPivot(p.asesores)
              && r.value.sinRegistrar == BuildPivot(MarkUnregistered(p.sinRegistrar))
              && Summarize(r.value.asesores) == Some(r.value.resumen)
  {
    var p := Split(rows);
    var corretaje := BuildPivot(p.corretaje);
    var asesores := BuildPivot(p.asesores);
    var sinRegistrar := BuildPivot(MarkUnregistered(p.sinRegistrar));
    AsesoresEmpty(rows);
    match Summarize(asesores)
    case None => None
    case Some(resumen) => Some(Report(resumen, corretaje, asesores, sinRegistrar))
  }

  /** The report for a configuration and the readers of the two source
      files. It fails when a source key is not declared, when a source
      cannot be read or lacks a declared column, when a renamed column the
      pipeline needs is missing or an amount is text, and when no sales row
      belongs to an advisor of a type other than brokerage. */
  function Generate(cfg: Config, readVentas: Reader, readAsesores: Reader): (r: Option<Report>)
    ensures ClaveVentas !in cfg || ClaveAsesores !in cfg ==> r.None?
    ensures r.Some? <==>
              var v := Load(cfg, ClaveVentas, readVentas);
              var a := Load(cfg, ClaveAsesores, readAsesores);
              && v.Some? && a.Some?
              && SalesRows(v.value).Some? && AdvisorRows(a.value).Some?
              && exists x :: x in LeftJoin(SalesRows(v.value).value, AdvisorRows(a.value).value)
                             && IsAsesor(x)
    ensures r.Some? ==>
              var v := Load(cfg, ClaveVentas, readVentas);
              var a := Load(cfg, ClaveAsesores, readAsesores);
              Some(r.value) == Process(LeftJoin(SalesRows(v.value).value, AdvisorRows(a.value).value))
  {
    match Consolidate(cfg, readVentas, readAsesores)
    case None => None
    case Some(rows) => Process(rows)
  }

  /** The consolidated rows: the sales sheet left-joined with the advisor
      register, or `None` when either source fails to load or to yield its
      rows. */
  function Consolidate(cfg: Config, readVentas: Reader, readAsesores: Reader): (r: Option<seq<Row>>)
    ensures r.Some? <==>
              var v := Load(cfg, ClaveVentas, readVentas);
              var a := Load(cfg, ClaveAsesores, readAsesores);
              && v.Some? && a.Some? && SalesRows(v.value).Some? && AdvisorRows(a.value).Some?
    ensures r.Some? ==>
              var v := Load(cfg, ClaveVentas, readVentas);
              var a := Load(cfg, ClaveAsesores, readAsesores);
              r.value == LeftJoin(SalesRows(v.value).value, AdvisorRows(a.value).value)
  {
    var v := Load(cfg, ClaveVentas, readVentas);
    var a := Load(cfg, ClaveAsesores, readAsesores);
    if v.None? || a.None? then None
    else
      var sales := SalesRows(v.value);
      var advisors := AdvisorRows(a.value);
      if sales.None? || advisors.None? then None
      else Some(LeftJoin(sales.value, advisors.value))
  }

  /** Under the declared configuration a loaded sales source always has the
      five columns the pipeline needs, so reading its rows fails only for a
      text amount. */
  lemma ConfiguredSalesColumns(read: Reader)
    requires Load(Configuracion, ClaveVentas, read).Some?
    ensures var f := Load(Configuracion, ClaveVentas, read).value;
            && Regional in f.columns && CedulaAsesor in f.columns && NombreAsesor in f.columns
            && FormaPago in f.columns && VentasAntesIva in f.columns
    ensures var f := Load(Configuracion, ClaveVentas, read).value;
            SalesRows(f).Some? <==> AmountsOf(Column(f, VentasAntesIva).value).Some?
  {
    SalesSourceRenames();
  }

  /** Likewise the advisor source always yields its two columns. */
  lemma ConfiguredAdvisorColumns(read: Reader)
    requires Load(Configuracion, ClaveAsesores, read).Some?
    ensures AdvisorRows(Load(Configuracion, ClaveAsesores, read).value).Some?
  {
    AdvisorSourceRenames();
  }

  /** Summed amounts of some sales rows. */
  function SalesTotal(sales: seq<SalesRow>): int {
    Seqs.SumOf(sales, SaleVentas)
  }

  /** Sum of the totals column of a pivot sheet; a column-less sheet adds
      nothing. */
  function SheetTotal(t: PivotTable): int {
    match t
    case NoColumns => 0
    case Table(_, prs) => Seqs.Sum(Totals(prs))
  }

  lemma {:induction false} TotalOfSplit(rows: seq<Row>)
    ensures Total(Filter(rows, IsCorretaje)) + Total(Filter(rows, IsAsesor))
            + Total(Filter(rows, IsSinRegistrar)) == Total(rows)
  {
    if |rows| > 0 {
      TotalOfSplit(rows[1..]);
      MasksAreSegments(rows[0]);
      WhereTotalStep(rows, IsCorretaje, true);
      WhereTotalStep(rows, IsAsesor, true);
      WhereTotalStep(rows, IsSinRegistrar, true);
    }
  }

  lemma {:induction false} TotalOfMarked(rows: seq<Row>)
    ensures Total(MarkUnregistered(rows)) == Total(rows)
  {
    if |rows| > 0 {
      TotalOfMarked(rows[1..]);
      assert MarkUnregistered(rows)[1..] == MarkUnregistered(rows[1..]);
    }
  }

  lemma {:induction false} TotalOfUniqueJoin(sales: seq<SalesRow>, advisors: seq<AdvisorRow>)
    requires UniqueIds(advisors)
    ensures Total(LeftJoin(sales, advisors)) == SalesTotal(sales)
  {
    if |sales| > 0 {
      JoinWithUniqueIds(sales, advisors);
      JoinWithUniqueIds(sales[1..], advisors);
      TotalOfUniqueJoin(sales[1..], advisors);
      assert LeftJoin(sales, advisors)[1..] == LeftJoin(sales[1..], advisors);
    }
  }

  /** The sheet of a part of the rows that loses nothing to the grouping
      carries all of that part's sales. */
  lemma SheetKeepsAll(rows: seq<Row>)
    requires forall x :: x in rows ==> Grouped(x)
    ensures SheetTotal(BuildPivot(rows)) == Total(rows)
  {
    if |rows| > 0 {
      PivotPreservesTotal(rows);
    }
  }

  /** A sales row the grouping keeps whole: region, advisor id and payment
      method present, and the name present unless the id is not registered
      (the unregistered rewrite then fills it with the id). */
  predicate Complete(advisors: seq<AdvisorRow>, s: SalesRow) {
    && s.regional != Blank && s.cedula != Blank && s.formaPago != Blank
    && (s.nombre != Blank || !Registered(advisors, s.cedula))
  }

  /** Every row of the three parts, as each sheet sees it, survives the
      grouping when the sales rows are complete. */
  lemma PartsGrouped(sales: seq<SalesRow>, advisors: seq<AdvisorRow>)
    requires forall s :: s in sales ==> Complete(advisors, s)
    ensures var p := Split(LeftJoin(sales, advisors));
            && (forall x :: x in p.corretaje ==> Grouped(x))
            && (forall x :: x in p.asesores ==> Grouped(x))
            && (forall x :: x in MarkUnregistered(p.sinRegistrar) ==> Grouped(x))
  {
    var rows := LeftJoin(sales, advisors);
    var p := Split(rows);
    forall x | x in p.corretaje ensures Grouped(x) {
      NamedWhenRegistered(sales, advisors, x);
    }
    forall x | x in p.asesores ensures Grouped(x) {
      NamedWhenRegistered(sales, advisors, x);
    }
    MarkedGrouped(sales, advisors, p.sinRegistrar);
  }

  /** The unregistered rows of complete sales rows survive the grouping
      once relabelled. */
  lemma MarkedGrouped(sales: seq<SalesRow>, advisors: seq<AdvisorRow>, part: seq<Row>)
    requires forall s :: s in sales ==> Complete(advisors, s)
    requires forall y :: y in part ==> y in LeftJoin(sales, advisors)
    ensures forall x :: x in MarkUnregistered(part) ==> Grouped(x)
  {
    var marked := MarkUnregistered(part);
    forall i | 0 <= i < |marked| ensures Grouped(marked[i]) {
      assert part[i] in part;
      assert Complete(advisors, SalesOf(part[i]));
    }
  }

  /** When no row is dropped by the grouping, the three sheets together
      carry exactly the sales of the rows. */
  lemma SheetsTotal(rows: seq<Row>)
    requires Process(rows).Some?
    requires var p := Split(rows);
             && (forall x :: x in p.corretaje ==> Grouped(x))
             && (forall x :: x in p.asesores ==> Grouped(x))
             && (forall x :: x in MarkUnregistered(p.sinRegistrar) ==> Grouped(x))
    ensures var rep := Process(rows).value;
            SheetTotal(rep.corretaje) + SheetTotal(rep.asesores) + SheetTotal(rep.sinRegistrar)
            == Total(rows)
  {
    var p := Split(rows);
    SheetKeepsAll(p.corretaje);
    SheetKeepsAll(p.asesores);
    SheetKeepsAll(MarkUnregistered(p.sinRegistrar));
    TotalOfMarked(p.sinRegistrar);
    TotalOfSplit(rows);
  }

  /** No peso is lost or counted twice across the three segment sheets:
      when every sales row is complete, the three sheets' totals add up to
      the sales of the consolidated rows; with unique advisor ids, to the
      sales of the source. */
  lemma SheetsKeepEverySale(sales: seq<SalesRow>, advisors: seq<AdvisorRow>)
    requires forall s :: s in sales ==> Complete(advisors, s)
    requires Process(LeftJoin(sales, advisors)).Some?
    ensures var rep := Process(LeftJoin(sales, advisors)).value;
            SheetTotal(rep.corretaje) + SheetTotal(rep.asesores) + SheetTotal(rep.sinRegistrar)
            == Total(LeftJoin(sales, advisors))
    ensures UniqueIds(advisors) ==>
              var rep := Process(LeftJoin(sales, advisors)).value;
              SheetTotal(rep.corretaje) + SheetTotal(rep.asesores) + SheetTotal(rep.sinRegistrar)
              == SalesTotal(sales)
  {
    PartsGrouped(sales, advisors);
    SheetsTotal(LeftJoin(sales, advisors));
    if UniqueIds(advisors) {
      TotalOfUniqueJoin(sales, advisors);
    }
  }

  /** A consolidated row of complete sales rows that has a type has a name. */
  lemma NamedWhenRegistered(sales: seq<SalesRow>, advisors: seq<AdvisorRow>, x: Row)
    requires forall s :: s in sales ==> Complete(advisors, s)
    requires x in LeftJoin(sales, advisors)
    requires x.tipo != Blank
    ensures x.nombre != Blank
  {
    assert SalesOf(x) in sales;
    JoinedTypeRegistered(sales, advisors, x);
  }

  /** A consolidated row with a type came from a registered advisor id. */
  lemma {:induction false} JoinedTypeRegistered(sales: seq<SalesRow>, advisors: seq<AdvisorRow>, x: Row)
    requires x in LeftJoin(sales, advisors)
    requires x.tipo != Blank
    ensures Registered(advisors, x.cedula)
  {
    if |sales| > 0 {
      var head := JoinOne(sales[0], advisors);
      if x in head {
        var m := Matches(advisors, sales[0].cedula);
        assert |m| > 0;
        assert m[0] in m;
      } else {
        JoinedTypeRegistered(sales[1..], advisors, x);
      }
    }
  }

  /** The run itself keeps every peso: when both sources load and every
      sales row is complete, the three segment sheets of the report add up
      to the sales of the consolidated rows, and with unique register ids
      to the sales of the extract. */
  lemma RunKeepsEverySale(cfg: Config, readVentas: Reader, readAsesores: Reader)
    requires Generate(cfg, readVentas, readAsesores).Some?
    requires var v := Load(cfg, ClaveVentas, readVentas).value;
             var a := Load(cfg, ClaveAsesores, readAsesores).value;
             forall s :: s in SalesRows(v).value ==> Complete(AdvisorRows(a).value, s)
    ensures var v := Load(cfg, ClaveVentas, readVentas).value;
            var a := Load(cfg, ClaveAsesores, readAsesores).value;
            var sales := SalesRows(v).value;
            var advisors := AdvisorRows(a).value;
            var rep := Generate(cfg, readVentas, readAsesores).value;
            && SheetTotal(rep.corretaje) + SheetTotal(rep.asesores) + SheetTotal(rep.sinRegistrar)
               == Total(LeftJoin(sales, advisors))
            && (UniqueIds(advisors) ==>
                  SheetTotal(rep.corretaje) + SheetTotal(rep.asesores) + SheetTotal(rep.sinRegistrar)
                  == SalesTotal(sales))
  {
    var v := Load(cfg, ClaveVentas, readVentas).value;
    var a := Load(cfg, ClaveAsesores, readAsesores).value;
    SheetsKeepEverySale(SalesRows(v).value, AdvisorRows(a).value);
  }
}
