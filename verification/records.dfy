/** The typed records of the pipeline and the left join that consolidates
    sales rows with the advisor register. */
module Records {
  import opened Optional
  import opened Tables
  import opened FinancieraModel
  import Seqs

  /** One sales transaction, after loading and renaming. */
  datatype SalesRow = SalesRow(regional: Cell, cedula: Cell, nombre: Cell, formaPago: Cell, ventas: int)

  /** One entry of the advisor register. */
  datatype AdvisorRow = AdvisorRow(cedula: Cell, tipo: Cell)

  /** A consolidated row: a sales row together with the type of the advisor
      it matched; the type is `Blank` when there was no match. */
  datatype Row = Row(regional: Cell, cedula: Cell, nombre: Cell, formaPago: Cell, ventas: int, tipo: Cell)

  /** The sales part of a consolidated row. */
  function SalesOf(r: Row): SalesRow {
    SalesRow(r.regional, r.cedula, r.nombre, r.formaPago, r.ventas)
  }

  /** A sales row extended with an advisor type. */
  function Extend(s: SalesRow, tipo: Cell): (r: Row)
    ensures SalesOf(r) == s && r.tipo == tipo
  {
    Row(s.regional, s.cedula, s.nombre, s.formaPago, s.ventas, tipo)
  }

  /** A sales amount in pesos: a number, or nothing (an empty cell, which
      adds nothing to a sum). Text is not an amount. */
  function AmountOf(c: Cell): Option<int> {
    match c
    case Num(n) => Some(n)
    case Blank => Some(0)
    case Text(_) => None
  }

  /** A whole column of amounts; `None` as soon as one cell holds text. */
  function AmountsOf(cs: seq<Cell>): (r: Option<seq<int>>)
    ensures r.Some? <==> forall i :: 0 <= i < |cs| ==> AmountOf(cs[i]).Some?
    ensures r.Some? ==> |r.value| == |cs|
                        && forall i :: 0 <= i < |cs| ==> r.value[i] == AmountOf(cs[i]).value
  {
    if |cs| == 0 then Some([])
    else match (AmountOf(cs[0]), AmountsOf(cs[1..]))
      case (Some(a), Some(rest)) =>
        assert forall i :: 1 <= i < |cs| ==> cs[i] == cs[1..][i - 1];
        Some([a] + rest)
      case (None, _) => None
      case (_, None) =>
        assert forall i :: 1 <= i < |cs| ==> cs[i] == cs[1..][i - 1];
        None
  }

  /** The sales rows of a loaded sales frame: `None` when one of the five
      renamed columns is missing or an amount is text. */
  function SalesRows(f: Frame): (r: Option<seq<SalesRow>>)
    ensures r.Some? <==>
              && Regional in f.columns && CedulaAsesor in f.columns && NombreAsesor in f.columns
              && FormaPago in f.columns && VentasAntesIva in f.columns
              && AmountsOf(Column(f, VentasAntesIva).value).Some?
    ensures r.Some? ==>
              && |r.value| == |f.rows|
              && forall i :: 0 <= i < |f.rows| ==>
                   && r.value[i].regional == Column(f, Regional).value[i]
                   && r.value[i].cedula == Column(f, CedulaAsesor).value[i]
                   && r.value[i].nombre == Column(f, NombreAsesor).value[i]
                   && r.value[i].formaPago == Column(f, FormaPago).value[i]
                   && Some(r.value[i].ventas) == AmountOf(Column(f, VentasAntesIva).value[i])
  {
    match (Column(f, Regional), Column(f, CedulaAsesor), Column(f, NombreAsesor),
           Column(f, FormaPago), Column(f, VentasAntesIva))
    case (Some(reg), Some(ced), Some(nom), Some(fp), Some(vt)) =>
      (match AmountsOf(vt)
       case None => None
       case Some(vs) =>
         Some(seq(|f.rows|, i requires 0 <= i < |f.rows| =>
                SalesRow(reg[i], ced[i], nom[i], fp[i], vs[i]))))
    case _ => None
  }

  /** The advisor register rows of a loaded advisor frame: `None` when the
      key or the type column is missing. */
  function AdvisorRows(f: Frame): (r: Option<seq<AdvisorRow>>)
    ensures r.Some? <==> CedulaAsesor in f.columns && TipoAsesor in f.columns
    ensures r.Some? ==>
              && |r.value| == |f.rows|
              && forall i :: 0 <= i < |f.rows| ==>
                   && r.value[i].cedula == Column(f, CedulaAsesor).value[i]
                   && r.value[i].tipo == Column(f, TipoAsesor).value[i]
  {
    match (Column(f, CedulaAsesor), Column(f, TipoAsesor))
    case (Some(ced), Some(tip)) =>
      Some(seq(|f.rows|, i requires 0 <= i < |f.rows| => AdvisorRow(ced[i], tip[i])))
    case _ => None
  }

  /** The register entries for advisor id `id`, in register order. Two empty
      ids match each other, as missing keys do in the join. */
  function Matches(advisors: seq<AdvisorRow>, id: Cell): (r: seq<AdvisorRow>)
    ensures forall a :: a in r <==> a in advisors && a.cedula == id
    ensures |r| <= |advisors|
  {
    if |advisors| == 0 then []
    else (if advisors[0].cedula == id then [advisors[0]] else []) + Matches(advisors[1..], id)
  }

  /** The consolidated rows of one sales row: one per matching register
      entry, or a single row with no type when nothing matches. */
  function JoinOne(s: SalesRow, advisors: seq<AdvisorRow>): (r: seq<Row>)
    ensures |r| >= 1
    ensures forall x :: x in r ==> SalesOf(x) == s
    ensures |Matches(advisors, s.cedula)| == 0 ==> r == [Extend(s, Blank)]
    ensures |Matches(advisors, s.cedula)| > 0 ==>
              |r| == |Matches(advisors, s.cedula)|
              && forall j :: 0 <= j < |r| ==> r[j].tipo == Matches(advisors, s.cedula)[j].tipo
  {
    var m := Matches(advisors, s.cedula);
    if |m| == 0 then [Extend(s, Blank)]
    else seq(|m|, j requires 0 <= j < |m| => Extend(s, m[j].tipo))
  }

  /** The number of joined rows one sale yields: one per matching register
      entry, and one when nothing matches. */
  function Fanout(s: SalesRow, advisors: seq<AdvisorRow>): nat {
    var m := |Matches(advisors, s.cedula)|;
    if m == 0 then 1 else m
  }

  /** The left join of the sales rows onto the advisor register on the
      advisor id, keeping sales order. */
  function LeftJoin(sales: seq<SalesRow>, advisors: seq<AdvisorRow>): (r: seq<Row>)
    ensures |r| >= |sales|
    ensures forall x :: x in r ==> SalesOf(x) in sales
    ensures forall s :: s in sales ==> exists x :: x in r && SalesOf(x) == s
  {
    if |sales| == 0 then []
    else
      var head := JoinOne(sales[0], advisors);
      var rest := LeftJoin(sales[1..], advisors);
      assert head[0] in head;
      assert forall s :: s in sales ==> s == sales[0] || s in sales[1..];
      head + rest
  }

  /** The joined rows by content: each carries the type of one of the
      advisor entries with its id, or no type when there is none; every
      sale yields a row for each of its matches, and a row without type
      when it has none. */
  lemma {:induction false} JoinContents(sales: seq<SalesRow>, advisors: seq<AdvisorRow>)
    ensures forall x :: x in LeftJoin(sales, advisors) ==>
              || (|Matches(advisors, x.cedula)| == 0 && x.tipo == Blank)
              || exists a :: a in Matches(advisors, x.cedula) && a.tipo == x.tipo
    ensures forall s, a :: s in sales && a in Matches(advisors, s.cedula) ==>
              Extend(s, a.tipo) in LeftJoin(sales, advisors)
    ensures forall s :: s in sales && |Matches(advisors, s.cedula)| == 0 ==>
              Extend(s, Blank) in LeftJoin(sales, advisors)
  {
    if |sales| > 0 {
      JoinContents(sales[1..], advisors);
      JoinOneRows(sales[0], advisors);
      JoinUnfold(sales, advisors);
      assert forall s :: s in sales ==> s == sales[0] || s in sales[1..];
    }
  }

  /** The rows one sale yields, by content: each carries the type of one of
      its matches, or no type when there is none, and every match yields a
      row. */
  lemma JoinOneRows(s: SalesRow, advisors: seq<AdvisorRow>)
    ensures forall x :: x in JoinOne(s, advisors) ==>
              || (|Matches(advisors, x.cedula)| == 0 && x.tipo == Blank)
              || exists a :: a in Matches(advisors, x.cedula) && a.tipo == x.tipo
    ensures forall a :: a in Matches(advisors, s.cedula) ==> Extend(s, a.tipo) in JoinOne(s, advisors)
    ensures |Matches(advisors, s.cedula)| == 0 ==> Extend(s, Blank) in JoinOne(s, advisors)
  {
    var m := Matches(advisors, s.cedula);
    var r := JoinOne(s, advisors);
    if |m| > 0 {
      forall x | x in r
        ensures exists a :: a in Matches(advisors, x.cedula) && a.tipo == x.tipo
      {
        var j :| 0 <= j < |r| && r[j] == x;
        assert m[j] in m;
      }
      forall a | a in m ensures Extend(s, a.tipo) in r {
        var j :| 0 <= j < |m| && m[j] == a;
        assert r[j] == Extend(s, a.tipo);
      }
    }
  }

  /** The sales parts of some consolidated rows, in order. */
  function SalesPart(rows: seq<Row>): (r: seq<SalesRow>)
    ensures |r| == |rows| && forall i :: 0 <= i < |rows| ==> r[i] == SalesOf(rows[i])
  {
    seq(|rows|, i requires 0 <= i < |rows| => SalesOf(rows[i]))
  }

  /** Every row one sale yields carries that sale: `Fanout` copies of it. */
  lemma JoinOneCount(s: SalesRow, advisors: seq<AdvisorRow>)
    ensures forall t :: multiset(SalesPart(JoinOne(s, advisors)))[t]
                        == if t == s then Fanout(s, advisors) else 0
  {
    var part := SalesPart(JoinOne(s, advisors));
    assert forall i :: 0 <= i < |part| ==> part[i] == s;
    AllCopies(part, s);
  }

  /** A sequence whose every element is `v` holds `v` as often as it is long. */
  lemma {:induction false} AllCopies<T>(xs: seq<T>, v: T)
    requires forall i :: 0 <= i < |xs| ==> xs[i] == v
    ensures forall t :: multiset(xs)[t] == if t == v then |xs| else 0
  {
    if |xs| > 0 {
      AllCopies(xs[1..], v);
      assert xs == [xs[0]] + xs[1..];
    }
  }

  /** The join yields exactly `Fanout` rows per sale: each sale occurs among
      the joined rows once per matching register entry, or once when
      nothing matches, times the number of times it occurs in the sales. */
  lemma {:induction false} JoinCounts(sales: seq<SalesRow>, advisors: seq<AdvisorRow>, s: SalesRow)
    ensures multiset(SalesPart(LeftJoin(sales, advisors)))[s]
            == multiset(sales)[s] * Fanout(s, advisors)
  {
    if |sales| > 0 {
      var f := Fanout(s, advisors);
      var c := multiset(sales[1..])[s];
      JoinCounts(sales[1..], advisors, s);
      JoinOneCount(sales[0], advisors);
      JoinStep(sales, advisors);
      var h := multiset(SalesPart(JoinOne(sales[0], advisors)))[s];
      var r := multiset(SalesPart(LeftJoin(sales[1..], advisors)))[s];
      assert multiset(SalesPart(LeftJoin(sales, advisors)))[s] == h + r;
      assert r == c * f;
      if s == sales[0] {
        assert h == f && multiset(sales)[s] == c + 1;
        CountStep(c, f);
      } else {
        assert h == 0 && multiset(sales)[s] == c;
      }
    }
  }

  /** The sales parts of the join split into the first sale's rows and the
      rest, and so do the sales. */
  lemma JoinStep(sales: seq<SalesRow>, advisors: seq<AdvisorRow>)
    requires |sales| > 0
    ensures multiset(SalesPart(LeftJoin(sales, advisors)))
            == multiset(SalesPart(JoinOne(sales[0], advisors)))
               + multiset(SalesPart(LeftJoin(sales[1..], advisors)))
    ensures multiset(sales) == multiset{sales[0]} + multiset(sales[1..])
  {
    var head := SalesPart(JoinOne(sales[0], advisors));
    var rest := SalesPart(LeftJoin(sales[1..], advisors));
    JoinUnfold(sales, advisors);
    SalesPartAppend(JoinOne(sales[0], advisors), LeftJoin(sales[1..], advisors));
    assert SalesPart(LeftJoin(sales, advisors)) == head + rest;
    assert multiset(head + rest) == multiset(head) + multiset(rest);
    Seqs.MultisetCons(sales);
  }

  /** The join of a non-empty sheet: the first sale's rows, then the rest. */
  lemma JoinUnfold(sales: seq<SalesRow>, advisors: seq<AdvisorRow>)
    requires |sales| > 0
    ensures LeftJoin(sales, advisors) == JoinOne(sales[0], advisors) + LeftJoin(sales[1..], advisors)
  {
  }

  lemma SalesPartAppend(xs: seq<Row>, ys: seq<Row>)
    ensures SalesPart(xs + ys) == SalesPart(xs) + SalesPart(ys)
  {
  }

  lemma CountStep(c: nat, f: nat)
    ensures (c + 1) * f == c * f + f
  {
  }

  /** The advisor id has an entry in the register. */
  predicate Registered(advisors: seq<AdvisorRow>, id: Cell) {
    exists a :: a in advisors && a.cedula == id
  }

  /** No advisor id occurs twice in the register. */
  predicate UniqueIds(advisors: seq<AdvisorRow>) {
    forall i, j :: 0 <= i < j < |advisors| ==> advisors[i].cedula != advisors[j].cedula
  }

  /** The type the register records for `id`: that of its first entry, or
      `Blank` when the id is not registered. */
  function TypeOf(advisors: seq<AdvisorRow>, id: Cell): (r: Cell)
    ensures (forall a :: a in advisors ==> a.cedula != id) ==> r == Blank
    ensures (exists a :: a in advisors && a.cedula == id) ==>
              exists a :: a in advisors && a.cedula == id && r == a.tipo
  {
    if |advisors| == 0 then Blank
    else if advisors[0].cedula == id then advisors[0].tipo
    else TypeOf(advisors[1..], id)
  }

  lemma {:induction false} UniqueMatches(advisors: seq<AdvisorRow>, id: Cell)
    requires UniqueIds(advisors)
    ensures |Matches(advisors, id)| <= 1
    ensures |Matches(advisors, id)| == 1 ==> Matches(advisors, id)[0].tipo == TypeOf(advisors, id)
  {
    if |advisors| > 0 {
      UniqueMatches(advisors[1..], id);
      if advisors[0].cedula == id {
        assert forall a :: a in advisors[1..] ==> a.cedula != id;
        assert |Matches(advisors[1..], id)| == 0;
      }
    }
  }

  /** With unique advisor ids the join keeps one row per sales row, in
      order, carrying the registered type of its advisor or none. */
  lemma {:induction false} JoinWithUniqueIds(sales: seq<SalesRow>, advisors: seq<AdvisorRow>)
    requires UniqueIds(advisors)
    ensures |LeftJoin(sales, advisors)| == |sales|
    ensures forall i :: 0 <= i < |sales| ==>
              LeftJoin(sales, advisors)[i] == Extend(sales[i], TypeOf(advisors, sales[i].cedula))
  {
    if |sales| > 0 {
      var rest := LeftJoin(sales[1..], advisors);
      JoinWithUniqueIds(sales[1..], advisors);
      JoinOneUnique(sales[0], advisors);
      JoinUnfold(sales, advisors);
      var r := LeftJoin(sales, advisors);
      var e := Extend(sales[0], TypeOf(advisors, sales[0].cedula));
      assert r == [e] + rest;
      forall i | 1 <= i < |sales|
        ensures r[i] == Extend(sales[i], TypeOf(advisors, sales[i].cedula))
      {
        ConsAt(e, rest, i);
        assert sales[1..][i - 1] == sales[i];
      }
    }
  }

  lemma ConsAt(e: Row, rest: seq<Row>, i: int)
    requires 1 <= i <= |rest|
    ensures ([e] + rest)[i] == rest[i - 1]
  {
  }

  /** With unique advisor ids one sale yields exactly one row. */
  lemma JoinOneUnique(s: SalesRow, advisors: seq<AdvisorRow>)
    requires UniqueIds(advisors)
    ensures JoinOne(s, advisors) == [Extend(s, TypeOf(advisors, s.cedula))]
  {
    UniqueMatches(advisors, s.cedula);
    var head := JoinOne(s, advisors);
    assert |head| == 1;
    if |Matches(advisors, s.cedula)| == 0 {
      assert forall a :: a in advisors ==> a.cedula != s.cedula;
    } else {
      assert head[0] == Extend(s, TypeOf(advisors, s.cedula));
    }
  }

  /** The rows whose value under `f` is `k`, in their original order, as
      often as they occur. */
  function Where<K(==)>(rows: seq<Row>, f: Row -> K, k: K): (r: seq<Row>)
    ensures forall x :: x in r <==> x in rows && f(x) == k
    ensures |r| <= |rows|
  {
    if |rows| == 0 then []
    else (if f(rows[0]) == k then [rows[0]] else []) + Where(rows[1..], f, k)
  }

  /** Selection by value keeps each selected row exactly as often as it
      occurs, and no other row. */
  lemma {:induction false} WhereCounts<K>(rows: seq<Row>, f: Row -> K, k: K)
    ensures forall x :: multiset(Where(rows, f, k))[x] == if f(x) == k then multiset(rows)[x] else 0
  {
    if |rows| > 0 {
      WhereCounts(rows[1..], f, k);
      assert rows == [rows[0]] + rows[1..];
    }
  }

  /** The rows a mask keeps, in their original order. */
  function Filter(rows: seq<Row>, keep: Row -> bool): (r: seq<Row>)
    ensures forall x :: x in r ==> x in rows && keep(x)
    ensures forall x :: multiset(r)[x] == if keep(x) then multiset(rows)[x] else 0
    ensures |r| <= |rows|
  {
    WhereCounts(rows, keep, true);
    Where(rows, keep, true)
  }

  /** The sales amount of a consolidated row. */
  function Ventas(r: Row): int {
    r.ventas
  }

  /** The amount of a sales row. */
  function SaleVentas(s: SalesRow): int {
    s.ventas
  }

  /** Sum of the sales amounts of some consolidated rows. */
  function Total(rows: seq<Row>): int {
    Seqs.SumOf(rows, Ventas)
  }

  /** The total of one row is its amount. */
  lemma TotalOfOne(x: Row)
    ensures Total([x]) == x.ventas
  {
    assert [x][1..] == [];
    assert Seqs.SumOf([], Ventas) == 0;
  }

  /** Selecting by a value and summing: the first row counts exactly when
      its value is the one selected. */
  lemma {:induction false} WhereTotalStep<K>(rows: seq<Row>, f: Row -> K, k: K)
    requires |rows| > 0
    ensures Total(Where(rows, f, k))
            == (if f(rows[0]) == k then rows[0].ventas else 0) + Total(Where(rows[1..], f, k))
  {
    var rest := Where(rows[1..], f, k);
    if f(rows[0]) == k {
      assert ([rows[0]] + rest)[1..] == rest;
    } else {
      assert [] + rest == rest;
    }
  }
}
