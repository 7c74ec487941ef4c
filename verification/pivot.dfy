/** The pivot built for each segment: one row per (region, advisor id,
    advisor name, advisor type), one column per payment method holding the
    summed pre-tax sales, the row total and the sales range of that total. */
module Pivot {
  import opened Tables
  import opened Records
  import opened Rangos
  import Seqs

  /** The grouping key of a pivot row. */
  datatype Key = Key(regional: Cell, cedula: Cell, nombre: Cell, tipo: Cell)

  function KeyOf(r: Row): Key {
    Key(r.regional, r.cedula, r.nombre, r.tipo)
  }

  function MethodOf(r: Row): Cell {
    r.formaPago
  }

  /** A row takes part in the grouping only when none of its four key
      values and its payment method is missing; the others are dropped. */
  predicate Grouped(r: Row) {
    && r.regional != Blank && r.cedula != Blank && r.nombre != Blank
    && r.tipo != Blank && r.formaPago != Blank
  }

  /** For each value in `ks`, the summed amount of the rows with that value. */
  function Subtotals<K(==)>(rows: seq<Row>, f: Row -> K, ks: seq<K>): (r: seq<int>)
    ensures |r| == |ks|
    ensures forall j :: 0 <= j < |ks| ==> r[j] == Total(Where(rows, f, ks[j]))
  {
    if |ks| == 0 then []
    else [Total(Where(rows, f, ks[0]))] + Subtotals(rows, f, ks[1..])
  }

  lemma {:induction false} SubtotalsStep<K>(rows: seq<Row>, f: Row -> K, ks: seq<K>)
    requires |rows| > 0
    requires Seqs.Distinct(ks)
    ensures Seqs.Sum(Subtotals(rows, f, ks))
            == Seqs.Sum(Subtotals(rows[1..], f, ks)) + (if f(rows[0]) in ks then rows[0].ventas else 0)
  {
    if |ks| > 0 {
      SubtotalsStep(rows, f, ks[1..]);
      WhereTotalStep(rows, f, ks[0]);
      assert Subtotals(rows, f, ks)[1..] == Subtotals(rows, f, ks[1..]);
      assert Subtotals(rows[1..], f, ks)[1..] == Subtotals(rows[1..], f, ks[1..]);
      assert f(rows[0]) in ks <==> f(rows[0]) == ks[0] || f(rows[0]) in ks[1..];
      assert f(rows[0]) == ks[0] ==> f(rows[0]) !in ks[1..];
    }
  }

  lemma {:induction false} SubtotalsOfNothing<K>(f: Row -> K, ks: seq<K>)
    ensures Seqs.Sum(Subtotals([], f, ks)) == 0
  {
    if |ks| > 0 {
      SubtotalsOfNothing(f, ks[1..]);
      assert Subtotals([], f, ks)[1..] == Subtotals([], f, ks[1..]);
    }
  }

  /** Splitting rows by a value that every row has in `ks` and summing the
      parts gives back the sum of all rows: no amount is lost or counted
      twice. */
  lemma {:induction false} SplitTotal<K>(rows: seq<Row>, f: Row -> K, ks: seq<K>)
    requires Seqs.Distinct(ks)
    requires forall x :: x in rows ==> f(x) in ks
    ensures Seqs.Sum(Subtotals(rows, f, ks)) == Total(rows)
  {
    if |rows| == 0 {
      SubtotalsOfNothing(f, ks);
    } else {
      SplitTotal(rows[1..], f, ks);
      SubtotalsStep(rows, f, ks);
    }
  }

  /** One line of a pivot. */
  datatype PivotRow = PivotRow(key: Key, amounts: seq<int>, total: int, rango: Rango)

  /** A pivot: `NoColumns` is the table with no columns at all that an
      empty segment yields; otherwise the payment-method columns and rows. */
  datatype PivotTable = NoColumns | Table(methods: seq<Cell>, rows: seq<PivotRow>)

  /** The payment methods of the grouped rows, each once. */
  function Methods(kept: seq<Row>): (ms: seq<Cell>)
    ensures Seqs.Distinct(ms)
    ensures forall m :: m in ms <==> exists x :: x in kept && MethodOf(x) == m
  {
    var all := seq(|kept|, i requires 0 <= i < |kept| => MethodOf(kept[i]));
    assert forall x :: x in kept ==> MethodOf(x) in all by {
      forall x | x in kept ensures MethodOf(x) in all {
        var i :| 0 <= i < |kept| && kept[i] == x;
        assert all[i] == MethodOf(x);
      }
    }
    Seqs.Dedup(all)
  }

  /** The grouping keys of the grouped rows, each once. */
  function Keys(kept: seq<Row>): (ks: seq<Key>)
    ensures Seqs.Distinct(ks)
    ensures forall k :: k in ks <==> exists x :: x in kept && KeyOf(x) == k
  {
    var all := seq(|kept|, i requires 0 <= i < |kept| => KeyOf(kept[i]));
    assert forall x :: x in kept ==> KeyOf(x) in all by {
      forall x | x in kept ensures KeyOf(x) in all {
        var i :| 0 <= i < |kept| && kept[i] == x;
        assert all[i] == KeyOf(x);
      }
    }
    Seqs.Dedup(all)
  }

  /** What a pivot line of the grouped rows `kept` holds: one cell per
      payment method with the sales of its key and that method (0 when
      there are none), a total that is both the sum of its cells and the
      sales of its key, and the range of that total. */
  predicate LineOf(kept: seq<Row>, methods: seq<Cell>, pr: PivotRow) {
    && |pr.amounts| == |methods|
    && (forall j :: 0 <= j < |methods| ==>
          pr.amounts[j] == Total(Where(Where(kept, KeyOf, pr.key), MethodOf, methods[j])))
    && pr.total == Seqs.Sum(pr.amounts)
    && pr.total == Total(Where(kept, KeyOf, pr.key))
    && pr.rango == Bucket(pr.total)
  }

  /** The pivot line of key `k`. */
  function MakeRow(kept: seq<Row>, methods: seq<Cell>, k: Key): (pr: PivotRow)
    requires methods == Methods(kept)
    ensures pr.key == k
    ensures LineOf(kept, methods, pr)
  {
    var group := Where(kept, KeyOf, k);
    var amounts := Subtotals(group, MethodOf, methods);
    SplitTotal(group, MethodOf, methods);
    var total := Seqs.Sum(amounts);
    PivotRow(k, amounts, total, Bucket(total))
  }

  /** The pivot lines of the keys `keys`, in that order. */
  function Lines(kept: seq<Row>, methods: seq<Cell>, keys: seq<Key>): (prs: seq<PivotRow>)
    requires methods == Methods(kept)
    ensures |prs| == |keys|
    ensures forall i :: 0 <= i < |prs| ==> prs[i].key == keys[i] && LineOf(kept, methods, prs[i])
  {
    if |keys| == 0 then []
    else [MakeRow(kept, methods, keys[0])] + Lines(kept, methods, keys[1..])
  }

  /** The pivot of one segment: the column-less table for an empty
      segment; otherwise exactly one line per distinct key of the rows not
      dropped by the grouping. */
  function BuildPivot(rows: seq<Row>): (t: PivotTable)
    ensures |rows| == 0 <==> t.NoColumns?
    ensures t.Table? ==>
              var kept := Filter(rows, Grouped);
              && t.methods == Methods(kept)
              && (forall i, j :: 0 <= i < j < |t.rows| ==> t.rows[i].key != t.rows[j].key)
              && (forall i :: 0 <= i < |t.rows| ==> exists x :: x in kept && KeyOf(x) == t.rows[i].key)
              && (forall x :: x in kept ==> exists i :: 0 <= i < |t.rows| && t.rows[i].key == KeyOf(x))
              && (forall i :: 0 <= i < |t.rows| ==> LineOf(kept, t.methods, t.rows[i]))
  {
    if |rows| == 0 then NoColumns
    else
      var kept := Filter(rows, Grouped);
      var keys := Keys(kept);
      var prs := Lines(kept, Methods(kept), keys);
      KeysCovered(kept, keys, prs);
      Table(Methods(kept), prs)
  }

  /** Lines built over the distinct keys of the grouped rows name each key
      of those rows exactly once. */
  lemma KeysCovered(kept: seq<Row>, keys: seq<Key>, prs: seq<PivotRow>)
    requires keys == Keys(kept)
    requires |prs| == |keys| && forall i :: 0 <= i < |prs| ==> prs[i].key == keys[i]
    ensures forall i, j :: 0 <= i < j < |prs| ==> prs[i].key != prs[j].key
    ensures forall i :: 0 <= i < |prs| ==> exists x :: x in kept && KeyOf(x) == prs[i].key
    ensures forall x :: x in kept ==> exists i :: 0 <= i < |prs| && prs[i].key == KeyOf(x)
  {
    forall i | 0 <= i < |prs|
      ensures exists x :: x in kept && KeyOf(x) == prs[i].key
    {
      assert keys[i] in keys;
    }
    forall x | x in kept
      ensures exists i :: 0 <= i < |prs| && prs[i].key == KeyOf(x)
    {
      assert KeyOf(x) in keys;
      var i :| 0 <= i < |keys| && keys[i] == KeyOf(x);
      assert prs[i].key == KeyOf(x);
    }
  }

  /** The totals column of a pivot. */
  function Totals(prs: seq<PivotRow>): (r: seq<int>)
    ensures |r| == |prs| && forall i :: 0 <= i < |prs| ==> r[i] == prs[i].total
  {
    seq(|prs|, i requires 0 <= i < |prs| => prs[i].total)
  }

  /** The pivot keeps every peso of the grouped rows: its totals column
      sums to the sales of the rows that were not dropped for a missing
      grouping value, and so to all the sales when none is missing. */
  lemma PivotPreservesTotal(rows: seq<Row>)
    requires BuildPivot(rows).Table?
    ensures Seqs.Sum(Totals(BuildPivot(rows).rows)) == Total(Filter(rows, Grouped))
    ensures (forall x :: x in rows ==> Grouped(x)) ==>
              Seqs.Sum(Totals(BuildPivot(rows).rows)) == Total(rows)
  {
    var kept := Filter(rows, Grouped);
    var keys := Keys(kept);
    var t := BuildPivot(rows);
    assert Totals(t.rows) == Subtotals(kept, KeyOf, keys);
    SplitTotal(kept, KeyOf, keys);
    if forall x :: x in rows ==> Grouped(x) {
      FilterKeepsAll(rows, Grouped);
    }
  }

  /** A mask that holds of every row keeps all of them. */
  lemma {:induction false} FilterKeepsAll(rows: seq<Row>, keep: Row -> bool)
    requires forall x :: x in rows ==> keep(x)
    ensures Filter(rows, keep) == rows
  {
    if |rows| > 0 {
      FilterKeepsAll(rows[1..], keep);
      assert rows == [rows[0]] + rows[1..];
    }
  }

  /** The line of a key with a single row, under a single payment method:
      that row's amount is the one cell and the total. */
  lemma SingleLine(kept: seq<Row>, m: Cell, k: Key, x: Row)
    requires [m] == Methods(kept)
    requires Where(kept, KeyOf, k) == [x]
    requires MethodOf(x) == m
    ensures MakeRow(kept, [m], k) == PivotRow(k, [x.ventas], x.ventas, Bucket(x.ventas))
  {
    var pr := MakeRow(kept, [m], k);
    assert LineOf(kept, [m], pr);
    assert [x][1..] == [];
    assert Where([x], MethodOf, m) == [x] + Where([], MethodOf, m);
    TotalOfOne(x);
    assert pr.amounts[0] == x.ventas;
  }
}
