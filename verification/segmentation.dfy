/** Splitting the consolidated rows by advisor type into the brokerage rows,
    the rows of other registered types and the unregistered rows, and the
    rewrite that labels the unregistered ones. */
module Segmentation {
  import opened Tables
  import opened Records

  /** The brokerage type and the label given to unregistered rows. */
  const CorretajeTipo: Cell := Text("CORRETAJE")
  const SinRegistrarTipo: Cell := Text("SIN REGISTRAR")

  // The three row masks, each stated on its own as the report selects it.

  /** The type is the brokerage type. */
  predicate IsCorretaje(r: Row) {
    r.tipo == CorretajeTipo
  }

  /** The type is present and is not the brokerage type. */
  predicate IsAsesor(r: Row) {
    r.tipo != CorretajeTipo && r.tipo != Blank
  }

  /** The type is missing: the advisor id matched no register entry (or
      matched one whose type cell is empty). */
  predicate IsSinRegistrar(r: Row) {
    r.tipo == Blank
  }

  /** The segments as one tagged value. */
  datatype Segment = Corretaje | Asesores | SinRegistrar

  function Classify(r: Row): Segment {
    if r.tipo == CorretajeTipo then Corretaje
    else if r.tipo == Blank then SinRegistrar
    else Asesores
  }

  /** Each mask selects exactly the rows of one segment; since a row has one
      segment, exactly one mask holds of every row. */
  lemma MasksAreSegments(r: Row)
    ensures IsCorretaje(r) <==> Classify(r) == Corretaje
    ensures IsAsesor(r) <==> Classify(r) == Asesores
    ensures IsSinRegistrar(r) <==> Classify(r) == SinRegistrar
    ensures (IsCorretaje(r) && !IsAsesor(r) && !IsSinRegistrar(r))
            || (!IsCorretaje(r) && IsAsesor(r) && !IsSinRegistrar(r))
            || (!IsCorretaje(r) && !IsAsesor(r) && IsSinRegistrar(r))
  {
  }

  /** The three row sets of the report. */
  datatype Partition = Partition(corretaje: seq<Row>, asesores: seq<Row>, sinRegistrar: seq<Row>)

  /** Split the consolidated rows with the three masks. */
  function Split(rows: seq<Row>): (p: Partition)
    ensures forall x :: x in p.corretaje ==> x.tipo == CorretajeTipo
    ensures forall x :: x in p.asesores ==> x.tipo != CorretajeTipo && x.tipo != Blank
    ensures forall x :: x in p.sinRegistrar ==> x.tipo == Blank
  {
    Partition(Filter(rows, IsCorretaje), Filter(rows, IsAsesor), Filter(rows, IsSinRegistrar))
  }

  /** The three parts share no row and together hold every consolidated
      row exactly as often as the join produced it. */
  lemma SplitIsPartition(rows: seq<Row>)
    ensures var p := Split(rows);
            && multiset(p.corretaje) !! multiset(p.asesores)
            && multiset(p.corretaje) !! multiset(p.sinRegistrar)
            && multiset(p.asesores) !! multiset(p.sinRegistrar)
            && multiset(p.corretaje) + multiset(p.asesores) + multiset(p.sinRegistrar) == multiset(rows)
            && |p.corretaje| + |p.asesores| + |p.sinRegistrar| == |rows|
  {
    var p := Split(rows);
    var c, a, s := multiset(p.corretaje), multiset(p.asesores), multiset(p.sinRegistrar);
    forall x
      ensures c[x] + a[x] + s[x] == multiset(rows)[x]
      ensures c[x] == 0 || a[x] == 0
      ensures c[x] == 0 || s[x] == 0
      ensures a[x] == 0 || s[x] == 0
    {
      PartCounts(rows, x);
      MasksAreSegments(x);
    }
    ThreeWaySplit(multiset(rows), c, a, s);
  }

  /** Three multisets that share no element and add up, element by element,
      to a fourth are a partition of it. */
  lemma ThreeWaySplit<T>(m: multiset<T>, c: multiset<T>, a: multiset<T>, s: multiset<T>)
    requires forall x :: c[x] + a[x] + s[x] == m[x]
    requires forall x :: c[x] == 0 || a[x] == 0
    requires forall x :: c[x] == 0 || s[x] == 0
    requires forall x :: a[x] == 0 || s[x] == 0
    ensures c !! a && c !! s && a !! s
    ensures c + a + s == m
    ensures |c| + |a| + |s| == |m|
  {
    assert c + a + s == m;
  }

  /** The other-types part is empty exactly when no row has such a type. */
  lemma AsesoresEmpty(rows: seq<Row>)
    ensures |Split(rows).asesores| == 0 <==> forall x :: x in rows ==> !IsAsesor(x)
  {
    var a := Split(rows).asesores;
    if |a| > 0 {
      assert a[0] in multiset(a);
    } else {
      forall x | x in rows ensures !IsAsesor(x) {
        assert multiset(a)[x] == 0;
      }
    }
  }

  /** How often one row occurs in each part: as often as in the join for
      the one part its type selects, never in the other two. */
  lemma PartCounts(rows: seq<Row>, x: Row)
    ensures var p := Split(rows);
            && multiset(p.corretaje)[x] == (if IsCorretaje(x) then multiset(rows)[x] else 0)
            && multiset(p.asesores)[x] == (if IsAsesor(x) then multiset(rows)[x] else 0)
            && multiset(p.sinRegistrar)[x] == (if IsSinRegistrar(x) then multiset(rows)[x] else 0)
  {
  }

  /** The unregistered rows as the report shows them: their type becomes
      the unregistered label and a missing name is filled with the advisor
      id. */
  function MarkUnregistered(rows: seq<Row>): (r: seq<Row>)
    ensures |r| == |rows|
    ensures forall i :: 0 <= i < |r| ==> r[i].tipo == SinRegistrarTipo
    ensures forall i :: 0 <= i < |r| && rows[i].nombre != Blank ==> r[i].nombre == rows[i].nombre
    ensures forall i :: 0 <= i < |r| && rows[i].nombre == Blank ==> r[i].nombre == rows[i].cedula
    ensures forall i :: 0 <= i < |r| ==>
              && r[i].regional == rows[i].regional && r[i].cedula == rows[i].cedula
              && r[i].formaPago == rows[i].formaPago && r[i].ventas == rows[i].ventas
  {
    seq(|rows|, i requires 0 <= i < |rows| =>
      rows[i].(tipo := SinRegistrarTipo,
               nombre := if rows[i].nombre == Blank then rows[i].cedula else rows[i].nombre))
  }
}
