/** The sales range an advisor's total falls into: eight labelled bins,
    closed on the right, covering every amount. */
module Rangos {

  datatype Rango = SinVentas | Hasta5 | De6a15 | De16a20 | De21a40 | De41a60 | De61a80 | Mas80

  /** The ranges in label order, which is also the order of the columns of
      the regional summary. */
  const AllRangos: seq<Rango> := [SinVentas, Hasta5, De6a15, De16a20, De21a40, De41a60, De61a80, Mas80]

  /** The finite bin edges, in pesos. Bin `k` holds the amounts above edge
      `k - 1` (or all amounts, for the first bin) up to and including edge
      `k` (or without bound, for the last bin). */
  const Edges: seq<int> := [0, 5999999, 15999999, 20999999, 40999999, 60999999, 80999999]

  /** The label the report shows. */
  function Label(r: Rango): string {
    match r
    case SinVentas => "Sin Ventas o Negativo"
    case Hasta5 => "0 a 5 Millones"
    case De6a15 => "6 a 15 Millones"
    case De16a20 => "16 a 20 Millones"
    case De21a40 => "21 a 40 Millones"
    case De41a60 => "41 a 60 Millones"
    case De61a80 => "61 a 80 Millones"
    case Mas80 => "Más de 80 Millones"
  }

  /** Position of a range in label order. */
  function Index(r: Rango): (k: nat)
    ensures k < |AllRangos| && AllRangos[k] == r
  {
    match r
    case SinVentas => 0
    case Hasta5 => 1
    case De6a15 => 2
    case De16a20 => 3
    case De21a40 => 4
    case De41a60 => 5
    case De61a80 => 6
    case Mas80 => 7
  }

  /** The amount lies in bin `k`: above the edge before it, at most the
      edge after it. */
  predicate InBin(x: int, k: nat) {
    && k < |AllRangos|
    && (k == 0 || Edges[k - 1] < x)
    && (k == |Edges| || x <= Edges[k])
  }

  /** The first bin, from `i` on, whose right edge is not below `x`. */
  function BinFrom(x: int, i: nat): (k: nat)
    requires i <= |Edges|
    requires i == 0 || Edges[i - 1] < x
    decreases |Edges| - i
    ensures i <= k <= |Edges|
    ensures InBin(x, k)
  {
    if i == |Edges| || x <= Edges[i] then i else BinFrom(x, i + 1)
  }

  /** The range of a total, as the report cuts it. */
  function Bucket(total: int): (r: Rango)
    ensures InBin(total, Index(r))
  {
    AllRangos[BinFrom(total, 0)]
  }

  /** The bins do not overlap: an amount lies in one bin only, so the
      bucket is the only range whose bin holds the amount. */
  lemma BinsDisjoint(x: int, k: nat)
    requires InBin(x, k)
    ensures Bucket(x) == AllRangos[k]
  {
  }

  /** A larger total never falls in a lower range. */
  lemma BucketMonotone(a: int, b: int)
    requires a <= b
    ensures Index(Bucket(a)) <= Index(Bucket(b))
  {
  }

  /** Amounts at an edge belong to the lower range, the next peso to the
      upper one. */
  lemma BucketBoundaries()
    ensures Bucket(-1) == SinVentas && Bucket(0) == SinVentas
    ensures Bucket(1) == Hasta5 && Bucket(5999999) == Hasta5
    ensures Bucket(6000000) == De6a15 && Bucket(15999999) == De6a15
    ensures Bucket(16000000) == De16a20 && Bucket(20999999) == De16a20
    ensures Bucket(21000000) == De21a40 && Bucket(40999999) == De21a40
    ensures Bucket(41000000) == De41a60 && Bucket(60999999) == De41a60
    ensures Bucket(61000000) == De61a80 && Bucket(80999999) == De61a80
    ensures Bucket(81000000) == Mas80
  {
    BinsDisjoint(-1, 0);
    BinsDisjoint(0, 0);
    BinsDisjoint(1, 1);
    BinsDisjoint(5999999, 1);
    BinsDisjoint(6000000, 2);
    BinsDisjoint(15999999, 2);
    BinsDisjoint(16000000, 3);
    BinsDisjoint(20999999, 3);
    BinsDisjoint(21000000, 4);
    BinsDisjoint(40999999, 4);
    BinsDisjoint(41000000, 5);
    BinsDisjoint(60999999, 5);
    BinsDisjoint(61000000, 6);
    BinsDisjoint(80999999, 6);
    BinsDisjoint(81000000, 7);
  }

  /** The eight labels are distinct, so the summary has eight columns. */
  lemma LabelsDistinct()
    ensures forall i, j :: 0 <= i < j < |AllRangos| ==> Label(AllRangos[i]) != Label(AllRangos[j])
  {
  }
}
