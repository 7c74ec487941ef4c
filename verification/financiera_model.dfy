/** The per-source declarations the loader reads: which sheet and header row
    to read, which columns to keep and how to rename them. */
module FinancieraModel {
  import opened Optional
  import opened Tables
  import Seqs

  /** A sheet chosen by name or by position. */
  datatype SheetRef = SheetName(name: string) | SheetIndex(index: nat)

  /** One source's declaration. Absent sheet and header fall back to the
      first sheet and the first row. */
  datatype SourceConfig = SourceConfig(
    sheetName: Option<SheetRef>,
    header: Option<nat>,
    usecols: seq<string>,
    renameMap: map<string, string>)

  type Config = map<string, SourceConfig>

  /** The sheet the loader reads for a source. */
  function SheetOf(c: SourceConfig): (r: SheetRef)
    ensures c.sheetName.None? ==> r == SheetIndex(0)
    ensures c.sheetName.Some? ==> r == c.sheetName.value
  {
    c.sheetName.GetOr(SheetIndex(0))
  }

  /** The header row the loader reads for a source. */
  function HeaderOf(c: SourceConfig): (r: nat)
    ensures c.header.None? ==> r == 0
    ensures c.header.Some? ==> r == c.header.value
  {
    c.header.GetOr(0)
  }

  // Source keys.
  const ClaveVentas := "CV0018"
  const ClaveAsesores := "ASESORES"

  // Column names after renaming: the ones the join, the partition and the
  // pivot refer to.
  const Regional := "Regional"
  const CedulaAsesor := "Cedula_Asesor"
  const NombreAsesor := "Nombre_Asesor"
  const FormaPago := "Forma_Pago"
  const VentasAntesIva := "Ventas_Antes_Iva"
  const TipoAsesor := "Tipo_Asesor"

  /** The declared sources. */
  const Configuracion: Config := map[
    ClaveVentas := SourceConfig(
      Some(SheetName("Page 001")),
      None,
      ["SEDE", "CEDULA_ASE", "ASESOR", "FORMAPAGO", "VTAS_ANT_I"],
      map[
        "SEDE" := Regional,
        "CEDULA_ASE" := CedulaAsesor,
        "ASESOR" := NombreAsesor,
        "FORMAPAGO" := FormaPago,
        "VTAS_ANT_I" := VentasAntesIva]),
    ClaveAsesores := SourceConfig(
      None,
      None,
      ["CC ASESOR", "TIPO ASESOR"],
      map[
        "CC ASESOR" := CedulaAsesor,
        "TIPO ASESOR" := TipoAsesor])
  ]

  /** A declaration whose renaming is unambiguous: the declared columns are
      distinct, each of them is renamed, nothing else is, and no two get the
      same new name. */
  predicate WellFormed(c: SourceConfig) {
    && Seqs.Distinct(c.usecols)
    && c.renameMap.Keys == (set u | u in c.usecols)
    && Injective(c.renameMap)
  }

  /** Both declarations are well formed: every rename key is a declared
      column and every renaming is injective. */
  lemma ConfiguracionWellFormed()
    ensures forall k :: k in Configuracion ==> WellFormed(Configuracion[k])
  {
    VentasWellFormed();
    AsesoresWellFormed();
    assert Configuracion.Keys == {ClaveVentas, ClaveAsesores};
  }

  lemma VentasWellFormed()
    ensures WellFormed(Configuracion[ClaveVentas])
  {
    var v := Configuracion[ClaveVentas];
    VentasColumns();
    assert (set u | u in v.usecols) == v.renameMap.Keys;
    VentasInjective();
  }

  /** The declared sales columns are distinct and are the rename keys. */
  lemma VentasColumns()
    ensures var v := Configuracion[ClaveVentas];
            && Seqs.Distinct(v.usecols)
            && (set u | u in v.usecols) == {"SEDE", "CEDULA_ASE", "ASESOR", "FORMAPAGO", "VTAS_ANT_I"}
            && v.renameMap.Keys == {"SEDE", "CEDULA_ASE", "ASESOR", "FORMAPAGO", "VTAS_ANT_I"}
  {
  }

  /** No two sales columns get the same new name. */
  lemma VentasInjective()
    ensures Injective(Configuracion[ClaveVentas].renameMap)
  {
    var m := Configuracion[ClaveVentas].renameMap;
    assert m == map["SEDE" := Regional, "CEDULA_ASE" := CedulaAsesor, "ASESOR" := NombreAsesor,
                    "FORMAPAGO" := FormaPago, "VTAS_ANT_I" := VentasAntesIva];
  }

  lemma AsesoresWellFormed()
    ensures WellFormed(Configuracion[ClaveAsesores])
  {
    var a := Configuracion[ClaveAsesores];
    assert (set u | u in a.usecols) == {"CC ASESOR", "TIPO ASESOR"};
  }

  /** Both sources yield the join key column. */
  lemma JoinKeyOnBothSides()
    ensures CedulaAsesor in Configuracion[ClaveVentas].renameMap.Values
    ensures CedulaAsesor in Configuracion[ClaveAsesores].renameMap.Values
  {
    assert Configuracion[ClaveVentas].renameMap["CEDULA_ASE"] == CedulaAsesor;
    assert Configuracion[ClaveAsesores].renameMap["CC ASESOR"] == CedulaAsesor;
  }

  /** The sales source yields exactly the columns the pivot groups and sums
      over, and the advisor source exactly the key and the type. */
  lemma RenamedColumns()
    ensures Configuracion[ClaveVentas].renameMap.Values
            == {Regional, CedulaAsesor, NombreAsesor, FormaPago, VentasAntesIva}
    ensures Configuracion[ClaveAsesores].renameMap.Values == {CedulaAsesor, TipoAsesor}
  {
    var v := Configuracion[ClaveVentas].renameMap;
    assert v["SEDE"] == Regional && v["ASESOR"] == NombreAsesor && v["FORMAPAGO"] == FormaPago;
    assert v["CEDULA_ASE"] == CedulaAsesor && v["VTAS_ANT_I"] == VentasAntesIva;
    var a := Configuracion[ClaveAsesores].renameMap;
    assert a["CC ASESOR"] == CedulaAsesor && a["TIPO ASESOR"] == TipoAsesor;
  }

  /** The sales sheet is read by name, the advisor source from its first
      sheet; both from the first row as header. */
  lemma SheetDefaults()
    ensures SheetOf(Configuracion[ClaveVentas]) == SheetName("Page 001")
    ensures SheetOf(Configuracion[ClaveAsesores]) == SheetIndex(0)
    ensures HeaderOf(Configuracion[ClaveVentas]) == 0
    ensures HeaderOf(Configuracion[ClaveAsesores]) == 0
  {
  }

  /** Each sales column the pipeline uses is the new name of a declared
      column. */
  lemma SalesSourceRenames()
    ensures var c := Configuracion[ClaveVentas];
            && "SEDE" in c.usecols && Renamed(c.renameMap, "SEDE") == Regional
            && "CEDULA_ASE" in c.usecols && Renamed(c.renameMap, "CEDULA_ASE") == CedulaAsesor
            && "ASESOR" in c.usecols && Renamed(c.renameMap, "ASESOR") == NombreAsesor
            && "FORMAPAGO" in c.usecols && Renamed(c.renameMap, "FORMAPAGO") == FormaPago
            && "VTAS_ANT_I" in c.usecols && Renamed(c.renameMap, "VTAS_ANT_I") == VentasAntesIva
  {
  }

  /** Each advisor column the pipeline uses is the new name of a declared
      column. */
  lemma AdvisorSourceRenames()
    ensures var c := Configuracion[ClaveAsesores];
            && "CC ASESOR" in c.usecols && Renamed(c.renameMap, "CC ASESOR") == CedulaAsesor
            && "TIPO ASESOR" in c.usecols && Renamed(c.renameMap, "TIPO ASESOR") == TipoAsesor
  {
  }
}
