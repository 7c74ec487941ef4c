/** Loading one declared source: look its declaration up, read the declared
    sheet, keep the declared columns and rename them. */
module Loader {
  import opened Optional
  import opened Tables
  import opened FinancieraModel

  /** Reads a sheet of a source file with the given header row, or gives
      `None` when the file or the sheet cannot be read. The spreadsheet
      library behind it is not part of this model. */
  type Reader = (SheetRef, nat) -> Option<Frame>

  /** Every declared column is present in the sheet. */
  predicate HasColumns(f: Frame, usecols: seq<string>) {
    forall u :: u in usecols ==> u in f.columns
  }

  /** The frame the source `key` yields, or `None` when the key is not
      declared, the sheet cannot be read or a declared column is missing. */
  function Load(cfg: Config, key: string, read: Reader): (r: Option<Frame>)
    ensures key !in cfg ==> r.None?
    ensures key in cfg ==>
              var c := cfg[key];
              var raw := read(SheetOf(c), HeaderOf(c));
              && (r.Some? <==> raw.Some? && HasColumns(raw.value, c.usecols))
              && (r.Some? ==> |r.value.rows| == |raw.value.rows|)
              && (r.Some? ==> forall u :: u in c.usecols ==> Renamed(c.renameMap, u) in r.value.columns)
              && (r.Some? ==> forall n :: n in r.value.columns ==>
                                exists u :: u in c.usecols && n == Renamed(c.renameMap, u))
  {
    if key !in cfg then None
    else
      var c := cfg[key];
      match read(SheetOf(c), HeaderOf(c))
      case None => None
      case Some(raw) =>
        if HasColumns(raw, c.usecols) then
          var sel := Select(raw, c.usecols);
          var f := Rename(sel, c.renameMap);
          assert forall u :: u in c.usecols ==> Renamed(c.renameMap, u) in f.columns by {
            forall u | u in c.usecols
              ensures Renamed(c.renameMap, u) in f.columns
            {
              var k := IndexOf(sel.columns, u).value;
              assert f.columns[k] == Renamed(c.renameMap, u);
            }
          }
          assert forall n :: n in f.columns ==> exists u :: u in c.usecols && n == Renamed(c.renameMap, u) by {
            forall n | n in f.columns
              ensures exists u :: u in c.usecols && n == Renamed(c.renameMap, u)
            {
              var k :| 0 <= k < |f.columns| && f.columns[k] == n;
              assert sel.columns[k] in sel.columns;
            }
          }
          Some(f)
        else None
  }

  /** Under a well-formed declaration, the column a declared source column
      is renamed to holds exactly that source column's cells. */
  lemma LoadedColumn(cfg: Config, key: string, read: Reader, u: string)
    requires key in cfg && WellFormed(cfg[key])
    requires Load(cfg, key, read).Some?
    requires u in cfg[key].usecols
    ensures var raw := read(SheetOf(cfg[key]), HeaderOf(cfg[key])).value;
            Column(Load(cfg, key, read).value, cfg[key].renameMap[u]) == Column(raw, u)
  {
    var c := cfg[key];
    var raw := read(SheetOf(c), HeaderOf(c)).value;
    var sel := Select(raw, c.usecols);
    assert Rename(sel, c.renameMap) == Load(cfg, key, read).value;
    SelectedColumn(raw, c.usecols, u);
    RenamedColumn(sel, c.renameMap, u);
  }
}
