# Advisor sales report — a Dafny model

This project models the core of a sales-consolidation service for a
financing company. `LoaderService` reads two spreadsheets, each declared in
a configuration dictionary:

- a sales extract: region, advisor id, advisor name, payment method and
  pre-tax amount;
- an advisor register: advisor id and advisor type.

The service then works in these steps:

1. It renames the columns of both sources.
2. It left-joins the sales rows onto the register by advisor id.
3. It splits the joined rows into three parts:
   - brokerage (`CORRETAJE`);
   - other registered types;
   - unregistered (no type).
4. It builds a pivot for each part. The pivot has one line per (region, id,
   name, type) and one column per payment method. Each line has a row total
   and the sales range ("Rango") of that total.
5. It builds a regional summary of the other-types pivot. Each cell is the
   number of distinct advisor ids in a (region, range) cell. The summary has
   a total column and a "Total General" row.

The whole run either yields the four sheets or reports failure.

The model is written with pure functions over immutable data:

| module | models |
|---|---|
| `Optional`, `Seqs` | option values; sums, repeat removal and pointwise addition of sequences |
| `Tables` | spreadsheet cells (`Blank` is an empty cell / NaN), frames, column selection by declared name, column renaming |
| `FinancieraModel` | the `configuracion` dictionary and the facts the pipeline relies on about it |
| `Loader` | `_cargar_un_archivo`: configuration lookup, sheet and header defaults, read, select, rename |
| `Records` | typed sales, register and joined rows; the left join; row filters |
| `Segmentation` | the three type masks, the split, and the relabelling of unregistered rows |
| `Rangos` | the eight right-closed sales ranges and their labels |
| `Pivot` | `_crear_tabla_pivote` |
| `Resumen` | the regional summary |
| `Reporte` | `generar_reporte_completo` end to end, and what the sheets preserve |
| `Scenarios` | worked cases on small concrete inputs |

Reading a workbook is a parameter of the model. A `Reader` maps a sheet and a
header row to a frame, or to nothing when the read fails.

Some expected properties do not hold of the code. In each case the model
follows the code and proves what does hold:

- **The join can repeat sales.** The join keeps one row per sale when no
  advisor id appears twice in the register. A sale whose advisor id appears
  in several register entries is repeated once per entry.
  - `Records.JoinWithUniqueIds` proves the unique-id case.
  - `Records.JoinCounts` gives the exact number of rows per sale.
  - `Scenarios.RepeatedIdRepeatsSale` shows the repetition.
- **The grand total is not a count of distinct advisors.** The summary's
  grand total adds up per-cell distinct counts. An advisor whose pivot lines
  fall into two ranges (two spellings of their name, say) is counted twice.
  `Scenarios.GrandTotalCountsPerRange` shows this.
- **The pivot drops incomplete rows.** A row with an empty region, id, name,
  type or payment method takes no part in the grouping, so its amount is in
  no sheet. `Pivot.PivotPreservesTotal` states totals for the rows that are
  kept.
- **A run with no other-types row fails.** When no sales row belongs to an
  advisor of a registered type other than brokerage, that pivot has no
  columns. Summarising it fails, so the whole run reports failure.
  `Reporte.Process` states this.

## Model

| member | source | states |
|---|---|---|
| FinancieraModel.ConfiguracionWellFormed | src/models/financiera_model.py:1-20 | Both declared sources are unambiguous: their declared columns are distinct, every declared column and nothing else is renamed, and no two columns get the same new name. |
| FinancieraModel.RenamedColumns | src/models/financiera_model.py:5-18 | The sales source yields exactly region, id, name, payment method and pre-tax amount; the register yields exactly id and type. |
| FinancieraModel.JoinKeyOnBothSides | src/models/financiera_model.py:5-18 | Both sources rename a column to the join key `Cedula_Asesor`. |
| FinancieraModel.SheetDefaults | src/services/asesores/asesores_services.py:22-23 | The sales extract is read from sheet "Page 001"; the register, which declares no sheet, from the first sheet; both with the first row as header. |
| FinancieraModel.SalesSourceRenames | src/models/financiera_model.py:2-12 | Each of the five sales columns the pipeline uses is the new name of a declared sales column. |
| FinancieraModel.AdvisorSourceRenames | src/models/financiera_model.py:13-19 | The id and type columns are the new names of the two declared register columns. |
| Tables.Select | src/services/asesores/asesores_services.py:25-30 | Reading with declared columns keeps only declared columns, each once, and each kept column holds the cells of its first occurrence in the sheet. |
| Tables.SelectedColumn | src/services/asesores/asesores_services.py:25-30 | A declared column that exists has the same cells after selection as in the sheet. |
| Tables.Rename | src/services/asesores/asesores_services.py:31 | Renaming moves no cell: rows are unchanged and each column takes its mapped name, or keeps its name when unmapped. |
| Tables.RenamedColumn | src/services/asesores/asesores_services.py:31 | Under an injective renaming of every column, the new name of a column holds exactly that column's cells. |
| Loader.Load | src/services/asesores/asesores_services.py:14-36 | Loading fails for an undeclared key, for an unreadable sheet and when a declared column is missing; otherwise it keeps every row and yields exactly the renamed declared columns. |
| Loader.LoadedColumn | src/services/asesores/asesores_services.py:19-33 | Under a well-formed declaration, the renamed column of a loaded source holds the cells of the declared column in the sheet. |
| Records.AmountsOf | src/services/asesores/asesores_services.py:47-53 | An amount column sums only when no cell holds text; an empty cell counts as zero and a number as itself. |
| Records.SalesRows | src/services/asesores/asesores_services.py:101-120 | Sales rows exist exactly when the five renamed columns are present and no amount is text; row `i` holds the cells of row `i`. |
| Records.AdvisorRows | src/services/asesores/asesores_services.py:101-110 | Register rows exist exactly when the id and type columns are present; row `i` holds the cells of row `i`. |
| Records.JoinOne | src/services/asesores/asesores_services.py:101 | A sale yields one joined row per matching register entry, with that entry's type, or one row without a type when nothing matches. |
| Records.LeftJoin | src/services/asesores/asesores_services.py:101 | The join keeps every sale at least once, invents none, and has at least as many rows as there are sales. |
| Records.JoinContents | src/services/asesores/asesores_services.py:101 | Each joined row carries the type of a register entry with its id, or no type when the id is not registered. Every sale yields a row for each register entry with its id, and a row without a type when there is none. |
| Records.JoinCounts | src/services/asesores/asesores_services.py:101 | A sale appears among the joined rows exactly as often as in the extract times the number of register entries with its id, or times one when there is none. |
| Records.JoinWithUniqueIds | src/services/asesores/asesores_services.py:101 | With unique register ids, the join has exactly one row per sale, in order, carrying the registered type of its advisor or none. |
| Records.UniqueMatches | src/services/asesores/asesores_services.py:101 | With unique register ids, an id matches at most one entry, and that entry carries the registered type. |
| Records.TypeOf | src/services/asesores/asesores_services.py:101-110 | The type looked up for an id is empty when the id is not registered, and otherwise is the type of one of its register entries. |
| Records.Filter | src/services/asesores/asesores_services.py:104-111 | A mask keeps exactly the rows it holds of, as often as they occur, and nothing else. |
| Records.Where | src/services/asesores/asesores_services.py:47-54 | Selecting the rows with a given key or payment method keeps exactly the rows with that value and never adds rows. |
| Records.WhereCounts | src/services/asesores/asesores_services.py:47-54 | That selection keeps each selected row as often as it occurs and no other row. |
| Records.WhereTotalStep | src/services/asesores/asesores_services.py:47-57 | The sales of a selection are the first row's amount, when it is selected, plus the sales of the selection from the rest. |
| Segmentation.MasksAreSegments | src/services/asesores/asesores_services.py:104-110 | Each of the three masks selects exactly one segment, and exactly one mask holds of every row. |
| Segmentation.Split | src/services/asesores/asesores_services.py:104-111 | The brokerage part has the brokerage type; the other part has a present type other than brokerage; the unregistered part has no type. |
| Segmentation.SplitIsPartition | src/services/asesores/asesores_services.py:104-111 | The three parts share no row and together hold each joined row exactly as often as the join produced it. |
| Segmentation.MarkUnregistered | src/services/asesores/asesores_services.py:115-116 | Unregistered rows get the type "SIN REGISTRAR" and, when the name is empty, the advisor id as name; every other value is kept. |
| Rangos.Bucket | src/services/asesores/asesores_services.py:62-81 | Every total falls into the bin of its range: above the previous edge, at most the next edge. |
| Rangos.BinsDisjoint | src/services/asesores/asesores_services.py:62-81 | The bins do not overlap: a total in bin `k` has range `k`. |
| Rangos.BucketMonotone | src/services/asesores/asesores_services.py:62-81 | A larger total never falls into a lower range. |
| Rangos.BucketBoundaries | src/services/asesores/asesores_services.py:62-80 | An amount exactly at an edge belongs to the lower range and the next peso to the upper one; zero and negative totals are "Sin Ventas o Negativo". |
| Rangos.LabelsDistinct | src/services/asesores/asesores_services.py:65-74 | The eight range labels are pairwise distinct. |
| Pivot.Methods | src/services/asesores/asesores_services.py:50 | The payment-method columns are the methods of the grouped rows, each once. |
| Pivot.Keys | src/services/asesores/asesores_services.py:49 | The line keys are the (region, id, name, type) keys of the grouped rows, each once. |
| Pivot.SplitTotal | src/services/asesores/asesores_services.py:47-57 | Splitting rows by a value every row has among distinct values, and summing the parts, gives back the sum of the rows. |
| Pivot.MakeRow | src/services/asesores/asesores_services.py:47-81 | A line's method cells hold the sales of its key under each method (0 when none). Its total is both the sum of its cells and the sales of its key. Its range is the range of that total. |
| Pivot.BuildPivot | src/services/asesores/asesores_services.py:38-84 | An empty part yields a table with no columns. Otherwise there is exactly one line per distinct key of the rows that have every grouping value, and each line has the contents above. |
| Pivot.KeysCovered | src/services/asesores/asesores_services.py:47-54 | Lines built over the distinct keys name each key of the grouped rows exactly once and no other key. |
| Pivot.PivotPreservesTotal | src/services/asesores/asesores_services.py:47-57 | The pivot's total column sums to the sales of the rows with every grouping value present, and so to all the sales when none is missing. |
| Pivot.FilterKeepsAll | src/services/asesores/asesores_services.py:47-54 | When every row has every grouping value, the grouping drops nothing. |
| Resumen.Regions | src/services/asesores/asesores_services.py:126-129 | The summary regions are the regions of the pivot lines, each once. |
| Resumen.RegionLine | src/services/asesores/asesores_services.py:126-137 | A region line has one cell per range, holding the number of distinct advisor ids of that region in that range, and a total that is their sum. |
| Resumen.ColumnSums | src/services/asesores/asesores_services.py:140 | The total row holds, for each range, the sum of that range's column over the region lines. |
| Resumen.Summarize | src/services/asesores/asesores_services.py:126-143 | The summary fails exactly for the column-less pivot. Otherwise it has the region lines, then a "Total General" line whose cells are the column sums and whose total is the sum of the region totals. |
| Resumen.GrandTotal | src/services/asesores/asesores_services.py:136-140 | Summing the total row across ranges, summing the total column down the regions, and summing every cell give the same number. |
| Resumen.SummaryTotalsAgree | src/services/asesores/asesores_services.py:136-140 | In a summary, the grand-total cell equals the sum of the total line's cells, the sum of the region totals and the sum of all region cells. |
| Reporte.Process | src/services/asesores/asesores_services.py:99-147 | Processing the joined rows fails exactly when no row has a present type other than brokerage. On success the brokerage sheet is the pivot of the brokerage part, the other-types sheet the pivot of that part, the unregistered sheet the pivot of the relabelled unregistered part, and the summary sheet the summary of the other-types pivot. |
| Reporte.Generate | src/services/asesores/asesores_services.py:86-147 | For a declaration without column-name clashes (see "## Left out"), a run succeeds exactly when both keys are declared, both sources load, their needed columns are present, no amount is text, and some joined row has a present type other than brokerage. Its sheets are then those of processing the sales rows left-joined with the register rows. |
| Reporte.ConfiguredSalesColumns | src/services/asesores/asesores_services.py:93-101 | Under the declared configuration, a loaded sales extract has all five columns the pipeline needs, so only a text amount can make its rows fail. |
| Reporte.ConfiguredAdvisorColumns | src/services/asesores/asesores_services.py:94-101 | Under the declared configuration, a loaded register always yields its rows. |
| Reporte.TotalOfSplit | src/services/asesores/asesores_services.py:104-111 | The sales of the three parts add up to the sales of all joined rows. |
| Reporte.TotalOfMarked | src/services/asesores/asesores_services.py:115-116 | Relabelling the unregistered rows changes no amount. |
| Reporte.TotalOfUniqueJoin | src/services/asesores/asesores_services.py:101 | With unique register ids, the joined rows carry exactly the sales of the extract. |
| Reporte.SheetKeepsAll | src/services/asesores/asesores_services.py:118-120 | A sheet built from rows that all have every grouping value carries all of their sales. |
| Reporte.SheetsTotal | src/services/asesores/asesores_services.py:104-120 | When no row of any part is dropped by the grouping, the totals of the three segment sheets add up to the sales of the joined rows. |
| Reporte.RunKeepsEverySale | src/services/asesores/asesores_services.py:86-120 | For a successful run whose every sale has a region, an id and a method, and a name unless its id is unregistered, the three segment sheets add up to the joined sales, and with unique register ids to the extract's sales. |
| Reporte.SheetsKeepEverySale | src/services/asesores/asesores_services.py:101-120 | Suppose every sale has a region, an id and a method, and has a name unless its id is unregistered. Then the three segment sheets add up to the joined sales, and with unique register ids to the extract's sales. |
| Reporte.MarkedGrouped | src/services/asesores/asesores_services.py:115-120 | Unregistered rows of such sales keep every grouping value once relabelled: the id fills a missing name. |
| Reporte.NamedWhenRegistered | src/services/asesores/asesores_services.py:101-119 | A joined row of such sales that has a type also has a name. |
| Reporte.JoinedTypeRegistered | src/services/asesores/asesores_services.py:101-110 | A joined row with a type comes from an advisor id that is in the register. |
| Scenarios.OneAdvisorTwoMethods | src/services/asesores/asesores_services.py:47-81 | Take one advisor with 1,000,000 in cash and 200,000 by card. The pivot has one line with those two cells, total 1,200,000, in range "0 a 5 Millones". |
| Scenarios.RepeatedIdRepeatsSale | src/services/asesores/asesores_services.py:101 | A register that lists an id twice doubles that advisor's sale in the joined rows. |
| Scenarios.TwoNamesPivot | src/services/asesores/asesores_services.py:47-81 | Two consolidated rows share an advisor id and region but spell the name two ways ("ANA", "ANA MARIA"), with cash sales of 1,000,000 and 7,000,000. Their pivot has two lines, in ranges "0 a 5 Millones" and "6 a 15 Millones". |
| Scenarios.TwoNamesReport | src/services/asesores/asesores_services.py:104-120 | Processing those rows succeeds and puts both lines on the other-types sheet. |
| Scenarios.GrandTotalCountsPerRange | src/services/asesores/asesores_services.py:118-143 | Processing those rows yields a summary whose region line counts the id once in each of the two ranges, so the "Total General" total is 2. |
| Scenarios.TwoNamesOneId | src/services/asesores/asesores_services.py:126-134 | Those rows, and their two pivot lines, hold a single advisor id. |

## Left out

- Reading and writing workbooks is not modelled. Reading is the `Reader` parameter. Writing the four sheets, and a run that fails only while writing (source lines 149-163), are outside the model.
- Progress and error messages (`print`) and the `LoaderService` constructor are left out; they carry no data.
- Pivot lines and summary regions come in order of first appearance; the spreadsheet library sorts them by key. Contents, totals and counts do not depend on that order. Payment-method columns likewise come in first-appearance order rather than sorted.
- Amounts are whole pesos. Fractional amounts and floating-point rounding are not modelled. A text amount is modelled as a failed run. The library would raise for most mixed columns; columns that are entirely text are not modelled.
- The library can fail a join because the key columns have different types, for instance numeric ids against text ids. This is not modelled: cells compare by value.
- A region named literally "Total General" would collide with the total row's label in the summary; this is not modelled.
- Records.LeftJoin: its own contract states only the row-count bound, that every sale is kept and that none is invented. The type of each joined row and the rows each sale yields are stated by `Records.JoinContents`, and the number of rows per sale by `Records.JoinCounts`. As postconditions of the function those facts would be unfolded at every use of the join, so they are lemmas instead.
- Reporte.Generate: the model reads each joined field from its own source, and from the first column that carries its name. Two kinds of name clash are not modelled. The first is a column name other than `Cedula_Asesor` that both sources yield after renaming, with the `_x`/`_y` suffixes the library's merge then gives both copies. The second is a declaration that gives two columns of one source the same new name (`FinancieraModel.WellFormed` rules this out). In the source either clash makes a later column lookup, the merge or the pivot's grouping fail, so the run fails; the model can succeed instead. Under the declared configuration neither clash occurs: the two sources share only the key column (`FinancieraModel.RenamedColumns`) and every renaming is injective (`FinancieraModel.ConfiguracionWellFormed`). So the declared run is modelled as written.
- Reporte.Process: the model does not say what happens when the other-types part is non-empty but every row of it is dropped by the grouping. The model then yields a summary with only the all-zero total line; the library's behaviour on that empty pivot is not modelled.
- Reporte.SheetsKeepEverySale: stated only for sales whose grouping values are present. `Pivot.PivotPreservesTotal` covers the general case, where rows with a missing value are dropped.
- The controller and dashboard scripts that call this service are not part of this model.
