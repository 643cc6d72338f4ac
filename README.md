# Upload-plan reconciliation: `analyze_and_color_file2_complete`

The routine compares two spreadsheets:

- **file 1**, the upload plan;
- **file 2**, the actual uploads.

It annotates file 2 in place:

1. **Plan map.** Every row of file 1 whose 上传计划 (upload plan) cell is filled counts as pending. A row that also has a 路径 (path) adds an entry to a dict. The key is the path after `strip().rstrip('/')`. The value is the row's spreadsheet row number (`idx + 2`) and its 文件名称 (file name).
2. **Path building.** For every data row of file 2, the cells of the folder columns `1级文件夹` .. `6级文件夹` are trimmed and joined with `/`. Blank cells and the placeholders `/`, `//` and `///` are skipped.
3. **Matching.** The built path is looked up in the plan map. An exact key wins. Otherwise the first key, in insertion order, is taken when either string is a character prefix of the other.
4. **Annotation.** A matched row with a non-empty path gets a provenance note `文件1第{index}行: {file_name}` in a new 数据来源 (data source) column, which also gets a header in row 1. The row is filled yellow when its 文件编号 (file number) cell is non-blank, and orange otherwise. Exactly one of the two counters grows.
5. **Result.** The routine saves the sheet and returns `(True, yellow, orange, pending)`. Each I/O failure is signalled.

The same routine exists in four copies. `analyzer.py` is the reference. Each copy is modelled as a `Variant` value (`Analysis.AnalyzerPy`, `WebAppPy`, `GuiEnhancedPy`, `ColorCompletePy`) that fixes four things:

- the fill span: `1..max_column`, or `1..max_column-1` in the web and GUI copies;
- whether the provenance column is written: it is not in `color_file2_complete.py`;
- the colour of a matched row with an empty file number: red in `color_file2_complete.py`;
- how a failure is signalled: raise, or return `False` in `color_file2_complete.py`.

Modules:

| file | module | contents |
|---|---|---|
| wrappers.dfy | `Wrappers` | `Option`, used for blank cells and missed lookups |
| text.dfy | `Text` | the Python string operations used: `strip()` with Python's whitespace set, `rstrip('/')`, `'/'.join`, decimal rendering of integers |
| plans.dfy | `Plans` | the insertion-ordered dict and the plan loader loop |
| matching.dfy | `Matching` | the exact-then-prefix matcher |
| worksheet.dfy | `Sheet` | the worksheet as a class over a rectangular grid of cells with 1-based addressing |
| annotator.dfy | `Annotator` | column lookup, path builder, provenance note, and the row loop that fills and counts |
| analysis.dfy | `Analysis` | the whole routine, its variants, its failure paths, and the properties that tell the copies apart |
| scenarios.dfy | `Scenarios` | worked examples on a concrete plan and sheet |

Spreadsheet I/O is not performed. File 1 arrives as `Option<seq<PlanRow>>`, where `None` means it could not be read. File 2's header row arrives as `Option<seq<string>>`. The loaded worksheet arrives as a `Worksheet?`, where `null` means loading failed. Whether saving succeeds is a `bool`.

The key normalisation `strip().rstrip('/')` is not idempotent. Take `"A /"`:

- it normalises to `"A "`, because the slash goes and exposes a trailing space;
- `"A "` normalises to `"A"`.

`Text.NormalizeNotIdempotent` proves the counterexample, and `Text.NormalizeIdempotentWhen` proves idempotence for keys that do not end in whitespace.

## Model

| member | source | states |
|---|---|---|
| Text.TrimStart | analyzer.py:35 | the result is a suffix of the input that does not start with whitespace |
| Text.TrimStartDropsSpace | analyzer.py:35 | every character the left trim drops is whitespace |
| Text.TrimEnd | analyzer.py:35 | the result is a prefix of the input that does not end with whitespace |
| Text.TrimEndDropsSpace | analyzer.py:35 | every character the right trim drops is whitespace |
| Text.Strip | analyzer.py:35 | `strip()` leaves no whitespace at either end |
| Text.TrimTrailingSlashes | analyzer.py:35 | `rstrip('/')` keeps a prefix of the input and leaves no trailing slash |
| Text.TrimTrailingSlashesDropsSlashes | analyzer.py:35 | every character `rstrip('/')` drops is a slash |
| Text.StripEmptyIff | analyzer.py:111 | `strip()` gives `''` exactly when the string is all whitespace |
| Text.StripIdempotent | analyzer.py:87-88 | stripping an already stripped value changes nothing |
| Text.NormalizeShape | analyzer.py:35 | a plan key is the stripped path minus trailing slashes only; it has no leading whitespace and no trailing slash |
| Text.NormalizeEmptyIff | analyzer.py:34-35 | a truthy path gives the empty key exactly when it is only slashes once stripped |
| Text.NormalizeNotIdempotent | analyzer.py:35 | `strip().rstrip('/')` applied twice can differ from applying it once (`"A /"`) |
| Text.NormalizeIdempotentWhen | analyzer.py:35 | normalisation is idempotent on every key that does not end in whitespace |
| Text.JoinEmptyIff | analyzer.py:89 | joining non-empty segments gives `''` exactly when there are no segments |
| Text.JoinStartsWithFirst | analyzer.py:89 | the joined path starts with its first segment |
| Text.JoinLength | analyzer.py:89 | the joined path is as long as the segments plus one separator between each pair |
| Text.DecimalString | analyzer.py:98 | the f-string rendering of the row number is a non-empty run of digits with no leading zero (except for 0 itself) |
| Text.DecimalRoundTrip | analyzer.py:98 | reading the rendered row number back gives the number |
| Text.DecimalInjective | analyzer.py:98 | distinct row numbers render differently |
| Plans.Lookup | analyzer.py:95-97 | `file1_plans[path]` misses exactly when the key is absent, and a hit is a stored entry |
| Plans.LookupUnique | analyzer.py:97 | in a dict, looking up a stored key gives its stored record |
| Plans.Put | analyzer.py:36 | dict assignment grows the dict by one exactly when the key is new |
| Plans.PutKeys | analyzer.py:36 | assignment keeps the key order, and appends a new key at the end |
| Plans.PutLookup | analyzer.py:36 | after assignment the key gives the new record and no other key changes |
| Plans.PutUnique | analyzer.py:36 | assignment never duplicates a key |
| Plans.LoadStep | analyzer.py:31-36 | reading one more row performs that row's assignment and adds one to the pending count exactly when its 上传计划 cell is filled |
| Plans.LoadPlans | analyzer.py:27-36 | the loader loop builds the plan map of the rows and counts every row with a filled 上传计划 cell, with or without a path |
| Plans.FoldUniqueKeys | analyzer.py:36 | any sequence of dict assignments leaves at most one entry per key |
| Plans.FoldSize | analyzer.py:36 | the dict has at most as many entries as assignments were performed |
| Plans.FoldHasKey | analyzer.py:36 | a key is in the dict exactly when some assignment wrote it |
| Plans.FoldLastWins | analyzer.py:36 | the record under a key is the one the last assignment to that key wrote |
| Plans.FoldKeysGrow | analyzer.py:36 | later assignments only append keys to the dict's key order |
| Plans.EntryCountBounds | analyzer.py:28-36 | the assignments performed are the rows with a plan and a path, at most `pending_upload_count` |
| Plans.PlanMapUniqueKeys | analyzer.py:31-36 | the plan map has at most one entry per key |
| Plans.PlanMapSize | analyzer.py:28-36 | entries <= rows with a plan and a path <= `pending_upload_count` |
| Plans.PlanMapHasKey | analyzer.py:31-36 | a key is in the map exactly when some planned row with a non-empty path normalises to it |
| Plans.PlanMapLastWins | analyzer.py:36 | the record under a key is that of the last row normalising to it, holding `idx + 2` and the file name (`''` when blank) |
| Plans.PlanMapKeysGrow | analyzer.py:31-36 | reading more rows only appends keys, so each key keeps the position of its first row |
| Matching.FindMatch | analyzer.py:95-105 | the matcher loop returns the exact hit, else the first prefix-related record in insertion order, else nothing; an empty path gets nothing |
| Matching.FirstRelatedIsFirst | analyzer.py:100-105 | the partial scan returns a record whose key is prefix-related to the path with no related key before it, and returns nothing exactly when no key is related |
| Matching.MatchNoneIff | analyzer.py:95-105 | a path is unmatched exactly when it is empty or no key is a character prefix of it or has it as a prefix |
| Matching.MatchExactWins | analyzer.py:95-97 | an exact key wins over an earlier prefix-related key |
| Matching.MatchFirstRelated | analyzer.py:99-105 | without an exact key, the first prefix-related key in insertion order decides |
| Matching.MatchFromMap | analyzer.py:95-105 | every match is a stored record under a key prefix-related to the path |
| Matching.EmptyKeyMatchesAll | analyzer.py:99-101 | an entry under the empty key matches every non-empty path |
| Matching.CharacterPrefixMatch | analyzer.py:101 | matching compares characters, not path segments: `A/B` matches `A/BC` |
| Sheet.PadRow | analyzer.py:75 | padding a row keeps every cell and makes it at least the requested width |
| Sheet.Widen | analyzer.py:75 | widening the sheet keeps every cell and raises `max_column` to the requested width |
| Sheet.WithValue | analyzer.py:114 | writing a value changes that one cell's value and widens the sheet when the column is past `max_column` |
| Sheet.WithFill | analyzer.py:119 | setting a fill changes that one cell's fill and nothing else |
| Sheet.Worksheet.SetValue | analyzer.py:75 | `ws.cell(row, col).value = v` on the sheet |
| Sheet.Worksheet.SetFill | analyzer.py:123 | `ws.cell(row, col).fill = f` on the sheet |
| Annotator.ColumnIndex | analyzer.py:67-71 | `columns.index(name) + 1`: the 1-based position of the first occurrence, or nothing when the name is absent |
| Annotator.LocateColumns | analyzer.py:60-74 | the column lookup loop gives the layout: folder levels 1..6, the file-number column, and the provenance column `len(columns) + 1` |
| Annotator.LayoutReadsBeforeSource | analyzer.py:68-74 | every column read lies left of the provenance column |
| Annotator.BuildPath | analyzer.py:83-89 | the path-building loop yields the `/`-join of the level segments, in level order |
| Annotator.SegmentsClean | analyzer.py:87-88 | every segment is non-empty, trimmed and not a `/`, `//` or `///` placeholder |
| Annotator.SegmentsEmptyIff | analyzer.py:84-88 | no segments exactly when every folder level is missing, blank or a placeholder |
| Annotator.BuiltPathEmptyIff | analyzer.py:83-89 | the built path is `''` exactly when no folder level contributes a segment |
| Annotator.SegmentsSameCells | analyzer.py:84-88 | the path depends only on the row's cells |
| Annotator.NumberEmptyIff | analyzer.py:108-112 | the file number is empty exactly when there is no such column, or its cell is blank or all whitespace |
| Annotator.ProvenanceInjective | analyzer.py:98 | different plan records never give the same provenance note |
| Annotator.MarkOfSameCells | analyzer.py:81-112 | a row's decision depends only on its cells |
| Annotator.EmptyPathUnmarked | analyzer.py:95-107 | a row whose built path is empty is never matched |
| Annotator.Headered | analyzer.py:74-75 | the header write keeps the rows and widens the sheet to `len(columns) + 1` when needed |
| Annotator.CountsPartition | analyzer.py:117-124 | every matched row increments exactly one counter, so yellow + orange is the number of matched rows |
| Annotator.AnnotatedShape | analyzer.py:74-81 | the annotated sheet keeps its rows, and is wider only when the provenance column lies past the old last column |
| Annotator.HeaderRowOnlyGetsHeader | analyzer.py:74-75 | row 1 changes only by the 数据来源 header at column `len(columns) + 1` |
| Annotator.UnmatchedRowUnchanged | analyzer.py:107 | an unmatched or empty-path row is left exactly as it was |
| Annotator.MatchedRowCells | analyzer.py:107-124 | a matched row gets its provenance note in the provenance column and its colour on columns `1..FillEnd`; every other value and fill is kept |
| Annotator.CountsBound | analyzer.py:81-124 | `yellow + orange` is the number of matched rows, at most `max_row - 1` |
| Annotator.FillRow | analyzer.py:118-119 | the fill loop sets the fill of columns `1..last` of one row and changes nothing else |
| Annotator.HeaderedSameMark | analyzer.py:75-86 | writing the header does not change any data row's decision |
| Annotator.AnnotatedRowCell | analyzer.py:114-123 | in a matched row, the provenance column holds the note, columns `1..last` get the decision's colour, and every other cell keeps its value and fill |
| Annotator.CountMarkedStep | analyzer.py:117-124 | one more row adds one to the yellow counter exactly when it is matched with a filled file number, and to the orange counter exactly when matched with an empty one |
| Annotator.AnnotatedUpToStart | analyzer.py:74-81 | before the row loop the sheet is the original one with the provenance header written |
| Annotator.AnnotatedUpToStep | analyzer.py:81 | each iteration of the row loop annotates exactly one more row |
| Annotator.MarkRow | analyzer.py:114-124 | a matched row gets its provenance note (when the copy writes one) and its colour, and no other row changes |
| Annotator.HandleRow | analyzer.py:83-124 | one loop iteration returns the row's decision, and rewrites only that row as the decision says |
| Annotator.AnnotateRows | analyzer.py:81-124 | the loop over rows `2..max_row` leaves the headered sheet annotated, with the yellow and orange counters equal to the matched rows with a filled and with an empty file number |
| Annotator.Annotate | analyzer.py:74-124 | the row loop leaves the sheet equal to the annotated sheet; the yellow and orange counters equal the matched rows with a filled and with an empty file number |
| Analysis.AnalyzeAndColor | analyzer.py:20-142 | each read, load or save failure gives the variant's failure signal, and a read failure leaves the sheet untouched; otherwise the sheet is annotated and a saved run reports `(True, yellow, orange, pending)`, or `True` in the bool-returning copy |
| Analysis.ReportedCountsBound | analyzer.py:29 | reported yellow + orange <= data rows, and the plan map's size <= `pending_upload_count` |
| Analysis.SlashOnlyPlanMatchesAll | analyzer.py:34-36 | a planned path of slashes only (after strip) is truthy, becomes the empty key, and matches every non-empty path |
| Analysis.FullSpanFillsProvenance | analyzer.py:116-123 | the full-span copy fills the provenance cell of a matched row too |
| Analysis.ShortSpanSkipsProvenance | web_app.py:167-176 | with `range(1, ws.max_column)`, the provenance cell of a matched row stays unfilled when it is the sheet's last column |
| Analysis.ColorCompleteWritesNoValues | color_file2_complete.py:117-135 | the copy without a provenance column writes no cell value anywhere; only fills change |
| Scenarios.LevelColumn | analyzer.py:65-68 | in the sample headers, levels 1 and 2 are found in columns 1 and 2 and levels 3..6 are missing |
| Scenarios.NumberColumn | analyzer.py:70-71 | in the sample headers, 文件编号 is column 3 |
| Scenarios.HeadersLayout | analyzer.py:65-74 | headers `1级文件夹, 2级文件夹, 文件编号` give folder columns 1 and 2, number column 3 and provenance column 4 |
| Scenarios.ScenarioPlans | analyzer.py:28-36 | one planned row with path `A/B` gives the entry `A/B` with row 2, and one pending row |
| Scenarios.SampleRowPath | analyzer.py:83-89 | folder cells `A` and `B` build the path `A/B` |
| Scenarios.ScenarioExactMatch | analyzer.py:95-112 | that row matches the plan exactly, and its mark records whether the file number is blank |
| Scenarios.ScenarioProvenance | analyzer.py:98 | the provenance note of that plan is `文件1第2行: doc1` |
| Scenarios.SampleMarks | analyzer.py:81-112 | against the map holding only `A/B`, the sample sheet's only data row is matched to the plan of row 2 |
| Scenarios.ScenarioMarks | analyzer.py:81-112 | the sample sheet's only data row is matched to the plan of row 2 |
| Scenarios.SampleCounts | analyzer.py:107-124 | the sample row counts yellow when its file number is non-blank after trimming, and orange otherwise |
| Scenarios.ScenarioPrefixMatch | analyzer.py:99-105 | the path `A/B/C` is matched through the key `A/B` |

The variants are cited here:

- `color_file2_complete.py`:
  - 35-42 (set of normalised keys);
  - 93-104 (path);
  - 107-115 (matching);
  - 117-135 (red fill and counters);
  - 22-31, 57-62, 148-159 (return `False`).
- `web_app.py`:
  - 62-71 (plan map);
  - 124-135 (path);
  - 142-153 (matching);
  - 115-116 and 164 (provenance);
  - 167-176 (short fill);
  - 48-53, 89-93, 187-199 (raise).
- `file_coloring_gui_enhanced.py`:
  - 50-65, 118-129, 136-147, 149-170 and 42-47, 83-87, 181-193, in the same roles as in `web_app.py`.

Each variant runs the same members, with its `Variant` constant.

## Left out

- Spreadsheet I/O is not modelled: `pd.read_excel`, `load_workbook`, `wb.save`, `.xls` conversion and temp-file removal. Their results are parameters of `Analysis.AnalyzeAndColor`.
- Progress callbacks and console output are not modelled. They only observe.
- The Flask routes, the tkinter GUI and the worker threads around the routine are not modelled.
- Cells hold `Option<string>`. Python truthiness on non-string cells is not modelled: a numeric `0` counts as empty, and `str()` renders numbers. Neither is the `AttributeError` that `path.strip()` raises on a non-string path in the copies without `str()`.
- A file 1 without a 上传计划 column raises `KeyError`. The model assumes the column exists.
- openpyxl creates a cell when one is read. Reading past `max_column` can therefore widen the sheet. In the model, reads are pure. In `analyzer.py`, `web_app.py` and `file_coloring_gui_enhanced.py` this changes nothing: the header write at column `len(columns) + 1` runs before the row loop and already raises `max_column` past every column the loop reads. Only `color_file2_complete.py`, which writes no header, can be widened by a read, when its header list is wider than the worksheet.
- `PatternFill` objects are represented by a colour enum. `Sheet.Rgb` gives their RGB codes.
- `color_file2_complete.py` stores `True` instead of a record. The model stores the record anyway and never reads it in that variant.
- `color_file2_complete.py` reads file 1 and the headers before building the plan map, while the other copies read the headers after. Only the failure signal is observable, and the model gives the same one.
- Sheet.Worksheet.SetValue: only writes inside existing rows; the routine never writes below `max_row`.
