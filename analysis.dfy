/**
 * `analyze_and_color_file2_complete`: load the plans, annotate the sheet,
 * save, and report. The four copies of the routine differ only in the
 * annotation style and in how they signal failure, so each copy is a
 * `Variant` value.
 */
module Analysis {
  import opened Wrappers
  import opened Text
  import opened Plans
  import opened Matching
  import opened Sheet
  import opened Annotator

  /** Failure signalling: raise an exception (wrapped, except for the header read), or return False. */
  datatype Signalling = Raise | ReturnFalse

  datatype Variant = Variant(style: Style, signalling: Signalling)

  /** analyzer.py: full-span fill, provenance column, orange; raises on failure. */
  const AnalyzerPy: Variant := Variant(Style(FullSpan, true, Orange), Raise)

  /** web_app.py: fill stops one column short of `max_column`; otherwise as analyzer.py. */
  const WebAppPy: Variant := Variant(Style(ShortByOne, true, Orange), Raise)

  /** file_coloring_gui_enhanced.py: the same logic as web_app.py. */
  const GuiEnhancedPy: Variant := WebAppPy

  /** color_file2_complete.py: no provenance column, red for an empty file number, returns a bare bool. */
  const ColorCompletePy: Variant := Variant(Style(FullSpan, false, Red), ReturnFalse)

  /** The step that failed: reading file 1, reading file 2's headers, loading the workbook, or saving it. */
  datatype Stage = ReadPlans | ReadHeaders | LoadWorkbook | Save

  /** What the routine hands back. */
  datatype Outcome =
    | Counts(yellow: nat, flagged: nat, pending: nat)  // returned (True, yellow, orange, pending)
    | Flag(ok: bool)                                   // returned True or False
    | Raised(stage: Stage)                             // raised an exception

  function Failure(v: Variant, stage: Stage): Outcome {
    if v.signalling == Raise then Raised(stage) else Flag(false)
  }

  /** The outcome after a completed annotation: the counts, or a bare True for the copy that returns a bool. */
  function Success(v: Variant, yellow: nat, flagged: nat, pending: nat): Outcome {
    if v.signalling == Raise then Counts(yellow, flagged, pending) else Flag(true)
  }

  /**
   * The whole routine. File 1 (`file1`, None when it cannot be read), file 2's
   * header list (`headers`, None when it cannot be read), the loaded worksheet
   * (`ws`, null when loading fails) and whether saving succeeds (`saved`) are
   * the results of I/O the model does not perform.
   */
  method AnalyzeAndColor(file1: Option<seq<PlanRow>>, headers: Option<seq<string>>, ws: Worksheet?, saved: bool, v: Variant)
    returns (out: Outcome)
    requires ws != null ==> ws.Valid()
    modifies ws
    ensures ws != null ==> ws.Valid()
    ensures file1.None? ==> out == Failure(v, ReadPlans)
    ensures file1.Some? && headers.None? ==> out == Failure(v, ReadHeaders)
    ensures file1.Some? && headers.Some? && ws == null ==> out == Failure(v, LoadWorkbook)
    ensures (file1.None? || headers.None?) && ws != null ==> ws.grid == old(ws.grid)
    ensures file1.Some? && headers.Some? && ws != null ==>
      var ms := Marks(old(ws.grid), headers.value, PlanMapOf(file1.value));
      && ws.grid == Annotated(old(ws.grid), headers.value, PlanMapOf(file1.value), v.style)
      && out == if saved then Success(v, CountMarked(ms, false), CountMarked(ms, true), PlannedCount(file1.value))
                else Failure(v, Save)
  {
    if file1.None? {
      return Failure(v, ReadPlans);
    }
    if v.signalling == ReturnFalse && headers.None? {
      return Failure(v, ReadHeaders);
    }
    var plans, pending := LoadPlans(file1.value);
    if headers.None? {
      return Failure(v, ReadHeaders);
    }
    if ws == null {
      return Failure(v, LoadWorkbook);
    }
    var yellow, flagged := Annotate(ws, headers.value, plans, v.style);
    if !saved {
      return Failure(v, Save);
    }
    out := Success(v, yellow, flagged, pending);
  }

  /** For every copy: the reported counts never exceed the data rows, and the pending count bounds the plan map. */
  lemma ReportedCountsBound(rows: seq<PlanRow>, g: Grid, columns: seq<string>)
    requires |g| >= 1
    ensures var ms := Marks(g, columns, PlanMapOf(rows));
      CountMarked(ms, false) + CountMarked(ms, true) <= |g| - 1
    ensures |PlanMapOf(rows)| <= PlannedCount(rows)
  {
    CountsBound(g, columns, PlanMapOf(rows));
    PlanMapSize(rows);
  }

  /**
   * A planned path that is only slashes once stripped (say " / ") is
   * truthy, so it enters the map, under the empty key, and then matches
   * every non-empty built path.
   */
  lemma SlashOnlyPlanMatchesAll(rows: seq<PlanRow>, i: nat, path: string)
    requires i < |rows| && IsEntry(rows[i])
    requires forall k :: 0 <= k < |Strip(rows[i].path.value)| ==> Strip(rows[i].path.value)[k] == '/'
    requires path != []
    ensures Match(PlanMapOf(rows), path).Some?
  {
    NormalizeEmptyIff(rows[i].path.value);
    assert KeyedAt(rows, i, []);
    PlanMapHasKey(rows, []);
    var m := PlanMapOf(rows);
    var j :| 0 <= j < |m| && m[j].0 == [];
    EmptyKeyMatchesAll(m, path, j);
  }

  /** The copies that fill the full span colour the provenance cell of a matched row too. */
  lemma FullSpanFillsProvenance(g: Grid, columns: seq<string>, plans: PlanMap, r: nat)
    requires Rectangular(g) && 2 <= r <= |g|
    requires MarkOf(plans, LayoutOf(columns), g[r - 1]).Some?
    ensures var m := MarkOf(plans, LayoutOf(columns), g[r - 1]).value;
      CellAt(Annotated(g, columns, plans, AnalyzerPy.style), r, |columns| + 1) ==
        Cell(Some(Provenance(m.record)), Solid(if m.numberEmpty then Orange else Yellow))
  {
    AnnotatedShape(g, columns, plans, AnalyzerPy.style);
    MatchedRowCells(g, columns, plans, AnalyzerPy.style, r, |columns| + 1);
  }

  /**
   * The copies that fill `range(1, ws.max_column)` leave the provenance cell
   * unfilled when the provenance column is the sheet's new last column.
   */
  lemma ShortSpanSkipsProvenance(g: Grid, columns: seq<string>, plans: PlanMap, r: nat)
    requires Rectangular(g) && 2 <= r <= |g| && Width(g) <= |columns|
    requires MarkOf(plans, LayoutOf(columns), g[r - 1]).Some?
    ensures var m := MarkOf(plans, LayoutOf(columns), g[r - 1]).value;
      CellAt(Annotated(g, columns, plans, WebAppPy.style), r, |columns| + 1) == Cell(Some(Provenance(m.record)), Unfilled)
  {
    AnnotatedShape(g, columns, plans, WebAppPy.style);
    MatchedRowCells(g, columns, plans, WebAppPy.style, r, |columns| + 1);
  }

  /** The copy without a provenance column writes no value anywhere: only fills change. */
  lemma ColorCompleteWritesNoValues(g: Grid, columns: seq<string>, plans: PlanMap, r: nat, col: int)
    requires Rectangular(g) && 1 <= r <= |g|
    ensures CellAt(Annotated(g, columns, plans, ColorCompletePy.style), r, col).value == CellAt(g, r, col).value
  {
    var style := ColorCompletePy.style;
    AnnotatedShape(g, columns, plans, style);
    if r == 1 {
      HeaderRowOnlyGetsHeader(g, columns, plans, style, col);
    } else if MarkOf(plans, LayoutOf(columns), g[r - 1]).None? {
      UnmatchedRowUnchanged(g, columns, plans, style, r, col);
    } else {
      MatchedRowCells(g, columns, plans, style, r, col);
    }
  }
}
