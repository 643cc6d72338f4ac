/**
 * The path builder and the annotator: for every data row of file 2, the
 * folder-level cells are joined into a path, the path is matched against the
 * plan map, and a matched row gets a provenance note and a solid fill whose
 * colour says whether its 文件编号 (file number) cell is filled.
 */
module Annotator {
  import opened Wrappers
  import opened Text
  import opened Plans
  import opened Matching
  import opened Sheet

  /** Header of the appended provenance column ("data source"). */
  const SourceHeader: string := "数据来源"

  /** Header of the file-number column. */
  const FileNumberHeader: string := "文件编号"

  /** Header of folder level `level`: "1级文件夹" .. "6级文件夹". */
  function FolderHeader(level: nat): string
    requires 1 <= level <= 6
  {
    [DigitChar(level)] + "级文件夹"
  }

  /** `columns.index(name) + 1` when the header list has the name. */
  function ColumnIndex(columns: seq<string>, name: string): (r: Option<nat>)
    ensures r.None? <==> name !in columns
    ensures r.Some? ==> 1 <= r.value <= |columns| && columns[r.value - 1] == name && name !in columns[..r.value - 1]
  {
    if columns == [] then None
    else if columns[0] == name then Some(1)
    else
      match ColumnIndex(columns[1..], name)
      case None => None
      case Some(k) =>
        assert columns[..k] == [columns[0]] + columns[1..][..k - 1];
        Some(k + 1)
  }

  /**
   * Where the routine reads and writes: the column of each folder level
   * (None when the header is missing), the file-number column, and the
   * provenance column one past the last header.
   */
  datatype Layout = Layout(folders: seq<Option<nat>>, number: Option<nat>, source: nat)

  function LayoutOf(columns: seq<string>): Layout {
    Layout(seq(6, i requires 0 <= i < 6 => ColumnIndex(columns, FolderHeader(i + 1))),
           ColumnIndex(columns, FileNumberHeader),
           |columns| + 1)
  }

  /** The column lookup loop over levels 1..6, then the file-number and provenance columns. */
  method LocateColumns(columns: seq<string>) returns (layout: Layout)
    ensures layout == LayoutOf(columns)
  {
    var folders: seq<Option<nat>> := [];
    for level := 1 to 7
      invariant |folders| == level - 1
      invariant forall i :: 0 <= i < level - 1 ==> folders[i] == ColumnIndex(columns, FolderHeader(i + 1))
    {
      if FolderHeader(level) in columns {
        folders := folders + [ColumnIndex(columns, FolderHeader(level))];
      } else {
        folders := folders + [None];
      }
    }
    var number := if FileNumberHeader in columns then ColumnIndex(columns, FileNumberHeader) else None;
    layout := Layout(folders, number, |columns| + 1);
  }

  /** Every column the routine reads lies left of the provenance column. */
  lemma LayoutReadsBeforeSource(columns: seq<string>)
    ensures forall i :: 0 <= i < 6 && LayoutOf(columns).folders[i].Some? ==>
      1 <= LayoutOf(columns).folders[i].value < LayoutOf(columns).source
    ensures LayoutOf(columns).number.Some? ==> 1 <= LayoutOf(columns).number.value < LayoutOf(columns).source
  {
  }

  /** The tokens a trimmed folder cell may hold and still be skipped. */
  predicate IsPlaceholder(t: string) {
    t == "" || t == "/" || t == "//" || t == "///"
  }

  /** A folder cell's trimmed text, unless the cell is blank or a placeholder. */
  function Segment(v: Option<string>): Option<string> {
    match v
    case None => None
    case Some(s) => if s != [] && !IsPlaceholder(Strip(s)) then Some(Strip(s)) else None
  }

  /** The path segment folder level `i` (0-based) contributes to a row's path, if any. */
  function SegmentAt(layout: Layout, row: seq<Cell>, i: nat): Option<string>
    requires i < |layout.folders|
  {
    if layout.folders[i].Some? then Segment(RowCell(row, layout.folders[i].value).value) else None
  }

  /** The segments of the first `n` folder levels, in level order. */
  function Segments(layout: Layout, row: seq<Cell>, n: nat): seq<string>
    requires n <= |layout.folders|
  {
    if n == 0 then []
    else
      var seg := SegmentAt(layout, row, n - 1);
      Segments(layout, row, n - 1) + (if seg.Some? then [seg.value] else [])
  }

  /** The built path of a row: its segments joined with "/". */
  function BuiltPath(layout: Layout, row: seq<Cell>): string {
    Join(Segments(layout, row, |layout.folders|), "/")
  }

  /** The path-building loop over the folder levels. */
  method BuildPath(layout: Layout, row: seq<Cell>) returns (path: string)
    ensures path == BuiltPath(layout, row)
  {
    var parts: seq<string> := [];
    for i := 0 to |layout.folders|
      invariant parts == Segments(layout, row, i)
    {
      ghost var seg := SegmentAt(layout, row, i);
      assert Segments(layout, row, i + 1) == parts + (if seg.Some? then [seg.value] else []);
      if layout.folders[i].Some? {
        var val := RowCell(row, layout.folders[i].value).value;
        if val.Some? && val.value != [] {
          var text := Strip(val.value);
          if !IsPlaceholder(text) {
            parts := parts + [text];
          }
        }
      }
    }
    path := if parts != [] then Join(parts, "/") else [];
  }

  /** Every segment is non-empty, already trimmed and not a slash placeholder. */
  lemma {:induction false} SegmentsClean(layout: Layout, row: seq<Cell>, n: nat)
    requires n <= |layout.folders|
    ensures forall k :: 0 <= k < |Segments(layout, row, n)| ==>
      var p := Segments(layout, row, n)[k]; p != [] && Strip(p) == p && !IsPlaceholder(p)
  {
    if n > 0 {
      SegmentsClean(layout, row, n - 1);
      var seg := SegmentAt(layout, row, n - 1);
      if seg.Some? {
        StripIdempotent(RowCell(row, layout.folders[n - 1].value).value.value);
      }
    }
  }

  /** There are no segments exactly when no folder level contributes one. */
  lemma {:induction false} SegmentsEmptyIff(layout: Layout, row: seq<Cell>, n: nat)
    requires n <= |layout.folders|
    ensures Segments(layout, row, n) == [] <==> forall i :: 0 <= i < n ==> SegmentAt(layout, row, i).None?
  {
    if n > 0 {
      SegmentsEmptyIff(layout, row, n - 1);
    }
  }

  /** The built path is empty exactly when every folder level is missing, blank or a placeholder. */
  lemma BuiltPathEmptyIff(layout: Layout, row: seq<Cell>)
    ensures BuiltPath(layout, row) == [] <==> forall i :: 0 <= i < |layout.folders| ==> SegmentAt(layout, row, i).None?
  {
    var n := |layout.folders|;
    SegmentsClean(layout, row, n);
    JoinEmptyIff(Segments(layout, row, n), "/");
    SegmentsEmptyIff(layout, row, n);
  }

  /** Two rows that read the same in every column build the same segments. */
  lemma {:induction false} SegmentsSameCells(layout: Layout, row1: seq<Cell>, row2: seq<Cell>, n: nat)
    requires n <= |layout.folders|
    requires forall col :: RowCell(row1, col) == RowCell(row2, col)
    ensures Segments(layout, row1, n) == Segments(layout, row2, n)
  {
    if n > 0 {
      SegmentsSameCells(layout, row1, row2, n - 1);
      if layout.folders[n - 1].Some? {
        var col := layout.folders[n - 1].value;
        assert RowCell(row1, col) == RowCell(row2, col);
      }
      assert SegmentAt(layout, row1, n - 1) == SegmentAt(layout, row2, n - 1);
    }
  }

  /** True unless a file-number column exists and its trimmed value is non-empty. */
  function NumberEmpty(layout: Layout, row: seq<Cell>): bool {
    match layout.number
    case None => true
    case Some(col) =>
      match RowCell(row, col).value
      case None => true
      case Some(s) => !(s != [] && Strip(s) != [])
  }

  /** The file number counts as empty exactly when there is no such column, or its cell is blank or all whitespace. */
  lemma NumberEmptyIff(layout: Layout, row: seq<Cell>)
    ensures NumberEmpty(layout, row) <==>
      || layout.number.None?
      || RowCell(row, layout.number.value).value.None?
      || forall k :: 0 <= k < |RowCell(row, layout.number.value).value.value| ==>
           IsSpace(RowCell(row, layout.number.value).value.value[k])
  {
    if layout.number.Some? && RowCell(row, layout.number.value).value.Some? {
      StripEmptyIff(RowCell(row, layout.number.value).value.value);
    }
  }

  /** The provenance note: "文件1第{index}行: {file_name}" ("file 1 row {index}: {file name}"). */
  function Provenance(rec: PlanRecord): string {
    "文件1第" + DecimalString(rec.index) + "行: " + rec.fileName
  }

  /** Digits followed by a non-digit: the digits are determined by the string. */
  lemma {:induction false} DigitRunUnique(d1: string, c1: char, t1: string, d2: string, c2: char, t2: string)
    requires forall k :: 0 <= k < |d1| ==> IsDigit(d1[k])
    requires forall k :: 0 <= k < |d2| ==> IsDigit(d2[k])
    requires !IsDigit(c1) && !IsDigit(c2)
    requires d1 + [c1] + t1 == d2 + [c2] + t2
    ensures d1 == d2 && t1 == t2
  {
    var s1, s2 := d1 + [c1] + t1, d2 + [c2] + t2;
    var k := if |d1| <= |d2| then |d1| else |d2|;
    assert IsDigit(s1[k]) <==> k < |d1|;
    assert IsDigit(s2[k]) <==> k < |d2|;
    assert d1 == s1[..|d1|] && d2 == s2[..|d2|];
    assert t1 == s1[|d1| + 1..] && t2 == s2[|d2| + 1..];
  }

  /** The provenance note identifies its record: different plan records never give the same note. */
  lemma ProvenanceInjective(a: PlanRecord, b: PlanRecord)
    requires Provenance(a) == Provenance(b)
    ensures a == b
  {
    var pre := "文件1第";
    var da, db := DecimalString(a.index), DecimalString(b.index);
    var ta, tb := ": " + a.fileName, ": " + b.fileName;
    assert Provenance(a) == pre + (da + ['行'] + ta);
    assert Provenance(b) == pre + (db + ['行'] + tb);
    assert da + ['行'] + ta == Provenance(a)[|pre|..];
    assert db + ['行'] + tb == Provenance(b)[|pre|..];
    DigitRunUnique(da, '行', ta, db, '行', tb);
    DecimalInjective(a.index, b.index);
    assert a.fileName == ta[2..] && b.fileName == tb[2..];
  }

  /** How one copy of the routine annotates: fill span, provenance column, colour of an empty file number. */
  datatype Span = FullSpan | ShortByOne
  datatype Style = Style(span: Span, provenance: bool, emptyColor: Color)

  /** The last column filled: `max_column`, or one short of it for `range(1, ws.max_column)`. */
  function FillEnd(width: nat, style: Style): nat {
    if style.span == FullSpan || width == 0 then width else width - 1
  }

  /** The decision for a matched row: the plan it matched and whether its file number is empty. */
  datatype Mark = Mark(record: PlanRecord, numberEmpty: bool)

  function ColorOf(m: Mark, style: Style): Color {
    if m.numberEmpty then style.emptyColor else Yellow
  }

  /** What the routine decides for one data row; None leaves the row untouched. */
  function MarkOf(plans: PlanMap, layout: Layout, row: seq<Cell>): Option<Mark> {
    var path := BuiltPath(layout, row);
    var matched := Match(plans, path);
    if matched.Some? && path != [] then Some(Mark(matched.value, NumberEmpty(layout, row))) else None
  }

  /** Two rows that read the same in every column get the same decision. */
  lemma MarkOfSameCells(plans: PlanMap, layout: Layout, row1: seq<Cell>, row2: seq<Cell>)
    requires forall col :: RowCell(row1, col) == RowCell(row2, col)
    ensures MarkOf(plans, layout, row1) == MarkOf(plans, layout, row2)
  {
    SegmentsSameCells(layout, row1, row2, |layout.folders|);
  }

  /** A row whose built path is empty is never matched. */
  lemma EmptyPathUnmarked(plans: PlanMap, layout: Layout, row: seq<Cell>)
    requires forall i :: 0 <= i < |layout.folders| ==> SegmentAt(layout, row, i).None?
    ensures MarkOf(plans, layout, row).None?
  {
    BuiltPathEmptyIff(layout, row);
  }

  /** `range(1, last + 1)` of a row filled with `f`. */
  function FilledRow(row: seq<Cell>, last: nat, f: Fill): (r: seq<Cell>)
    requires last <= |row|
    ensures |r| == |row|
  {
    seq(|row|, i requires 0 <= i < |row| => if i < last then row[i].(fill := f) else row[i])
  }

  /** One row after the routine handled it. */
  function AnnotatedRow(row: seq<Cell>, mark: Option<Mark>, style: Style, source: nat, last: nat): (r: seq<Cell>)
    requires last <= |row|
    requires style.provenance ==> 1 <= source <= |row|
    ensures |r| == |row|
  {
    match mark
    case None => row
    case Some(m) =>
      var noted := if style.provenance then row[source - 1 := row[source - 1].(value := Some(Provenance(m.record)))] else row;
      FilledRow(noted, last, Solid(ColorOf(m, style)))
  }

  /** The sheet after the header write: the provenance header in row 1, one past the last header. */
  function Headered(g: Grid, columns: seq<string>, style: Style): (h: Grid)
    requires Rectangular(g)
    ensures Rectangular(h) && |h| == |g|
    ensures Width(h) == if style.provenance && Width(g) < |columns| + 1 then |columns| + 1 else Width(g)
  {
    if style.provenance then WithValue(g, 1, |columns| + 1, Some(SourceHeader)) else g
  }

  /** The headered sheet with data rows 2..n (1-based) annotated; decisions are read from the original rows. */
  function AnnotatedUpTo(g: Grid, columns: seq<string>, plans: PlanMap, style: Style, n: nat): (a: Grid)
    requires Rectangular(g)
    ensures |a| == |g|
  {
    var h := Headered(g, columns, style);
    var layout := LayoutOf(columns);
    var last := FillEnd(Width(h), style);
    seq(|h|, i requires 0 <= i < |h| =>
      if 1 <= i < n then AnnotatedRow(h[i], MarkOf(plans, layout, g[i]), style, layout.source, last) else h[i])
  }

  /** The worksheet after the routine's row loop. */
  function Annotated(g: Grid, columns: seq<string>, plans: PlanMap, style: Style): Grid
    requires Rectangular(g)
  {
    AnnotatedUpTo(g, columns, plans, style, |g|)
  }

  /** The decision for each data row (rows 2..max_row), in order. */
  function Marks(g: Grid, columns: seq<string>, plans: PlanMap): (ms: seq<Option<Mark>>)
    requires |g| >= 1
    ensures |ms| == |g| - 1
  {
    seq(|g| - 1, i requires 0 <= i < |g| - 1 => MarkOf(plans, LayoutOf(columns), g[i + 1]))
  }

  /** Matched rows whose file number is empty (`numberEmpty`) or filled (`!numberEmpty`). */
  function CountMarked(ms: seq<Option<Mark>>, numberEmpty: bool): nat {
    if ms == [] then 0
    else
      var m := ms[|ms| - 1];
      CountMarked(ms[..|ms| - 1], numberEmpty) + (if m.Some? && m.value.numberEmpty == numberEmpty then 1 else 0)
  }

  /** Matched rows. */
  function MarkedRows(ms: seq<Option<Mark>>): nat {
    if ms == [] then 0 else MarkedRows(ms[..|ms| - 1]) + (if ms[|ms| - 1].Some? then 1 else 0)
  }

  /** Every matched row increments exactly one of the two counters, so together they never exceed the data rows. */
  lemma {:induction false} CountsPartition(ms: seq<Option<Mark>>)
    ensures CountMarked(ms, false) + CountMarked(ms, true) == MarkedRows(ms) <= |ms|
  {
    if ms != [] {
      CountsPartition(ms[..|ms| - 1]);
    }
  }

  /** The annotated sheet keeps its rows; it is one column wider only when the provenance column lies past the old last column. */
  lemma AnnotatedShape(g: Grid, columns: seq<string>, plans: PlanMap, style: Style)
    requires Rectangular(g)
    ensures var a := Annotated(g, columns, plans, style);
      Rectangular(a) && |a| == |g| &&
      Width(a) == if style.provenance && Width(g) < |columns| + 1 then |columns| + 1 else Width(g)
  {
    var h := Headered(g, columns, style);
    var a := Annotated(g, columns, plans, style);
    forall i | 0 <= i < |a| ensures |a[i]| == |h[i]| {
    }
  }

  /** Row 1 changes only by the provenance header, one past the last header. */
  lemma HeaderRowOnlyGetsHeader(g: Grid, columns: seq<string>, plans: PlanMap, style: Style, col: int)
    requires Rectangular(g)
    ensures CellAt(Annotated(g, columns, plans, style), 1, col) ==
      if style.provenance && col == |columns| + 1 then CellAt(g, 1, col).(value := Some(SourceHeader)) else CellAt(g, 1, col)
  {
    var h := Headered(g, columns, style);
    assert Annotated(g, columns, plans, style)[0] == h[0];
    assert CellAt(h, 1, col) == CellAt(Annotated(g, columns, plans, style), 1, col);
  }

  /** A data row the matcher rejects (including every row with an empty path) is left exactly as it was. */
  lemma UnmatchedRowUnchanged(g: Grid, columns: seq<string>, plans: PlanMap, style: Style, r: nat, col: int)
    requires Rectangular(g) && 2 <= r <= |g|
    requires MarkOf(plans, LayoutOf(columns), g[r - 1]).None?
    ensures CellAt(Annotated(g, columns, plans, style), r, col) == CellAt(g, r, col)
  {
    var h := Headered(g, columns, style);
    var a := Annotated(g, columns, plans, style);
    assert a[r - 1] == h[r - 1];
    assert CellAt(h, r, col) == CellAt(g, r, col);
  }

  /**
   * A matched data row gets the provenance note of its plan in the provenance
   * column (when the copy writes one) and the colour of its mark on columns
   * 1..FillEnd; every other value and fill is kept.
   */
  lemma MatchedRowCells(g: Grid, columns: seq<string>, plans: PlanMap, style: Style, r: nat, col: int)
    requires Rectangular(g) && 2 <= r <= |g|
    requires MarkOf(plans, LayoutOf(columns), g[r - 1]).Some?
    ensures var a := Annotated(g, columns, plans, style);
      var m := MarkOf(plans, LayoutOf(columns), g[r - 1]).value;
      Rectangular(a) &&
      (1 <= col <= Width(a) ==> CellAt(a, r, col) == Cell(
        if style.provenance && col == |columns| + 1 then Some(Provenance(m.record)) else CellAt(g, r, col).value,
        if col <= FillEnd(Width(a), style) then Solid(ColorOf(m, style)) else CellAt(g, r, col).fill))
  {
    AnnotatedShape(g, columns, plans, style);
    var h := Headered(g, columns, style);
    var a := Annotated(g, columns, plans, style);
    var layout := LayoutOf(columns);
    var m := MarkOf(plans, layout, g[r - 1]);
    if 1 <= col <= Width(a) {
      var hRow := h[r - 1];
      assert |hRow| == Width(h) == Width(a);
      assert a[r - 1] == AnnotatedRow(hRow, m, style, layout.source, FillEnd(Width(h), style));
      AnnotatedRowCell(hRow, m.value, style, layout.source, FillEnd(Width(h), style), col);
      assert CellAt(h, r, col) == CellAt(g, r, col);
    }
  }

  /** One cell of a matched row after annotation. */
  lemma AnnotatedRowCell(row: seq<Cell>, m: Mark, style: Style, source: nat, last: nat, col: int)
    requires last <= |row|
    requires style.provenance ==> 1 <= source <= |row|
    requires 1 <= col <= |row|
    ensures RowCell(AnnotatedRow(row, Some(m), style, source, last), col) == Cell(
      if style.provenance && col == source then Some(Provenance(m.record)) else RowCell(row, col).value,
      if col <= last then Solid(ColorOf(m, style)) else RowCell(row, col).fill)
  {
  }

  /** Counting one more decision adds one exactly when it is a match of the counted kind. */
  lemma CountMarkedStep(ms: seq<Option<Mark>>, n: nat, numberEmpty: bool)
    requires n < |ms|
    ensures CountMarked(ms[..n + 1], numberEmpty) ==
      CountMarked(ms[..n], numberEmpty) + (if ms[n].Some? && ms[n].value.numberEmpty == numberEmpty then 1 else 0)
  {
    assert ms[..n + 1][..n] == ms[..n];
  }

  /** Yellow and flagged rows together are the matched rows, never more than the data rows. */
  lemma CountsBound(g: Grid, columns: seq<string>, plans: PlanMap)
    requires |g| >= 1
    ensures var ms := Marks(g, columns, plans);
      CountMarked(ms, false) + CountMarked(ms, true) == MarkedRows(ms) <= |g| - 1
  {
    CountsPartition(Marks(g, columns, plans));
  }

  /** The fill loop: `for col_idx in range(1, last + 1): ws.cell(row, col_idx).fill = f`. */
  method FillRow(ws: Worksheet, row: nat, last: nat, f: Fill)
    requires ws.Valid() && 1 <= row <= ws.MaxRow() && last <= ws.MaxColumn()
    modifies ws
    ensures ws.Valid()
    ensures ws.grid == old(ws.grid)[row - 1 := FilledRow(old(ws.grid)[row - 1], last, f)]
  {
    ghost var g := ws.grid;
    assert FilledRow(g[row - 1], 0, f) == g[row - 1];
    for col := 1 to last + 1
      invariant ws.Valid() && |ws.grid| == |g| && Width(ws.grid) == Width(g)
      invariant ws.grid == g[row - 1 := FilledRow(g[row - 1], col - 1, f)]
    {
      ws.SetFill(row, col, f);
      assert ws.grid[row - 1] == FilledRow(g[row - 1], col, f);
    }
  }

  /** The header write does not change what the routine decides for a data row. */
  lemma HeaderedSameMark(g: Grid, columns: seq<string>, plans: PlanMap, style: Style, i: nat)
    requires Rectangular(g) && 1 <= i < |g|
    ensures MarkOf(plans, LayoutOf(columns), Headered(g, columns, style)[i]) == MarkOf(plans, LayoutOf(columns), g[i])
  {
    var h := Headered(g, columns, style);
    var hRow, gRow := h[i], g[i];
    forall col ensures RowCell(hRow, col) == RowCell(gRow, col) {
      assert CellAt(h, i + 1, col) == CellAt(g, i + 1, col);
    }
    MarkOfSameCells(plans, LayoutOf(columns), hRow, gRow);
  }

  /** Before the row loop, only the header has been written. */
  lemma AnnotatedUpToStart(g: Grid, columns: seq<string>, plans: PlanMap, style: Style)
    requires Rectangular(g)
    ensures AnnotatedUpTo(g, columns, plans, style, 1) == Headered(g, columns, style)
  {
  }

  /**
   * Each step of the row loop annotates one more row: row `n` (0-based) of
   * the partly annotated sheet is still the headered row, and the decision
   * read from it is the one read from the original row.
   */
  lemma AnnotatedUpToStep(g: Grid, columns: seq<string>, plans: PlanMap, style: Style, n: nat)
    requires Rectangular(g) && 1 <= n < |g|
    ensures var prev := AnnotatedUpTo(g, columns, plans, style, n);
      var h := Headered(g, columns, style);
      && prev[n] == h[n]
      && MarkOf(plans, LayoutOf(columns), prev[n]) == MarkOf(plans, LayoutOf(columns), g[n])
      && AnnotatedUpTo(g, columns, plans, style, n + 1) ==
         prev[n := AnnotatedRow(prev[n], MarkOf(plans, LayoutOf(columns), prev[n]), style, LayoutOf(columns).source, FillEnd(Width(h), style))]
  {
    HeaderedSameMark(g, columns, plans, style, n);
  }

  /**
   * The body of the row loop for row `r`: build the path, match it, and for a
   * matched row write the provenance note (when the copy has one) and fill
   * the row. Returns the decision so the caller can count it.
   */
  method HandleRow(ws: Worksheet, r: nat, layout: Layout, plans: PlanMap, style: Style, last: nat) returns (mark: Option<Mark>)
    requires ws.Valid() && 2 <= r <= ws.MaxRow() && last <= ws.MaxColumn()
    requires style.provenance ==> 1 <= layout.source <= ws.MaxColumn()
    modifies ws
    ensures ws.Valid() && |ws.grid| == |old(ws.grid)| && Width(ws.grid) == Width(old(ws.grid))
    ensures mark == MarkOf(plans, layout, old(ws.grid)[r - 1])
    ensures ws.grid == old(ws.grid)[r - 1 := AnnotatedRow(old(ws.grid)[r - 1], mark, style, layout.source, last)]
  {
    var row := ws.grid[r - 1];
    var path := BuildPath(layout, row);
    var matched := FindMatch(plans, path);
    mark := None;
    if matched.Some? && path != [] {
      mark := Some(Mark(matched.value, NumberEmpty(layout, row)));
      MarkRow(ws, r, mark.value, style, layout.source, last);
    }
  }

  /** The writes for a matched row: the provenance note (when the copy has one), then the fill loop in the mark's colour. */
  method MarkRow(ws: Worksheet, r: nat, m: Mark, style: Style, source: nat, last: nat)
    requires ws.Valid() && 1 <= r <= ws.MaxRow() && last <= ws.MaxColumn()
    requires style.provenance ==> 1 <= source <= ws.MaxColumn()
    modifies ws
    ensures ws.Valid() && |ws.grid| == |old(ws.grid)| && Width(ws.grid) == Width(old(ws.grid))
    ensures ws.grid == old(ws.grid)[r - 1 := AnnotatedRow(old(ws.grid)[r - 1], Some(m), style, source, last)]
  {
    ghost var g := ws.grid;
    ghost var row := g[r - 1];
    ghost var noted := if style.provenance then row[source - 1 := row[source - 1].(value := Some(Provenance(m.record)))] else row;
    if style.provenance {
      ws.SetValue(r, source, Some(Provenance(m.record)));
    }
    assert ws.grid == g[r - 1 := noted];
    if m.numberEmpty {
      FillRow(ws, r, last, Solid(style.emptyColor));
    } else {
      FillRow(ws, r, last, Solid(Yellow));
    }
  }

  /**
   * The row loop of the routine: writes the provenance header (when the
   * copy has one), then builds, matches and annotates rows 2..max_row.
   * Returns the yellow count and the count of matched rows with an empty
   * file number (orange, or red in the copy without provenance).
   */
  method Annotate(ws: Worksheet, columns: seq<string>, plans: PlanMap, style: Style) returns (yellow: nat, flagged: nat)
    requires ws.Valid()
    modifies ws
    ensures ws.Valid()
    ensures ws.grid == Annotated(old(ws.grid), columns, plans, style)
    ensures yellow == CountMarked(Marks(old(ws.grid), columns, plans), false)
    ensures flagged == CountMarked(Marks(old(ws.grid), columns, plans), true)
  {
    ghost var g := ws.grid;
    var layout := LocateColumns(columns);
    if style.provenance {
      ws.SetValue(1, layout.source, Some(SourceHeader));
    }
    assert ws.grid == Headered(g, columns, style);
    yellow, flagged := AnnotateRows(ws, g, columns, layout, plans, style);
  }

  /** The row loop proper, over rows 2..max_row of the headered sheet. */
  method AnnotateRows(ws: Worksheet, ghost g: Grid, columns: seq<string>, layout: Layout, plans: PlanMap, style: Style)
    returns (yellow: nat, flagged: nat)
    requires Rectangular(g) && ws.Valid() && ws.grid == Headered(g, columns, style) && layout == LayoutOf(columns)
    modifies ws
    ensures ws.Valid()
    ensures ws.grid == Annotated(g, columns, plans, style)
    ensures yellow == CountMarked(Marks(g, columns, plans), false)
    ensures flagged == CountMarked(Marks(g, columns, plans), true)
  {
    ghost var h := ws.grid;
    var total := ws.MaxRow();
    var last := FillEnd(ws.MaxColumn(), style);
    yellow, flagged := 0, 0;
    ghost var ms := Marks(g, columns, plans);
    AnnotatedUpToStart(g, columns, plans, style);
    for r := 2 to total + 1
      invariant ws.Valid() && |ws.grid| == |h| && Width(ws.grid) == Width(h)
      invariant ws.grid == AnnotatedUpTo(g, columns, plans, style, r - 1)
      invariant yellow == CountMarked(ms[..r - 2], false)
      invariant flagged == CountMarked(ms[..r - 2], true)
    {
      AnnotatedUpToStep(g, columns, plans, style, r - 1);
      var mark := HandleRow(ws, r, layout, plans, style, last);
      assert ms[r - 2] == mark;
      CountMarkedStep(ms, r - 2, false);
      CountMarkedStep(ms, r - 2, true);
      if mark.Some? {
        if mark.value.numberEmpty {
          flagged := flagged + 1;
        } else {
          yellow := yellow + 1;
        }
      }
    }
    assert ms[..total - 1] == ms;
  }
}
