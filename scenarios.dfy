/**
 * Worked examples: one plan row for path "A/B" named "doc1", and a sheet
 * with the folder levels 1 and 2 and a file-number column.
 */
module Scenarios {
  import opened Wrappers
  import opened Text
  import opened Plans
  import opened Matching
  import opened Sheet
  import opened Annotator

  const PlanRows: seq<PlanRow> := [PlanRow(Some("yes"), Some("A/B"), Some("doc1"))]
  const Headers: seq<string> := ["1级文件夹", "2级文件夹", "文件编号"]

  function HeaderCells(): seq<Cell> {
    [Cell(Some("1级文件夹"), Unfilled), Cell(Some("2级文件夹"), Unfilled), Cell(Some("文件编号"), Unfilled)]
  }

  /** A data row with the given folder values and file number. */
  function DataRow(level1: string, level2: string, number: string): seq<Cell> {
    [Cell(Some(level1), Unfilled), Cell(Some(level2), Unfilled), Cell(Some(number), Unfilled)]
  }

  /** Levels 1 and 2 sit in the first two columns of the sample headers; levels 3..6 are absent. */
  lemma LevelColumn(level: nat)
    requires 1 <= level <= 6
    ensures ColumnIndex(Headers, FolderHeader(level)) == if level <= 2 then Some(level) else None
  {
    var h := FolderHeader(level);
    assert h[0] as int - '0' as int == level;
    assert |h| == 5 && |Headers[2]| == 4;
    assert h != Headers[2];
    if level == 1 {
      assert h == Headers[0];
    } else {
      assert h[0] != Headers[0][0];
      if level == 2 {
        assert h == Headers[1];
        assert Headers[1..][0] == h;
      } else {
        assert h[0] != Headers[1][0];
      }
    }
  }

  lemma HeadersLayout()
    ensures LayoutOf(Headers) == Layout([Some(1), Some(2), None, None, None, None], Some(3), 4)
  {
    var fs := LayoutOf(Headers).folders;
    forall i | 0 <= i < 6
      ensures fs[i] == if i < 2 then Some(i + 1) else None
    {
      LevelColumn(i + 1);
    }
    assert fs == [Some(1), Some(2), None, None, None, None];
    NumberColumn();
  }

  /** The file-number column is the third column of the sample headers. */
  lemma NumberColumn()
    ensures ColumnIndex(Headers, FileNumberHeader) == Some(3)
  {
    assert FileNumberHeader[0] != Headers[0][0] && FileNumberHeader[0] != Headers[1][0];
    assert Headers[1..][1..][0] == FileNumberHeader;
  }

  /** The plan map of the sample: the path "A/B" planned in spreadsheet row 2 as "doc1". */
  const SamplePlans: PlanMap := [("A/B", PlanRecord(2, "doc1"))]

  /** The single planned row becomes the entry "A/B" for spreadsheet row 2, and it is pending. */
  lemma ScenarioPlans()
    ensures PlanMapOf(PlanRows) == SamplePlans
    ensures PlannedCount(PlanRows) == 1
  {
    assert PlanRows[..0] == [];
    assert Strip("A/B") == "A/B" by { StripFixed("A/B"); }
    assert Normalize("A/B") == "A/B";
  }

  const SampleLayout: Layout := Layout([Some(1), Some(2), None, None, None, None], Some(3), 4)

  /** A one-letter folder cell that is neither whitespace nor a slash is its own segment. */
  lemma TrimmedSegment(v: string)
    requires |v| == 1 && !IsSpace(v[0]) && v[0] != '/'
    ensures Segment(Some(v)) == Some(v)
  {
    StripFixed(v);
    assert v != "/";
  }

  lemma SampleFirstTwo(number: string)
    ensures Segments(SampleLayout, DataRow("A", "B", number), 2) == ["A", "B"]
  {
    SampleFirst(number);
    SampleSecond(number);
  }

  lemma SampleSecond(number: string)
    ensures SegmentAt(SampleLayout, DataRow("A", "B", number), 1) == Some("B")
  {
    var layout, row := SampleLayout, DataRow("A", "B", number);
    assert layout.folders[1] == Some(2);
    assert RowCell(row, 2).value == Some("B");
    TrimmedSegment("B");
  }

  lemma SampleFirst(number: string)
    ensures Segments(SampleLayout, DataRow("A", "B", number), 1) == ["A"]
  {
    var layout, row := SampleLayout, DataRow("A", "B", number);
    assert layout.folders[0] == Some(1);
    assert RowCell(row, 1).value == Some("A");
    TrimmedSegment("A");
    assert SegmentAt(layout, row, 0) == Some("A");
  }

  /** Levels 3..6 have no column in the sample headers, so they add nothing. */
  lemma {:induction false} SampleLaterLevels(row: seq<Cell>, n: nat)
    requires 2 <= n <= 6
    ensures Segments(SampleLayout, row, n) == Segments(SampleLayout, row, 2)
  {
    if n > 2 {
      SampleLaterLevels(row, n - 1);
      assert SampleLayout.folders[n - 1].None?;
    }
  }

  lemma SampleSegments(number: string)
    ensures Segments(SampleLayout, DataRow("A", "B", number), 6) == ["A", "B"]
  {
    SampleLaterLevels(DataRow("A", "B", number), 6);
    SampleFirstTwo(number);
  }

  lemma SampleRowPath(number: string)
    ensures BuiltPath(SampleLayout, DataRow("A", "B", number)) == "A/B"
  {
    SampleSegments(number);
    assert Join(["A", "B"], "/") == "A/B";
  }

  /** A row whose folders build "A/B" is an exact match; its mark records whether the file number is blank. */
  lemma ScenarioExactMatch(number: string)
    ensures BuiltPath(LayoutOf(Headers), DataRow("A", "B", number)) == "A/B"
    ensures MarkOf(SamplePlans, LayoutOf(Headers), DataRow("A", "B", number)) ==
      Some(Mark(PlanRecord(2, "doc1"), Strip(number) == []))
  {
    HeadersLayout();
    SampleRowPath(number);
    assert SamplePlans[0].0 == "A/B";
    assert HasKey(SamplePlans, "A/B");
  }

  /** The provenance note of that plan reads "文件1第2行: doc1". */
  lemma ScenarioProvenance()
    ensures Provenance(PlanRecord(2, "doc1")) == "文件1第2行: doc1"
  {
    assert DecimalString(2) == "2";
  }

  /** The sample sheet: the header row and one data row with folders "A", "B" and the given file number. */
  function SampleSheet(number: string): Grid {
    [HeaderCells(), DataRow("A", "B", number)]
  }

  /** The sample sheet has one data row, and it matches the plan of spreadsheet row 2. */
  lemma SampleMarks(number: string)
    ensures Marks(SampleSheet(number), Headers, SamplePlans) == [Some(Mark(PlanRecord(2, "doc1"), Strip(number) == []))]
  {
    ScenarioExactMatch(number);
    var ms := Marks(SampleSheet(number), Headers, SamplePlans);
    assert |ms| == 1;
    assert ms[0] == MarkOf(SamplePlans, LayoutOf(Headers), DataRow("A", "B", number));
  }

  /** The same decision, with the plan map loaded from the sample plan rows. */
  lemma ScenarioMarks(number: string)
    ensures Marks(SampleSheet(number), Headers, PlanMapOf(PlanRows)) ==
      [Some(Mark(PlanRecord(2, "doc1"), Strip(number) == []))]
  {
    ScenarioPlans();
    SampleMarks(number);
  }

  lemma SingleCount(m: Mark, numberEmpty: bool)
    ensures CountMarked([Some(m)], numberEmpty) == if m.numberEmpty == numberEmpty then 1 else 0
  {
    assert [Some(m)][..0] == [];
  }

  /** The sample row counts as yellow when its file number is non-blank, and as flagged (orange) otherwise. */
  lemma SampleCounts(number: string)
    ensures var ms := Marks(SampleSheet(number), Headers, PlanMapOf(PlanRows));
      && CountMarked(ms, false) == (if Strip(number) == [] then 0 else 1)
      && CountMarked(ms, true) == (if Strip(number) == [] then 1 else 0)
  {
    ScenarioMarks(number);
    var m := Mark(PlanRecord(2, "doc1"), Strip(number) == []);
    SingleCount(m, false);
    SingleCount(m, true);
  }

  /** A row whose folders build "A/B/C" is matched through the key "A/B", a prefix of it. */
  lemma ScenarioPrefixMatch()
    ensures Match([("A/B", PlanRecord(2, "doc1"))], "A/B/C") == Some(PlanRecord(2, "doc1"))
  {
    var plans := [("A/B", PlanRecord(2, "doc1"))];
    MatchFirstRelated(plans, "A/B/C", 0);
  }
}
