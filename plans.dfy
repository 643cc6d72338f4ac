/**
 * The plan loader: the rows of the plan workbook (file 1) whose 上传计划
 * (upload plan) cell is filled become an insertion-ordered map from the
 * normalised 路径 (path) to the row number and 文件名称 (file name).
 */
module Plans {
  import opened Wrappers
  import opened Text

  /** One row of file 1; None is a blank (NaN) cell. */
  datatype PlanRow = PlanRow(plan: Option<string>, path: Option<string>, fileName: Option<string>)

  /** What the plan map stores for a path: the spreadsheet row number and the declared file name. */
  datatype PlanRecord = PlanRecord(index: nat, fileName: string)

  /** A Python dict from normalised path to record, in insertion order. */
  type PlanMap = seq<(string, PlanRecord)>

  function Keys(m: PlanMap): (ks: seq<string>)
    ensures |ks| == |m| && forall i :: 0 <= i < |m| ==> ks[i] == m[i].0
  {
    seq(|m|, i requires 0 <= i < |m| => m[i].0)
  }

  /** No key occurs twice, as in a dict. */
  predicate UniqueKeys(m: PlanMap) {
    forall i, j :: 0 <= i < j < |m| ==> m[i].0 != m[j].0
  }

  /** `k in m`. */
  predicate HasKey(m: PlanMap, k: string) {
    exists i :: 0 <= i < |m| && m[i].0 == k
  }

  /** `m.get(k)`. */
  function Lookup(m: PlanMap, k: string): (r: Option<PlanRecord>)
    ensures r.None? <==> !HasKey(m, k)
    ensures r.Some? ==> exists i :: 0 <= i < |m| && m[i] == (k, r.value)
  {
    if m == [] then None
    else if m[0].0 == k then Some(m[0].1)
    else
      var r := Lookup(m[1..], k);
      assert forall i :: 0 <= i < |m| - 1 ==> m[1..][i] == m[i + 1];
      assert HasKey(m, k) ==> HasKey(m[1..], k);
      r
  }

  /** In a map without repeated keys, the lookup of a stored key gives its stored record. */
  lemma LookupUnique(m: PlanMap, i: nat)
    requires UniqueKeys(m) && i < |m|
    ensures Lookup(m, m[i].0) == Some(m[i].1)
  {
  }

  /**
   * `m[k] = v`: a new key goes at the end, an existing key keeps its
   * position and gets the new value.
   */
  function Put(m: PlanMap, k: string, v: PlanRecord): (r: PlanMap)
    ensures |r| == if HasKey(m, k) then |m| else |m| + 1
  {
    if m == [] then [(k, v)]
    else if m[0].0 == k then [(k, v)] + m[1..]
    else
      HasKeyTail(m, k);
      [m[0]] + Put(m[1..], k, v)
  }

  /** `Put` keeps the order of the existing keys and appends a new key at the end. */
  lemma {:induction false} PutKeys(m: PlanMap, k: string, v: PlanRecord)
    ensures HasKey(m, k) ==> Keys(Put(m, k, v)) == Keys(m)
    ensures !HasKey(m, k) ==> Keys(Put(m, k, v)) == Keys(m) + [k]
  {
    if m != [] && m[0].0 != k {
      PutKeys(m[1..], k, v);
      HasKeyTail(m, k);
      KeysCons(m);
      KeysCons(Put(m, k, v));
    }
  }

  /** A key other than the first is in the map exactly when it is in the rest. */
  lemma HasKeyTail(m: PlanMap, k: string)
    requires m != [] && m[0].0 != k
    ensures HasKey(m, k) <==> HasKey(m[1..], k)
  {
    if HasKey(m, k) {
      var i :| 0 <= i < |m| && m[i].0 == k;
      assert m[1..][i - 1].0 == k;
    }
    if HasKey(m[1..], k) {
      var i :| 0 <= i < |m| - 1 && m[1..][i].0 == k;
      assert m[i + 1].0 == k;
    }
  }

  /** The keys of a non-empty map are its first key followed by the keys of the rest. */
  lemma KeysCons(m: PlanMap)
    requires m != []
    ensures Keys(m) == [m[0].0] + Keys(m[1..])
  {
    assert forall i :: 0 <= i < |m| - 1 ==> Keys(m[1..])[i] == m[i + 1].0;
  }

  /** After `Put`, the key gives the new record and every other key is unaffected. */
  lemma {:induction false} PutLookup(m: PlanMap, k: string, v: PlanRecord, k': string)
    ensures Lookup(Put(m, k, v), k') == if k' == k then Some(v) else Lookup(m, k')
  {
    if m != [] && m[0].0 != k {
      PutLookup(m[1..], k, v, k');
    }
  }

  /** `Put` never creates a repeated key. */
  lemma PutUnique(m: PlanMap, k: string, v: PlanRecord)
    requires UniqueKeys(m)
    ensures UniqueKeys(Put(m, k, v))
  {
    PutKeys(m, k, v);
    var r := Put(m, k, v);
    assert forall i :: 0 <= i < |r| ==> r[i].0 == Keys(r)[i];
    if !HasKey(m, k) {
      forall i | 0 <= i < |m| ensures r[i].0 != k {
        assert Keys(r)[i] == Keys(m)[i];
      }
    }
  }

  /** The row adds a map entry: it is planned and its path is a non-empty string. */
  predicate IsEntry(row: PlanRow) {
    row.plan.Some? && row.path.Some? && row.path.value != []
  }

  /** The record stored for the row at 0-based position `i` of file 1: header row plus 1-based numbering gives `i + 2`. */
  function RecordOf(row: PlanRow, i: nat): PlanRecord {
    PlanRecord(i + 2, row.fileName.GetOr([]))
  }

  /** A dict assignment `m[key] = record`, or nothing for a row that adds no entry. */
  type Write = Option<(string, PlanRecord)>

  /** The assignment the loader performs for the row at 0-based position `i`. */
  function WriteOf(row: PlanRow, i: nat): Write {
    if IsEntry(row) then Some((Normalize(row.path.value), RecordOf(row, i))) else None
  }

  /** The loader's assignments for the rows of file 1, in row order. */
  function Writes(rows: seq<PlanRow>): (ws: seq<Write>)
    ensures |ws| == |rows| && forall i :: 0 <= i < |rows| ==> ws[i] == WriteOf(rows[i], i)
  {
    seq(|rows|, i requires 0 <= i < |rows| => WriteOf(rows[i], i))
  }

  /** The assignments of a prefix of the rows are a prefix of the assignments. */
  lemma WritesPrefix(rows: seq<PlanRow>, n: nat)
    requires n <= |rows|
    ensures Writes(rows[..n]) == Writes(rows)[..n]
  {
  }

  function Apply(m: PlanMap, w: Write): PlanMap {
    if w.Some? then Put(m, w.value.0, w.value.1) else m
  }

  /** The dict after performing the assignments in order, starting from `{}`. */
  function Fold(ws: seq<Write>): PlanMap {
    if ws == [] then [] else Apply(Fold(ws[..|ws| - 1]), ws[|ws| - 1])
  }

  /** The plan map after the loader has read `rows`. */
  function PlanMapOf(rows: seq<PlanRow>): PlanMap {
    Fold(Writes(rows))
  }

  /** The assignment writes the key `k`. */
  predicate WritesKey(w: Write, k: string) {
    w.Some? && w.value.0 == k
  }

  /** Row `i` of file 1 writes the key `k`. */
  predicate KeyedAt(rows: seq<PlanRow>, i: nat, k: string)
    requires i < |rows|
  {
    IsEntry(rows[i]) && Normalize(rows[i].path.value) == k
  }

  /** `len(planned_rows)`: the rows whose upload-plan cell is filled. */
  function PlannedCount(rows: seq<PlanRow>): nat {
    if rows == [] then 0
    else PlannedCount(rows[..|rows| - 1]) + (if rows[|rows| - 1].plan.Some? then 1 else 0)
  }

  /** The number of rows that add a map entry. */
  function EntryCount(rows: seq<PlanRow>): nat {
    if rows == [] then 0
    else EntryCount(rows[..|rows| - 1]) + (if IsEntry(rows[|rows| - 1]) then 1 else 0)
  }

  /** The number of assignments actually performed. */
  function WriteCount(ws: seq<Write>): nat {
    if ws == [] then 0 else WriteCount(ws[..|ws| - 1]) + (if ws[|ws| - 1].Some? then 1 else 0)
  }

  /** Reading row `i` performs its assignment and counts it when it is planned. */
  lemma LoadStep(rows: seq<PlanRow>, i: nat)
    requires i < |rows|
    ensures Fold(Writes(rows)[..i + 1]) == Apply(Fold(Writes(rows)[..i]), WriteOf(rows[i], i))
    ensures PlannedCount(rows[..i + 1]) == PlannedCount(rows[..i]) + (if rows[i].plan.Some? then 1 else 0)
  {
    var ws := Writes(rows);
    assert ws[..i + 1][..i] == ws[..i];
    assert rows[..i + 1][..i] == rows[..i];
  }

  /** The loader loop: builds the plan map and counts the planned rows. */
  method LoadPlans(rows: seq<PlanRow>) returns (plans: PlanMap, pending: nat)
    ensures plans == PlanMapOf(rows)
    ensures pending == PlannedCount(rows)
  {
    plans, pending := [], 0;
    ghost var ws := Writes(rows);
    for i := 0 to |rows|
      invariant plans == Fold(ws[..i])
      invariant pending == PlannedCount(rows[..i])
    {
      LoadStep(rows, i);
      var row := rows[i];
      if row.plan.Some? {
        pending := pending + 1;
        if row.path.Some? && row.path.value != [] {
          plans := Put(plans, Normalize(row.path.value), RecordOf(row, i));
        }
      }
    }
    assert ws[..|rows|] == ws;
    assert rows[..|rows|] == rows;
  }

  /** Assignments never create a repeated key. */
  lemma {:induction false} FoldUniqueKeys(ws: seq<Write>)
    ensures UniqueKeys(Fold(ws))
  {
    if ws != [] {
      var n := |ws| - 1;
      FoldUniqueKeys(ws[..n]);
      if ws[n].Some? {
        PutUnique(Fold(ws[..n]), ws[n].value.0, ws[n].value.1);
      }
    }
  }

  /** The dict has at most one entry per assignment. */
  lemma {:induction false} FoldSize(ws: seq<Write>)
    ensures |Fold(ws)| <= WriteCount(ws)
  {
    if ws != [] {
      FoldSize(ws[..|ws| - 1]);
    }
  }

  /** A key is in the dict exactly when some assignment wrote it. */
  lemma {:induction false} FoldHasKey(ws: seq<Write>, k: string)
    ensures HasKey(Fold(ws), k) <==> exists i :: 0 <= i < |ws| && WritesKey(ws[i], k)
  {
    if ws != [] {
      var n := |ws| - 1;
      var prefix := ws[..n];
      FoldHasKey(prefix, k);
      var m := Fold(prefix);
      assert forall i :: 0 <= i < n ==> prefix[i] == ws[i];
      if ws[n].Some? {
        PutLookup(m, ws[n].value.0, ws[n].value.1, k);
        if WritesKey(ws[n], k) {
          assert Lookup(Fold(ws), k).Some?;
        } else {
          assert Lookup(Fold(ws), k) == Lookup(m, k);
        }
      }
    }
  }

  /** The record under a key is the one of the last assignment to it. */
  lemma {:induction false} FoldLastWins(ws: seq<Write>, i: nat, k: string)
    requires i < |ws| && WritesKey(ws[i], k)
    requires forall j :: i < j < |ws| ==> !WritesKey(ws[j], k)
    ensures Lookup(Fold(ws), k) == Some(ws[i].value.1)
  {
    var n := |ws| - 1;
    var prefix := ws[..n];
    var m := Fold(prefix);
    if i < n {
      assert forall j :: i < j < n ==> prefix[j] == ws[j];
      FoldLastWins(prefix, i, k);
      if ws[n].Some? {
        PutLookup(m, ws[n].value.0, ws[n].value.1, k);
      }
    } else {
      PutLookup(m, k, ws[n].value.1, k);
    }
  }

  /** Assignments only append keys: each key keeps the position of its first assignment. */
  lemma {:induction false} FoldKeysGrow(ws: seq<Write>, i: nat)
    requires i <= |ws|
    ensures Keys(Fold(ws[..i])) <= Keys(Fold(ws))
  {
    if i < |ws| {
      var n := |ws| - 1;
      var prefix := ws[..n];
      assert prefix[..i] == ws[..i];
      FoldKeysGrow(prefix, i);
      var m := Fold(prefix);
      if ws[n].Some? {
        PutKeys(m, ws[n].value.0, ws[n].value.1);
      }
      assert Keys(m) <= Keys(Fold(ws));
    } else {
      assert ws[..i] == ws;
    }
  }

  /** The rows that add an entry are the assignments performed, and they are among the planned rows. */
  lemma {:induction false} EntryCountBounds(rows: seq<PlanRow>)
    ensures WriteCount(Writes(rows)) == EntryCount(rows) <= PlannedCount(rows)
  {
    if rows != [] {
      var n := |rows| - 1;
      EntryCountBounds(rows[..n]);
      WritesPrefix(rows, n);
    }
  }

  /** The plan map never has two entries for one key. */
  lemma PlanMapUniqueKeys(rows: seq<PlanRow>)
    ensures UniqueKeys(PlanMapOf(rows))
  {
    FoldUniqueKeys(Writes(rows));
  }

  /** The map has at most one entry per row with a path, which is at most the pending count. */
  lemma PlanMapSize(rows: seq<PlanRow>)
    ensures |PlanMapOf(rows)| <= EntryCount(rows) <= PlannedCount(rows)
  {
    FoldSize(Writes(rows));
    EntryCountBounds(rows);
  }

  /** A key is in the map exactly when some planned row with a path normalises to it. */
  lemma PlanMapHasKey(rows: seq<PlanRow>, k: string)
    ensures HasKey(PlanMapOf(rows), k) <==> exists i :: 0 <= i < |rows| && KeyedAt(rows, i, k)
  {
    var ws := Writes(rows);
    FoldHasKey(ws, k);
    assert forall i :: 0 <= i < |rows| ==> (WritesKey(ws[i], k) <==> KeyedAt(rows, i, k));
  }

  /** A later row with the same normalised path overwrites the record of an earlier one. */
  lemma PlanMapLastWins(rows: seq<PlanRow>, i: nat, k: string)
    requires i < |rows| && KeyedAt(rows, i, k)
    requires forall j :: i < j < |rows| ==> !KeyedAt(rows, j, k)
    ensures Lookup(PlanMapOf(rows), k) == Some(RecordOf(rows[i], i))
  {
    var ws := Writes(rows);
    assert forall j :: i < j < |rows| ==> (WritesKey(ws[j], k) <==> KeyedAt(rows, j, k));
    FoldLastWins(ws, i, k);
  }

  /** Keys keep the position of their first insertion: reading more rows only appends keys. */
  lemma PlanMapKeysGrow(rows: seq<PlanRow>, i: nat)
    requires i <= |rows|
    ensures Keys(PlanMapOf(rows[..i])) <= Keys(PlanMapOf(rows))
  {
    WritesPrefix(rows, i);
    FoldKeysGrow(Writes(rows), i);
  }
}
