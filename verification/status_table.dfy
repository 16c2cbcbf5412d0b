/** An independent, table-driven statement of the status classifier: each
    dimension is an ordered list of (flag, label) rows and the first row
    whose flag is set decides the label. The cascades in `StatusEntry` are
    proved to agree with these tables on every flag set. */
module StatusTable {
  import opened StatusEntry

  type Row = (Flag, string)

  const IndexTable: seq<Row> := [
    (NewInIndex, "Added"),
    (ModifiedInIndex, "Modified"),
    (DeletedFromIndex, "Deleted"),
    (RenamedInIndex, "Renamed"),
    (TypeChangeInIndex, "TypeChange")
  ]

  const WorkDirTable: seq<Row> := [
    (NewInWorkdir, "Untracked"),
    (ModifiedInWorkdir, "Modified"),
    (DeletedFromWorkdir, "Deleted"),
    (RenamedInWorkdir, "Renamed"),
    (TypeChangeInWorkdir, "TypeChange")
  ]

  /** The label of the first row whose flag is in `f`, or `default` when
      no row matches. */
  function FirstMatch(table: seq<Row>, f: set<Flag>, default: string): (r: string)
    ensures (forall k :: 0 <= k < |table| ==> table[k].0 !in f) ==> r == default
    ensures (exists k :: 0 <= k < |table| && table[k].0 in f) ==>
      exists k :: 0 <= k < |table| && table[k].0 in f && r == table[k].1
        && forall j :: 0 <= j < k ==> table[j].0 !in f
  {
    if |table| == 0 then default
    else if table[0].0 in f then table[0].1
    else
      var r := FirstMatch(table[1..], f, default);
      assert forall k :: 1 <= k < |table| ==> table[k] == table[1..][k - 1];
      r
  }

  /** The index cascade is the index table read first-match-wins. */
  lemma IndexStatusIsTable(f: set<Flag>)
    ensures IndexStatus(f) == FirstMatch(IndexTable, f, Unmodified)
  {
    var r := FirstMatch(IndexTable, f, Unmodified);
    if exists k :: 0 <= k < |IndexTable| && IndexTable[k].0 in f {
      var k :| 0 <= k < |IndexTable| && IndexTable[k].0 in f && r == IndexTable[k].1
        && forall j :: 0 <= j < k ==> IndexTable[j].0 !in f;
      assert IndexStatus(f) == IndexTable[k].1 by {
        if k >= 1 { assert IndexTable[0].0 !in f; }
        if k >= 2 { assert IndexTable[1].0 !in f; }
        if k >= 3 { assert IndexTable[2].0 !in f; }
        if k >= 4 { assert IndexTable[3].0 !in f; }
      }
    } else {
      assert IndexTable[0].0 !in f && IndexTable[1].0 !in f && IndexTable[2].0 !in f;
      assert IndexTable[3].0 !in f && IndexTable[4].0 !in f;
    }
  }

  /** The work-dir cascade is the work-dir table read first-match-wins. */
  lemma WorkDirStatusIsTable(f: set<Flag>)
    ensures WorkDirStatus(f) == FirstMatch(WorkDirTable, f, Unmodified)
  {
    var r := FirstMatch(WorkDirTable, f, Unmodified);
    if exists k :: 0 <= k < |WorkDirTable| && WorkDirTable[k].0 in f {
      var k :| 0 <= k < |WorkDirTable| && WorkDirTable[k].0 in f && r == WorkDirTable[k].1
        && forall j :: 0 <= j < k ==> WorkDirTable[j].0 !in f;
      assert WorkDirStatus(f) == WorkDirTable[k].1 by {
        if k >= 1 { assert WorkDirTable[0].0 !in f; }
        if k >= 2 { assert WorkDirTable[1].0 !in f; }
        if k >= 3 { assert WorkDirTable[2].0 !in f; }
        if k >= 4 { assert WorkDirTable[3].0 !in f; }
      }
    } else {
      assert WorkDirTable[0].0 !in f && WorkDirTable[1].0 !in f && WorkDirTable[2].0 !in f;
      assert WorkDirTable[3].0 !in f && WorkDirTable[4].0 !in f;
    }
  }
}
