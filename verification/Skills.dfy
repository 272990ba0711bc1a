/** From the point table to skill summaries: totals, columns and the active skill of each tree. */
module Skills {
  import opened Wrappers
  import opened GameData
  import opened Points
  import Sorting

  // ---------- The active skill ----------

  predicate Raises(a: ActiveSkill, total: int) { a.threshold > 0 && total >= a.threshold }

  predicate Lowers(a: ActiveSkill, total: int) { a.threshold < 0 && total <= a.threshold }

  /** The first of the qualifying rows with the greatest positive threshold. */
  function BestPositive(rows: seq<ActiveSkill>, total: int): Option<ActiveSkill> {
    if rows == [] then None
    else
      var best, last := BestPositive(rows[..|rows| - 1], total), rows[|rows| - 1];
      if Raises(last, total) && (best.None? || last.threshold > best.value.threshold) then Some(last) else best
  }

  /** The first of the qualifying rows with the least negative threshold. */
  function BestNegative(rows: seq<ActiveSkill>, total: int): Option<ActiveSkill> {
    if rows == [] then None
    else
      var best, last := BestNegative(rows[..|rows| - 1], total), rows[|rows| - 1];
      if Lowers(last, total) && (best.None? || last.threshold < best.value.threshold) then Some(last) else best
  }

  function SelectActive(rows: seq<ActiveSkill>, total: int): Option<ActiveSkill> {
    var positive := BestPositive(rows, total);
    if positive.Some? then positive else BestNegative(rows, total)
  }

  lemma {:induction false} BestPositiveIsBest(rows: seq<ActiveSkill>, total: int)
    ensures var best := BestPositive(rows, total);
      if best.None? then (forall a :: a in rows ==> !Raises(a, total))
      else (best.value in rows && Raises(best.value, total)
            && forall a :: a in rows && Raises(a, total) ==> a.threshold <= best.value.threshold)
  {
    if rows == [] {
    } else {
      BestPositiveIsBest(rows[..|rows| - 1], total);
      assert rows == rows[..|rows| - 1] + [rows[|rows| - 1]];
    }
  }

  lemma {:induction false} BestNegativeIsBest(rows: seq<ActiveSkill>, total: int)
    ensures var best := BestNegative(rows, total);
      if best.None? then (forall a :: a in rows ==> !Lowers(a, total))
      else (best.value in rows && Lowers(best.value, total)
            && forall a :: a in rows && Lowers(a, total) ==> best.value.threshold <= a.threshold)
  {
    if rows == [] {
    } else {
      BestNegativeIsBest(rows[..|rows| - 1], total);
      assert rows == rows[..|rows| - 1] + [rows[|rows| - 1]];
    }
  }

  /**
   The selected row is the one with the greatest positive threshold not above the total, else
   the one with the least negative threshold not below it, else none; never do both kinds qualify.
   */
  lemma ActiveIsBest(rows: seq<ActiveSkill>, total: int)
    ensures forall a, b :: a in rows && b in rows ==> !(Raises(a, total) && Lowers(b, total))
    ensures var active := SelectActive(rows, total);
      if active.None? then (forall a :: a in rows ==> !Raises(a, total) && !Lowers(a, total))
      else
        && active.value in rows
        && (Raises(active.value, total) || Lowers(active.value, total))
        && (forall a :: a in rows && Raises(a, total) ==>
             Raises(active.value, total) && a.threshold <= active.value.threshold)
        && (forall a :: a in rows && Lowers(a, total) ==>
             Lowers(active.value, total) && active.value.threshold <= a.threshold)
  {
    BestPositiveIsBest(rows, total);
    BestNegativeIsBest(rows, total);
  }

  /** With distinct thresholds the selection does not depend on the order of the rows. */
  lemma ActiveOrderIrrelevant(a: seq<ActiveSkill>, b: seq<ActiveSkill>, total: int)
    requires forall x :: x in a <==> x in b
    requires forall x, y :: x in a && y in a && x.threshold == y.threshold ==> x == y
    ensures SelectActive(a, total) == SelectActive(b, total)
  {
    ActiveIsBest(a, total);
    ActiveIsBest(b, total);
    var p, q := SelectActive(a, total), SelectActive(b, total);
    if p.Some? {
      assert p.value in b && q.Some?;
      assert q.value in a;
      assert p.value.threshold == q.value.threshold;
    }
  }

  /** A larger total never selects a lower positive threshold. */
  lemma ActiveMonotone(rows: seq<ActiveSkill>, low: int, high: int)
    requires low <= high && SelectActive(rows, low).Some? && SelectActive(rows, low).value.threshold > 0
    ensures SelectActive(rows, high).Some?
      && SelectActive(rows, high).value.threshold >= SelectActive(rows, low).value.threshold
  {
    ActiveIsBest(rows, low);
    ActiveIsBest(rows, high);
    assert Raises(SelectActive(rows, low).value, high);
  }

  /** The scan of the rows with the two running bests of the program. */
  method ScanActive(rows: seq<ActiveSkill>, total: int) returns (active: Option<ActiveSkill>)
    ensures active == SelectActive(rows, total)
  {
    active := None;
    var bestPositive, bestNegative := -0x4000_0000, 0x4000_0000;
    for i := 0 to |rows|
      invariant active == SelectActive(rows[..i], total)
      invariant var best := BestPositive(rows[..i], total);
        if best.None? then bestPositive == -0x4000_0000 else bestPositive == best.value.threshold > 0 && total > 0
      invariant var best := BestNegative(rows[..i], total);
        if best.None? then bestNegative == 0x4000_0000 else bestNegative == best.value.threshold < 0 && total < 0
    {
      var row := rows[i];
      assert rows[..i + 1][..i] == rows[..i];
      if row.threshold > 0 && total >= row.threshold && row.threshold > bestPositive {
        active, bestPositive := Some(row), row.threshold;
      }
      if row.threshold < 0 && total <= row.threshold && row.threshold < bestNegative {
        active, bestNegative := Some(row), row.threshold;
      }
    }
    assert rows[..|rows|] == rows;
  }

  // ---------- Summaries ----------

  datatype SkillSummary = SkillSummary(tree: int, name: string, points: int, columns: map<Slot, int>,
                                       activeId: Option<int>, activeName: string)

  datatype SkillRow = SkillRow(tree: int, points: int, activeId: Option<int>)

  function ColumnsOf(row: Row): map<Slot, int> {
    map[Weapon := CellOf(row, Weapon), Head := CellOf(row, Head), Chest := CellOf(row, Chest),
        Arms := CellOf(row, Arms), Waist := CellOf(row, Waist), Legs := CellOf(row, Legs),
        CharmSlot := CellOf(row, CharmSlot)]
  }

  function Summarize(data: Data, t: Table, tree: int): SkillSummary
    requires tree in t && tree in data.skillTrees
  {
    var total := Total(t[tree]);
    var active := SelectActive(RowsOf(data.activeSkills, tree), total);
    SkillSummary(tree, data.skillTrees[tree], total, ColumnsOf(t[tree]),
                 if active.Some? then Some(active.value.id) else None,
                 if active.Some? then active.value.name else "")
  }

  /** The first tree without a name, if any: its lookup fails and with it the whole evaluation. */
  function FirstUnnamed(data: Data, trees: seq<int>): Option<int> {
    if trees == [] then None
    else
      var before := FirstUnnamed(data, trees[..|trees| - 1]);
      if before.Some? then before
      else if trees[|trees| - 1] in data.skillTrees then None else Some(trees[|trees| - 1])
  }

  lemma {:induction false} UnnamedIff(data: Data, trees: seq<int>)
    ensures FirstUnnamed(data, trees).None? <==> forall i :: 0 <= i < |trees| ==> trees[i] in data.skillTrees
  {
    if trees == [] {
    } else {
      UnnamedIff(data, trees[..|trees| - 1]);
    }
  }

  function Summaries(data: Data, t: Table, trees: seq<int>): seq<SkillSummary>
    requires forall i :: 0 <= i < |trees| ==> trees[i] in t && trees[i] in data.skillTrees
  {
    if trees == [] then [] else Summaries(data, t, trees[..|trees| - 1]) + [Summarize(data, t, trees[|trees| - 1])]
  }

  function RowsFrom(summaries: seq<SkillSummary>): seq<SkillRow> {
    seq(|summaries|, i requires 0 <= i < |summaries| =>
      SkillRow(summaries[i].tree, summaries[i].points, summaries[i].activeId))
  }

  lemma {:induction false} SummariesAt(data: Data, t: Table, trees: seq<int>)
    requires forall i :: 0 <= i < |trees| ==> trees[i] in t && trees[i] in data.skillTrees
    ensures |Summaries(data, t, trees)| == |trees|
    ensures forall i :: 0 <= i < |trees| ==> Summaries(data, t, trees)[i] == Summarize(data, t, trees[i])
  {
    if trees == [] {
    } else {
      SummariesAt(data, t, trees[..|trees| - 1]);
    }
  }

  lemma ColumnsAddUp(data: Data, t: Table, tree: int)
    requires tree in t && tree in data.skillTrees
    ensures var s := Summarize(data, t, tree);
      s.tree == tree && s.columns.Keys == Slots() && s.points == Total(s.columns) == Total(t[tree])
  {
  }

  /** The summaries have strictly increasing trees, and their points are the sums of the seven columns. */
  lemma SummariesInOrder(data: Data, t: Table, trees: seq<int>)
    requires Sorting.Increasing(trees) && forall i :: 0 <= i < |trees| ==> trees[i] in t && trees[i] in data.skillTrees
    ensures var s := Summaries(data, t, trees);
      && |s| == |trees|
      && (forall i :: 0 <= i < |s| ==> s[i].tree == trees[i])
      && (forall i, j :: 0 <= i < j < |s| ==> s[i].tree < s[j].tree)
      && (forall i :: 0 <= i < |s| ==>
           s[i].columns.Keys == Slots() && s[i].points == Total(s[i].columns) == Total(t[s[i].tree]))
  {
    SummariesAt(data, t, trees);
    var s := Summaries(data, t, trees);
    forall i | 0 <= i < |s| ensures s[i].tree == trees[i]
      && s[i].columns.Keys == Slots() && s[i].points == Total(s[i].columns) == Total(t[trees[i]])
    {
      ColumnsAddUp(data, t, trees[i]);
    }
  }

  // ---------- The loops ----------

  ghost function Except(row: Row, slots: set<Slot>): Row { map s | s in row && s !in slots :: row[s] }

  lemma ExceptStep(row: Row, remaining: set<Slot>, slot: Slot)
    requires slot in remaining && remaining <= row.Keys
    ensures Total(Except(row, remaining - {slot})) == Total(Except(row, remaining)) + row[slot]
  {
    match slot case Weapon => case Head => case Chest => case Arms => case Waist => case Legs => case CharmSlot =>
  }

  /** The sum of a row, its cells taken in any order. */
  method SumCells(row: Row) returns (total: int)
    ensures total == Total(row)
  {
    total := 0;
    var remaining := row.Keys;
    while remaining != {}
      invariant remaining <= row.Keys
      invariant total == Total(Except(row, remaining))
      decreases |remaining|
    {
      var slot :| slot in remaining;
      assert |remaining - {slot}| < |remaining|;
      ExceptStep(row, remaining, slot);
      total := total + row[slot];
      remaining := remaining - {slot};
    }
    assert Except(row, {}) == row;
  }

  /** The keys of the table collected in any order and then sorted. */
  method CollectTrees(t: Table) returns (trees: seq<int>)
    ensures trees == Sorting.Ascending(t.Keys)
  {
    var ids: seq<int> := [];
    var remaining := t.Keys;
    while remaining != {}
      invariant remaining <= t.Keys
      invariant forall x :: x in ids <==> x in t.Keys && x !in remaining
      invariant forall i, j :: 0 <= i < j < |ids| ==> ids[i] != ids[j]
      decreases |remaining|
    {
      Sorting.Inhabited(remaining);
      var id :| id in remaining;
      assert |remaining - {id}| < |remaining|;
      ids := ids + [id];
      remaining := remaining - {id};
    }
    Sorting.SortDistinct(ids, t.Keys);
    trees := Sorting.Sort(ids);
  }

  datatype Finished = FinishedSkills(summaries: seq<SkillSummary>) | UnknownTree(tree: int)

  /** Summaries of every tree of the table in increasing order, unless one of them has no name. */
  function Finish(data: Data, t: Table, trees: seq<int>): Finished
    requires forall i :: 0 <= i < |trees| ==> trees[i] in t
  {
    UnnamedIff(data, trees);
    if FirstUnnamed(data, trees).Some? then UnknownTree(FirstUnnamed(data, trees).value)
    else FinishedSkills(Summaries(data, t, trees))
  }

  method SummarizeTree(data: Data, t: Table, tree: int) returns (summary: SkillSummary)
    requires tree in t && tree in data.skillTrees
    ensures summary == Summarize(data, t, tree)
  {
    var total := SumCells(t[tree]);
    var active := ScanActive(RowsOf(data.activeSkills, tree), total);
    var activeId, activeName := None, "";
    if active.Some? {
      activeId, activeName := Some(active.value.id), active.value.name;
    }
    summary := SkillSummary(tree, data.skillTrees[tree], total, ColumnsOf(t[tree]), activeId, activeName);
  }

  lemma {:induction false} UnnamedUpTo(data: Data, trees: seq<int>, k: nat)
    requires k < |trees| && FirstUnnamed(data, trees[..k]).None? && trees[k] !in data.skillTrees
    ensures FirstUnnamed(data, trees) == Some(trees[k])
    decreases |trees|
  {
    if k == |trees| - 1 {
    } else {
      assert trees[..|trees| - 1][..k] == trees[..k];
      UnnamedUpTo(data, trees[..|trees| - 1], k);
    }
  }

  method SummarizeTrees(data: Data, t: Table, trees: seq<int>) returns (r: Finished)
    requires forall i :: 0 <= i < |trees| ==> trees[i] in t
    ensures r == Finish(data, t, trees)
  {
    var summaries: seq<SkillSummary> := [];
    for k := 0 to |trees|
      invariant FirstUnnamed(data, trees[..k]).None?
      invariant forall i :: 0 <= i < k ==> trees[i] in data.skillTrees
      invariant summaries == Summaries(data, t, trees[..k])
    {
      var tree := trees[k];
      assert trees[..k + 1][..k] == trees[..k];
      if tree !in data.skillTrees {
        UnnamedUpTo(data, trees, k);
        return UnknownTree(tree);
      }
      var summary := SummarizeTree(data, t, tree);
      summaries := summaries + [summary];
    }
    assert trees[..|trees|] == trees;
    return FinishedSkills(summaries);
  }

  lemma AscendingKeys(t: Table)
    ensures forall i :: 0 <= i < |Sorting.Ascending(t.Keys)| ==> Sorting.Ascending(t.Keys)[i] in t
  {
    var trees := Sorting.Ascending(t.Keys);
    forall i | 0 <= i < |trees| ensures trees[i] in t { assert trees[i] in trees; }
  }

  method FinishSkills(data: Data, points: PointTable) returns (r: Finished)
    ensures forall i :: 0 <= i < |Sorting.Ascending(points.rows.Keys)| ==>
      Sorting.Ascending(points.rows.Keys)[i] in points.rows
    ensures r == Finish(data, points.rows, Sorting.Ascending(points.rows.Keys))
  {
    AscendingKeys(points.rows);
    var trees := CollectTrees(points.rows);
    r := SummarizeTrees(data, points.rows, trees);
  }
}
