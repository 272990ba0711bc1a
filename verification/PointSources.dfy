/**
 Where the skill points of a loadout come from: an account of every cell of the table that does
 not mention the table, its updates or their order.
 */
module PointSources {
  import opened Wrappers
  import opened GameData
  import opened Points
  import opened Evaluation
  import opened Reference
  import Skills
  import Sorting

  /** The points that rows of a query give to a tree. */
  function Given(rows: seq<SkillPoint>, tree: int): int {
    if rows == [] then 0
    else Given(rows[..|rows| - 1], tree) + (if rows[|rows| - 1].tree == tree then rows[|rows| - 1].points else 0)
  }

  function DecorationGives(data: Data, id: int, tree: int): int {
    var row := FindDecoration(data.decorations, id);
    if id == 0 || row.None? then 0 else Given(RowsOf(data.decorationSkills, row.value.dexId), tree)
  }

  function DecorationsGive(data: Data, ids: seq<int>, tree: int): int {
    if ids == [] then 0 else DecorationsGive(data, ids[..|ids| - 1], tree) + DecorationGives(data, ids[|ids| - 1], tree)
  }

  /** What the piece itself gives; weapons give nothing. */
  function PieceGives(data: Data, p: Piece, tree: int): int {
    if p.saveType >= 7 || (p.saveType, p.saveId) !in data.armors then 0
    else Given(RowsOf(data.armorSkills, data.armors[(p.saveType, p.saveId)].dexId), tree)
  }

  function CharmGives(c: Charm, tree: int): int {
    (if c.skill1 > 0 && c.skill1 == tree then c.points1 else 0)
      + (if c.skill2 > 0 && c.skill2 == tree then c.points2 else 0)
  }

  /** What the equipment in one slot gives to a tree, before torso-up. */
  function SlotGives(data: Data, l: Loadout, slot: Slot, tree: int): int {
    if slot == CharmSlot then CharmGives(l.charm, tree) + DecorationsGive(data, l.charm.decorations, tree)
    else PieceGives(data, Worn(l, slot), tree) + DecorationsGive(data, Worn(l, slot).decorations, tree)
  }

  /** A slot other than the chest whose equipment gives torso-up points repeats the chest. */
  predicate Repeats(data: Data, l: Loadout, slot: Slot) { slot != Chest && SlotGives(data, l, slot, TORSO_UP) > 0 }

  function Expected(data: Data, l: Loadout, slot: Slot, tree: int): int {
    SlotGives(data, l, slot, tree)
    + (if tree != TORSO_UP && Repeats(data, l, slot) then SlotGives(data, l, Chest, tree) else 0)
  }

  // ---------- The table, cell by cell ----------

  function At(t: Table, tree: int, slot: Slot): int { CellOf(RowOf(t, tree), slot) }

  lemma AtAdd(t: Table, a: int, s: Slot, p: int, tree: int, slot: Slot)
    ensures At(Add(t, a, s, p), tree, slot) == At(t, tree, slot) + (if a == tree && s == slot then p else 0)
  {
  }

  lemma AtAddEach(t: Table, skills: map<int, int>, s: Slot, tree: int, slot: Slot)
    ensures At(AddEach(t, skills, s), tree, slot) == At(t, tree, slot)
      + (if tree in skills && s == slot then skills[tree] else 0)
  {
  }

  lemma {:induction false} AtAddRows(t: Table, rows: seq<SkillPoint>, s: Slot, tree: int, slot: Slot)
    ensures At(AddRows(t, rows, s), tree, slot) == At(t, tree, slot) + (if s == slot then Given(rows, tree) else 0)
  {
    if rows == [] {
    } else {
      var front, last := rows[..|rows| - 1], rows[|rows| - 1];
      AtAddRows(t, front, s, tree, slot);
      AtAdd(AddRows(t, front, s), last.tree, s, last.points, tree, slot);
    }
  }

  lemma AtAddDecoration(data: Data, t: Table, id: int, s: Slot, tree: int, slot: Slot)
    ensures At(AddDecoration(data, s, t, id), tree, slot) == At(t, tree, slot)
      + (if s == slot then DecorationGives(data, id, tree) else 0)
  {
    hide AddRows, Given, At;
    var row := FindDecoration(data.decorations, id);
    if id != 0 && row.Some? { AtAddRows(t, RowsOf(data.decorationSkills, row.value.dexId), s, tree, slot); }
  }

  lemma {:induction false} AtAddDecorations(data: Data, t: Table, ids: seq<int>, s: Slot, tree: int, slot: Slot)
    ensures At(AddDecorations(data, s, t, ids), tree, slot) == At(t, tree, slot)
      + (if s == slot then DecorationsGive(data, ids, tree) else 0)
    decreases |ids|
  {
    hide AddDecoration, DecorationGives, At;
    if ids == [] {
    } else {
      var front := ids[..|ids| - 1];
      AtAddDecorations(data, t, front, s, tree, slot);
      AtAddDecoration(data, AddDecorations(data, s, t, front), ids[|ids| - 1], s, tree, slot);
    }
  }

  lemma {:induction false} SumPointsGive(rows: seq<SkillPoint>, tree: int)
    ensures (if tree in SumPoints(rows) then SumPoints(rows)[tree] else 0) == Given(rows, tree)
  {
    if rows == [] {
    } else {
      SumPointsGive(rows[..|rows| - 1], tree);
    }
  }

  lemma DetailGives(data: Data, l: Loadout, slot: Slot, tree: int)
    ensures var skills := DetailAt(data, l, slot).skillPoints;
      (if tree in skills then skills[tree] else 0) == PieceGives(data, PieceAt(l, slot), tree)
  {
    hide SumPoints, Given, PieceAt;
    var p := PieceAt(l, slot);
    if p.saveType < 7 && (p.saveType, p.saveId) in data.armors {
      SumPointsGive(RowsOf(data.armorSkills, data.armors[(p.saveType, p.saveId)].dexId), tree);
    }
  }

  function Rank(slot: Slot): nat {
    match slot
    case Weapon => 0 case Head => 1 case Chest => 2 case Arms => 3 case Waist => 4 case Legs => 5 case CharmSlot => 6
  }

  lemma RankOf(n: nat, slot: Slot)
    requires n < |PIECES|
    ensures PIECES[n] != CharmSlot && (PIECES[n] == slot <==> Rank(slot) == n)
  {
  }

  lemma AtPiece(data: Data, l: Loadout, t: Table, s: Slot, tree: int, slot: Slot)
    requires s != CharmSlot
    ensures At(PiecePoints(data, l, t, s), tree, slot) == At(t, tree, slot)
      + (if s == slot then SlotGives(data, l, s, tree) else 0)
  {
    hide At, AddEach, AddDecorations, DetailAt, PieceGives, DecorationsGive;
    WornIs(l, s);
    var skills := DetailAt(data, l, s).skillPoints;
    AtAddDecorations(data, AddEach(t, skills, s), PieceAt(l, s).decorations, s, tree, slot);
    AtAddEach(t, skills, s, tree, slot);
    DetailGives(data, l, s, tree);
  }

  lemma {:induction false} AtPieces(data: Data, l: Loadout, n: nat, tree: int, slot: Slot)
    requires n <= |PIECES|
    ensures At(PointsUpTo(data, l, n), tree, slot) == if Rank(slot) < n then SlotGives(data, l, slot, tree) else 0
  {
    hide PiecePoints, SlotGives;
    if n == 0 {
    } else {
      AtPieces(data, l, n - 1, tree, slot);
      RankOf(n - 1, slot);
      AtPiece(data, l, PointsUpTo(data, l, n - 1), PIECES[n - 1], tree, slot);
    }
  }

  /** The table before torso-up. */
  function Gathered(data: Data, l: Loadout): Table {
    AddDecorations(data, CharmSlot, CharmPoints(PointsUpTo(data, l, |PIECES|), l.charm), l.charm.decorations)
  }

  lemma AtCharm(t: Table, c: Charm, tree: int, slot: Slot)
    ensures At(CharmPoints(t, c), tree, slot) == At(t, tree, slot)
      + (if slot == CharmSlot then CharmGives(c, tree) else 0)
  {
    hide At, Add;
    var first := if c.skill1 > 0 then Add(t, c.skill1, CharmSlot, c.points1) else t;
    AtAdd(t, c.skill1, CharmSlot, c.points1, tree, slot);
    AtAdd(first, c.skill2, CharmSlot, c.points2, tree, slot);
  }

  lemma AtGathered(data: Data, l: Loadout, tree: int, slot: Slot)
    ensures At(Gathered(data, l), tree, slot) == SlotGives(data, l, slot, tree)
  {
    hide At, AddDecorations, CharmPoints, PointsUpTo, PieceGives, DecorationsGive, CharmGives;
    var pieces := PointsUpTo(data, l, |PIECES|);
    AtPieces(data, l, |PIECES|, tree, slot);
    AtCharm(pieces, l.charm, tree, slot);
    AtAddDecorations(data, CharmPoints(pieces, l.charm), l.charm.decorations, CharmSlot, tree, slot);
  }

  /** Every cell of the final table is what its sources account for. */
  lemma CellsAccounted(data: Data, l: Loadout, tree: int, slot: Slot)
    ensures At(AllPoints(data, l), tree, slot) == Expected(data, l, slot, tree)
  {
    hide AddDecorations, CharmPoints, PointsUpTo, SlotGives;
    var t := Gathered(data, l);
    assert AllPoints(data, l) == TorsoUp(t);
    AtGathered(data, l, tree, slot);
    AtGathered(data, l, tree, Chest);
    AtGathered(data, l, TORSO_UP, slot);
    assert slot in Boosted(t) <==> slot != Chest && At(t, TORSO_UP, slot) > 0;
    if tree in t { TorsoUpTotals(t, tree); }
  }

  // ---------- The summary ----------

  function ExpectedTotal(data: Data, l: Loadout, tree: int): int {
    Expected(data, l, Weapon, tree) + Expected(data, l, Head, tree) + Expected(data, l, Chest, tree)
    + Expected(data, l, Arms, tree) + Expected(data, l, Waist, tree)
    + Expected(data, l, Legs, tree) + Expected(data, l, CharmSlot, tree)
  }

  lemma TotalAccounted(data: Data, l: Loadout, tree: int)
    ensures Total(RowOf(AllPoints(data, l), tree)) == ExpectedTotal(data, l, tree)
  {
    hide AllPoints, Expected;
    forall slot ensures CellOf(RowOf(AllPoints(data, l), tree), slot) == Expected(data, l, slot, tree) {
      CellsAccounted(data, l, tree, slot);
    }
  }

  lemma AcceptedSummaries(data: Data, submitted: Loadout, complete: bool)
    requires Evaluate(data, submitted, complete).Success?
    ensures var t := AllPoints(data, Trimmed(submitted));
      var s := Evaluate(data, submitted, complete).value.summary.skills;
      && |s| == |Sorting.Ascending(t.Keys)|
      && forall i :: 0 <= i < |s| ==>
           var tree := Sorting.Ascending(t.Keys)[i];
             tree in t && tree in data.skillTrees && s[i] == Skills.Summarize(data, t, tree)
  {
    hide LoadoutError, AllPoints, AllTotals, AllDiagnostics, AllEquipment, Skills.Summarize, Sorting.Ascending;
    var t := AllPoints(data, Trimmed(submitted));
    var trees := Sorting.Ascending(t.Keys);
    Skills.AscendingKeys(t);
    Skills.UnnamedIff(data, trees);
    Skills.SummariesAt(data, t, trees);
  }

  lemma ColumnIs(row: Row, slot: Slot)
    ensures slot in Skills.ColumnsOf(row) && Skills.ColumnsOf(row)[slot] == CellOf(row, slot)
  {
    match slot case Weapon => case Head => case Chest => case Arms => case Waist => case Legs => case CharmSlot =>
  }

  /**
   Each line of the summary: its columns are what the slots account for, its points are their sum,
   and its active skill is the one that this sum selects.
   */
  lemma SummaryAccounted(data: Data, submitted: Loadout, complete: bool, i: nat)
    requires Evaluate(data, submitted, complete).Success?
    requires i < |Evaluate(data, submitted, complete).value.summary.skills|
    ensures var l := Trimmed(submitted); var s := Evaluate(data, submitted, complete).value.summary.skills[i];
      var active := Skills.SelectActive(RowsOf(data.activeSkills, s.tree), ExpectedTotal(data, l, s.tree));
      && (forall slot :: slot in s.columns && s.columns[slot] == Expected(data, l, slot, s.tree))
      && s.points == ExpectedTotal(data, l, s.tree)
      && s.activeId == (if active.Some? then Some(active.value.id) else None)
      && s.activeName == (if active.Some? then active.value.name else "")
      && s.tree in data.skillTrees && s.name == data.skillTrees[s.tree]
  {
    hide Evaluate, AllPoints, Expected, ExpectedTotal, Skills.SelectActive, Sorting.Ascending, Total, CellOf;
    AcceptedSummaries(data, submitted, complete);
    var l := Trimmed(submitted);
    var t := AllPoints(data, l);
    var tree := Sorting.Ascending(t.Keys)[i];
    TotalAccounted(data, l, tree);
    forall slot
      ensures var columns := Skills.ColumnsOf(t[tree]);
        slot in columns && columns[slot] == Expected(data, l, slot, tree)
    {
      CellsAccounted(data, l, tree, slot);
      ColumnIs(t[tree], slot);
    }
  }

  lemma GatheredKeys(data: Data, l: Loadout)
    ensures AllPoints(data, l).Keys == Gathered(data, l).Keys
  {
    hide AddDecorations, CharmPoints, PointsUpTo;
    var t := Gathered(data, l);
    assert AllPoints(data, l) == TorsoUp(t);
  }

  /** No tree that some slot gives points to is missing from the summary. */
  lemma NoTreeMissing(data: Data, submitted: Loadout, complete: bool, slot: Slot, tree: int)
    requires Evaluate(data, submitted, complete).Success? && SlotGives(data, Trimmed(submitted), slot, tree) != 0
    ensures exists s :: s in Evaluate(data, submitted, complete).value.summary.skills && s.tree == tree
  {
    hide Evaluate, AllPoints, SlotGives, Gathered;
    AcceptedSummaries(data, submitted, complete);
    var l := Trimmed(submitted);
    AtGathered(data, l, tree, slot);
    GatheredKeys(data, l);
    var t := AllPoints(data, l);
    assert tree in t.Keys;
    assert tree in Sorting.Ascending(t.Keys);
    var i :| 0 <= i < |Sorting.Ascending(t.Keys)| && Sorting.Ascending(t.Keys)[i] == tree;
    assert Evaluate(data, submitted, complete).value.summary.skills[i].tree == tree;
  }
}
