/** Which loadouts are accepted, and that each rejection has its reason. */
module Acceptance {
  import opened Wrappers
  import opened GameData
  import opened Points
  import opened Verdicts
  import opened CharmLegality
  import opened Evaluation
  import opened Reference
  import opened TotalSources
  import PointSources
  import Names
  import Skills
  import Sorting

  // ---------- The trees of the table ----------

  lemma {:induction false} RowKeys(t: Table, rows: seq<SkillPoint>, slot: Slot, tree: int)
    ensures tree in AddRows(t, rows, slot) <==> tree in t || RowMentions(rows, tree)
  {
    if rows == [] {
    } else {
      var n := |rows| - 1;
      RowKeys(t, rows[..n], slot, tree);
      if RowMentions(rows[..n], tree) {
        var i :| 0 <= i < n && rows[..n][i].tree == tree;
        assert rows[i].tree == tree;
      }
      if RowMentions(rows, tree) && rows[n].tree != tree {
        var i :| 0 <= i < |rows| && rows[i].tree == tree;
        assert rows[..n][i].tree == tree;
      }
    }
  }

  lemma {:induction false} SumKeys(rows: seq<SkillPoint>, tree: int)
    ensures tree in SumPoints(rows) <==> RowMentions(rows, tree)
  {
    if rows == [] {
    } else {
      var n := |rows| - 1;
      SumKeys(rows[..n], tree);
      if RowMentions(rows[..n], tree) {
        var i :| 0 <= i < n && rows[..n][i].tree == tree;
        assert rows[i].tree == tree;
      }
      if RowMentions(rows, tree) && rows[n].tree != tree {
        var i :| 0 <= i < |rows| && rows[i].tree == tree;
        assert rows[..n][i].tree == tree;
      }
    }
  }

  lemma DecorationKeys(data: Data, slot: Slot, t: Table, id: int, tree: int)
    ensures tree in AddDecoration(data, slot, t, id) <==> tree in t || DecorationMentions(data, id, tree)
  {
    hide AddRows, RowMentions;
    var d := FindDecoration(data.decorations, id);
    if d.Some? { RowKeys(t, RowsOf(data.decorationSkills, d.value.dexId), slot, tree); }
  }

  lemma {:induction false} ListKeys(data: Data, slot: Slot, t: Table, ids: seq<int>, tree: int)
    ensures tree in AddDecorations(data, slot, t, ids) <==> tree in t || ListMentions(data, ids, tree)
  {
    hide AddDecoration, DecorationMentions;
    if ids == [] {
    } else {
      var front, last := ids[..|ids| - 1], ids[|ids| - 1];
      assert ids == front + [last];
      ListKeys(data, slot, t, front, tree);
      DecorationKeys(data, slot, AddDecorations(data, slot, t, front), last, tree);
      assert AddDecorations(data, slot, t, ids)
        == AddDecoration(data, slot, AddDecorations(data, slot, t, front), last);
    }
  }

  lemma DetailKeys(data: Data, l: Loadout, slot: Slot, tree: int)
    ensures tree in DetailAt(data, l, slot).skillPoints <==> ArmorMentions(data, Worn(l, slot), tree)
  {
    hide SumPoints, RowMentions;
    WornIs(l, slot);
    var p := Worn(l, slot);
    if p.saveType < 7 && (p.saveType, p.saveId) in data.armors {
      SumKeys(RowsOf(data.armorSkills, data.armors[(p.saveType, p.saveId)].dexId), tree);
    }
  }

  lemma PieceKeys(data: Data, l: Loadout, t: Table, slot: Slot, tree: int)
    requires slot != CharmSlot
    ensures tree in PiecePoints(data, l, t, slot) <==> tree in t || SlotMentions(data, l, slot, tree)
  {
    hide AddDecorations, ListMentions, ArmorMentions, DetailAt;
    WornIs(l, slot);
    DetailKeys(data, l, slot, tree);
    ListKeys(data, slot, AddEach(t, DetailAt(data, l, slot).skillPoints, slot), Worn(l, slot).decorations, tree);
  }

  lemma {:induction false} KeysUpTo(data: Data, l: Loadout, n: nat, tree: int)
    requires n <= |PIECES|
    ensures tree in PointsUpTo(data, l, n) <==> exists i :: 0 <= i < n && SlotMentions(data, l, PIECES[i], tree)
  {
    hide PiecePoints, SlotMentions;
    if n == 0 {
    } else {
      KeysUpTo(data, l, n - 1, tree);
      PointSources.RankOf(n - 1, CharmSlot);
      PieceKeys(data, l, PointsUpTo(data, l, n - 1), PIECES[n - 1], tree);
    }
  }

  lemma CharmKeys(t: Table, c: Charm, tree: int)
    ensures tree in CharmPoints(t, c) <==> tree in t || (tree > 0 && (c.skill1 == tree || c.skill2 == tree))
  {
  }

  lemma TableKeys(data: Data, l: Loadout, tree: int)
    requires l.charm.skill1 >= 0 && l.charm.skill2 >= 0
    ensures tree in AllPoints(data, l) <==> exists slot :: SlotMentions(data, l, slot, tree)
  {
    hide AddDecorations, PointsUpTo, ListMentions, ArmorMentions, AllPoints;
    var pieces := PointsUpTo(data, l, |PIECES|);
    PointSources.GatheredKeys(data, l);
    ListKeys(data, CharmSlot, CharmPoints(pieces, l.charm), l.charm.decorations, tree);
    KeysUpTo(data, l, |PIECES|, tree);
    CharmKeys(pieces, l.charm, tree);
    assert Worn(l, CharmSlot).decorations == l.charm.decorations;
    if slot :| slot != CharmSlot && SlotMentions(data, l, slot, tree) {
      var i := PieceSlots(slot);
      assert SlotMentions(data, l, PIECES[i], tree);
    }
    if i :| 0 <= i < |PIECES| && SlotMentions(data, l, PIECES[i], tree) {
      assert SlotMentions(data, l, PIECES[i], tree);
    }
    assert tree in AllPoints(data, l) <==>
      tree in pieces || SlotMentions(data, l, CharmSlot, tree);
  }

  lemma NamesIff(data: Data, l: Loadout)
    requires l.charm.skill1 >= 0 && l.charm.skill2 >= 0
    ensures SkillsOf(data, AllPoints(data, l)).FinishedSkills? <==> TreesNamed(data, l)
  {
    hide AllPoints, SlotMentions, Sorting.Ascending;
    var t := AllPoints(data, l);
    var trees := Sorting.Ascending(t.Keys);
    SkillsOfIs(data, t);
    Skills.UnnamedIff(data, trees);
    forall tree ensures tree in trees <==> exists slot :: SlotMentions(data, l, slot, tree) {
      TableKeys(data, l, tree);
      assert tree in trees <==> tree in t.Keys;
    }
    if TreesNamed(data, l) {
      forall i | 0 <= i < |trees| ensures trees[i] in data.skillTrees { assert trees[i] in trees; }
    } else {
      var slot, tree :| SlotMentions(data, l, slot, tree) && tree !in data.skillTrees;
      assert tree in trees;
    }
  }

  // ---------- The parts of the check ----------

  lemma HeaderIff(data: Data, l: Loadout, complete: bool)
    ensures HeaderError(data, Trimmed(l)).None? <==> HeaderOk(data, l)
    ensures HeaderError(data, Trimmed(l)).Some? ==> Justified(data, l, complete, HeaderError(data, Trimmed(l)).value)
  {
  }

  lemma ListIff(data: Data, slot: Slot, ids: seq<int>)
    ensures DecorationListError(slot, ids).None? && FirstUnknown(data, ids).None? <==> ListOk(data, ids)
  {
    UnknownIff(data, ids);
    if DecorationListError(slot, ids).None? {
      forall id | id in ids ensures 0 <= id <= 65535 {
        var i :| 0 <= i < |ids| && ids[i] == id;
      }
    }
    if ListOk(data, ids) {
      forall i | 0 <= i < |ids| ensures 0 <= ids[i] <= 65535 { assert ids[i] in ids; }
    }
  }

  lemma {:induction false} FirstUnknownIs(data: Data, ids: seq<int>)
    ensures FirstUnknown(data, ids).Some? ==>
      var id := FirstUnknown(data, ids).value; id in ids && id != 0 && FindDecoration(data.decorations, id).None?
  {
    if ids == [] {
    } else {
      FirstUnknownIs(data, ids[1..]);
    }
  }

  lemma ListReason(data: Data, l: Loadout, complete: bool, slot: Slot)
    ensures DecorationListError(slot, Worn(l, slot).decorations).Some? ==>
      Justified(data, l, complete, DecorationListError(slot, Worn(l, slot).decorations).value)
    ensures FirstUnknown(data, Worn(l, slot).decorations).Some? ==>
      Justified(data, l, complete, UnknownDecoration(FirstUnknown(data, Worn(l, slot).decorations).value))
  {
    FirstUnknownIs(data, Worn(l, slot).decorations);
    var ids := Worn(l, slot).decorations;
    if i :| 0 <= i < |ids| && !(0 <= ids[i] <= 65535) {
      assert ids[i] in ids;
    }
  }

  ghost predicate PieceOk(data: Data, l: Loadout, complete: bool, slot: Slot) {
    if slot == Weapon then WeaponOk(data, l, complete) else ArmorOk(data, Worn(l, slot), ArmorType(slot), complete)
  }

  lemma PieceIff(data: Data, l: Loadout, complete: bool, slot: Slot)
    requires slot != CharmSlot
    ensures PieceError(data, l, complete, slot).None? <==> PieceOk(data, l, complete, slot)
    ensures PieceError(data, l, complete, slot).Some? ==>
      Justified(data, l, complete, PieceError(data, l, complete, slot).value)
  {
    hide DecorationListError, FirstUnknown, ListOk;
    WornIs(l, slot);
    ListIff(data, slot, Worn(l, slot).decorations);
    ListReason(data, l, complete, slot);
  }

  lemma {:induction false} PiecesIff(data: Data, l: Loadout, complete: bool, n: nat)
    requires n <= |PIECES|
    ensures FirstPieceError(data, l, complete, n).None? <==>
      forall i :: 0 <= i < n ==> PieceOk(data, l, complete, PIECES[i])
    ensures FirstPieceError(data, l, complete, n).Some? ==>
      Justified(data, l, complete, FirstPieceError(data, l, complete, n).value)
  {
    hide PieceError, PieceOk, Justified;
    if n == 0 {
    } else {
      PiecesIff(data, l, complete, n - 1);
      PointSources.RankOf(n - 1, CharmSlot);
      PieceIff(data, l, complete, PIECES[n - 1]);
    }
  }

  lemma AllPiecesOk(data: Data, l: Loadout, complete: bool)
    ensures (forall i :: 0 <= i < |PIECES| ==> PieceOk(data, l, complete, PIECES[i])) <==> PiecesOk(data, l, complete)
  {
    hide WeaponOk, ArmorOk;
    assert PIECES[0] == Weapon && PIECES[1] == Head && PIECES[2] == Chest && PIECES[3] == Arms && PIECES[4] == Waist
           && PIECES[5] == Legs;
    if PiecesOk(data, l, complete) {
      forall i | 0 <= i < |PIECES| ensures PieceOk(data, l, complete, PIECES[i]) {
        assert i == 0 || i == 1 || i == 2 || i == 3 || i == 4 || i == 5;
      }
    }
    if forall i :: 0 <= i < |PIECES| ==> PieceOk(data, l, complete, PIECES[i]) {
      assert PieceOk(data, l, complete, PIECES[0]) && PieceOk(data, l, complete, PIECES[1]);
      assert PieceOk(data, l, complete, PIECES[2]) && PieceOk(data, l, complete, PIECES[3]);
      assert PieceOk(data, l, complete, PIECES[4]) && PieceOk(data, l, complete, PIECES[5]);
    }
  }

  lemma CharmIff(data: Data, l: Loadout, complete: bool)
    ensures CharmError(data, l.charm).None? && FirstUnknown(data, l.charm.decorations).None? <==> CharmOk(data, l.charm)
    ensures CharmError(data, l.charm).Some? ==> Justified(data, l, complete, CharmError(data, l.charm).value)
    ensures FirstUnknown(data, l.charm.decorations).Some? ==>
      Justified(data, l, complete, UnknownDecoration(FirstUnknown(data, l.charm.decorations).value))
  {
    hide DecorationListError, FirstUnknown, ListOk;
    assert Worn(l, CharmSlot).decorations == l.charm.decorations;
    ListIff(data, CharmSlot, l.charm.decorations);
    ListReason(data, l, complete, CharmSlot);
  }

  // ---------- Main results ----------

  lemma SameTrimmed(data: Data, l: Loadout, complete: bool)
    ensures PiecesOk(data, Trimmed(l), complete) <==> PiecesOk(data, l, complete)
    ensures TreesNamed(data, Trimmed(l)) <==> TreesNamed(data, l)
    ensures forall slot, tree :: SlotMentions(data, Trimmed(l), slot, tree) <==> SlotMentions(data, l, slot, tree)
    ensures forall slot :: Worn(Trimmed(l), slot) == Worn(l, slot)
  {
    forall slot ensures Worn(Trimmed(l), slot) == Worn(l, slot) {}
    forall slot, tree ensures SlotMentions(data, Trimmed(l), slot, tree) <==> SlotMentions(data, l, slot, tree) {}
  }

  /**
   A loadout is accepted exactly when its header, its six pieces and its charm are in order and every
   skill tree that its equipment is about has a name.
   */
  lemma AcceptedIff(data: Data, l: Loadout, complete: bool)
    ensures Evaluate(data, l, complete).Success? <==>
      HeaderOk(data, l) && PiecesOk(data, l, complete) && CharmOk(data, l.charm) && TreesNamed(data, l)
  {
    hide HeaderError, FirstPieceError, CharmError, FirstUnknown, SkillsOf, AllPoints, AllTotals, AllDiagnostics,
      Evaluate;
    hide HeaderOk, PiecesOk, TreesNamed;
    var t := Trimmed(l);
    HeaderIff(data, l, complete);
    PiecesIff(data, t, complete, |PIECES|);
    AllPiecesOk(data, t, complete);
    CharmIff(data, t, complete);
    SameTrimmed(data, l, complete);
    EvaluateCases(data, l, complete);
    if CharmOk(data, t.charm) { NamesIff(data, t); }
  }

  lemma {:induction false} FirstUnnamedIs(data: Data, trees: seq<int>)
    ensures Skills.FirstUnnamed(data, trees).Some? ==>
      Skills.FirstUnnamed(data, trees).value in trees && Skills.FirstUnnamed(data, trees).value !in data.skillTrees
  {
    if trees == [] {
    } else {
      FirstUnnamedIs(data, trees[..|trees| - 1]);
    }
  }

  lemma UnknownTreeIs(data: Data, l: Loadout)
    requires l.charm.skill1 >= 0 && l.charm.skill2 >= 0 && SkillsOf(data, AllPoints(data, l)).UnknownTree?
    ensures var tree := SkillsOf(data, AllPoints(data, l)).tree;
      tree !in data.skillTrees && exists slot :: SlotMentions(data, l, slot, tree)
  {
    hide AllPoints, SlotMentions, Sorting.Ascending;
    var t := AllPoints(data, l);
    SkillsOfIs(data, t);
    FirstUnnamedIs(data, Sorting.Ascending(t.Keys));
    TableKeys(data, l, SkillsOf(data, t).tree);
  }

  lemma JustifiedTrimmed(data: Data, l: Loadout, complete: bool, error: Error)
    ensures Justified(data, Trimmed(l), complete, error) <==> Justified(data, l, complete, error)
  {
    hide SlotMentions;
    Names.TrimIdempotent(l.name);
    SameTrimmed(data, l, complete);
  }

  lemma CharmSkills(data: Data, l: Loadout, complete: bool)
    requires LoadoutError(data, l, complete).None?
    ensures l.charm.skill1 >= 0 && l.charm.skill2 >= 0
  {
  }

  lemma TreeReason(data: Data, l: Loadout, complete: bool)
    requires SkillsOf(data, AllPoints(data, l)).UnknownTree?
    requires var tree := SkillsOf(data, AllPoints(data, l)).tree;
      tree !in data.skillTrees && exists slot :: SlotMentions(data, l, slot, tree)
    ensures Justified(data, l, complete, UnknownSkillTree(SkillsOf(data, AllPoints(data, l)).tree))
  {
    hide SkillsOf, AllPoints, SlotMentions;
  }

  /** Every rejection names a reason that holds. */
  lemma RejectionJustified(data: Data, l: Loadout, complete: bool)
    ensures Evaluate(data, l, complete).Failure? ==> Justified(data, l, complete, Evaluate(data, l, complete).error)
  {
    hide HeaderError, FirstPieceError, CharmError, FirstUnknown, SkillsOf, AllPoints, AllTotals, AllDiagnostics,
      Evaluate;
    hide Justified, HeaderOk, CharmOk;
    var t := Trimmed(l);
    EvaluateCases(data, l, complete);
    HeaderIff(data, l, complete);
    PiecesIff(data, t, complete, |PIECES|);
    CharmIff(data, t, complete);
    if Evaluate(data, l, complete).Failure? {
      JustifiedTrimmed(data, l, complete, Evaluate(data, l, complete).error);
      if LoadoutError(data, t, complete).None? {
        CharmSkills(data, t, complete);
        UnknownTreeIs(data, t);
        TreeReason(data, t, complete);
      }
    }
  }
}
