/** The evaluation as the program performs it: loops that update a point table and running totals. */
module Adapter {
  import opened Wrappers
  import opened GameData
  import opened Points
  import opened Skills
  import opened Verdicts
  import opened CharmLegality
  import opened Evaluation
  import Folding
  import Fingerprint
  import Names

  lemma {:induction false} FirstUnknownAt(data: Data, ids: seq<int>, i: nat)
    requires i < |ids| && !Known(data, ids[i]) && forall j :: 0 <= j < i ==> Known(data, ids[j])
    ensures FirstUnknown(data, ids) == Some(ids[i])
    decreases i
  {
    if i == 0 {
    } else {
      FirstUnknownAt(data, ids[1..], i - 1);
    }
  }

  lemma DecorationsStep(data: Data, slot: Slot, t: Table, ids: seq<int>, i: nat)
    requires i < |ids|
    ensures AddDecorations(data, slot, t, ids[..i + 1])
      == AddDecoration(data, slot, AddDecorations(data, slot, t, ids[..i]), ids[i])
    ensures UsedSlots(data, ids[..i + 1]) == UsedSlots(data, ids[..i]) + HolesOf(data, ids[i])
  {
    assert ids[..i + 1] == ids[..i] + [ids[i]];
    Folding.FoldAppend((u: Table, id: int) => AddDecoration(data, slot, u, id), t, ids[..i], ids[i]);
    Folding.FoldAppend((n: int, id: int) => n + HolesOf(data, id), 0, ids[..i], ids[i]);
  }

  /** A read-only view of one version of the game data. */
  class GameAdapter {
    const data: Data

    constructor (data: Data)
      ensures this.data == data
    {
      this.data := data;
    }

    /** The points of an armour piece, added up row by row. */
    method ReadSkillPoints(rows: seq<SkillPoint>) returns (sums: map<int, int>)
      ensures sums == SumPoints(rows)
    {
      sums := map[];
      for i := 0 to |rows|
        invariant sums == SumPoints(rows[..i])
      {
        assert rows[..i + 1][..i] == rows[..i];
        var before := if rows[i].tree in sums then sums[rows[i].tree] else 0;
        sums := sums[rows[i].tree := before + rows[i].points];
      }
      assert rows[..|rows|] == rows;
    }

    method FindEquipment(saveType: int, saveId: int) returns (r: Option<Detail>)
      ensures r == Equipment(data, saveType, saveId)
    {
      if saveType >= 7 {
        if (saveType, saveId) !in data.weapons {
          return None;
        }
        var w := data.weapons[(saveType, saveId)];
        return Some(Detail(w.name, Coalesce(w.slots, -1), 0, 0, Coalesce(w.defense, 0), 0, 0, 0, 0, 0, 0, 0,
                           w.status == "confirmed", map[]));
      }
      if (saveType, saveId) !in data.armors {
        return None;
      }
      var a := data.armors[(saveType, saveId)];
      var sums := ReadSkillPoints(RowsOf(data.armorSkills, a.dexId));
      return Some(Detail(a.name, Coalesce(a.slots, -1), Coalesce(a.combat, 0), Coalesce(a.gender, 0), 0,
                         Coalesce(a.baseDefense, 0), Coalesce(a.maxDefense, 0), Coalesce(a.fireRes, 0),
                         Coalesce(a.waterRes, 0), Coalesce(a.iceRes, 0), Coalesce(a.thunderRes, 0),
                         Coalesce(a.dragonRes, 0), a.status == "confirmed", sums));
    }

    /** The decorations of one slot in the order submitted; on failure the table is abandoned. */
    method InsertDecorations(points: PointTable, slot: Slot, ids: seq<int>) returns (r: Result<int, Error>)
      modifies points
      ensures FirstUnknown(data, ids).Some? ==> r == Failure(UnknownDecoration(FirstUnknown(data, ids).value))
      ensures FirstUnknown(data, ids).None? ==>
        r == Success(UsedSlots(data, ids)) && points.rows == AddDecorations(data, slot, old(points.rows), ids)
    {
      var used := 0;
      for i := 0 to |ids|
        invariant forall j :: 0 <= j < i ==> Known(data, ids[j])
        invariant used == UsedSlots(data, ids[..i])
        invariant points.rows == AddDecorations(data, slot, old(points.rows), ids[..i])
      {
        var id := ids[i];
        DecorationsStep(data, slot, old(points.rows), ids, i);
        if id != 0 {
          var row := FindDecoration(data.decorations, id);
          if row.None? {
            FirstUnknownAt(data, ids, i);
            return Failure(UnknownDecoration(id));
          }
          used := used + row.value.slots;
          points.AddQueryRows(RowsOf(data.decorationSkills, row.value.dexId), slot);
        }
      }
      assert ids[..|ids|] == ids;
      UnknownIff(data, ids);
      return Success(used);
    }

    /** The checks that precede the lookup of a piece. */
    method CheckPiece(l: Loadout, complete: bool, slot: Slot) returns (error: Option<Error>)
      requires slot != CharmSlot
      ensures var p := PieceAt(l, slot);
        error == if complete && (p.saveType == 0 || p.saveId == 0) then Some(PieceMissing(slot))
                 else if slot.Weapon? && (p.saveType < 7 || p.saveType > 19 || p.saveType == 12) then
                   Some(BadWeaponType)
                 else if !slot.Weapon? && p.saveType != ExpectedType(slot) then Some(SlotMismatch(slot))
                 else DecorationListError(slot, p.decorations)
    {
      var p := PieceAt(l, slot);
      if complete && (p.saveType == 0 || p.saveId == 0) {
        return Some(PieceMissing(slot));
      }
      if slot == Weapon {
        if p.saveType < 7 || p.saveType > 19 || p.saveType == 12 {
          return Some(BadWeaponType);
        }
      } else if p.saveType != ExpectedType(slot) {
        return Some(SlotMismatch(slot));
      }
      error := CheckDecorations(slot, p.decorations);
    }

    method DiagnosePiece(l: Loadout, slot: Slot, detail: Detail, used: int) returns (ds: seq<Diagnostic>)
      requires detail == DetailAt(data, l, slot) && used == UsedAt(data, l, slot)
      ensures ds == PieceDiagnostics(data, l, slot)
    {
      ds := [];
      if slot != Weapon {
        var requiredCombat := 1;
        if Ranged(l.weapon.saveType) {
          requiredCombat := 2;
        }
        if detail.combat > 0 && detail.combat != requiredCombat {
          ds := ds + [ArmorCombatMismatch(slot)];
        }
        var requiredGender := 1;
        if l.gender == "female" {
          requiredGender := 2;
        }
        if detail.gender > 0 && detail.gender != requiredGender {
          ds := ds + [ArmorGenderMismatch(slot)];
        }
      }
      if !detail.confirmed {
        ds := ds + [ParametersUnknown(slot, detail.name)];
      }
      if detail.slots >= 0 && used > detail.slots {
        ds := ds + [CapacityExceeded(slot, used, detail.slots)];
      }
    }

    /** One round of the loop over the pieces. */
    method ValidatePiece(l: Loadout, complete: bool, slot: Slot, points: PointTable, totals: Totals)
      returns (r: Result<(Totals, seq<Diagnostic>), Error>)
      requires slot != CharmSlot
      modifies points
      ensures PieceError(data, l, complete, slot).Some? ==> r == Failure(PieceError(data, l, complete, slot).value)
      ensures PieceError(data, l, complete, slot).None? ==>
        && r == Success((Plus(totals, PieceTotals(data, l, slot)), PieceDiagnostics(data, l, slot)))
        && points.rows == PiecePoints(data, l, old(points.rows), slot)
    {
      hide AddEach, AddDecorations, UsedSlots, FirstUnknown, DecorationListError, Equipment, PieceDiagnostics;
      var p := PieceAt(l, slot);
      var error := CheckPiece(l, complete, slot);
      if error.Some? {
        return Failure(error.value);
      }
      var found := FindEquipment(p.saveType, p.saveId);
      if found.None? {
        return Failure(UnknownEquipment(slot));
      }
      var detail, sums := found.value, totals;
      sums := sums.(totalSlots := sums.totalSlots + Max(detail.slots, 0));
      if slot == Weapon {
        sums := sums.(weaponDefense := sums.weaponDefense + detail.defense,
                      baseDefense := sums.baseDefense + detail.defense, maxDefense := sums.maxDefense + detail.defense);
      } else {
        sums := sums.(baseDefense := sums.baseDefense + detail.baseDefense,
                      maxDefense := sums.maxDefense + detail.maxDefense,
                      fireRes := sums.fireRes + detail.fireRes, waterRes := sums.waterRes + detail.waterRes,
                      iceRes := sums.iceRes + detail.iceRes, thunderRes := sums.thunderRes + detail.thunderRes,
                      dragonRes := sums.dragonRes + detail.dragonRes);
      }
      points.AddArmour(detail.skillPoints, slot);
      var inserted := InsertDecorations(points, slot, p.decorations);
      if inserted.Failure? {
        return Failure(inserted.error);
      }
      var used := inserted.value;
      sums := sums.(usedSlots := sums.usedSlots + used);
      var ds := DiagnosePiece(l, slot, detail, used);
      return Success((sums, ds));
    }

    lemma {:induction false} FirstErrorStays(l: Loadout, complete: bool, i: nat, n: nat)
      requires i <= n <= |PIECES| && FirstPieceError(data, l, complete, i).Some?
      ensures FirstPieceError(data, l, complete, n) == FirstPieceError(data, l, complete, i)
    {
      if i == n {
      } else {
        FirstErrorStays(l, complete, i, n - 1);
      }
    }

    /** The loop over the six pieces. */
    method ValidatePieces(l: Loadout, complete: bool, points: PointTable)
      returns (r: Result<(Totals, seq<Diagnostic>, seq<EquipmentRow>), Error>)
      requires points.rows == map[]
      modifies points
      ensures var n := |PIECES|;
        if FirstPieceError(data, l, complete, n).Some? then r == Failure(FirstPieceError(data, l, complete, n).value)
        else (r == Success((TotalsUpTo(data, l, n), DiagnosticsUpTo(data, l, n), EquipmentUpTo(l, n)))
              && points.rows == PointsUpTo(data, l, n))
    {
      hide PieceError, PieceTotals, PieceDiagnostics, PiecePoints, Plus;
      var totals, diagnostics, equipment := NOTHING, [], [];
      for i := 0 to |PIECES|
        invariant FirstPieceError(data, l, complete, i).None?
        invariant totals == TotalsUpTo(data, l, i) && diagnostics == DiagnosticsUpTo(data, l, i)
        invariant equipment == EquipmentUpTo(l, i) && points.rows == PointsUpTo(data, l, i)
      {
        var slot := PIECES[i];
        var round := ValidatePiece(l, complete, slot, points, totals);
        if round.Failure? {
          FirstErrorStays(l, complete, i + 1, |PIECES|);
          return Failure(round.error);
        }
        totals, diagnostics := round.value.0, diagnostics + round.value.1;
        equipment := equipment + [EquipmentRow(slot, PieceAt(l, slot).saveType, PieceAt(l, slot).saveId)];
      }
      return Success((totals, diagnostics, equipment));
    }

    method CheckHeader(l: Loadout) returns (error: Option<Error>)
      ensures error == HeaderError(data, l)
    {
      if l.schema != FORMAT || l.schemaVersion != 1 || l.game != GAME {
        return Some(UnsupportedFormat);
      }
      if l.dataVersion != data.version {
        return Some(DataVersionMismatch);
      }
      if |l.name| < 1 || |l.name| > 40 {
        return Some(BadName);
      }
      if l.gender != "male" && l.gender != "female" {
        return Some(BadGender);
      }
      return None;
    }

    /**
     The whole evaluation.  Its result is a function of the data and the loadout, although the
     armour's skills, the torso-up markers, the table and its rows are visited in any order.
     */
    method Validate(submitted: Loadout, complete: bool) returns (r: Result<Assessment, Error>)
      ensures r == Evaluate(data, submitted, complete)
    {
      hide HeaderError, FirstPieceError, TotalsUpTo, DiagnosticsUpTo, PointsUpTo, EquipmentUpTo, CharmError,
        CharmDiagnostics, FirstUnknown, UsedSlots, AddDecorations, Finish, TorsoUp, Evaluate, SkillsOf, Add,
        Fingerprint.Canonical, RowsFrom;
      EvaluateCases(data, submitted, complete);
      var l := submitted.(name := Names.TrimSpace(submitted.name));
      var header := CheckHeader(l);
      if header.Some? {
        return Failure(header.value);
      }
      var points := new PointTable();
      var pieces := ValidatePieces(l, complete, points);
      if pieces.Failure? {
        return Failure(pieces.error);
      }
      var (totals, diagnostics, equipment) := pieces.value;
      var charm := ValidateCharm(data, l.charm, diagnostics);
      if charm.Failure? {
        return Failure(charm.error);
      }
      diagnostics := charm.value;
      totals := totals.(totalSlots := totals.totalSlots + l.charm.slots);
      if l.charm.skill1 > 0 {
        points.AddPoint(l.charm.skill1, CharmSlot, l.charm.points1);
      }
      if l.charm.skill2 > 0 {
        points.AddPoint(l.charm.skill2, CharmSlot, l.charm.points2);
      }
      var inserted := InsertDecorations(points, CharmSlot, l.charm.decorations);
      if inserted.Failure? {
        return Failure(inserted.error);
      }
      totals := totals.(usedSlots := totals.usedSlots + inserted.value);
      if inserted.value > l.charm.slots {
        diagnostics := diagnostics + [CapacityExceeded(CharmSlot, inserted.value, l.charm.slots)];
      }
      equipment := equipment + [EquipmentRow(CharmSlot, 6, l.charm.classId)];
      points.ApplyTorsoUp();
      assert points.rows == AllPoints(data, l);
      var finished := FinishSkills(data, points);
      SkillsOfIs(data, points.rows);
      assert finished == SkillsOf(data, points.rows);
      if finished.UnknownTree? {
        return Failure(UnknownSkillTree(finished.tree));
      }
      var skills := finished.summaries;
      assert diagnostics == AllDiagnostics(data, l);
      return Success(Assessment(l, Summary(totals, skills, diagnostics), |diagnostics| == 0,
                                Fingerprint.Canonical(l), equipment, RowsFrom(skills)));
    }
  }
}
