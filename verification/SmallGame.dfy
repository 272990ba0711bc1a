/** The smallest game: one piece for every slot, one charm, no skills.  Its one loadout is accepted and legal. */
module SmallGame {
  import opened Wrappers
  import opened GameData
  import opened Points
  import opened CharmLegality
  import opened Evaluation
  import Sorting

  function WeaponOnly(): WeaponRow { WeaponRow("weapon", Some(0), Some(1), "confirmed") }

  function ArmorOnly(): ArmorRow {
    ArmorRow("armour", Some(0), None, None, None, None, None, None, None, None, None, "confirmed", 0)
  }

  function SmallData(): Data {
    Data("1",
         map[(7, 1) := WeaponOnly()],
         map[(1, 1) := ArmorOnly(), (2, 1) := ArmorOnly(), (3, 1) := ArmorOnly(), (4, 1) := ArmorOnly(),
             (5, 1) := ArmorOnly()],
         map[], [], map[], map[], map[],
         map[1 := "charm"], [CharmRow(1, 0, 0, 0, 0, 0)])
  }

  function SmallLoadout(): Loadout {
    Loadout(FORMAT, 1, GAME, "1", "name", "male",
            Piece(7, 1, []), Piece(5, 1, []), Piece(1, 1, []), Piece(2, 1, []), Piece(3, 1, []), Piece(4, 1, []),
            Charm(1, 0, 0, 0, 0, 0, []))
  }

  lemma SmallName()
    ensures Trimmed(SmallLoadout()) == SmallLoadout()
  {
    var name := SmallLoadout().name;
    assert name[0] == 'n' && name[|name| - 1] == 'e';
  }

  lemma PieceAccepted(slot: Slot)
    requires slot != CharmSlot
    ensures PieceError(SmallData(), SmallLoadout(), true, slot).None?
    ensures DetailAt(SmallData(), SmallLoadout(), slot).skillPoints == map[]
    ensures Suits(SmallData(), SmallLoadout(), slot)
  {
  }

  lemma {:induction false} PiecesAccepted(n: nat)
    requires n <= |PIECES|
    ensures FirstPieceError(SmallData(), SmallLoadout(), true, n).None?
    ensures PointsUpTo(SmallData(), SmallLoadout(), n) == map[]
  {
    hide PieceError, DetailAt, Suits;
    if n == 0 {
    } else {
      PiecesAccepted(n - 1);
      assert PIECES[n - 1] != CharmSlot;
      PieceAccepted(PIECES[n - 1]);
      assert PieceAt(SmallLoadout(), PIECES[n - 1]).decorations == [];
    }
  }

  lemma HeaderAndCharm()
    ensures HeaderError(SmallData(), SmallLoadout()).None? && CharmError(SmallData(), SmallLoadout().charm).None?
    ensures SmallLoadout().charm.decorations == [] && Natural(SmallData(), SmallLoadout().charm)
  {
  }

  lemma CharmGivesNothing()
    ensures CharmPoints(map[], SmallLoadout().charm) == map[]
  {
  }

  lemma NoPoints(n: nat)
    requires n == |PIECES|
    ensures LoadoutError(SmallData(), SmallLoadout(), true).None? && AllPoints(SmallData(), SmallLoadout()) == map[]
  {
    hide HeaderError, CharmError, FirstPieceError, PointsUpTo, SmallData, Natural;
    PiecesAccepted(n);
    HeaderAndCharm();
    assert TorsoUp(map[]) == map[];
    CharmGivesNothing();
  }

  lemma CharmFits()
    ensures UsedAt(SmallData(), SmallLoadout(), CharmSlot) <= SmallLoadout().charm.slots
  {
  }

  lemma NoSkills(data: Data)
    ensures SkillsOf(data, map[]).FinishedSkills?
  {
    assert Sorting.Ascending({}) == [];
  }

  /** There is a loadout that is accepted, and it is legal. */
  lemma SmallLoadoutAccepted()
    ensures Evaluate(SmallData(), SmallLoadout(), true).Success?
    ensures Evaluate(SmallData(), SmallLoadout(), true).value.isLegal
  {
    hide *;
    var data, l := SmallData(), SmallLoadout();
    SmallName();
    NoPoints(|PIECES|);
    NoSkills(data);
    EvaluateCases(data, l, true);
    forall slot: Slot | slot != CharmSlot ensures Suits(data, l, slot) { PieceAccepted(slot); }
    HeaderAndCharm();
    CharmFits();
    LegalIff(data, l, true);
  }
}
