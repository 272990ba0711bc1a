/** The ten totals of an accepted loadout as sums over the rows of its equipment. */
module TotalSources {
  import opened Wrappers
  import opened GameData
  import opened Points
  import opened CharmLegality
  import opened Evaluation
  import opened Reference

  // ---------- Accepted pieces have rows ----------

  lemma {:induction false} NoPieceError(data: Data, l: Loadout, complete: bool, n: nat, i: nat)
    requires i < n <= |PIECES| && FirstPieceError(data, l, complete, n).None?
    ensures PieceError(data, l, complete, PIECES[i]).None?
    decreases n
  {
    hide PieceError;
    if i == n - 1 {
    } else {
      NoPieceError(data, l, complete, n - 1, i);
    }
  }

  lemma AcceptedPiece(data: Data, l: Loadout, complete: bool, slot: Slot)
    requires LoadoutError(data, l, complete).None? && slot != CharmSlot
    ensures PieceError(data, l, complete, slot).None?
  {
    hide PieceError, HeaderError, CharmError, FirstUnknown;
    var i := PieceSlots(slot);
    NoPieceError(data, l, complete, |PIECES|, i);
  }

  /** The pieces have rows in the tables of their kind. */
  ghost predicate HasRows(data: Data, l: Loadout) {
    && WeaponRowOf(data, l).Some? && l.weapon.saveType >= 7
    && (forall slot: Slot :: slot != Weapon && slot != CharmSlot ==>
          ArmorRowOf(data, l, slot).Some? && Worn(l, slot).saveType < 7)
  }

  lemma AcceptedHasRows(data: Data, l: Loadout, complete: bool)
    requires LoadoutError(data, l, complete).None?
    ensures HasRows(data, l)
  {
    hide LoadoutError, FirstUnknown, DecorationListError;
    AcceptedPiece(data, l, complete, Weapon);
    forall slot: Slot | slot != Weapon && slot != CharmSlot
      ensures ArmorRowOf(data, l, slot).Some? && Worn(l, slot).saveType < 7
    {
      AcceptedPiece(data, l, complete, slot);
      WornIs(l, slot);
    }
  }

  // ---------- What one piece adds ----------

  lemma {:induction false} UsedIs(data: Data, ids: seq<int>)
    ensures UsedSlots(data, ids) == HolesUsed(data, ids)
  {
    if ids == [] {
    } else {
      UsedIs(data, ids[..|ids| - 1]);
      assert UsedSlots(data, ids) == UsedSlots(data, ids[..|ids| - 1]) + HolesOf(data, ids[|ids| - 1]);
    }
  }

  lemma WeaponAdds(data: Data, l: Loadout)
    requires HasRows(data, l)
    ensures var w := WeaponRowOf(data, l).value; var defense := Value(w.defense);
      PieceTotals(data, l, Weapon)
      == Totals(defense, defense, defense, 0, 0, 0, 0, 0, Holes(w.slots), HolesUsed(data, l.weapon.decorations))
  {
    hide UsedSlots, HolesUsed;
    UsedIs(data, l.weapon.decorations);
  }

  lemma ArmorAdds(data: Data, l: Loadout, slot: Slot)
    requires HasRows(data, l) && slot != Weapon && slot != CharmSlot
    ensures var a := ArmorRowOf(data, l, slot).value;
      PieceTotals(data, l, slot)
      == Totals(Value(a.baseDefense), Value(a.maxDefense), 0, Value(a.fireRes), Value(a.waterRes), Value(a.iceRes),
                Value(a.thunderRes), Value(a.dragonRes), Holes(a.slots), HolesUsed(data, Worn(l, slot).decorations))
  {
    hide UsedSlots, HolesUsed, SumPoints;
    WornIs(l, slot);
    UsedIs(data, Worn(l, slot).decorations);
  }

  // ---------- The sums ----------

  /** One column over the five pieces of armour. */
  function OverArmor(data: Data, l: Loadout, column: ArmorRow -> int): int
    requires HasRows(data, l)
  {
    column(ArmorRowOf(data, l, Head).value) + column(ArmorRowOf(data, l, Chest).value)
    + column(ArmorRowOf(data, l, Arms).value) + column(ArmorRowOf(data, l, Waist).value)
    + column(ArmorRowOf(data, l, Legs).value)
  }

  function HolesUsedByPieces(data: Data, l: Loadout): int {
    HolesUsed(data, l.weapon.decorations) + HolesUsed(data, l.head.decorations) + HolesUsed(data, l.chest.decorations)
    + HolesUsed(data, l.arms.decorations) + HolesUsed(data, l.waist.decorations) + HolesUsed(data, l.legs.decorations)
  }

  lemma SixPieces(data: Data, l: Loadout)
    ensures TotalsUpTo(data, l, |PIECES|)
      == Plus(Plus(Plus(Plus(Plus(Plus(NOTHING, PieceTotals(data, l, Weapon)), PieceTotals(data, l, Head)),
                             PieceTotals(data, l, Chest)), PieceTotals(data, l, Arms)),
                   PieceTotals(data, l, Waist)), PieceTotals(data, l, Legs))
  {
    hide PieceTotals, Plus;
    assert TotalsUpTo(data, l, 1) == Plus(TotalsUpTo(data, l, 0), PieceTotals(data, l, Weapon));
    assert TotalsUpTo(data, l, 2) == Plus(TotalsUpTo(data, l, 1), PieceTotals(data, l, Head));
    assert TotalsUpTo(data, l, 3) == Plus(TotalsUpTo(data, l, 2), PieceTotals(data, l, Chest));
    assert TotalsUpTo(data, l, 4) == Plus(TotalsUpTo(data, l, 3), PieceTotals(data, l, Arms));
    assert TotalsUpTo(data, l, 5) == Plus(TotalsUpTo(data, l, 4), PieceTotals(data, l, Waist));
  }

  lemma TrimmedRows(data: Data, l: Loadout)
    ensures HasRows(data, Trimmed(l)) <==> HasRows(data, l)
    ensures forall slot :: Worn(Trimmed(l), slot) == Worn(l, slot)
    ensures WeaponRowOf(data, Trimmed(l)) == WeaponRowOf(data, l)
    ensures forall slot :: ArmorRowOf(data, Trimmed(l), slot) == ArmorRowOf(data, l, slot)
  {
    forall slot ensures Worn(Trimmed(l), slot) == Worn(l, slot) {}
  }

  /** The totals of the six pieces, column by column. */
  predicate PiecesAddUp(data: Data, l: Loadout, t: Totals)
    requires HasRows(data, l)
  {
    var w := WeaponRowOf(data, l).value;
    && t.weaponDefense == Value(w.defense)
    && t.baseDefense == Value(w.defense) + OverArmor(data, l, (a: ArmorRow) => Value(a.baseDefense))
    && t.maxDefense == Value(w.defense) + OverArmor(data, l, (a: ArmorRow) => Value(a.maxDefense))
    && t.fireRes == OverArmor(data, l, (a: ArmorRow) => Value(a.fireRes))
    && t.waterRes == OverArmor(data, l, (a: ArmorRow) => Value(a.waterRes))
    && t.iceRes == OverArmor(data, l, (a: ArmorRow) => Value(a.iceRes))
    && t.thunderRes == OverArmor(data, l, (a: ArmorRow) => Value(a.thunderRes))
    && t.dragonRes == OverArmor(data, l, (a: ArmorRow) => Value(a.dragonRes))
    && t.totalSlots == Holes(w.slots) + OverArmor(data, l, (a: ArmorRow) => Holes(a.slots))
    && t.usedSlots == HolesUsedByPieces(data, l)
  }

  lemma SixAddUp(data: Data, l: Loadout)
    requires HasRows(data, l)
    ensures PiecesAddUp(data, l, TotalsUpTo(data, l, |PIECES|))
  {
    hide PieceTotals, TotalsUpTo, HolesUsed, Value, Holes, HasRows, WeaponRowOf, ArmorRowOf;
    SixPieces(data, l);
    WeaponAdds(data, l);
    ArmorAdds(data, l, Head);
    ArmorAdds(data, l, Chest);
    ArmorAdds(data, l, Arms);
    ArmorAdds(data, l, Waist);
    ArmorAdds(data, l, Legs);
  }

  /**
   The summary of an accepted loadout: defences, resistances and holes are the sums of the columns of
   its rows, where a missing value is 0 and an unknown number of holes counts as none.
   */
  lemma TotalsAccounted(data: Data, l: Loadout, complete: bool)
    requires Evaluate(data, l, complete).Success?
    ensures HasRows(data, l)
    ensures var t, w := Evaluate(data, l, complete).value.summary.totals, WeaponRowOf(data, l).value;
      && t.weaponDefense == Value(w.defense)
      && t.baseDefense == Value(w.defense) + OverArmor(data, l, (a: ArmorRow) => Value(a.baseDefense))
      && t.maxDefense == Value(w.defense) + OverArmor(data, l, (a: ArmorRow) => Value(a.maxDefense))
      && t.fireRes == OverArmor(data, l, (a: ArmorRow) => Value(a.fireRes))
      && t.waterRes == OverArmor(data, l, (a: ArmorRow) => Value(a.waterRes))
      && t.iceRes == OverArmor(data, l, (a: ArmorRow) => Value(a.iceRes))
      && t.thunderRes == OverArmor(data, l, (a: ArmorRow) => Value(a.thunderRes))
      && t.dragonRes == OverArmor(data, l, (a: ArmorRow) => Value(a.dragonRes))
      && t.totalSlots == Holes(w.slots) + OverArmor(data, l, (a: ArmorRow) => Holes(a.slots)) + l.charm.slots
      && t.usedSlots == HolesUsedByPieces(data, l) + HolesUsed(data, l.charm.decorations)
  {
    hide Evaluate, TotalsUpTo, HolesUsed, UsedSlots, Value, Holes, LoadoutError, HasRows, WeaponRowOf, ArmorRowOf;
    AcceptedParts(data, l, complete);
    AcceptedHasRows(data, Trimmed(l), complete);
    TrimmedRows(data, l);
    SixAddUp(data, Trimmed(l));
    UsedIs(data, l.charm.decorations);
  }
}
