/**
 What the evaluation of a loadout ought to give, in terms of the loadout's fields and the tables
 alone: when it is accepted, what its totals are, and what is remarked about it.
 */
module Reference {
  import opened Wrappers
  import opened GameData
  import opened Verdicts
  import Names

  // ---------- Looking things up ----------

  function Worn(l: Loadout, slot: Slot): Piece {
    match slot
    case Weapon => l.weapon
    case Head => l.head
    case Chest => l.chest
    case Arms => l.arms
    case Waist => l.waist
    case Legs => l.legs
    case CharmSlot => Piece(6, l.charm.classId, l.charm.decorations)
  }

  function WeaponRowOf(data: Data, l: Loadout): Option<WeaponRow> {
    var key := (l.weapon.saveType, l.weapon.saveId);
    if key in data.weapons then Some(data.weapons[key]) else None
  }

  function ArmorRowOf(data: Data, l: Loadout, slot: Slot): Option<ArmorRow> {
    var key := (Worn(l, slot).saveType, Worn(l, slot).saveId);
    if key in data.armors then Some(data.armors[key]) else None
  }

  /** A missing value counts as 0. */
  function Value(v: Option<int>): int { match v case None => 0 case Some(n) => n }

  /** An unknown number of holes counts as none. */
  function Holes(v: Option<int>): int { match v case None => 0 case Some(n) => if n > 0 then n else 0 }

  function DecorationHoles(data: Data, id: int): int {
    match FindDecoration(data.decorations, id)
    case None => 0
    case Some(d) => if id == 0 then 0 else d.slots
  }

  function HolesUsed(data: Data, ids: seq<int>): int {
    if ids == [] then 0 else HolesUsed(data, ids[..|ids| - 1]) + DecorationHoles(data, ids[|ids| - 1])
  }

  /** The row is the first confirmed one for the id, or the first one if none is confirmed. */
  predicate Chosen(rows: seq<DecorationRow>, i: int, id: int) {
    && 0 <= i < |rows| && rows[i].saveId == id
    && (rows[i].status == "confirmed" ==> forall j :: 0 <= j < i ==>
         !(rows[j].saveId == id && rows[j].status == "confirmed"))
    && (rows[i].status != "confirmed" ==>
          && (forall j :: 0 <= j < |rows| ==> !(rows[j].saveId == id && rows[j].status == "confirmed"))
          && (forall j :: 0 <= j < i ==> rows[j].saveId != id))
  }

  lemma ChosenNext(rows: seq<DecorationRow>, i: int, id: int)
    requires rows != [] && Chosen(rows[1..], i, id)
    requires rows[0].saveId != id || (rows[0].status != "confirmed" && rows[1..][i].status == "confirmed")
    ensures Chosen(rows, i + 1, id)
  {
    var rest := rows[1..];
    assert forall j :: 0 < j < |rows| ==> rows[j] == rest[j - 1];
  }

  lemma ChosenFirst(rows: seq<DecorationRow>, id: int)
    requires rows != [] && rows[0].saveId == id
    requires || rows[0].status == "confirmed"
             || (forall j :: 0 <= j < |rows[1..]| ==> rows[1..][j].saveId != id)
             || (exists i :: Chosen(rows[1..], i, id) && rows[1..][i].status != "confirmed")
    ensures Chosen(rows, 0, id)
  {
    assert forall j :: 0 < j < |rows| ==> rows[j] == rows[1..][j - 1];
  }

  /** An id has a decoration exactly if some row has it, and then the chosen row is found. */
  lemma {:induction false} FindDecorationIs(rows: seq<DecorationRow>, id: int)
    ensures FindDecoration(rows, id).None? <==> forall j :: 0 <= j < |rows| ==> rows[j].saveId != id
    ensures FindDecoration(rows, id).Some? ==>
      exists i :: Chosen(rows, i, id) && rows[i] == FindDecoration(rows, id).value
  {
    if rows == [] {
    } else {
      var rest := rows[1..];
      FindDecorationIs(rest, id);
      assert forall j :: 0 < j < |rows| ==> rows[j] == rest[j - 1];
      var found := FindDecoration(rest, id);
      if rows[0].saveId == id && (rows[0].status == "confirmed" || found.None? || found.value.status != "confirmed") {
        ChosenFirst(rows, id);
      } else if found.Some? {
        var i :| Chosen(rest, i, id) && rest[i] == found.value;
        ChosenNext(rows, i, id);
      }
    }
  }

  // ---------- Which loadouts are accepted ----------

  predicate HeaderOk(data: Data, l: Loadout) {
    && l.schema == "MH_LOADOUT" && l.schemaVersion == 1 && l.game == "mh3g"
    && l.dataVersion == data.version
    && 1 <= |Names.TrimSpace(l.name)| <= 40
    && (l.gender == "male" || l.gender == "female")
  }

  /** At most three decorations, each an empty hole or a known id of 16 bits. */
  predicate ListOk(data: Data, ids: seq<int>) {
    |ids| <= 3 && forall id :: id in ids ==> 0 <= id <= 65535 && (id == 0 || FindDecoration(data.decorations, id).Some?)
  }

  predicate IsChosen(p: Piece, complete: bool) { complete ==> p.saveType != 0 && p.saveId != 0 }

  predicate WeaponOk(data: Data, l: Loadout, complete: bool) {
    && IsChosen(l.weapon, complete)
    && 7 <= l.weapon.saveType <= 19 && l.weapon.saveType != 12
    && (l.weapon.saveType, l.weapon.saveId) in data.weapons && ListOk(data, l.weapon.decorations)
  }

  predicate ArmorOk(data: Data, p: Piece, saveType: int, complete: bool) {
    IsChosen(p, complete) && p.saveType == saveType && (saveType, p.saveId) in data.armors
      && ListOk(data, p.decorations)
  }

  predicate PiecesOk(data: Data, l: Loadout, complete: bool) {
    && WeaponOk(data, l, complete)
    && ArmorOk(data, l.head, 5, complete) && ArmorOk(data, l.chest, 1, complete) && ArmorOk(data, l.arms, 2, complete)
    && ArmorOk(data, l.waist, 3, complete) && ArmorOk(data, l.legs, 4, complete)
  }

  predicate CharmOk(data: Data, c: Charm) {
    && 0 <= c.classId <= 65535 && 0 <= c.slots <= 3 && 0 <= c.skill1 <= 255 && 0 <= c.skill2 <= 255
    && -128 <= c.points1 <= 127 && -128 <= c.points2 <= 127
    && c.classId in data.charmClasses
    && (c.skill1 != 0 ==> c.skill1 in data.skillTrees) && (c.skill2 != 0 ==> c.skill2 in data.skillTrees)
    && ListOk(data, c.decorations)
  }

  predicate RowMentions(rows: seq<SkillPoint>, tree: int) { exists i :: 0 <= i < |rows| && rows[i].tree == tree }

  predicate DecorationMentions(data: Data, id: int, tree: int) {
    var d := FindDecoration(data.decorations, id);
    id != 0 && d.Some? && RowMentions(RowsOf(data.decorationSkills, d.value.dexId), tree)
  }

  predicate ListMentions(data: Data, ids: seq<int>, tree: int) {
    exists id :: id in ids && DecorationMentions(data, id, tree)
  }

  predicate ArmorMentions(data: Data, p: Piece, tree: int) {
    && p.saveType < 7 && (p.saveType, p.saveId) in data.armors
    && RowMentions(RowsOf(data.armorSkills, data.armors[(p.saveType, p.saveId)].dexId), tree)
  }

  /** Some skill row of the equipment in the slot, its decorations or the charm is about the tree. */
  predicate SlotMentions(data: Data, l: Loadout, slot: Slot, tree: int) {
    || (slot != CharmSlot && ArmorMentions(data, Worn(l, slot), tree))
    || (slot == CharmSlot && tree > 0 && (l.charm.skill1 == tree || l.charm.skill2 == tree))
    || ListMentions(data, Worn(l, slot).decorations, tree)
  }

  /** Every tree that the loadout is about has a name. */
  ghost predicate TreesNamed(data: Data, l: Loadout) {
    forall slot, tree :: SlotMentions(data, l, slot, tree) ==> tree in data.skillTrees
  }

  /** The number by which a save file names the kind of armour in a slot. */
  function ArmorType(slot: Slot): int {
    if slot == Head then 5 else if slot == Chest then 1 else if slot == Arms then 2 else if slot == Waist then 3 else 4
  }

  predicate IsArmor(slot: Slot) { slot != Weapon && slot != CharmSlot }

  /** What an error says is so. */
  ghost predicate Justified(data: Data, l: Loadout, complete: bool, error: Error) {
    match error
    case UnsupportedFormat => l.schema != "MH_LOADOUT" || l.schemaVersion != 1 || l.game != "mh3g"
    case DataVersionMismatch => l.dataVersion != data.version
    case BadName => |Names.TrimSpace(l.name)| < 1 || |Names.TrimSpace(l.name)| > 40
    case BadGender => l.gender != "male" && l.gender != "female"
    case PieceMissing(slot) => slot != CharmSlot && complete
      && (Worn(l, slot).saveType == 0 || Worn(l, slot).saveId == 0)
    case BadWeaponType => l.weapon.saveType < 7 || l.weapon.saveType > 19 || l.weapon.saveType == 12
    case SlotMismatch(slot) => IsArmor(slot) && Worn(l, slot).saveType != ArmorType(slot)
    case TooManyDecorations(slot) => |Worn(l, slot).decorations| > 3
    case DecorationOutOfRange(slot) => exists id :: id in Worn(l, slot).decorations && (id < 0 || id > 65535)
    case UnknownEquipment(slot) =>
      (slot == Weapon && WeaponRowOf(data, l).None?) || (IsArmor(slot) && ArmorRowOf(data, l, slot).None?)
    case UnknownDecoration(id) =>
      id != 0 && FindDecoration(data.decorations, id).None? && exists slot :: id in Worn(l, slot).decorations
    case CharmOutOfRange =>
      var c := l.charm;
      || c.classId < 0 || c.classId > 65535 || c.slots < 0 || c.slots > 3 || c.skill1 < 0 || c.skill1 > 255
      || c.skill2 < 0 || c.skill2 > 255 || c.points1 < -128 || c.points1 > 127 || c.points2 < -128 || c.points2 > 127
    case UnknownCharmClass => l.charm.classId !in data.charmClasses
    case UnknownCharmSkill(skill) =>
      skill != 0 && (skill == l.charm.skill1 || skill == l.charm.skill2) && skill !in data.skillTrees
    case UnknownSkillTree(tree) => tree !in data.skillTrees && exists slot :: SlotMentions(data, l, slot, tree)
  }

  // ---------- What is remarked about an accepted loadout ----------

  /** Whether the weapon asks for armour of gunners (2) or of blademasters (1). */
  function CombatAsked(l: Loadout): int {
    if l.weapon.saveType == 11 || l.weapon.saveType == 13 || l.weapon.saveType == 17 then 2 else 1
  }

  function GenderAsked(l: Loadout): int { if l.gender == "female" then 2 else 1 }

  /** Whether some recorded charm of the class has the skill in the position, and with these points. */
  predicate SkillSeen(data: Data, c: Charm, position: int) {
    exists r :: r in data.charmRows && r.classId == c.classId
                && (if position == 1 then r.skill1 == c.skill1 else r.skill2 == c.skill2)
  }

  predicate PointsSeen(data: Data, c: Charm, position: int) {
    exists r :: r in data.charmRows && r.classId == c.classId
                && (if position == 1 then r.skill1 == c.skill1 && r.points1 == c.points1
                    else r.skill2 == c.skill2 && r.points2 == c.points2)
  }

  predicate IsClassName(data: Data, c: Charm, name: string) {
    c.classId in data.charmClasses && data.charmClasses[c.classId] == name
  }

  /** What a remark says is so. */
  predicate Remarked(data: Data, l: Loadout, d: Diagnostic) {
    var c := l.charm;
    match d
    case ArmorCombatMismatch(slot) =>
      && IsArmor(slot) && ArmorRowOf(data, l, slot).Some?
      && Value(ArmorRowOf(data, l, slot).value.combat) > 0
      && Value(ArmorRowOf(data, l, slot).value.combat) != CombatAsked(l)
    case ArmorGenderMismatch(slot) =>
      && IsArmor(slot) && ArmorRowOf(data, l, slot).Some?
      && Value(ArmorRowOf(data, l, slot).value.gender) > 0
      && Value(ArmorRowOf(data, l, slot).value.gender) != GenderAsked(l)
    case ParametersUnknown(slot, name) =>
      if slot == Weapon then
        WeaponRowOf(data, l).Some? && WeaponRowOf(data, l).value.status != "confirmed"
          && WeaponRowOf(data, l).value.name == name
      else
        && IsArmor(slot) && ArmorRowOf(data, l, slot).Some?
        && ArmorRowOf(data, l, slot).value.status != "confirmed" && ArmorRowOf(data, l, slot).value.name == name
    case CapacityExceeded(slot, used, capacity) =>
      && used == HolesUsed(data, Worn(l, slot).decorations) && used > capacity
      && (slot == CharmSlot ==> capacity == c.slots)
      && (slot == Weapon ==>
            capacity >= 0 && WeaponRowOf(data, l).Some? && WeaponRowOf(data, l).value.slots == Some(capacity))
      && (IsArmor(slot) ==>
            capacity >= 0 && ArmorRowOf(data, l, slot).Some?
            && ArmorRowOf(data, l, slot).value.slots == Some(capacity))
    case PointsWithoutSkill(position, points) =>
      points != 0 && ((position == 1 && c.skill1 == 0 && c.points1 == points)
                      || (position == 2 && c.skill2 == 0 && c.points2 == points))
    case DuplicateSkill => c.skill1 != 0 && c.skill1 == c.skill2
    case SlotsNotGenerated(name, slots) =>
      && IsClassName(data, c, name) && slots == c.slots
      && !exists r :: r in data.charmRows && r.classId == c.classId && r.slots == c.slots
    case PositionInvalid(name, position) =>
      IsClassName(data, c, name) && (position == 1 || position == 2) && !SkillSeen(data, c, position)
    case PointsInvalid(name, position, points) =>
      && IsClassName(data, c, name)
           && ((position == 1 && points == c.points1) || (position == 2 && points == c.points2))
      && SkillSeen(data, c, position) && !PointsSeen(data, c, position)
    case PairNotGenerated(name) =>
      && IsClassName(data, c, name) && c.skill1 != 0 && c.skill2 != 0
      && !exists r :: r in data.charmRows && r.classId == c.classId && r.skill1 == c.skill1 && r.skill2 == c.skill2
    case CombinationNotGenerated =>
      CharmRow(c.classId, c.slots, c.skill1, c.points1, c.skill2, c.points2) !in data.charmRows
  }

  function SlotPlace(slot: Slot): nat {
    match slot
    case Weapon => 0 case Head => 1 case Chest => 2 case Arms => 3 case Waist => 4 case Legs => 5 case CharmSlot => 6
  }

  /** The place of a remark among the others: piece by piece, then the charm, then the holes of the charm. */
  function Place(d: Diagnostic): nat {
    match d
    case ArmorCombatMismatch(slot) => 4 * SlotPlace(slot)
    case ArmorGenderMismatch(slot) => 4 * SlotPlace(slot) + 1
    case ParametersUnknown(slot, _) => 4 * SlotPlace(slot) + 2
    case CapacityExceeded(slot, _, _) => if slot == CharmSlot then 40 else 4 * SlotPlace(slot) + 3
    case PointsWithoutSkill(position, _) => if position == 1 then 30 else 31
    case DuplicateSkill => 32
    case SlotsNotGenerated(_, _) => 33
    case PositionInvalid(_, position) => if position == 1 then 34 else 35
    case PointsInvalid(_, position, _) => if position == 1 then 34 else 35
    case PairNotGenerated(_) => 36
    case CombinationNotGenerated => 37
  }
}
