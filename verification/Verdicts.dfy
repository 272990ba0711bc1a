/** Why a loadout is rejected, and what is remarked about one that is accepted. */
module Verdicts {
  import opened GameData

  datatype Error =
    | UnsupportedFormat | DataVersionMismatch | BadName | BadGender
    | PieceMissing(slot: Slot) | BadWeaponType | SlotMismatch(slot: Slot)
    | TooManyDecorations(slot: Slot) | DecorationOutOfRange(slot: Slot)
    | UnknownEquipment(slot: Slot) | UnknownDecoration(id: int)
    | CharmOutOfRange | UnknownCharmClass | UnknownCharmSkill(skill: int)
    | UnknownSkillTree(tree: int)

  /** The code, the field and the values that the message is made of. */
  datatype Diagnostic =
    | ArmorCombatMismatch(slot: Slot)
    | ArmorGenderMismatch(slot: Slot)
    | ParametersUnknown(slot: Slot, name: string)
    | CapacityExceeded(slot: Slot, used: int, capacity: int)
    | PointsWithoutSkill(position: int, points: int)
    | DuplicateSkill
    | SlotsNotGenerated(className: string, slots: int)
    | PositionInvalid(className: string, position: int)
    | PointsInvalid(className: string, position: int, points: int)
    | PairNotGenerated(className: string)
    | CombinationNotGenerated
}
