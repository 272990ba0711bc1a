/** Loadouts and the read-only game data they are judged by. */
module GameData {
  import opened Wrappers

  datatype Slot = Weapon | Head | Chest | Arms | Waist | Legs | CharmSlot

  datatype Piece = Piece(saveType: int, saveId: int, decorations: seq<int>)

  datatype Charm = Charm(classId: int, slots: int, skill1: int, points1: int, skill2: int, points2: int,
                         decorations: seq<int>)

  datatype Loadout = Loadout(schema: string, schemaVersion: int, game: string, dataVersion: string,
                             name: string, gender: string,
                             weapon: Piece, head: Piece, chest: Piece, arms: Piece, waist: Piece, legs: Piece,
                             charm: Charm)

  // ---------- Tables ----------

  datatype SkillPoint = SkillPoint(tree: int, points: int)

  datatype WeaponRow = WeaponRow(name: string, slots: Option<int>, defense: Option<int>, status: string)

  datatype ArmorRow = ArmorRow(name: string, slots: Option<int>, combat: Option<int>, gender: Option<int>,
                               baseDefense: Option<int>, maxDefense: Option<int>, fireRes: Option<int>,
                               waterRes: Option<int>, iceRes: Option<int>, thunderRes: Option<int>,
                               dragonRes: Option<int>,
                               status: string, dexId: int)

  datatype DecorationRow = DecorationRow(saveId: int, dexId: int, slots: int, status: string)

  datatype ActiveSkill = ActiveSkill(id: int, threshold: int, name: string)

  datatype CharmRow = CharmRow(classId: int, slots: int, skill1: int, points1: int, skill2: int, points2: int)

  /**
   The tables by the key each query looks rows up with; rows of one query are in the order in
   which it returns them.
   */
  datatype Data = Data(version: string,
                       weapons: map<(int, int), WeaponRow>,
                       armors: map<(int, int), ArmorRow>,
                       armorSkills: map<int, seq<SkillPoint>>,
                       decorations: seq<DecorationRow>,
                       decorationSkills: map<int, seq<SkillPoint>>,
                       skillTrees: map<int, string>,
                       activeSkills: map<int, seq<ActiveSkill>>,
                       charmClasses: map<int, string>,
                       charmRows: seq<CharmRow>)

  function Coalesce(value: Option<int>, default: int): int {
    if value.Some? then value.value else default
  }

  function RowsOf<T>(table: map<int, seq<T>>, key: int): seq<T> {
    if key in table then table[key] else []
  }

  // ---------- Equipment ----------

  datatype Detail = Detail(name: string, slots: int, combat: int, gender: int, defense: int, baseDefense: int,
                           maxDefense: int, fireRes: int, waterRes: int, iceRes: int, thunderRes: int, dragonRes: int,
                           confirmed: bool, skillPoints: map<int, int>)

  /** The points of each tree, rows of the same tree added up. */
  function SumPoints(rows: seq<SkillPoint>): map<int, int> {
    if rows == [] then map[]
    else
      var sums := SumPoints(rows[..|rows| - 1]);
      var row := rows[|rows| - 1];
      sums[row.tree := (if row.tree in sums then sums[row.tree] else 0) + row.points]
  }

  function Equipment(data: Data, saveType: int, saveId: int): Option<Detail> {
    if saveType >= 7 then
      if (saveType, saveId) !in data.weapons then None
      else
        var w := data.weapons[(saveType, saveId)];
        Some(Detail(w.name, Coalesce(w.slots, -1), 0, 0, Coalesce(w.defense, 0), 0, 0, 0, 0, 0, 0, 0,
                    w.status == "confirmed", map[]))
    else if (saveType, saveId) !in data.armors then None
    else
      var a := data.armors[(saveType, saveId)];
      Some(Detail(a.name, Coalesce(a.slots, -1), Coalesce(a.combat, 0), Coalesce(a.gender, 0), 0,
                  Coalesce(a.baseDefense, 0), Coalesce(a.maxDefense, 0), Coalesce(a.fireRes, 0),
                  Coalesce(a.waterRes, 0), Coalesce(a.iceRes, 0), Coalesce(a.thunderRes, 0), Coalesce(a.dragonRes, 0),
                  a.status == "confirmed", SumPoints(RowsOf(data.armorSkills, a.dexId))))
  }

  // ---------- Decorations ----------

  /** The first row for `id`, a confirmed one if there is any. */
  function FindDecoration(rows: seq<DecorationRow>, id: int): Option<DecorationRow> {
    if rows == [] then None
    else
      var rest := FindDecoration(rows[1..], id);
      if rows[0].saveId != id then rest
      else if rows[0].status == "confirmed" || rest.None? || rest.value.status != "confirmed" then Some(rows[0])
      else rest
  }
}
