/** The skill point table: a row of seven columns for every skill tree that received points. */
module Points {
  import opened GameData
  import Folding
  import Sorting

  type Row = map<Slot, int>
  type Table = map<int, Row>

  const TORSO_UP := 1

  function CellOf(row: Row, slot: Slot): int { if slot in row then row[slot] else 0 }

  function RowOf(t: Table, tree: int): Row { if tree in t then t[tree] else map[] }

  function AddCell(row: Row, slot: Slot, points: int): Row { row[slot := CellOf(row, slot) + points] }

  function Add(t: Table, tree: int, slot: Slot, points: int): Table {
    t[tree := AddCell(RowOf(t, tree), slot, points)]
  }

  /** The sum of the seven columns. */
  function Total(row: Row): int {
    CellOf(row, Weapon) + CellOf(row, Head) + CellOf(row, Chest) + CellOf(row, Arms)
    + CellOf(row, Waist) + CellOf(row, Legs) + CellOf(row, CharmSlot)
  }

  // ---------- What each step adds, in closed form ----------

  /** Every tree of `skills` receives its points in column `slot`. */
  function AddEach(t: Table, skills: map<int, int>, slot: Slot): Table {
    map tree | tree in t.Keys + skills.Keys ::
      if tree in skills then AddCell(RowOf(t, tree), slot, skills[tree]) else t[tree]
  }

  function AddRows(t: Table, rows: seq<SkillPoint>, slot: Slot): Table {
    if rows == [] then t
    else Add(AddRows(t, rows[..|rows| - 1], slot), rows[|rows| - 1].tree, slot, rows[|rows| - 1].points)
  }

  /** What one decoration adds; 0 is an empty hole and an unknown decoration adds nothing. */
  function AddDecoration(data: Data, slot: Slot, t: Table, id: int): Table {
    var row := FindDecoration(data.decorations, id);
    if id == 0 || row.None? then t else AddRows(t, RowsOf(data.decorationSkills, row.value.dexId), slot)
  }

  function AddDecorations(data: Data, slot: Slot, t: Table, ids: seq<int>): Table {
    Folding.Fold((u: Table, id: int) => AddDecoration(data, slot, u, id), t, ids)
  }

  function HolesOf(data: Data, id: int): int {
    var row := FindDecoration(data.decorations, id);
    if id == 0 || row.None? then 0 else row.value.slots
  }

  function UsedSlots(data: Data, ids: seq<int>): int {
    Folding.Fold((n: int, id: int) => n + HolesOf(data, id), 0, ids)
  }

  predicate Known(data: Data, id: int) { id == 0 || FindDecoration(data.decorations, id).Some? }

  /** The columns that torso-up fills: those other than the chest with a positive marker. */
  function Boosted(t: Table): set<Slot> {
    var markers := RowOf(t, TORSO_UP);
    set slot | slot in markers && slot != Chest && markers[slot] > 0
  }

  function Boost(row: Row, slots: set<Slot>): Row {
    map slot | slot in row.Keys + slots :: CellOf(row, slot) + (if slot in slots then CellOf(row, Chest) else 0)
  }

  /** Every row but the marker row gains its own chest value once in each boosted column. */
  function TorsoUp(t: Table): Table {
    map tree | tree in t :: if tree == TORSO_UP then t[tree] else Boost(t[tree], Boosted(t))
  }

  // ---------- Order does not matter ----------

  lemma AddCommutes(t: Table, a: int, slot: Slot, p: int, b: int, q: int)
    ensures Add(Add(t, a, slot, p), b, slot, q) == Add(Add(t, b, slot, q), a, slot, p)
  {
    var x, y := Add(Add(t, a, slot, p), b, slot, q), Add(Add(t, b, slot, q), a, slot, p);
    assert x.Keys == y.Keys;
    if a == b {
      assert x[a] == y[a];
    }
  }

  lemma {:induction false} AddRowsAdd(t: Table, rows: seq<SkillPoint>, slot: Slot, tree: int, points: int)
    ensures AddRows(Add(t, tree, slot, points), rows, slot) == Add(AddRows(t, rows, slot), tree, slot, points)
    decreases |rows|
  {
    if rows == [] {
    } else {
      var front, last := rows[..|rows| - 1], rows[|rows| - 1];
      AddRowsAdd(t, front, slot, tree, points);
      AddCommutes(AddRows(t, front, slot), last.tree, slot, last.points, tree, points);
    }
  }

  lemma {:induction false} AddRowsCommute(t: Table, a: seq<SkillPoint>, b: seq<SkillPoint>, slot: Slot)
    ensures AddRows(AddRows(t, a, slot), b, slot) == AddRows(AddRows(t, b, slot), a, slot)
    decreases |b|
  {
    if b == [] {
    } else {
      var front, last := b[..|b| - 1], b[|b| - 1];
      AddRowsCommute(t, a, front, slot);
      AddRowsAdd(AddRows(t, front, slot), a, slot, last.tree, last.points);
    }
  }

  lemma AddDecorationCommutes(data: Data, slot: Slot, t: Table, x: int, y: int)
    ensures AddDecoration(data, slot, AddDecoration(data, slot, t, x), y)
         == AddDecoration(data, slot, AddDecoration(data, slot, t, y), x)
  {
    hide AddRows;
    var p, q := FindDecoration(data.decorations, x), FindDecoration(data.decorations, y);
    if p.Some? && q.Some? {
      var a, b := RowsOf(data.decorationSkills, p.value.dexId), RowsOf(data.decorationSkills, q.value.dexId);
      AddRowsCommute(t, a, b, slot);
    }
  }

  /** Decorations in another order add the same points and fill the same number of holes. */
  lemma DecorationOrderIrrelevant(data: Data, slot: Slot, t: Table, a: seq<int>, b: seq<int>)
    requires multiset(a) == multiset(b)
    ensures AddDecorations(data, slot, t, a) == AddDecorations(data, slot, t, b)
    ensures UsedSlots(data, a) == UsedSlots(data, b)
    ensures (forall id :: id in a ==> Known(data, id)) <==> (forall id :: id in b ==> Known(data, id))
  {
    hide AddDecoration, HolesOf;
    var add := (u: Table, id: int) => AddDecoration(data, slot, u, id);
    forall u, x, y ensures add(add(u, x), y) == add(add(u, y), x) {
      AddDecorationCommutes(data, slot, u, x, y);
    }
    Folding.FoldPermutation(add, t, a, b);
    var use := (n: int, id: int) => n + HolesOf(data, id);
    Folding.FoldPermutation(use, 0, a, b);
    forall id ensures id in a <==> id in b {
      assert id in a <==> id in multiset(a);
      assert id in b <==> id in multiset(b);
    }
  }

  // ---------- Torso-up ----------

  function Slots(): set<Slot> { {Weapon, Head, Chest, Arms, Waist, Legs, CharmSlot} }

  function One(b: bool): nat { if b then 1 else 0 }

  /** The number of elements of a set of slots, column by column. */
  lemma CountSlots(s: set<Slot>)
    ensures |s| == One(Weapon in s) + One(Head in s) + One(Chest in s) + One(Arms in s)
                   + One(Waist in s) + One(Legs in s) + One(CharmSlot in s)
    decreases |s|
  {
    if s != {} {
      var x :| x in s;
      assert |s - {x}| == |s| - 1;
      CountSlots(s - {x});
      match x case Weapon => case Head => case Chest => case Arms => case Waist => case Legs => case CharmSlot =>
    }
  }

  lemma BoostCell(row: Row, slots: set<Slot>, slot: Slot)
    ensures CellOf(Boost(row, slots), slot) == CellOf(row, slot) + One(slot in slots) * CellOf(row, Chest)
  {
  }

  lemma Distribute(a: nat, b: nat, d: nat, e: nat, f: nat, g: nat, c: int)
    ensures (a + b + d + e + f + g) * c == a * c + b * c + d * c + e * c + f * c + g * c
  {
  }

  lemma BoostTotal(row: Row, slots: set<Slot>)
    requires Chest !in slots
    ensures Total(Boost(row, slots)) == Total(row) + |slots| * CellOf(row, Chest)
  {
    CountSlots(slots);
    BoostCell(row, slots, Weapon);
    BoostCell(row, slots, Head);
    BoostCell(row, slots, Chest);
    BoostCell(row, slots, Arms);
    BoostCell(row, slots, Waist);
    BoostCell(row, slots, Legs);
    BoostCell(row, slots, CharmSlot);
    Distribute(One(Weapon in slots), One(Head in slots), One(Arms in slots), One(Waist in slots), One(Legs in slots),
               One(CharmSlot in slots), CellOf(row, Chest));
  }

  /** The closed form of torso-up, cell by cell and in total. */
  lemma TorsoUpTotals(t: Table, tree: int)
    requires tree in t
    ensures Chest !in Boosted(t) && TorsoUp(t).Keys == t.Keys
    ensures tree == TORSO_UP ==> TorsoUp(t)[tree] == t[tree]
    ensures tree != TORSO_UP ==>
      && (forall slot :: CellOf(TorsoUp(t)[tree], slot) ==
            CellOf(t[tree], slot) + (if slot in Boosted(t) then CellOf(t[tree], Chest) else 0))
      && Total(TorsoUp(t)[tree]) == Total(t[tree]) + |Boosted(t)| * CellOf(t[tree], Chest)
  {
    if tree != TORSO_UP {
      var row, slots, chest := t[tree], Boosted(t), CellOf(t[tree], Chest);
      CountSlots(slots);
      BoostTotal(row, slots);
    }
  }

  // ---------- The table as the program updates it ----------

  /** The table when only the columns in `done` have been boosted. */
  ghost function Spread(t: Table, done: set<Slot>): Table {
    map tree | tree in t :: if tree == TORSO_UP then t[tree] else Boost(t[tree], done)
  }

  lemma SpreadNothing(t: Table)
    ensures Spread(t, {}) == t
  {
    forall tree | tree in t ensures Boost(t[tree], {}) == t[tree] {}
  }

  lemma BoostStep(row: Row, done: set<Slot>, slot: Slot)
    requires slot !in done && slot != Chest && Chest !in done
    ensures Boost(row, done + {slot}) == AddCell(Boost(row, done), slot, CellOf(Boost(row, done), Chest))
  {
  }

  ghost function Without(skills: map<int, int>, remaining: set<int>): map<int, int> {
    map tree | tree in skills && tree !in remaining :: skills[tree]
  }

  lemma AddEachNothing(t: Table, skills: map<int, int>, slot: Slot)
    ensures AddEach(t, Without(skills, skills.Keys), slot) == t
  {
  }

  lemma AddEachStep(t: Table, skills: map<int, int>, remaining: set<int>, slot: Slot, tree: int)
    requires tree in remaining && remaining <= skills.Keys
    ensures AddEach(t, Without(skills, remaining - {tree}), slot)
         == Add(AddEach(t, Without(skills, remaining), slot), tree, slot, skills[tree])
  {
    hide AddCell;
    var done := Without(skills, remaining);
    assert Without(skills, remaining - {tree}) == done[tree := skills[tree]];
    assert RowOf(AddEach(t, done, slot), tree) == RowOf(t, tree);
  }

  class PointTable {
    var rows: Table

    constructor ()
      ensures rows == map[]
    {
      rows := map[];
    }

    method AddPoint(tree: int, slot: Slot, points: int)
      modifies this
      ensures rows == Add(old(rows), tree, slot, points)
    {
      if tree !in rows {
        rows := rows[tree := map[]];
      }
      rows := rows[tree := AddCell(rows[tree], slot, points)];
    }

    /** The armour's own points, the skill map taken in any order. */
    method AddArmour(skills: map<int, int>, slot: Slot)
      modifies this
      ensures rows == AddEach(old(rows), skills, slot)
    {
      var remaining := skills.Keys;
      AddEachNothing(rows, skills, slot);
      while remaining != {}
        invariant remaining <= skills.Keys
        invariant rows == AddEach(old(rows), Without(skills, remaining), slot)
        decreases |remaining|
      {
        Sorting.Inhabited(remaining);
        var tree :| tree in remaining;
        AddEachStep(old(rows), skills, remaining, slot, tree);
        AddPoint(tree, slot, skills[tree]);
        remaining := remaining - {tree};
      }
      assert Without(skills, {}) == skills;
    }

    /** One decoration's rows, in the order the query returns them. */
    method AddQueryRows(points: seq<SkillPoint>, slot: Slot)
      modifies this
      ensures rows == AddRows(old(rows), points, slot)
    {
      for i := 0 to |points|
        invariant rows == AddRows(old(rows), points[..i], slot)
      {
        AddPoint(points[i].tree, slot, points[i].points);
        assert points[..i + 1][..i] == points[..i];
      }
      assert points[..|points|] == points;
    }

    method BoostColumn(slot: Slot, ghost before: Table, ghost done: set<Slot>)
      requires slot != Chest && slot !in done && Chest !in done && rows == Spread(before, done)
      modifies this
      ensures rows == Spread(before, done + {slot})
    {
      hide Boost, AddCell;
      var trees := rows.Keys;
      while trees != {}
        invariant trees <= rows.Keys && rows.Keys == before.Keys
        invariant forall tree :: tree in rows ==>
          rows[tree] == if tree == TORSO_UP then before[tree]
                        else if tree in trees then Boost(before[tree], done) else Boost(before[tree], done + {slot})
        decreases |trees|
      {
        Sorting.Inhabited(trees);
        var tree :| tree in trees;
        trees := trees - {tree};
        if tree != TORSO_UP {
          BoostStep(before[tree], done, slot);
          rows := rows[tree := AddCell(rows[tree], slot, CellOf(rows[tree], Chest))];
        }
      }
      assert rows == Spread(before, done + {slot});
    }

    /** The markers taken in any order and, for each, the rows in any order. */
    method ApplyTorsoUp()
      modifies this
      ensures rows == TorsoUp(old(rows))
    {
      ghost var before := rows;
      ghost var boosted := Boosted(before);
      var markers := RowOf(rows, TORSO_UP);
      assert rows == Spread(before, {}) by { SpreadNothing(before); }
      var remaining := markers.Keys;
      ghost var done: set<Slot> := {};
      while remaining != {}
        invariant remaining <= markers.Keys && done == boosted - remaining
        invariant rows == Spread(before, done)
        decreases |remaining|
      {
        var slot :| slot in remaining;
        remaining := remaining - {slot};
        if slot != Chest && markers[slot] > 0 {
          BoostColumn(slot, before, done);
          done := done + {slot};
        }
      }
      assert done == boosted;
    }
  }
}
