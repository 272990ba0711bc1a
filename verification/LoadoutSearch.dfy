/**
 The public search.  It reads only the loadout rows and their two index tables; what it finds is
 compared with what evaluating every stored payload afresh would find.
 */
module LoadoutSearch {
  import opened Wrappers
  import opened GameData
  import opened Evaluation
  import opened Reference
  import opened LoadoutModel
  import opened LoadoutSafety
  import opened Text
  import Acceptance
  import Points
  import PointSources
  import Verdicts
  import Remarks
  import Skills
  import Sorting

  // ---------- Query parameters ----------

  datatype FilterError = TooManyFilters | BadItemFormat | ItemOutOfRange | BadActiveSkill

  const MAX_FILTERS := 8

  function ParseItem(value: string): Result<(int, int), FilterError> {
    var parts := Split(value, ':');
    if |parts| != 2 then Failure(BadItemFormat)
    else
      var saveType, saveId := Atoi(parts[0]), Atoi(parts[1]);
      if saveType.None? || saveId.None?
         || saveType.value < 1 || saveType.value > 255 || saveId.value < 0 || saveId.value > 65535
      then Failure(ItemOutOfRange)
      else Success((saveType.value, saveId.value))
  }

  function ParseActive(value: string): Option<int> {
    var id := Atoi(value);
    if id.None? || id.value <= 0 || id.value > 65535 then None else id
  }

  /** The page size: 30 unless the parameter is a number from 1 to 100. */
  function ParseLimit(value: string): (limit: nat)
    ensures 1 <= limit <= 100
    ensures forall n :: Atoi(value) == Some(n) && 1 <= n <= 100 ==> limit == n
    ensures Atoi(value) != Some(limit) ==> limit == 30
  {
    var n := Atoi(value);
    if n.None? || n.value < 1 || n.value > 100 then 30 else n.value
  }

  /** Asking for a number of entries from 1 to 100 gives that number. */
  lemma LimitAsAsked(n: nat)
    requires 1 <= n <= 100
    ensures ParseLimit(Itoa(n)) == n
  {
    AtoiItoa(n);
  }

  predicate IsPair(value: string, a: string, b: string) { value == a + ":" + b && ':' !in a && ':' !in b }

  /** The text denotes the item: its type from 1 to 255, a colon and its number of 16 bits. */
  ghost predicate IsItem(value: string, item: (int, int)) {
    && 1 <= item.0 <= 255 && 0 <= item.1 <= 65535
    && exists a, b :: IsPair(value, a, b) && Atoi(a) == Some(item.0) && Atoi(b) == Some(item.1)
  }

  /** The text denotes the active skill: a number from 1 to 65535. */
  predicate IsActive(value: string, n: int) { Atoi(value) == Some(n) && 1 <= n <= 65535 }

  lemma ParseItemIff(value: string, item: (int, int))
    ensures ParseItem(value) == Success(item) <==> IsItem(value, item)
    ensures ParseItem(value) == Failure(BadItemFormat) <==> !exists a, b :: IsPair(value, a, b)
  {
    hide Split, Atoi;
    if |Split(value, ':')| == 2 {
      SplitTwo(value, ':');
      assert IsPair(value, Split(value, ':')[0], Split(value, ':')[1]);
    }
    forall a, b | IsPair(value, a, b) ensures Split(value, ':') == [a, b] {
      SplitPair(a, b, ':');
      assert value == a + [':'] + b;
    }
  }

  lemma ParseActiveIff(value: string, n: int)
    ensures ParseActive(value) == Some(n) <==> IsActive(value, n)
  {
  }

  /** The parameters denote these items and active skills, at most eight of each. */
  ghost predicate Wanted(
    items: seq<string>, actives: seq<string>, wantedItems: seq<(int, int)>, wantedActives: seq<int>) {
    && |items| <= 8 && |actives| <= 8
    && |wantedItems| == |items| && (forall i :: 0 <= i < |items| ==> IsItem(items[i], wantedItems[i]))
    && |wantedActives| == |actives| && (forall i :: 0 <= i < |actives| ==> IsActive(actives[i], wantedActives[i]))
  }

  /** They denote nothing else. */
  lemma WantedUnique(
    items: seq<string>, actives: seq<string>, a: seq<(int, int)>, m: seq<int>, b: seq<(int, int)>, n: seq<int>)
    requires Wanted(items, actives, a, m) && Wanted(items, actives, b, n)
    ensures a == b && m == n
  {
    hide IsItem;
    forall i | 0 <= i < |items| ensures a[i] == b[i] {
      ParseItemIff(items[i], a[i]);
      ParseItemIff(items[i], b[i]);
    }
  }

  function PrintedItems(items: seq<(int, int)>): seq<string> {
    seq(|items|, i requires 0 <= i < |items| => Itoa(items[i].0) + ":" + Itoa(items[i].1))
  }

  function PrintedActives(actives: seq<int>): seq<string> {
    seq(|actives|, i requires 0 <= i < |actives| => Itoa(actives[i]))
  }

  /** Every text of a written item reads back as that item, so that normalising loses nothing. */
  lemma ItemKeyParses(saveType: int, saveId: int)
    requires 1 <= saveType <= 255 && 0 <= saveId <= 65535
    ensures ParseItem(ItemKey(saveType, saveId)) == Success((saveType, saveId))
  {
    ItoaCharacters(saveType);
    ItoaCharacters(saveId);
    SplitFirst(Itoa(saveType), ':', Itoa(saveId));
    SplitNone(Itoa(saveId), ':');
    AtoiItoa(saveType);
    AtoiItoa(saveId);
    assert ItemKey(saveType, saveId) == Itoa(saveType) + [':'] + Itoa(saveId);
  }

  /** Printed items and skills denote themselves. */
  lemma PrintedAreWanted(items: seq<(int, int)>, actives: seq<int>)
    requires |items| <= 8 && forall i :: 0 <= i < |items| ==> 1 <= items[i].0 <= 255 && 0 <= items[i].1 <= 65535
    requires |actives| <= 8 && forall i :: 0 <= i < |actives| ==> 1 <= actives[i] <= 65535
    ensures Wanted(PrintedItems(items), PrintedActives(actives), items, actives)
  {
    hide IsItem;
    forall i | 0 <= i < |items| ensures IsItem(PrintedItems(items)[i], items[i]) {
      ItemKeyParses(items[i].0, items[i].1);
      ParseItemIff(ItemKey(items[i].0, items[i].1), items[i]);
    }
    forall i | 0 <= i < |actives| ensures IsActive(PrintedActives(actives)[i], actives[i]) {
      AtoiItoa(actives[i]);
    }
  }

  /** The texts that are compared with the equipment index are exactly those of the numbers asked for. */
  ghost predicate Keys(wanted: seq<(int, int)>, keys: seq<string>) {
    |keys| == |wanted| && forall i :: 0 <= i < |keys| ==> keys[i] == ItemKey(wanted[i].0, wanted[i].1)
  }

  /** An index whose item is the first that is refused. */
  ghost predicate FirstBad(items: seq<string>, error: FilterError, i: nat) {
    && i < |items| && ParseItem(items[i]) == Failure(error)
    && forall j :: 0 <= j < i ==> ParseItem(items[j]).Success?
  }

  lemma ParsedAreWanted(items: seq<string>, actives: seq<string>, wanted: seq<(int, int)>, ids: seq<int>)
    requires |items| <= 8 && |wanted| == |items| && |actives| <= 8 && |ids| == |actives|
    requires forall i :: 0 <= i < |items| ==> ParseItem(items[i]) == Success(wanted[i])
    requires forall i :: 0 <= i < |actives| ==> ParseActive(actives[i]) == Some(ids[i])
    ensures Wanted(items, actives, wanted, ids)
  {
    hide ParseItem, IsItem;
    forall i | 0 <= i < |items| ensures IsItem(items[i], wanted[i]) { ParseItemIff(items[i], wanted[i]); }
  }

  lemma BadItem(items: seq<string>, actives: seq<string>, i: nat)
    requires i < |items| && ParseItem(items[i]).Failure?
    ensures forall wanted, n :: !Wanted(items, actives, wanted, n)
  {
    hide ParseItem, IsItem;
    forall wanted, n ensures !Wanted(items, actives, wanted, n) {
      if i < |wanted| { ParseItemIff(items[i], wanted[i]); }
    }
  }

  method PublicLoadoutFilters(items: seq<string>, actives: seq<string>)
      returns (r: Result<(seq<string>, seq<int>), FilterError>)
    ensures r.Success? ==> exists wanted :: Wanted(items, actives, wanted, r.value.1) && Keys(wanted, r.value.0)
    ensures r.Failure? ==> forall wanted, n :: !Wanted(items, actives, wanted, n)
    ensures r == Failure(TooManyFilters) <==> |items| > 8 || |actives| > 8
    ensures r.Failure? && !r.error.TooManyFilters? ==>
      || (exists i :: FirstBad(items, r.error, i))
      || (r.error.BadActiveSkill? && (forall v :: v in items ==> ParseItem(v).Success?)
          && exists v :: v in actives && ParseActive(v).None?)
  {
    hide Split, Atoi, Itoa, IsItem;
    if |items| > MAX_FILTERS || |actives| > MAX_FILTERS {
      return Failure(TooManyFilters);
    }
    var keys: seq<string> := [];
    ghost var wanted: seq<(int, int)> := [];
    for i := 0 to |items|
      invariant |wanted| == i && forall j :: 0 <= j < i ==> ParseItem(items[j]) == Success(wanted[j])
      invariant Keys(wanted, keys)
    {
      var parts := Split(items[i], ':');
      if |parts| != 2 {
        assert FirstBad(items, BadItemFormat, i);
        BadItem(items, actives, i);
        return Failure(BadItemFormat);
      }
      var saveType, saveId := Atoi(parts[0]), Atoi(parts[1]);
      if saveType.None? || saveId.None?
         || saveType.value < 1 || saveType.value > 255 || saveId.value < 0 || saveId.value > 65535 {
        assert FirstBad(items, ItemOutOfRange, i);
        BadItem(items, actives, i);
        return Failure(ItemOutOfRange);
      }
      keys := keys + [Itoa(saveType.value) + ":" + Itoa(saveId.value)];
      wanted := wanted + [(saveType.value, saveId.value)];
    }
    var ids: seq<int> := [];
    for i := 0 to |actives|
      invariant |ids| == i && forall j :: 0 <= j < i ==> ParseActive(actives[j]) == Some(ids[j])
    {
      var id := Atoi(actives[i]);
      if id.None? || id.value <= 0 || id.value > 65535 {
        assert actives[i] in actives && ParseActive(actives[i]).None?;
        return Failure(BadActiveSkill);
      }
      ids := ids + [id.value];
    }
    ParsedAreWanted(items, actives, wanted, ids);
    return Success((keys, ids));
  }

  // ---------- What the query selects ----------

  /** `like` stands for the case-insensitive comparison with the trimmed needle. */
  datatype Query = Query(like: string -> bool, legalOnly: bool, actives: seq<int>)

  predicate HasKey(equipment: map<Slot, (int, int)>, key: string) {
    exists slot :: slot in equipment && ItemKey(equipment[slot].0, equipment[slot].1) == key
  }

  predicate HasActive(skills: map<int, SkillEntry>, id: int) {
    exists tree :: tree in skills && skills[tree].activeId == Some(id)
  }

  predicate TextMatches(q: Query, row: Row) { q.like(row.name) || q.like(row.remark) }

  predicate MatchesIndex(s: State, q: Query, keys: seq<string>, id: Id) {
    && id in s.rows && id in s.equipment && id in s.skills
    && s.rows[id].status.Published? && TextMatches(q, s.rows[id])
    && (q.legalOnly ==> s.rows[id].isLegal)
    && (forall key :: key in keys ==> HasKey(s.equipment[id], key))
    && (forall active :: active in q.actives ==> HasActive(s.skills[id], active))
  }

  function IndexMatches(s: State, q: Query, keys: seq<string>): set<Id> {
    set id | id in s.rows && MatchesIndex(s, q, keys, id)
  }

  // ---------- What it ought to select ----------

  /** Some slot of the loadout holds the item. */
  ghost predicate Wears(l: Loadout, item: (int, int)) {
    exists slot :: (Worn(l, slot).saveType, Worn(l, slot).saveId) == item
  }

  ghost predicate Activated(data: Data, tree: int, total: int, active: int) {
    var row := Skills.SelectActive(RowsOf(data.activeSkills, tree), total);
    row.Some? && row.value.id == active
  }

  ghost predicate IsAbout(data: Data, l: Loadout, tree: int) { exists slot :: SlotMentions(data, l, slot, tree) }

  /** The points that the equipment gives some tree that it is about activate the skill. */
  ghost predicate Activates(data: Data, l: Loadout, active: int) {
    exists tree :: IsAbout(data, l, tree) && Activated(data, tree, PointSources.ExpectedTotal(data, l, tree), active)
  }

  ghost predicate Unremarked(data: Data, l: Loadout) { forall d :: !Remarked(data, l, d) }

  ghost predicate MatchesPayload(env: Environment, row: Row, q: Query, wanted: seq<(int, int)>) {
    && row.status == Published && (q.like(row.name) || q.like(row.remark))
    && (q.legalOnly ==> Unremarked(env.data, row.payload))
    && (forall item :: item in wanted ==> Wears(row.payload, item))
    && (forall active :: active in q.actives ==> Activates(env.data, row.payload, active))
  }

  ghost function PayloadMatches(env: Environment, s: State, q: Query, wanted: seq<(int, int)>): set<Id> {
    set id | id in s.rows && MatchesPayload(env, s.rows[id], q, wanted)
  }

  // ---------- The index tables hold every row ----------

  lemma {:induction false} EquipmentEntries(rows: seq<EquipmentRow>)
    requires forall i, j :: 0 <= i < j < |rows| ==> rows[i].slot != rows[j].slot
    ensures var m := IndexEquipment(rows);
      && (forall i :: 0 <= i < |rows| ==> rows[i].slot in m && m[rows[i].slot] == (rows[i].saveType, rows[i].saveId))
      && (forall slot :: slot in m ==> exists i :: 0 <= i < |rows| && rows[i].slot == slot)
  {
    if rows == [] {
    } else {
      var init := rows[..|rows| - 1];
      EquipmentEntries(init);
      forall i | 0 <= i < |rows|
        ensures rows[i].slot in IndexEquipment(rows)
          && IndexEquipment(rows)[rows[i].slot] == (rows[i].saveType, rows[i].saveId)
      {
        if i < |init| { assert rows[i] == init[i]; }
      }
      forall slot | slot in IndexEquipment(rows) ensures exists i :: 0 <= i < |rows| && rows[i].slot == slot {
        if slot == rows[|rows| - 1].slot {
        } else {
          assert slot in IndexEquipment(init);
          var i :| 0 <= i < |init| && init[i].slot == slot;
          assert rows[i].slot == slot;
        }
      }
    }
  }

  lemma {:induction false} SkillEntries(rows: seq<Skills.SkillRow>)
    requires forall i, j :: 0 <= i < j < |rows| ==> rows[i].tree != rows[j].tree
    ensures var m := IndexSkills(rows);
      && (forall i :: 0 <= i < |rows| ==>
           rows[i].tree in m && m[rows[i].tree] == SkillEntry(rows[i].points, rows[i].activeId))
      && (forall tree :: tree in m ==> exists i :: 0 <= i < |rows| && rows[i].tree == tree)
  {
    if rows == [] {
    } else {
      var init := rows[..|rows| - 1];
      SkillEntries(init);
      forall i | 0 <= i < |rows|
        ensures rows[i].tree in IndexSkills(rows)
          && IndexSkills(rows)[rows[i].tree] == SkillEntry(rows[i].points, rows[i].activeId)
      {
        if i < |init| { assert rows[i] == init[i]; }
      }
      forall tree | tree in IndexSkills(rows) ensures exists i :: 0 <= i < |rows| && rows[i].tree == tree {
        if tree == rows[|rows| - 1].tree {
        } else {
          assert tree in IndexSkills(init);
          var i :| 0 <= i < |init| && init[i].tree == tree;
          assert rows[i].tree == tree;
        }
      }
    }
  }

  lemma HasSlot(l: Loadout, slot: Slot) returns (i: nat)
    ensures i < |AllEquipment(l)| && AllEquipment(l)[i].slot == slot
  {
    i := match slot
      case Weapon => 0 case Head => 1 case Chest => 2 case Arms => 3 case Waist => 4 case Legs => 5 case CharmSlot => 6;
  }

  /** The equipment index of a loadout contains a text exactly when the loadout wears the item. */
  lemma IndexedItem(l: Loadout, item: (int, int))
    ensures HasKey(IndexEquipment(AllEquipment(l)), ItemKey(item.0, item.1)) <==> Wears(l, item)
  {
    hide AllEquipment, Worn, ItemKey;
    var rows := AllEquipment(l);
    EquipmentFillsSlots(l);
    EquipmentEntries(rows);
    var m := IndexEquipment(rows);
    if HasKey(m, ItemKey(item.0, item.1)) {
      var slot :| slot in m && ItemKey(m[slot].0, m[slot].1) == ItemKey(item.0, item.1);
      ItemKeyEqualIff(m[slot].0, m[slot].1, item.0, item.1);
      var i :| 0 <= i < |rows| && rows[i].slot == slot;
      assert (Worn(l, slot).saveType, Worn(l, slot).saveId) == item;
    }
    if Wears(l, item) {
      var slot :| (Worn(l, slot).saveType, Worn(l, slot).saveId) == item;
      var i := HasSlot(l, slot);
      assert m[slot] == item;
    }
  }

  lemma SkillRowsAt(data: Data, t: Points.Table, rows: seq<Skills.SkillRow>, active: int)
    requires SkillsOf(data, t).FinishedSkills? && rows == Skills.RowsFrom(SkillsOf(data, t).summaries)
    ensures var trees := Sorting.Ascending(t.Keys);
      && |rows| == |trees|
      && (forall i :: 0 <= i < |trees| ==> trees[i] in t && rows[i].tree == trees[i])
      && (forall i :: 0 <= i < |trees| ==>
            (rows[i].activeId == Some(active) <==> Activated(data, trees[i], Points.Total(t[trees[i]]), active)))
  {
    hide Skills.SelectActive, Sorting.Ascending, Points.Total;
    var trees := Sorting.Ascending(t.Keys);
    Skills.AscendingKeys(t);
    Skills.UnnamedIff(data, trees);
    Skills.SummariesAt(data, t, trees);
  }

  lemma EntriesActivate(data: Data, t: Points.Table, rows: seq<Skills.SkillRow>, trees: seq<int>, active: int)
    requires Sorting.Increasing(trees) && |rows| == |trees| && forall tree :: tree in trees <==> tree in t
    requires forall i :: 0 <= i < |trees| ==> trees[i] in t && rows[i].tree == trees[i]
    requires forall i :: 0 <= i < |trees| ==>
      (rows[i].activeId == Some(active) <==> Activated(data, trees[i], Points.Total(t[trees[i]]), active))
    ensures HasActive(IndexSkills(rows), active)
      <==> exists tree :: tree in t && Activated(data, tree, Points.Total(t[tree]), active)
  {
    hide Activated, Points.Total;
    SkillEntries(rows);
    var m := IndexSkills(rows);
    if HasActive(m, active) {
      var tree :| tree in m && m[tree].activeId == Some(active);
      var i :| 0 <= i < |rows| && rows[i].tree == tree;
      assert Activated(data, tree, Points.Total(t[tree]), active);
    }
    if tree :| tree in t && Activated(data, tree, Points.Total(t[tree]), active) {
      var i :| 0 <= i < |trees| && trees[i] == tree;
      assert m[tree].activeId == Some(active);
    }
  }

  lemma TreeTotal(data: Data, l: Loadout, tree: int)
    requires l.charm.skill1 >= 0 && l.charm.skill2 >= 0
    ensures var t := AllPoints(data, l);
      && (tree in t <==> IsAbout(data, l, tree))
      && (tree in t ==> Points.Total(t[tree]) == PointSources.ExpectedTotal(data, l, tree))
  {
    hide AllPoints, SlotMentions, PointSources.ExpectedTotal, Points.Total;
    Acceptance.TableKeys(data, l, tree);
    PointSources.TotalAccounted(data, l, tree);
  }

  /** The table gives the same totals to the same trees. */
  lemma TableActivates(data: Data, l: Loadout, active: int)
    requires l.charm.skill1 >= 0 && l.charm.skill2 >= 0
    ensures var t := AllPoints(data, l);
      (exists tree :: tree in t && Activated(data, tree, Points.Total(t[tree]), active)) <==> Activates(data, l, active)
  {
    hide AllPoints, Activated, IsAbout, PointSources.ExpectedTotal, Points.Total;
    var t := AllPoints(data, l);
    forall tree ensures (tree in t <==> IsAbout(data, l, tree))
      && (tree in t ==> Points.Total(t[tree]) == PointSources.ExpectedTotal(data, l, tree))
    {
      TreeTotal(data, l, tree);
    }
  }

  /** The skill index of an accepted loadout contains an active skill exactly when the loadout activates it. */
  lemma IndexedSkill(data: Data, submitted: Loadout, active: int)
    requires Evaluate(data, submitted, true).Success?
    ensures HasActive(IndexSkills(Evaluate(data, submitted, true).value.skills), active)
      <==> Activates(data, Trimmed(submitted), active)
  {
    hide LoadoutError, AllPoints, AllTotals, AllDiagnostics, AllEquipment, SkillsOf, Sorting.Ascending, Points.Total,
      Skills.RowsFrom, Activated, Activates;
    AcceptedParts(data, submitted, true);
    Acceptance.CharmSkills(data, Trimmed(submitted), true);
    TableActivates(data, Trimmed(submitted), active);
    var t := AllPoints(data, Trimmed(submitted));
    var rows := Evaluate(data, submitted, true).value.skills;
    SkillRowsAt(data, t, rows, active);
    EntriesActivate(data, t, rows, Sorting.Ascending(t.Keys), active);
  }

  lemma ItemsSearch(l: Loadout, wanted: seq<(int, int)>, keys: seq<string>)
    requires Keys(wanted, keys)
    ensures (forall key :: key in keys ==> HasKey(IndexEquipment(AllEquipment(l)), key))
       <==> (forall item :: item in wanted ==> Wears(l, item))
  {
    hide AllEquipment, HasKey, Wears, ItemKey;
    var m := IndexEquipment(AllEquipment(l));
    forall k | 0 <= k < |wanted| ensures HasKey(m, keys[k]) <==> Wears(l, wanted[k]) {
      IndexedItem(l, wanted[k]);
    }
    if forall key :: key in keys ==> HasKey(m, key) {
      forall item | item in wanted ensures Wears(l, item) {
        var k :| 0 <= k < |wanted| && wanted[k] == item;
        assert keys[k] in keys;
      }
    }
    if forall item :: item in wanted ==> Wears(l, item) {
      forall key | key in keys ensures HasKey(m, key) {
        var k :| 0 <= k < |keys| && keys[k] == key;
        assert wanted[k] in wanted;
      }
    }
  }

  lemma StoredParts(data: Data, payload: Loadout)
    requires Evaluate(data, payload, true).Success? && Evaluate(data, payload, true).value.payload == payload
    ensures Trimmed(payload) == payload && Evaluate(data, payload, true).value.equipment == AllEquipment(payload)
  {
  }

  lemma LegalUnremarked(data: Data, l: Loadout)
    requires Evaluate(data, l, true).Success?
    ensures Evaluate(data, l, true).value.isLegal <==> Unremarked(data, l)
  {
    hide Evaluate, Remarked;
    Remarks.DiagnosticsAccounted(data, l, true, Verdicts.DuplicateSkill);
  }

  /** What the invariant says of one published row, in the terms of the search. */
  lemma RowParts(env: Environment, s: State, id: Id)
    requires StoreInv(env, s) && id in s.rows
    ensures var row := s.rows[id];
      && id in s.equipment && id in s.skills
      && Evaluate(env.data, row.payload, true).Success? && Trimmed(row.payload) == row.payload
      && (row.isLegal <==> Unremarked(env.data, row.payload))
      && s.equipment[id] == IndexEquipment(AllEquipment(row.payload))
      && s.skills[id] == IndexSkills(Evaluate(env.data, row.payload, true).value.skills)
  {
    hide Evaluate, AllEquipment, AllDiagnostics, DatesOk, DraftOk, UniqueBuilds, HashOf, IndexEquipment, IndexSkills;
    hide Unremarked;
    assert RowOk(env, s, id);
    LegalUnremarked(env.data, s.rows[id].payload);
    StoredParts(env.data, s.rows[id].payload);
  }

  lemma RowSearch(env: Environment, s: State, q: Query, keys: seq<string>, wanted: seq<(int, int)>, id: Id)
    requires StoreInv(env, s) && id in s.rows && Keys(wanted, keys)
    ensures MatchesIndex(s, q, keys, id) <==> MatchesPayload(env, s.rows[id], q, wanted)
  {
    hide StoreInv, Evaluate, AllEquipment, Unremarked, HasKey, HasActive, Wears, Activates, Keys,
      IndexEquipment, IndexSkills;
    RowParts(env, s, id);
    var row := s.rows[id];
    ItemsSearch(row.payload, wanted, keys);
    forall active ensures HasActive(s.skills[id], active) <==> Activates(env.data, row.payload, active) {
      IndexedSkill(env.data, row.payload, active);
    }
  }

  lemma IndexIsRecomputation(env: Environment, s: State, q: Query, keys: seq<string>, wanted: seq<(int, int)>)
    requires StoreInv(env, s) && Keys(wanted, keys)
    ensures IndexMatches(s, q, keys) == PayloadMatches(env, s, q, wanted)
  {
    hide MatchesIndex, MatchesPayload, StoreInv;
    forall id | id in s.rows ensures MatchesIndex(s, q, keys, id) <==> MatchesPayload(env, s.rows[id], q, wanted) {
      RowSearch(env, s, q, keys, wanted, id);
    }
  }

  /**
   In every reachable state the search over the index tables selects exactly the published
   loadouts whose text matches and whose payload, evaluated afresh, is legal when that is asked
   for, wears every item and activates every skill asked for.
   */
  lemma SearchIsRecomputation(env: Environment, es: seq<Event>, q: Query, keys: seq<string>, wanted: seq<(int, int)>,
      id: Id)
    requires Keys(wanted, keys)
    ensures id in IndexMatches(After(env, es), q, keys) <==> id in PayloadMatches(env, After(env, es), q, wanted)
  {
    StoreInvHolds(env, es);
    IndexIsRecomputation(env, After(env, es), q, keys, wanted);
  }

  // ---------- The page ----------

  /** The order `published_at DESC, id DESC`, in which a missing date comes first. */
  predicate Newer(rows: map<Id, Row>, a: Id, b: Id)
    requires a in rows && b in rows
  {
    var p, q := rows[a].publishedAt, rows[b].publishedAt;
    if p == q then a > b else p.None? || (q.Some? && p.value > q.value)
  }

  /** For loadouts with dates: the later first, and of two of the same moment the greater id first. */
  lemma NewerIs(rows: map<Id, Row>, a: Id, b: Id)
    requires a in rows && b in rows && rows[a].publishedAt.Some? && rows[b].publishedAt.Some?
    ensures Newer(rows, a, b) <==>
      || rows[a].publishedAt.value > rows[b].publishedAt.value
      || (rows[a].publishedAt.value == rows[b].publishedAt.value && a > b)
  {
  }

  /** The first `limit` of the ids in that order. */
  ghost predicate IsPage(rows: map<Id, Row>, ids: set<Id>, limit: nat, page: seq<Id>)
    requires ids <= rows.Keys
  {
    && |page| <= limit
    && (forall i :: 0 <= i < |page| ==> page[i] in ids)
    && (forall i, j :: 0 <= i < j < |page| ==> Newer(rows, page[i], page[j]))
    && (forall id, i :: id in ids && id !in page && 0 <= i < |page| ==> Newer(rows, page[i], id))
    && (|page| < limit ==> forall id :: id in ids ==> id in page)
  }

  lemma NoRepeat(rows: map<Id, Row>, ids: set<Id>, limit: nat, page: seq<Id>, i: nat, j: nat)
    requires ids <= rows.Keys && IsPage(rows, ids, limit, page) && i < j < |page|
    ensures page[i] != page[j]
  {
    assert Newer(rows, page[i], page[j]);
  }

  /** The entry of one page is the same as, or newer than, that of the other. */
  lemma NotOlder(rows: map<Id, Row>, ids: set<Id>, limit: nat, p: seq<Id>, q: seq<Id>, k: nat)
    requires ids <= rows.Keys && IsPage(rows, ids, limit, p) && IsPage(rows, ids, limit, q)
    requires k < |p| && k < |q| && forall j :: 0 <= j < k ==> p[j] == q[j]
    ensures p[k] == q[k] || Newer(rows, q[k], p[k])
  {
    if p[k] in q {
      var j :| 0 <= j < |q| && q[j] == p[k];
      if j < k { NoRepeat(rows, ids, limit, p, j, k); }
    }
  }

  lemma {:induction false} SamePrefix(rows: map<Id, Row>, ids: set<Id>, limit: nat, p: seq<Id>, q: seq<Id>, k: nat)
    requires ids <= rows.Keys && IsPage(rows, ids, limit, p) && IsPage(rows, ids, limit, q)
    requires k <= |p| && k <= |q|
    ensures p[..k] == q[..k]
  {
    if k == 0 {
    } else {
      SamePrefix(rows, ids, limit, p, q, k - 1);
      assert forall j :: 0 <= j < k - 1 ==> p[j] == p[..k - 1][j] == q[j];
      NotOlder(rows, ids, limit, p, q, k - 1);
      NotOlder(rows, ids, limit, q, p, k - 1);
    }
  }

  lemma PageLength(rows: map<Id, Row>, ids: set<Id>, limit: nat, p: seq<Id>, q: seq<Id>)
    requires ids <= rows.Keys && IsPage(rows, ids, limit, p) && IsPage(rows, ids, limit, q) && |p| <= |q|
    ensures |p| == |q|
  {
    SamePrefix(rows, ids, limit, p, q, |p|);
    if |p| < |q| {
      var id := q[|p|];
      assert id in ids && id in p;
      var j :| 0 <= j < |p| && p[j] == id;
      assert q[..|p|][j] == id;
      NoRepeat(rows, ids, limit, q, j, |p|);
    }
  }

  /** There is only one such page. */
  lemma PageUnique(rows: map<Id, Row>, ids: set<Id>, limit: nat, p: seq<Id>, q: seq<Id>)
    requires ids <= rows.Keys && IsPage(rows, ids, limit, p) && IsPage(rows, ids, limit, q)
    ensures p == q
  {
    if |p| <= |q| { PageLength(rows, ids, limit, p, q); } else { PageLength(rows, ids, limit, q, p); }
    SamePrefix(rows, ids, limit, p, q, |p|);
  }

  lemma NewestExists(rows: map<Id, Row>, ids: set<Id>) returns (newest: Id)
    requires ids <= rows.Keys && ids != {}
    ensures newest in ids && forall id :: id in ids && id != newest ==> Newer(rows, newest, id)
    decreases |ids|
  {
    newest :| newest in ids;
    var others := ids - {newest};
    assert ids == {newest} + others;
    if others != {} {
      var m := NewestExists(rows, others);
      if Newer(rows, m, newest) { newest := m; }
    }
  }

  /** ORDER BY and LIMIT. */
  method NewestFirst(rows: map<Id, Row>, ids: set<Id>, limit: nat) returns (page: seq<Id>)
    requires ids <= rows.Keys
    ensures IsPage(rows, ids, limit, page)
  {
    page := [];
    var rest := ids;
    while |page| < limit && rest != {}
      invariant rest <= ids && |page| <= limit
      invariant forall id :: id in ids ==> (id in rest <==> id !in page)
      invariant forall i :: 0 <= i < |page| ==> page[i] in ids
      invariant forall i, j :: 0 <= i < j < |page| ==> Newer(rows, page[i], page[j])
      invariant forall id, i :: id in rest && 0 <= i < |page| ==> Newer(rows, page[i], id)
      decreases |rest|
    {
      ghost var witnessed := NewestExists(rows, rest);
      var newest :| newest in rest && forall id :: id in rest && id != newest ==> Newer(rows, newest, id);
      assert |rest - {newest}| < |rest|;
      page := page + [newest];
      rest := rest - {newest};
    }
  }
}
