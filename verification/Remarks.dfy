/**
 The diagnostics of an accepted loadout are exactly what `Reference.Remarked` says, in the order of
 `Reference.Place`.
 */
module Remarks {
  import opened Wrappers
  import opened GameData
  import opened Verdicts
  import opened CharmLegality
  import opened Evaluation
  import opened Reference
  import opened TotalSources
  import PointSources

  // ---------- Which remarks are made ----------

  predicate AboutPiece(d: Diagnostic, slot: Slot) {
    match d
    case ArmorCombatMismatch(s) => s == slot
    case ArmorGenderMismatch(s) => s == slot
    case ParametersUnknown(s, _) => s == slot
    case CapacityExceeded(s, _, _) => s == slot
    case _ => false
  }

  lemma UsedAtIs(data: Data, l: Loadout, slot: Slot)
    ensures UsedAt(data, l, slot) == HolesUsed(data, Worn(l, slot).decorations)
  {
    WornIs(l, slot);
    UsedIs(data, Worn(l, slot).decorations);
  }

  /** The properties of a piece are those of its row. */
  lemma WeaponDetail(data: Data, l: Loadout)
    requires HasRows(data, l)
    ensures var d, w := DetailAt(data, l, Weapon), WeaponRowOf(data, l).value;
      && d.name == w.name && (d.confirmed <==> w.status == "confirmed")
      && (forall n :: n >= 0 ==> (d.slots == n <==> w.slots == Some(n)))
  {
  }

  lemma ArmorDetail(data: Data, l: Loadout, slot: Slot)
    requires HasRows(data, l) && IsArmor(slot)
    ensures var d, a := DetailAt(data, l, slot), ArmorRowOf(data, l, slot).value;
      && d.name == a.name && (d.confirmed <==> a.status == "confirmed")
      && d.combat == Value(a.combat) && d.gender == Value(a.gender)
      && (forall n :: n >= 0 ==> (d.slots == n <==> a.slots == Some(n)))
  {
    hide SumPoints;
    WornIs(l, slot);
  }

  lemma RowsThere(data: Data, l: Loadout, slot: Slot)
    requires HasRows(data, l) && slot != CharmSlot
    ensures slot == Weapon ==> WeaponRowOf(data, l).Some?
    ensures slot != Weapon ==> ArmorRowOf(data, l, slot).Some?
  {
  }

  lemma PieceMembers(data: Data, l: Loadout, slot: Slot, d: Diagnostic)
    ensures var p, used := DetailAt(data, l, slot), UsedAt(data, l, slot);
      d in PieceDiagnostics(data, l, slot) <==>
        || (d == ArmorCombatMismatch(slot) && slot != Weapon && p.combat > 0 && p.combat != CombatAsked(l))
        || (d == ArmorGenderMismatch(slot) && slot != Weapon && p.gender > 0 && p.gender != GenderAsked(l))
        || (d == ParametersUnknown(slot, p.name) && !p.confirmed)
        || (d == CapacityExceeded(slot, used, p.slots) && p.slots >= 0 && used > p.slots)
  {
    hide DetailAt, UsedAt;
  }

  lemma PieceRemarks(data: Data, l: Loadout, slot: Slot, d: Diagnostic)
    requires HasRows(data, l) && slot != CharmSlot
    ensures d in PieceDiagnostics(data, l, slot) <==> AboutPiece(d, slot) && Remarked(data, l, d)
  {
    hide HolesUsed, UsedAt, DetailAt, WeaponRowOf, ArmorRowOf, Value, PieceDiagnostics, CombatAsked, GenderAsked;
    UsedAtIs(data, l, slot);
    RowsThere(data, l, slot);
    PieceMembers(data, l, slot, d);
    if slot == Weapon { WeaponDetail(data, l); } else { ArmorDetail(data, l, slot); }
    match d
    case ArmorCombatMismatch(_) =>
    case ArmorGenderMismatch(_) =>
    case ParametersUnknown(_, _) =>
    case CapacityExceeded(_, _, _) =>
    case _ =>
  }

  lemma {:induction false} RemarksUpTo(data: Data, l: Loadout, n: nat, d: Diagnostic)
    requires HasRows(data, l) && n <= |PIECES|
    ensures d in DiagnosticsUpTo(data, l, n) <==>
      exists i :: 0 <= i < n && AboutPiece(d, PIECES[i]) && Remarked(data, l, d)
  {
    hide PieceDiagnostics, Remarked, HasRows, AboutPiece;
    if n == 0 {
    } else {
      RemarksUpTo(data, l, n - 1, d);
      PointSources.RankOf(n - 1, CharmSlot);
      PieceRemarks(data, l, PIECES[n - 1], d);
    }
  }

  /** Remarks about the charm other than about its holes. */
  predicate AboutCharm(d: Diagnostic) {
    match d
    case ArmorCombatMismatch(_) => false
    case ArmorGenderMismatch(_) => false
    case ParametersUnknown(_, _) => false
    case CapacityExceeded(_, _, _) => false
    case _ => true
  }

  lemma CharmSeen(data: Data, c: Charm)
    ensures forall position :: position == 1 || position == 2 ==>
      var skill, points := if position == 1 then c.skill1 else c.skill2, if position == 1 then c.points1 else c.points2;
      && (SkillRecorded(data.charmRows, c.classId, position, skill) <==> SkillSeen(data, c, position))
      && (PointsRecorded(data.charmRows, c.classId, position, skill, points) <==> PointsSeen(data, c, position))
  {
  }

  lemma CharmRemarks(data: Data, l: Loadout, d: Diagnostic)
    requires l.charm.classId in data.charmClasses
    ensures d in CharmDiagnostics(data, l.charm) <==> AboutCharm(d) && Remarked(data, l, d)
  {
    hide CharmDiagnostics, SkillRecorded, PointsRecorded, SkillSeen, PointsSeen;
    DiagnosticsAre(data, l.charm, d);
    CharmSeen(data, l.charm);
  }

  lemma AboutSome(data: Data, l: Loadout, d: Diagnostic)
    requires Remarked(data, l, d) && !AboutCharm(d) && !(d.CapacityExceeded? && d.slot == CharmSlot)
    ensures exists i :: 0 <= i < |PIECES| && AboutPiece(d, PIECES[i])
  {
    var i := PieceSlots(d.slot);
    assert AboutPiece(d, PIECES[i]);
  }

  lemma RemarksAre(data: Data, l: Loadout, d: Diagnostic)
    requires HasRows(data, l) && l.charm.classId in data.charmClasses
    ensures d in AllDiagnostics(data, l) <==> Remarked(data, l, d)
  {
    hide CharmDiagnostics, DiagnosticsUpTo, HasRows, UsedAt, HolesUsed;
    RemarksUpTo(data, l, |PIECES|, d);
    CharmRemarks(data, l, d);
    UsedAtIs(data, l, CharmSlot);
    if Remarked(data, l, d) && !AboutCharm(d) && !(d.CapacityExceeded? && d.slot == CharmSlot) {
      AboutSome(data, l, d);
    }
    forall i | 0 <= i < |PIECES| ensures PIECES[i] != CharmSlot { PointSources.RankOf(i, CharmSlot); }
  }

  // ---------- In which order ----------

  predicate InOrder(ds: seq<Diagnostic>) { forall i, j :: 0 <= i < j < |ds| ==> Place(ds[i]) < Place(ds[j]) }

  predicate Within(ds: seq<Diagnostic>, low: nat, high: nat) {
    InOrder(ds) && forall d :: d in ds ==> low <= Place(d) < high
  }

  lemma Joined(a: seq<Diagnostic>, b: seq<Diagnostic>, low: nat, middle: nat, high: nat)
    requires Within(a, low, middle) && Within(b, middle, high) && low <= middle <= high
    ensures Within(a + b, low, high)
  {
    hide Place;
    forall i, j | 0 <= i < j < |a + b| ensures Place((a + b)[i]) < Place((a + b)[j]) {
      if i < |a| <= j {
        assert (a + b)[i] in a && (a + b)[j] in b;
      }
    }
  }

  lemma IfWithin(condition: bool, d: Diagnostic)
    ensures Within(If(condition, d), Place(d), Place(d) + 1)
  {
  }

  lemma PieceInOrder(data: Data, l: Loadout, slot: Slot)
    requires slot != CharmSlot
    ensures Within(PieceDiagnostics(data, l, slot), 4 * SlotPlace(slot), 4 * SlotPlace(slot) + 4)
  {
    hide DetailAt, UsedAt, SlotPlace, Within, InOrder;
    var d, used, n := DetailAt(data, l, slot), UsedAt(data, l, slot), 4 * SlotPlace(slot);
    var combat := if Ranged(l.weapon.saveType) then 2 else 1;
    var gender := if l.gender == "female" then 2 else 1;
    var first := If(!slot.Weapon? && d.combat > 0 && d.combat != combat, ArmorCombatMismatch(slot));
    var second := If(!slot.Weapon? && d.gender > 0 && d.gender != gender, ArmorGenderMismatch(slot));
    var third := If(!d.confirmed, ParametersUnknown(slot, d.name));
    var fourth := If(d.slots >= 0 && used > d.slots, CapacityExceeded(slot, used, d.slots));
    IfWithin(!slot.Weapon? && d.combat > 0 && d.combat != combat, ArmorCombatMismatch(slot));
    IfWithin(!slot.Weapon? && d.gender > 0 && d.gender != gender, ArmorGenderMismatch(slot));
    IfWithin(!d.confirmed, ParametersUnknown(slot, d.name));
    IfWithin(d.slots >= 0 && used > d.slots, CapacityExceeded(slot, used, d.slots));
    Joined(first, second, n, n + 1, n + 2);
    Joined(first + second, third, n, n + 2, n + 3);
    Joined(first + second + third, fourth, n, n + 3, n + 4);
  }

  lemma PlaceOfPiece(n: nat)
    requires n < |PIECES|
    ensures SlotPlace(PIECES[n]) == n && PIECES[n] != CharmSlot
  {
  }

  lemma {:induction false} PiecesInOrder(data: Data, l: Loadout, n: nat)
    requires n <= |PIECES|
    ensures Within(DiagnosticsUpTo(data, l, n), 0, 4 * n)
  {
    hide PieceDiagnostics;
    if n == 0 {
    } else {
      PiecesInOrder(data, l, n - 1);
      PlaceOfPiece(n - 1);
      PieceInOrder(data, l, PIECES[n - 1]);
      Joined(DiagnosticsUpTo(data, l, n - 1), PieceDiagnostics(data, l, PIECES[n - 1]), 0, 4 * (n - 1), 4 * n);
    }
  }

  lemma PositionInOrder(data: Data, name: string, classId: int, position: int, skill: int, points: int)
    requires position == 1 || position == 2
    ensures Within(PositionDiagnostics(data, name, classId, position, skill, points), 33 + position, 34 + position)
  {
    hide SkillRecorded, PointsRecorded;
  }

  lemma FieldsInOrder(c: Charm)
    ensures Within(FieldDiagnostics(c), 30, 33)
  {
    hide Within, InOrder;
    IfWithin(c.skill1 == 0 && c.points1 != 0, PointsWithoutSkill(1, c.points1));
    IfWithin(c.skill2 == 0 && c.points2 != 0, PointsWithoutSkill(2, c.points2));
    IfWithin(c.skill1 != 0 && c.skill1 == c.skill2, DuplicateSkill);
    var first := If(c.skill1 == 0 && c.points1 != 0, PointsWithoutSkill(1, c.points1));
    var second := If(c.skill2 == 0 && c.points2 != 0, PointsWithoutSkill(2, c.points2));
    Joined(first, second, 30, 31, 32);
    Joined(first + second, If(c.skill1 != 0 && c.skill1 == c.skill2, DuplicateSkill), 30, 32, 33);
  }

  lemma CharmInOrder(data: Data, c: Charm)
    requires c.classId in data.charmClasses
    ensures Within(CharmDiagnostics(data, c), 30, 38)
  {
    hide Within, InOrder, SkillRecorded, PointsRecorded, SlotsRecorded, PairRecorded, Recorded, FieldDiagnostics;
    hide PositionDiagnostics;
    var name, rows := data.charmClasses[c.classId], data.charmRows;
    var slots := !SlotsRecorded(rows, c.classId, c.slots);
    var pair := c.skill1 != 0 && c.skill2 != 0 && !PairRecorded(rows, c.classId, c.skill1, c.skill2);
    FieldsInOrder(c);
    IfWithin(slots, SlotsNotGenerated(name, c.slots));
    PositionInOrder(data, name, c.classId, 1, c.skill1, c.points1);
    PositionInOrder(data, name, c.classId, 2, c.skill2, c.points2);
    IfWithin(pair, PairNotGenerated(name));
    IfWithin(!Recorded(rows, c), CombinationNotGenerated);
    var a := FieldDiagnostics(c) + If(slots, SlotsNotGenerated(name, c.slots));
    var b := a + PositionDiagnostics(data, name, c.classId, 1, c.skill1, c.points1);
    var d := b + PositionDiagnostics(data, name, c.classId, 2, c.skill2, c.points2);
    var e := d + If(pair, PairNotGenerated(name));
    Joined(FieldDiagnostics(c), If(slots, SlotsNotGenerated(name, c.slots)), 30, 33, 34);
    Joined(a, PositionDiagnostics(data, name, c.classId, 1, c.skill1, c.points1), 30, 34, 35);
    Joined(b, PositionDiagnostics(data, name, c.classId, 2, c.skill2, c.points2), 30, 35, 36);
    Joined(d, If(pair, PairNotGenerated(name)), 30, 36, 37);
    Joined(e, If(!Recorded(rows, c), CombinationNotGenerated), 30, 37, 38);
  }

  lemma Wider(ds: seq<Diagnostic>, low: nat, high: nat, lower: nat, higher: nat)
    requires Within(ds, low, high) && lower <= low && high <= higher
    ensures Within(ds, lower, higher)
  {
    hide Place;
  }

  lemma OnlyOrder(ds: seq<Diagnostic>, low: nat, high: nat)
    requires Within(ds, low, high)
    ensures InOrder(ds)
  {
  }

  lemma AllInOrder(data: Data, l: Loadout)
    requires l.charm.classId in data.charmClasses
    ensures InOrder(AllDiagnostics(data, l))
  {
    hide Within, InOrder, DiagnosticsUpTo, CharmDiagnostics, UsedAt;
    var used := UsedAt(data, l, CharmSlot);
    var pieces, charm := DiagnosticsUpTo(data, l, |PIECES|), CharmDiagnostics(data, l.charm);
    var last := If(used > l.charm.slots, CapacityExceeded(CharmSlot, used, l.charm.slots));
    PiecesInOrder(data, l, |PIECES|);
    CharmInOrder(data, l.charm);
    IfWithin(used > l.charm.slots, CapacityExceeded(CharmSlot, used, l.charm.slots));
    Wider(pieces, 0, 24, 0, 30);
    Joined(pieces, charm, 0, 30, 38);
    Wider(pieces + charm, 0, 38, 0, 40);
    Joined(pieces + charm, last, 0, 40, 41);
    OnlyOrder(pieces + charm + last, 0, 41);
  }

  // ---------- Main results ----------

  lemma SeenTrimmed(data: Data, l: Loadout)
    ensures Trimmed(l).charm == l.charm && Trimmed(l).weapon == l.weapon && Trimmed(l).gender == l.gender
  {
  }

  lemma RemarkedTrimmed(data: Data, l: Loadout, d: Diagnostic)
    ensures Remarked(data, Trimmed(l), d) <==> Remarked(data, l, d)
  {
    hide HolesUsed, SkillSeen, PointsSeen;
    TrimmedRows(data, l);
    SeenTrimmed(data, l);
  }

  /**
   The diagnostics of an accepted loadout: exactly the remarks that hold, each once, in their order.
   So the loadout is legal exactly when none holds.
   */
  lemma DiagnosticsAccounted(data: Data, l: Loadout, complete: bool, d: Diagnostic)
    requires Evaluate(data, l, complete).Success?
    ensures d in Evaluate(data, l, complete).value.summary.diagnostics <==> Remarked(data, l, d)
    ensures InOrder(Evaluate(data, l, complete).value.summary.diagnostics)
    ensures Evaluate(data, l, complete).value.isLegal <==> forall e :: !Remarked(data, l, e)
  {
    hide Evaluate, HasRows, Remarked, InOrder, AllDiagnostics, LoadoutError;
    var t := Trimmed(l);
    EvaluateCases(data, l, complete);
    AcceptedHasRows(data, t, complete);
    AllInOrder(data, t);
    forall e ensures e in AllDiagnostics(data, t) <==> Remarked(data, l, e) {
      RemarksAre(data, t, e);
      RemarkedTrimmed(data, l, e);
    }
    var ds := AllDiagnostics(data, t);
    if ds != [] { assert ds[0] in ds; }
  }

  lemma TailHas(ds: seq<Diagnostic>, d: Diagnostic)
    requires InOrder(ds) && ds != []
    ensures d in ds[1..] <==> d in ds && d != ds[0]
  {
    hide Place;
    assert ds == [ds[0]] + ds[1..];
    if d in ds[1..] {
      var k :| 0 < k < |ds| && ds[k] == d;
      assert Place(ds[0]) < Place(ds[k]);
    }
  }

  lemma SameEmpty(a: seq<Diagnostic>, b: seq<Diagnostic>)
    requires forall d :: d in b ==> d in a
    ensures b != [] ==> a != []
  {
    if b != [] { assert b[0] in a; }
  }

  /** Two lists with the same remarks in this order are the same list. */
  lemma {:induction false} OneOrder(a: seq<Diagnostic>, b: seq<Diagnostic>)
    requires InOrder(a) && InOrder(b) && forall d :: d in a <==> d in b
    ensures a == b
    decreases |a|
  {
    hide Place;
    if a == [] {
      SameEmpty(a, b);
    } else {
      assert a[0] in b && b != [];
      assert b[0] in a;
      var i :| 0 <= i < |b| && b[i] == a[0];
      var j :| 0 <= j < |a| && a[j] == b[0];
      assert a[0] == b[0];
      forall d ensures d in a[1..] <==> d in b[1..] {
        TailHas(a, d);
        TailHas(b, d);
      }
      OneOrder(a[1..], b[1..]);
      assert a == [a[0]] + a[1..] && b == [b[0]] + b[1..];
    }
  }
}
