/**
 The result of evaluating a loadout, in closed form: a function of the game data and the
 loadout alone, whatever order the program visits its maps in.
 */
module Evaluation {
  import opened Wrappers
  import opened GameData
  import opened Points
  import opened Skills
  import opened Verdicts
  import opened CharmLegality
  import opened Fingerprint
  import opened Reference
  import Names
  import Sorting

  const FORMAT := "MH_LOADOUT"
  const GAME := "mh3g"

  // ---------- One piece of equipment ----------

  /** The pieces in the order in which they are evaluated. */
  const PIECES: seq<Slot> := [Weapon, Head, Chest, Arms, Waist, Legs]

  /** The piece in a slot; the charm counts as equipment of type 6 named by its class. */
  function PieceAt(l: Loadout, slot: Slot): Piece {
    match slot
    case Weapon => l.weapon
    case Head => l.head
    case Chest => l.chest
    case Arms => l.arms
    case Waist => l.waist
    case Legs => l.legs
    case CharmSlot => Piece(6, l.charm.classId, l.charm.decorations)
  }

  lemma WornIs(l: Loadout, slot: Slot)
    ensures PieceAt(l, slot) == Worn(l, slot)
  {
  }

  function ExpectedType(slot: Slot): int {
    match slot
    case Weapon => 0
    case Head => 5
    case Chest => 1
    case Arms => 2
    case Waist => 3
    case Legs => 4
    case CharmSlot => 6
  }

  predicate Ranged(saveType: int) { saveType == 11 || saveType == 13 || saveType == 17 }

  function FirstUnknown(data: Data, ids: seq<int>): Option<int> {
    if ids == [] then None
    else if !Known(data, ids[0]) then Some(ids[0])
    else FirstUnknown(data, ids[1..])
  }

  function PieceError(data: Data, l: Loadout, complete: bool, slot: Slot): Option<Error> {
    var p := PieceAt(l, slot);
    if complete && (p.saveType == 0 || p.saveId == 0) then Some(PieceMissing(slot))
    else if slot.Weapon? && (p.saveType < 7 || p.saveType > 19 || p.saveType == 12) then Some(BadWeaponType)
    else if !slot.Weapon? && p.saveType != ExpectedType(slot) then Some(SlotMismatch(slot))
    else if DecorationListError(slot, p.decorations).Some? then DecorationListError(slot, p.decorations)
    else if Equipment(data, p.saveType, p.saveId).None? then Some(UnknownEquipment(slot))
    else if FirstUnknown(data, p.decorations).Some? then
      Some(UnknownDecoration(FirstUnknown(data, p.decorations).value))
    else None
  }

  /** The properties of an accepted piece. */
  function DetailAt(data: Data, l: Loadout, slot: Slot): Detail {
    var p := PieceAt(l, slot);
    var d := Equipment(data, p.saveType, p.saveId);
    if d.Some? then d.value else Detail("", -1, 0, 0, 0, 0, 0, 0, 0, 0, 0, 0, false, map[])
  }

  function UsedAt(data: Data, l: Loadout, slot: Slot): int { UsedSlots(data, PieceAt(l, slot).decorations) }

  datatype Totals = Totals(baseDefense: int, maxDefense: int, weaponDefense: int, fireRes: int, waterRes: int,
                           iceRes: int, thunderRes: int, dragonRes: int, totalSlots: int, usedSlots: int)

  const NOTHING := Totals(0, 0, 0, 0, 0, 0, 0, 0, 0, 0)

  function Plus(a: Totals, b: Totals): Totals {
    Totals(a.baseDefense + b.baseDefense, a.maxDefense + b.maxDefense, a.weaponDefense + b.weaponDefense,
           a.fireRes + b.fireRes, a.waterRes + b.waterRes, a.iceRes + b.iceRes, a.thunderRes + b.thunderRes,
           a.dragonRes + b.dragonRes, a.totalSlots + b.totalSlots, a.usedSlots + b.usedSlots)
  }

  function Max(a: int, b: int): int { if a > b then a else b }

  function PieceTotals(data: Data, l: Loadout, slot: Slot): Totals {
    var d := DetailAt(data, l, slot);
    if slot.Weapon? then Totals(d.defense, d.defense, d.defense, 0, 0, 0, 0, 0, Max(d.slots, 0), UsedAt(data, l, slot))
    else Totals(d.baseDefense, d.maxDefense, 0, d.fireRes, d.waterRes, d.iceRes, d.thunderRes, d.dragonRes,
                Max(d.slots, 0), UsedAt(data, l, slot))
  }

  function PieceDiagnostics(data: Data, l: Loadout, slot: Slot): seq<Diagnostic> {
    var d := DetailAt(data, l, slot);
    var used := UsedAt(data, l, slot);
    var combat := if Ranged(l.weapon.saveType) then 2 else 1;
    var gender := if l.gender == "female" then 2 else 1;
    If(!slot.Weapon? && d.combat > 0 && d.combat != combat, ArmorCombatMismatch(slot))
    + If(!slot.Weapon? && d.gender > 0 && d.gender != gender, ArmorGenderMismatch(slot))
    + If(!d.confirmed, ParametersUnknown(slot, d.name))
    + If(d.slots >= 0 && used > d.slots, CapacityExceeded(slot, used, d.slots))
  }

  // ---------- The first n pieces ----------

  function FirstPieceError(data: Data, l: Loadout, complete: bool, n: nat): Option<Error>
    requires n <= |PIECES|
  {
    if n == 0 then None
    else if FirstPieceError(data, l, complete, n - 1).Some? then FirstPieceError(data, l, complete, n - 1)
    else PieceError(data, l, complete, PIECES[n - 1])
  }

  function TotalsUpTo(data: Data, l: Loadout, n: nat): Totals
    requires n <= |PIECES|
  {
    if n == 0 then NOTHING else Plus(TotalsUpTo(data, l, n - 1), PieceTotals(data, l, PIECES[n - 1]))
  }

  function DiagnosticsUpTo(data: Data, l: Loadout, n: nat): seq<Diagnostic>
    requires n <= |PIECES|
  {
    if n == 0 then [] else DiagnosticsUpTo(data, l, n - 1) + PieceDiagnostics(data, l, PIECES[n - 1])
  }

  function PiecePoints(data: Data, l: Loadout, t: Table, slot: Slot): Table {
    AddDecorations(data, slot, AddEach(t, DetailAt(data, l, slot).skillPoints, slot), PieceAt(l, slot).decorations)
  }

  function PointsUpTo(data: Data, l: Loadout, n: nat): Table
    requires n <= |PIECES|
  {
    if n == 0 then map[] else PiecePoints(data, l, PointsUpTo(data, l, n - 1), PIECES[n - 1])
  }

  datatype EquipmentRow = EquipmentRow(slot: Slot, saveType: int, saveId: int)

  function EquipmentUpTo(l: Loadout, n: nat): seq<EquipmentRow>
    requires n <= |PIECES|
  {
    seq(n, i requires 0 <= i < n =>
      EquipmentRow(PIECES[i], PieceAt(l, PIECES[i]).saveType, PieceAt(l, PIECES[i]).saveId))
  }

  // ---------- The whole loadout ----------

  function CharmPoints(t: Table, c: Charm): Table {
    var first := if c.skill1 > 0 then Add(t, c.skill1, CharmSlot, c.points1) else t;
    if c.skill2 > 0 then Add(first, c.skill2, CharmSlot, c.points2) else first
  }

  function AllPoints(data: Data, l: Loadout): Table {
    TorsoUp(AddDecorations(data, CharmSlot, CharmPoints(PointsUpTo(data, l, |PIECES|), l.charm), l.charm.decorations))
  }

  function AllTotals(data: Data, l: Loadout): Totals {
    var t := TotalsUpTo(data, l, |PIECES|);
    t.(totalSlots := t.totalSlots + l.charm.slots, usedSlots := t.usedSlots + UsedAt(data, l, CharmSlot))
  }

  function AllDiagnostics(data: Data, l: Loadout): seq<Diagnostic>
    requires l.charm.classId in data.charmClasses
  {
    DiagnosticsUpTo(data, l, |PIECES|) + CharmDiagnostics(data, l.charm)
    + If(UsedAt(data, l, CharmSlot) > l.charm.slots,
         CapacityExceeded(CharmSlot, UsedAt(data, l, CharmSlot), l.charm.slots))
  }

  function AllEquipment(l: Loadout): seq<EquipmentRow> {
    EquipmentUpTo(l, |PIECES|) + [EquipmentRow(CharmSlot, 6, l.charm.classId)]
  }

  function HeaderError(data: Data, l: Loadout): Option<Error> {
    if l.schema != FORMAT || l.schemaVersion != 1 || l.game != GAME then Some(UnsupportedFormat)
    else if l.dataVersion != data.version then Some(DataVersionMismatch)
    else if |l.name| < 1 || |l.name| > 40 then Some(BadName)
    else if l.gender != "male" && l.gender != "female" then Some(BadGender)
    else None
  }

  /** Why a loadout with a trimmed name is rejected before its skills are named. */
  function LoadoutError(data: Data, l: Loadout, complete: bool): Option<Error> {
    if HeaderError(data, l).Some? then HeaderError(data, l)
    else if FirstPieceError(data, l, complete, |PIECES|).Some? then FirstPieceError(data, l, complete, |PIECES|)
    else if CharmError(data, l.charm).Some? then CharmError(data, l.charm)
    else if FirstUnknown(data, l.charm.decorations).Some? then
      Some(UnknownDecoration(FirstUnknown(data, l.charm.decorations).value))
    else None
  }

  datatype Summary = Summary(totals: Totals, skills: seq<SkillSummary>, diagnostics: seq<Diagnostic>)

  datatype Assessment = Assessment(payload: Loadout, summary: Summary, isLegal: bool, fingerprint: Loadout,
                                   equipment: seq<EquipmentRow>, skills: seq<SkillRow>)

  function Trimmed(l: Loadout): Loadout { l.(name := Names.TrimSpace(l.name)) }

  function SkillsOf(data: Data, t: Table): Finished {
    AscendingKeys(t);
    Finish(data, t, Sorting.Ascending(t.Keys))
  }

  function Evaluate(data: Data, submitted: Loadout, complete: bool): Result<Assessment, Error> {
    var l := Trimmed(submitted);
    var error := LoadoutError(data, l, complete);
    if error.Some? then Failure(error.value)
    else
      match SkillsOf(data, AllPoints(data, l))
      case UnknownTree(tree) => Failure(UnknownSkillTree(tree))
      case FinishedSkills(skills) =>
        var diagnostics := AllDiagnostics(data, l);
        Success(Assessment(l, Summary(AllTotals(data, l), skills, diagnostics), |diagnostics| == 0, Canonical(l),
                           AllEquipment(l), RowsFrom(skills)))
  }

  lemma SkillsOfIs(data: Data, t: Table)
    ensures forall i :: 0 <= i < |Sorting.Ascending(t.Keys)| ==> Sorting.Ascending(t.Keys)[i] in t
    ensures SkillsOf(data, t) == Finish(data, t, Sorting.Ascending(t.Keys))
  {
    AscendingKeys(t);
  }

  lemma EvaluateCases(data: Data, submitted: Loadout, complete: bool)
    ensures var l := Trimmed(submitted); var r := Evaluate(data, submitted, complete);
      match LoadoutError(data, l, complete)
      case Some(error) => r == Failure(error)
      case None =>
        && l.charm.classId in data.charmClasses
        && match SkillsOf(data, AllPoints(data, l))
           case UnknownTree(tree) => r == Failure(UnknownSkillTree(tree))
           case FinishedSkills(skills) =>
             r == Success(Assessment(l, Summary(AllTotals(data, l), skills, AllDiagnostics(data, l)),
                                     |AllDiagnostics(data, l)| == 0, Canonical(l), AllEquipment(l), RowsFrom(skills)))
  {
    hide AllPoints, AllTotals, AllDiagnostics, AllEquipment, SkillsOf, Canonical;
  }

  // ---------- Loadouts with the same gear ----------

  lemma {:induction false} UnknownIff(data: Data, ids: seq<int>)
    ensures FirstUnknown(data, ids).None? <==> forall id :: id in ids ==> Known(data, id)
  {
    if ids == [] {
    } else {
      UnknownIff(data, ids[1..]);
      assert ids == [ids[0]] + ids[1..];
    }
  }

  lemma OutOfRangeTransfers(a: seq<int>, b: seq<int>)
    requires multiset(a) == multiset(b)
    ensures (exists i :: 0 <= i < |a| && !(0 <= a[i] <= 65535)) ==> (exists i :: 0 <= i < |b| && !(0 <= b[i] <= 65535))
  {
    if i :| 0 <= i < |a| && !(0 <= a[i] <= 65535) {
      assert a[i] in multiset(b);
      var j :| 0 <= j < |b| && b[j] == a[i];
    }
  }

  lemma SameDecorations(data: Data, slot: Slot, a: seq<int>, b: seq<int>)
    requires multiset(a) == multiset(b)
    ensures DecorationListError(slot, a).Some? <==> DecorationListError(slot, b).Some?
    ensures FirstUnknown(data, a).Some? <==> FirstUnknown(data, b).Some?
    ensures UsedSlots(data, a) == UsedSlots(data, b)
  {
    DecorationOrderIrrelevant(data, slot, map[], a, b);
    UnknownIff(data, a);
    UnknownIff(data, b);
    assert |a| == |multiset(a)| == |multiset(b)| == |b|;
    OutOfRangeTransfers(a, b);
    OutOfRangeTransfers(b, a);
  }

  lemma SameAt(a: Loadout, b: Loadout, slot: Slot)
    requires SameGear(a, b)
    ensures SamePiece(PieceAt(a, slot), PieceAt(b, slot))
  {
    assert a.charm.(decorations := []).classId == b.charm.(decorations := []).classId;
  }

  lemma SameDetail(data: Data, a: Loadout, b: Loadout, slot: Slot)
    requires SameGear(a, b)
    ensures DetailAt(data, a, slot) == DetailAt(data, b, slot) && UsedAt(data, a, slot) == UsedAt(data, b, slot)
  {
    SameAt(a, b, slot);
    SameDecorations(data, slot, PieceAt(a, slot).decorations, PieceAt(b, slot).decorations);
  }

  lemma SamePieceError(data: Data, a: Loadout, b: Loadout, complete: bool, slot: Slot)
    requires SameGear(a, b)
    ensures PieceError(data, a, complete, slot).Some? <==> PieceError(data, b, complete, slot).Some?
  {
    SameAt(a, b, slot);
    SameDecorations(data, slot, PieceAt(a, slot).decorations, PieceAt(b, slot).decorations);
  }

  lemma SamePiecePoints(data: Data, a: Loadout, b: Loadout, slot: Slot, t: Table)
    requires SameGear(a, b)
    ensures PiecePoints(data, a, t, slot) == PiecePoints(data, b, t, slot)
  {
    SameAt(a, b, slot);
    SameDetail(data, a, b, slot);
    DecorationOrderIrrelevant(data, slot, AddEach(t, DetailAt(data, a, slot).skillPoints, slot),
                              PieceAt(a, slot).decorations, PieceAt(b, slot).decorations);
  }

  lemma SamePieceSummary(data: Data, a: Loadout, b: Loadout, slot: Slot)
    requires SameGear(a, b)
    ensures PieceTotals(data, a, slot) == PieceTotals(data, b, slot)
    ensures PieceDiagnostics(data, a, slot) == PieceDiagnostics(data, b, slot)
  {
    SameDetail(data, a, b, slot);
  }

  lemma {:induction false} SameUpTo(data: Data, a: Loadout, b: Loadout, complete: bool, n: nat)
    requires SameGear(a, b) && n <= |PIECES|
    ensures FirstPieceError(data, a, complete, n).Some? <==> FirstPieceError(data, b, complete, n).Some?
    ensures TotalsUpTo(data, a, n) == TotalsUpTo(data, b, n)
    ensures DiagnosticsUpTo(data, a, n) == DiagnosticsUpTo(data, b, n)
    ensures PointsUpTo(data, a, n) == PointsUpTo(data, b, n)
  {
    if n == 0 {
    } else {
      SameUpTo(data, a, b, complete, n - 1);
      SamePieceError(data, a, b, complete, PIECES[n - 1]);
      SamePieceSummary(data, a, b, PIECES[n - 1]);
      SamePiecePoints(data, a, b, PIECES[n - 1], PointsUpTo(data, a, n - 1));
    }
  }

  lemma SameCharm(data: Data, a: Charm, b: Charm)
    requires a.(decorations := []) == b.(decorations := []) && multiset(a.decorations) == multiset(b.decorations)
    ensures CharmError(data, a).Some? <==> CharmError(data, b).Some?
    ensures a.classId == b.classId && a.slots == b.slots
    ensures a.classId in data.charmClasses ==> CharmDiagnostics(data, a) == CharmDiagnostics(data, b)
    ensures forall t :: CharmPoints(t, a) == CharmPoints(t, b)
  {
    SameDecorations(data, CharmSlot, a.decorations, b.decorations);
    var c := b.(decorations := a.decorations);
    assert a == c;
  }

  /** The points of the whole loadout do not depend on the order of any decorations. */
  lemma SamePoints(data: Data, a: Loadout, b: Loadout)
    requires SameGear(a, b)
    ensures AllPoints(data, a) == AllPoints(data, b)
  {
    SameUpTo(data, a, b, true, |PIECES|);
    SameCharm(data, a.charm, b.charm);
    var t := CharmPoints(PointsUpTo(data, a, |PIECES|), a.charm);
    DecorationOrderIrrelevant(data, CharmSlot, t, a.charm.decorations, b.charm.decorations);
  }

  lemma SameHeader(data: Data, a: Loadout, b: Loadout)
    requires SameGear(a, b) && (1 <= |a.name| <= 40) && (1 <= |b.name| <= 40)
    ensures HeaderError(data, a).Some? <==> HeaderError(data, b).Some?
  {
  }

  lemma SameErrors(data: Data, a: Loadout, b: Loadout, complete: bool)
    requires SameGear(a, b) && (1 <= |a.name| <= 40) && (1 <= |b.name| <= 40)
    ensures LoadoutError(data, a, complete).Some? <==> LoadoutError(data, b, complete).Some?
  {
    hide HeaderError, FirstPieceError, CharmError, FirstUnknown;
    SameHeader(data, a, b);
    SameUpTo(data, a, b, complete, |PIECES|);
    SameCharm(data, a.charm, b.charm);
    SameDecorations(data, CharmSlot, a.charm.decorations, b.charm.decorations);
  }

  lemma SameEquipment(a: Loadout, b: Loadout)
    requires SameGear(a, b)
    ensures AllEquipment(a) == AllEquipment(b)
  {
    forall slot
      ensures PieceAt(a, slot).saveType == PieceAt(b, slot).saveType
      ensures PieceAt(a, slot).saveId == PieceAt(b, slot).saveId
    {
      SameAt(a, b, slot);
    }
    assert a.charm.(decorations := []).classId == b.charm.(decorations := []).classId;
  }

  lemma SameTotals(data: Data, a: Loadout, b: Loadout)
    requires a.charm.slots == b.charm.slots && UsedAt(data, a, CharmSlot) == UsedAt(data, b, CharmSlot)
    requires TotalsUpTo(data, a, |PIECES|) == TotalsUpTo(data, b, |PIECES|)
    ensures AllTotals(data, a) == AllTotals(data, b)
  {
    hide TotalsUpTo, UsedAt;
  }

  lemma SameDiagnostics(data: Data, a: Loadout, b: Loadout)
    requires a.charm.classId == b.charm.classId && a.charm.classId in data.charmClasses
    requires a.charm.slots == b.charm.slots && UsedAt(data, a, CharmSlot) == UsedAt(data, b, CharmSlot)
    requires DiagnosticsUpTo(data, a, |PIECES|) == DiagnosticsUpTo(data, b, |PIECES|)
    requires CharmDiagnostics(data, a.charm) == CharmDiagnostics(data, b.charm)
    ensures AllDiagnostics(data, a) == AllDiagnostics(data, b)
  {
    hide DiagnosticsUpTo, CharmDiagnostics, UsedAt;
  }

  lemma SameSummary(data: Data, a: Loadout, b: Loadout)
    requires SameGear(a, b) && a.charm.classId in data.charmClasses
    ensures b.charm.classId in data.charmClasses
    ensures AllTotals(data, a) == AllTotals(data, b) && AllDiagnostics(data, a) == AllDiagnostics(data, b)
  {
    hide TotalsUpTo, DiagnosticsUpTo, CharmDiagnostics, UsedAt, AllTotals, AllDiagnostics;
    SameUpTo(data, a, b, true, |PIECES|);
    SameCharm(data, a.charm, b.charm);
    SameDetail(data, a, b, CharmSlot);
    SameTotals(data, a, b);
    SameDiagnostics(data, a, b);
  }

  /** Two loadouts with acceptable names and equal fingerprints are either both rejected or both accepted. */
  lemma FingerprintVerdict(data: Data, a: Loadout, b: Loadout, complete: bool)
    requires Canonical(a) == Canonical(b) && Names.Acceptable(a.name) && Names.Acceptable(b.name)
    ensures Evaluate(data, a, complete).Success? <==> Evaluate(data, b, complete).Success?
  {
    hide LoadoutError, AllPoints, AllTotals, AllDiagnostics, AllEquipment, Finish;
    FingerprintEqualIff(a, b);
    SameErrors(data, Trimmed(a), Trimmed(b), complete);
    SamePoints(data, Trimmed(a), Trimmed(b));
  }

  lemma AcceptedCharm(data: Data, l: Loadout, complete: bool)
    requires LoadoutError(data, l, complete).None?
    ensures l.charm.classId in data.charmClasses
  {
  }

  /** When both are accepted, they have the same summary, legality, equipment rows and skill rows, for any game data. */
  lemma FingerprintCongruence(data: Data, a: Loadout, b: Loadout, complete: bool)
    requires Canonical(a) == Canonical(b) && Names.Acceptable(a.name) && Names.Acceptable(b.name)
    ensures Evaluate(data, a, complete).Success? && Evaluate(data, b, complete).Success? ==>
      var x, y := Evaluate(data, a, complete).value, Evaluate(data, b, complete).value;
      x.summary == y.summary && x.isLegal == y.isLegal && x.equipment == y.equipment && x.skills == y.skills
      && x.fingerprint == y.fingerprint
  {
    hide LoadoutError, AllPoints, AllTotals, AllDiagnostics, AllEquipment, Finish;
    FingerprintEqualIff(a, b);
    var p, q := Trimmed(a), Trimmed(b);
    SamePoints(data, p, q);
    SameEquipment(p, q);
    FingerprintEqualIff(p, q);
    if LoadoutError(data, p, complete).None? {
      AcceptedCharm(data, p, complete);
      SameSummary(data, p, q);
    }
  }

  // ---------- Accepted loadouts ----------

  /** What is stored is what was evaluated: evaluating the stored payload again gives the same result. */
  lemma EvaluateStored(data: Data, submitted: Loadout, complete: bool)
    ensures Evaluate(data, submitted, complete).Success? ==>
      Evaluate(data, Evaluate(data, submitted, complete).value.payload, complete) == Evaluate(data, submitted, complete)
  {
    Names.TrimIdempotent(submitted.name);
    assert Trimmed(Trimmed(submitted)) == Trimmed(submitted);
  }

  /** The equipment rows are the six pieces and the charm, named by its class as equipment of type 6. */
  lemma EquipmentIs(l: Loadout)
    ensures AllEquipment(l) == [
      EquipmentRow(Weapon, l.weapon.saveType, l.weapon.saveId), EquipmentRow(Head, l.head.saveType, l.head.saveId),
      EquipmentRow(Chest, l.chest.saveType, l.chest.saveId), EquipmentRow(Arms, l.arms.saveType, l.arms.saveId),
      EquipmentRow(Waist, l.waist.saveType, l.waist.saveId), EquipmentRow(Legs, l.legs.saveType, l.legs.saveId),
      EquipmentRow(CharmSlot, 6, l.charm.classId)]
  {
    assert |PIECES| == 6;
  }

  /** So they fill the seven slots, each once. */
  lemma EquipmentFillsSlots(l: Loadout)
    ensures |AllEquipment(l)| == 7
    ensures forall i, j :: 0 <= i < j < 7 ==> AllEquipment(l)[i].slot != AllEquipment(l)[j].slot
    ensures forall i :: 0 <= i < 7 ==>
      var row := AllEquipment(l)[i];
        row.saveType == Worn(l, row.slot).saveType && row.saveId == Worn(l, row.slot).saveId
  {
    EquipmentIs(l);
  }

  lemma RowsFromIs(summaries: seq<SkillSummary>)
    ensures |RowsFrom(summaries)| == |summaries|
    ensures forall i :: 0 <= i < |summaries| ==>
      RowsFrom(summaries)[i] == SkillRow(summaries[i].tree, summaries[i].points, summaries[i].activeId)
  {
  }

  /**
   Skill rows of an accepted loadout have strictly increasing trees, so no two share a key, and
   their points are the sums of the seven columns.
   */
  lemma AcceptedSkillRows(data: Data, submitted: Loadout, complete: bool)
    requires Evaluate(data, submitted, complete).Success?
    ensures var ev := Evaluate(data, submitted, complete).value; var s := ev.summary.skills;
      && |ev.skills| == |s|
      && (forall i :: 0 <= i < |s| ==> ev.skills[i] == SkillRow(s[i].tree, s[i].points, s[i].activeId))
      && (forall i, j :: 0 <= i < j < |s| ==> s[i].tree < s[j].tree)
      && (forall i :: 0 <= i < |s| ==> s[i].columns.Keys == Slots() && s[i].points == Total(s[i].columns))
  {
    hide LoadoutError, AllPoints, AllTotals, AllDiagnostics, AllEquipment, RowsFrom, Total, Slots, Summaries,
      FirstUnnamed;
    var t := AllPoints(data, Trimmed(submitted));
    var trees := Sorting.Ascending(t.Keys);
    EvaluateCases(data, submitted, complete);
    SkillsOfIs(data, t);
    UnnamedIff(data, trees);
    SummariesInOrder(data, t, trees);
    RowsFromIs(Summaries(data, t, trees));
  }

  /** The game data records the number of holes of every piece. */
  ghost predicate HolesKnown(data: Data, l: Loadout) {
    forall slot: Slot :: slot != CharmSlot ==> DetailAt(data, l, slot).slots >= 0
  }

  lemma PieceFits(data: Data, l: Loadout, slot: Slot)
    requires PieceDiagnostics(data, l, slot) == [] && DetailAt(data, l, slot).slots >= 0
    ensures PieceTotals(data, l, slot).usedSlots <= PieceTotals(data, l, slot).totalSlots
  {
    var d, used := DetailAt(data, l, slot), UsedAt(data, l, slot);
    assert If(d.slots >= 0 && used > d.slots, CapacityExceeded(slot, used, d.slots)) == [];
  }

  lemma {:induction false} CapacityUpTo(data: Data, l: Loadout, n: nat)
    requires n <= |PIECES| && DiagnosticsUpTo(data, l, n) == []
    requires HolesKnown(data, l)
    ensures TotalsUpTo(data, l, n).usedSlots <= TotalsUpTo(data, l, n).totalSlots
  {
    hide PieceDiagnostics, PieceTotals, DetailAt, UsedAt, PieceAt;
    if n == 0 {
    } else {
      CapacityUpTo(data, l, n - 1);
      PieceFits(data, l, PIECES[n - 1]);
    }
  }

  lemma FitsSlots(data: Data, l: Loadout)
    requires l.charm.classId in data.charmClasses && AllDiagnostics(data, l) == []
    requires HolesKnown(data, l)
    ensures AllTotals(data, l).usedSlots <= AllTotals(data, l).totalSlots
  {
    CapacityUpTo(data, l, |PIECES|);
    assert If(UsedAt(data, l, CharmSlot) > l.charm.slots,
              CapacityExceeded(CharmSlot, UsedAt(data, l, CharmSlot), l.charm.slots)) == [];
  }

  lemma AcceptedParts(data: Data, submitted: Loadout, complete: bool)
    requires Evaluate(data, submitted, complete).Success?
    ensures var l, ev := Trimmed(submitted), Evaluate(data, submitted, complete).value;
      && LoadoutError(data, l, complete).None? && l.charm.classId in data.charmClasses
      && ev.summary.totals == AllTotals(data, l) && (ev.isLegal <==> AllDiagnostics(data, l) == [])
  {
    AcceptedCharm(data, Trimmed(submitted), complete);
  }

  /** A legal loadout whose pieces all have a known number of holes does not use more than there are. */
  lemma LegalFitsSlots(data: Data, submitted: Loadout, complete: bool)
    requires Evaluate(data, submitted, complete).Success? && Evaluate(data, submitted, complete).value.isLegal
    requires HolesKnown(data, submitted)
    ensures var totals := Evaluate(data, submitted, complete).value.summary.totals;
      totals.usedSlots <= totals.totalSlots
  {
    hide LoadoutError, AllPoints, AllTotals, AllDiagnostics, AllEquipment, Finish, Evaluate;
    var l := Trimmed(submitted);
    forall slot: Slot | slot != CharmSlot ensures DetailAt(data, l, slot).slots >= 0 {
      assert DetailAt(data, l, slot) == DetailAt(data, submitted, slot);
    }
    AcceptedParts(data, submitted, complete);
    FitsSlots(data, l);
  }

  // ---------- What legal means ----------

  /**
   A confirmed piece made for this kind of weapon and this gender, whose decorations fit its holes if their number
   is known.
   */
  predicate Suits(data: Data, l: Loadout, slot: Slot) {
    var d := DetailAt(data, l, slot);
    && d.confirmed
    && (slot != Weapon && d.combat > 0 ==> (d.combat == 2 <==> Ranged(l.weapon.saveType)) && d.combat <= 2)
    && (slot != Weapon && d.gender > 0 ==> (d.gender == 2 <==> l.gender == "female") && d.gender <= 2)
    && (d.slots >= 0 ==> UsedAt(data, l, slot) <= d.slots)
  }

  lemma SuitsIff(data: Data, l: Loadout, slot: Slot)
    ensures PieceDiagnostics(data, l, slot) == [] <==> Suits(data, l, slot)
  {
    hide DetailAt, UsedAt;
  }

  lemma {:induction false} AllSuit(data: Data, l: Loadout, n: nat)
    requires n <= |PIECES|
    ensures DiagnosticsUpTo(data, l, n) == [] <==> forall i :: 0 <= i < n ==> Suits(data, l, PIECES[i])
  {
    hide PieceDiagnostics, Suits;
    if n == 0 {
    } else {
      AllSuit(data, l, n - 1);
      SuitsIff(data, l, PIECES[n - 1]);
    }
  }

  lemma PieceSlots(slot: Slot) returns (i: nat)
    requires slot != CharmSlot
    ensures i < |PIECES| && PIECES[i] == slot
  {
    i := if slot == Weapon then 0 else if slot == Head then 1 else if slot == Chest then 2 else if slot == Arms then 3
         else if slot == Waist then 4 else 5;
  }

  lemma NoDiagnosticsIff(data: Data, l: Loadout)
    requires l.charm.classId in data.charmClasses
    ensures AllDiagnostics(data, l) == [] <==>
      && (forall slot: Slot :: slot != CharmSlot ==> Suits(data, l, slot))
      && Natural(data, l.charm) && UsedAt(data, l, CharmSlot) <= l.charm.slots
  {
    hide Suits, Natural, UsedAt, CharmDiagnostics, DiagnosticsUpTo;
    AllSuit(data, l, |PIECES|);
    NaturalIff(data, l.charm);
    if forall i :: 0 <= i < |PIECES| ==> Suits(data, l, PIECES[i]) {
      forall slot: Slot | slot != CharmSlot ensures Suits(data, l, slot) { var i := PieceSlots(slot); }
    } else {
      var i :| 0 <= i < |PIECES| && !Suits(data, l, PIECES[i]);
      assert PIECES[i] != CharmSlot;
    }
  }

  /**
   An accepted loadout is legal exactly when all six pieces suit it, its charm is natural and the
   charm's decorations fit.
   */
  lemma LegalIff(data: Data, submitted: Loadout, complete: bool)
    requires Evaluate(data, submitted, complete).Success?
    ensures var l := Trimmed(submitted);
      Evaluate(data, submitted, complete).value.isLegal <==>
        (&& (forall slot: Slot :: slot != CharmSlot ==> Suits(data, l, slot))
         && Natural(data, l.charm) && UsedAt(data, l, CharmSlot) <= l.charm.slots)
  {
    hide Evaluate, Suits, Natural, UsedAt, AllDiagnostics, LoadoutError;
    AcceptedParts(data, submitted, complete);
    NoDiagnosticsIff(data, Trimmed(submitted));
  }
}
