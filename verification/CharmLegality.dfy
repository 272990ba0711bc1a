/** The two implementations of charm legality: the diagnostics of `validateCharm` and the lists of `CharmRules`. */
module CharmLegality {
  import opened Wrappers
  import opened GameData
  import opened Verdicts
  import Sorting

  // ---------- Decoration lists ----------

  function DecorationListError(slot: Slot, ids: seq<int>): Option<Error> {
    if |ids| > 3 then Some(TooManyDecorations(slot))
    else if exists i :: 0 <= i < |ids| && !(0 <= ids[i] <= 65535) then Some(DecorationOutOfRange(slot))
    else None
  }

  method CheckDecorations(slot: Slot, ids: seq<int>) returns (error: Option<Error>)
    ensures error == DecorationListError(slot, ids)
  {
    if |ids| > 3 {
      return Some(TooManyDecorations(slot));
    }
    for i := 0 to |ids|
      invariant forall j :: 0 <= j < i ==> 0 <= ids[j] <= 65535
    {
      if ids[i] < 0 || ids[i] > 65535 {
        return Some(DecorationOutOfRange(slot));
      }
    }
    return None;
  }

  // ---------- What the generation records say ----------

  function SkillAt(r: CharmRow, position: int): int { if position == 1 then r.skill1 else r.skill2 }

  function PointsAt(r: CharmRow, position: int): int { if position == 1 then r.points1 else r.points2 }

  predicate SlotsRecorded(rows: seq<CharmRow>, classId: int, slots: int) {
    exists r :: r in rows && r.classId == classId && r.slots == slots
  }

  predicate SkillRecorded(rows: seq<CharmRow>, classId: int, position: int, skill: int) {
    exists r :: r in rows && r.classId == classId && SkillAt(r, position) == skill
  }

  predicate PointsRecorded(rows: seq<CharmRow>, classId: int, position: int, skill: int, points: int) {
    exists r :: r in rows && r.classId == classId && SkillAt(r, position) == skill && PointsAt(r, position) == points
  }

  predicate PairRecorded(rows: seq<CharmRow>, classId: int, skill1: int, skill2: int) {
    exists r :: r in rows && r.classId == classId && r.skill1 == skill1 && r.skill2 == skill2
  }

  predicate Recorded(rows: seq<CharmRow>, c: Charm) {
    CharmRow(c.classId, c.slots, c.skill1, c.points1, c.skill2, c.points2) in rows
  }

  // ---------- validateCharm ----------

  predicate InRange(c: Charm) {
    && 0 <= c.classId <= 65535 && 0 <= c.slots <= 3
    && 0 <= c.skill1 <= 255 && 0 <= c.skill2 <= 255
    && -128 <= c.points1 <= 127 && -128 <= c.points2 <= 127
  }

  function CharmError(data: Data, c: Charm): Option<Error> {
    if !InRange(c) then Some(CharmOutOfRange)
    else if DecorationListError(CharmSlot, c.decorations).Some? then DecorationListError(CharmSlot, c.decorations)
    else if c.classId !in data.charmClasses then Some(UnknownCharmClass)
    else if c.skill1 != 0 && c.skill1 !in data.skillTrees then Some(UnknownCharmSkill(c.skill1))
    else if c.skill2 != 0 && c.skill2 !in data.skillTrees then Some(UnknownCharmSkill(c.skill2))
    else None
  }

  function If(condition: bool, d: Diagnostic): seq<Diagnostic> { if condition then [d] else [] }

  function PositionDiagnostics(data: Data, name: string, classId: int, position: int, skill: int,
      points: int): seq<Diagnostic> {
    if !SkillRecorded(data.charmRows, classId, position, skill) then [PositionInvalid(name, position)]
    else If(!PointsRecorded(data.charmRows, classId, position, skill, points), PointsInvalid(name, position, points))
  }

  function FieldDiagnostics(c: Charm): seq<Diagnostic> {
    If(c.skill1 == 0 && c.points1 != 0, PointsWithoutSkill(1, c.points1))
    + If(c.skill2 == 0 && c.points2 != 0, PointsWithoutSkill(2, c.points2))
    + If(c.skill1 != 0 && c.skill1 == c.skill2, DuplicateSkill)
  }

  function CharmDiagnostics(data: Data, c: Charm): seq<Diagnostic>
    requires c.classId in data.charmClasses
  {
    var name, rows := data.charmClasses[c.classId], data.charmRows;
    FieldDiagnostics(c)
    + If(!SlotsRecorded(rows, c.classId, c.slots), SlotsNotGenerated(name, c.slots))
    + PositionDiagnostics(data, name, c.classId, 1, c.skill1, c.points1)
    + PositionDiagnostics(data, name, c.classId, 2, c.skill2, c.points2)
    + If(c.skill1 != 0 && c.skill2 != 0 && !PairRecorded(rows, c.classId, c.skill1, c.skill2), PairNotGenerated(name))
    + If(!Recorded(rows, c), CombinationNotGenerated)
  }

  method RejectCharm(data: Data, c: Charm) returns (error: Option<Error>)
    ensures error == CharmError(data, c)
  {
    if c.classId < 0 || c.classId > 65535 || c.slots < 0 || c.slots > 3 || c.skill1 < 0 || c.skill1 > 255
       || c.skill2 < 0 || c.skill2 > 255 || c.points1 < -128 || c.points1 > 127 || c.points2 < -128 || c.points2 > 127 {
      return Some(CharmOutOfRange);
    }
    error := CheckDecorations(CharmSlot, c.decorations);
    if error.Some? {
      return error;
    }
    if c.classId !in data.charmClasses {
      return Some(UnknownCharmClass);
    }
    var skills := [c.skill1, c.skill2];
    for i := 0 to 2
      invariant i >= 1 ==> c.skill1 == 0 || c.skill1 in data.skillTrees
      invariant i >= 2 ==> c.skill2 == 0 || c.skill2 in data.skillTrees
    {
      if skills[i] != 0 && skills[i] !in data.skillTrees {
        return Some(UnknownCharmSkill(skills[i]));
      }
    }
    return None;
  }

  method DiagnosePosition(data: Data, name: string, c: Charm, position: int) returns (ds: seq<Diagnostic>)
    requires position == 1 || position == 2
    ensures ds == PositionDiagnostics(data, name, c.classId, position,
                                      if position == 1 then c.skill1 else c.skill2,
                                      if position == 1 then c.points1 else c.points2)
  {
    ds := [];
    var skill, points := c.skill1, c.points1;
    if position == 2 {
      skill, points := c.skill2, c.points2;
    }
    if !SkillRecorded(data.charmRows, c.classId, position, skill) {
      ds := ds + [PositionInvalid(name, position)];
    } else if !PointsRecorded(data.charmRows, c.classId, position, skill, points) {
      ds := ds + [PointsInvalid(name, position, points)];
    }
  }

  method DiagnoseFields(c: Charm) returns (ds: seq<Diagnostic>)
    ensures ds == FieldDiagnostics(c)
  {
    ds := [];
    if c.skill1 == 0 && c.points1 != 0 { ds := ds + [PointsWithoutSkill(1, c.points1)]; }
    if c.skill2 == 0 && c.points2 != 0 { ds := ds + [PointsWithoutSkill(2, c.points2)]; }
    if c.skill1 != 0 && c.skill1 == c.skill2 { ds := ds + [DuplicateSkill]; }
  }

  method DiagnoseCharm(data: Data, c: Charm) returns (ds: seq<Diagnostic>)
    requires c.classId in data.charmClasses
    ensures ds == CharmDiagnostics(data, c)
  {
    hide SkillRecorded, PointsRecorded, SlotsRecorded, PairRecorded, Recorded, PositionDiagnostics, FieldDiagnostics;
    var name, rows := data.charmClasses[c.classId], data.charmRows;
    ds := DiagnoseFields(c);
    if !SlotsRecorded(rows, c.classId, c.slots) { ds := ds + [SlotsNotGenerated(name, c.slots)]; }
    for position := 1 to 3
      invariant ds == FieldDiagnostics(c)
        + If(!SlotsRecorded(rows, c.classId, c.slots), SlotsNotGenerated(name, c.slots))
        + (if position > 1 then PositionDiagnostics(data, name, c.classId, 1, c.skill1, c.points1) else [])
        + (if position > 2 then PositionDiagnostics(data, name, c.classId, 2, c.skill2, c.points2) else [])
    {
      var more := DiagnosePosition(data, name, c, position);
      ds := ds + more;
    }
    if c.skill1 != 0 && c.skill2 != 0 && !PairRecorded(rows, c.classId, c.skill1, c.skill2) {
      ds := ds + [PairNotGenerated(name)];
    }
    if !Recorded(rows, c) { ds := ds + [CombinationNotGenerated]; }
  }

  method ValidateCharm(data: Data, c: Charm, soFar: seq<Diagnostic>) returns (r: Result<seq<Diagnostic>, Error>)
    ensures CharmError(data, c).Some? ==> r == Failure(CharmError(data, c).value)
    ensures CharmError(data, c).None? ==>
      c.classId in data.charmClasses && r == Success(soFar + CharmDiagnostics(data, c))
  {
    var error := RejectCharm(data, c);
    if error.Some? {
      return Failure(error.value);
    }
    var ds := DiagnoseCharm(data, c);
    return Success(soFar + ds);
  }

  // ---------- What the diagnostics mean ----------

  /** A recorded combination supports each of its parts. */
  lemma RecordedParts(rows: seq<CharmRow>, c: Charm)
    requires Recorded(rows, c)
    ensures SlotsRecorded(rows, c.classId, c.slots) && PairRecorded(rows, c.classId, c.skill1, c.skill2)
    ensures SkillRecorded(rows, c.classId, 1, c.skill1) && PointsRecorded(rows, c.classId, 1, c.skill1, c.points1)
    ensures SkillRecorded(rows, c.classId, 2, c.skill2) && PointsRecorded(rows, c.classId, 2, c.skill2, c.points2)
  {
    var r := CharmRow(c.classId, c.slots, c.skill1, c.points1, c.skill2, c.points2);
    assert r in rows && SkillAt(r, 1) == c.skill1 && PointsAt(r, 1) == c.points1;
    assert SkillAt(r, 2) == c.skill2 && PointsAt(r, 2) == c.points2;
  }

  /** The full combination was recorded, a missing skill carries no points, and the two skills are not the same one. */
  predicate Natural(data: Data, c: Charm) {
    && Recorded(data.charmRows, c)
    && (c.skill1 == 0 ==> c.points1 == 0) && (c.skill2 == 0 ==> c.points2 == 0)
    && !(c.skill1 != 0 && c.skill1 == c.skill2)
  }

  /** A charm draws no diagnostic exactly when it is natural, although seven kinds of diagnostic can be drawn. */
  lemma NaturalIff(data: Data, c: Charm)
    requires c.classId in data.charmClasses
    ensures CharmDiagnostics(data, c) == [] <==> Natural(data, c)
  {
    if Recorded(data.charmRows, c) { RecordedParts(data.charmRows, c); }
    assert CombinationNotGenerated in If(true, CombinationNotGenerated);
  }

  predicate AboutParts(d: Diagnostic) {
    d.SlotsNotGenerated? || d.PositionInvalid? || d.PointsInvalid? || d.PairNotGenerated?
  }

  /** Whatever is said about a part of the combination is accompanied by the remark on the whole. */
  lemma PartImpliesCombination(data: Data, c: Charm, d: Diagnostic)
    requires c.classId in data.charmClasses && d in CharmDiagnostics(data, c) && AboutParts(d)
    ensures CombinationNotGenerated in CharmDiagnostics(data, c)
  {
    if Recorded(data.charmRows, c) {
      RecordedParts(data.charmRows, c);
    } else {
      assert CombinationNotGenerated in If(!Recorded(data.charmRows, c), CombinationNotGenerated);
    }
  }

  // ---------- CharmRules ----------

  datatype Rules = Rules(slots: seq<int>, points1: seq<int>, points2: seq<int>, pairExists: bool)

  /** SELECT DISTINCT ... ORDER BY over the records of a class, and of a skill in a position. */
  function SlotsQuery(rows: seq<CharmRow>, classId: int): seq<int> {
    Sorting.Ascending(set r | r in rows && r.classId == classId :: r.slots)
  }

  function PointsQuery(rows: seq<CharmRow>, classId: int, position: int, skill: int): seq<int> {
    Sorting.Ascending(
      set r | r in rows && r.classId == classId && SkillAt(r, position) == skill :: PointsAt(r, position))
  }

  method Read(result: seq<int>) returns (out: seq<int>)
    ensures out == result
  {
    out := [];
    for i := 0 to |result|
      invariant out == result[..i]
    {
      out := out + [result[i]];
    }
  }

  /** What `CharmRules` promises of its lists, as a relation. */
  ghost predicate RulesFor(data: Data, classId: int, skill1: int, skill2: int, rules: Rules) {
    && (forall n :: n in rules.slots <==> SlotsRecorded(data.charmRows, classId, n))
    && (forall n :: n in rules.points1 <==> PointsRecorded(data.charmRows, classId, 1, skill1, n))
    && (forall n :: n in rules.points2 <==> PointsRecorded(data.charmRows, classId, 2, skill2, n))
    && (rules.pairExists <==> skill1 == 0 || skill2 == 0 || PairRecorded(data.charmRows, classId, skill1, skill2))
  }

  method CharmRules(data: Data, classId: int, skill1: int, skill2: int) returns (r: Option<Rules>)
    ensures r.None? <==> classId !in data.charmClasses
    ensures r.Some? ==>
      && Sorting.Increasing(r.value.slots) && Sorting.Increasing(r.value.points1) && Sorting.Increasing(r.value.points2)
      && RulesFor(data, classId, skill1, skill2, r.value)
  {
    if classId !in data.charmClasses {
      return None;
    }
    var value := Rules([], [], [], false);
    var slots := Read(SlotsQuery(data.charmRows, classId));
    value := value.(slots := slots);
    var points1 := Read(PointsQuery(data.charmRows, classId, 1, skill1));
    value := value.(points1 := points1);
    var points2 := Read(PointsQuery(data.charmRows, classId, 2, skill2));
    value := value.(points2 := points2);
    if skill1 == 0 || skill2 == 0 {
      value := value.(pairExists := true);
    } else {
      value := value.(pairExists := PairRecorded(data.charmRows, classId, skill1, skill2));
    }
    return Some(value);
  }

  lemma PositionAgrees(data: Data, c: Charm, position: int, skill: int, list: seq<int>)
    requires forall n :: n in list <==> PointsRecorded(data.charmRows, c.classId, position, skill, n)
    ensures SkillRecorded(data.charmRows, c.classId, position, skill) <==> list != []
  {
    if SkillRecorded(data.charmRows, c.classId, position, skill) {
      var r :| r in data.charmRows && r.classId == c.classId && SkillAt(r, position) == skill;
      assert PointsRecorded(data.charmRows, c.classId, position, skill, PointsAt(r, position));
    }
    if list != [] {
      var n := list[0];
      assert n in list;
      var r :| r in data.charmRows && r.classId == c.classId && SkillAt(r, position) == skill
        && PointsAt(r, position) == n;
    }
  }

  /** Which diagnostics there are, one by one. */
  lemma DiagnosticsAre(data: Data, c: Charm, d: Diagnostic)
    requires c.classId in data.charmClasses
    ensures d in CharmDiagnostics(data, c) <==>
      var name, rows := data.charmClasses[c.classId], data.charmRows;
      || d in FieldDiagnostics(c)
      || (d == SlotsNotGenerated(name, c.slots) && !SlotsRecorded(rows, c.classId, c.slots))
      || d in PositionDiagnostics(data, name, c.classId, 1, c.skill1, c.points1)
      || d in PositionDiagnostics(data, name, c.classId, 2, c.skill2, c.points2)
      || (d == PairNotGenerated(name) && c.skill1 != 0 && c.skill2 != 0
           && !PairRecorded(rows, c.classId, c.skill1, c.skill2))
      || (d == CombinationNotGenerated && !Recorded(rows, c))
  {
  }

  lemma PositionRemarks(data: Data, c: Charm, position: int)
    requires c.classId in data.charmClasses && (position == 1 || position == 2)
    ensures var ds, name, rows := CharmDiagnostics(data, c), data.charmClasses[c.classId], data.charmRows;
            var skill := if position == 1 then c.skill1 else c.skill2;
            var points := if position == 1 then c.points1 else c.points2;
      && (PositionInvalid(name, position) in ds <==> !SkillRecorded(rows, c.classId, position, skill))
      && (PointsInvalid(name, position, points) in ds <==>
            SkillRecorded(rows, c.classId, position, skill)
              && !PointsRecorded(rows, c.classId, position, skill, points))
  {
    hide CharmDiagnostics, SkillRecorded, PointsRecorded, SlotsRecorded, PairRecorded, Recorded;
    var name := data.charmClasses[c.classId];
    DiagnosticsAre(data, c, PositionInvalid(name, position));
    DiagnosticsAre(data, c, PointsInvalid(name, position, if position == 1 then c.points1 else c.points2));
  }

  lemma WholeRemarks(data: Data, c: Charm)
    requires c.classId in data.charmClasses
    ensures var ds, name, rows := CharmDiagnostics(data, c), data.charmClasses[c.classId], data.charmRows;
      && (SlotsNotGenerated(name, c.slots) in ds <==> !SlotsRecorded(rows, c.classId, c.slots))
      && (PairNotGenerated(name) in ds <==>
            c.skill1 != 0 && c.skill2 != 0 && !PairRecorded(rows, c.classId, c.skill1, c.skill2))
  {
    hide CharmDiagnostics, SkillRecorded, PointsRecorded, SlotsRecorded, PairRecorded, Recorded;
    var name := data.charmClasses[c.classId];
    DiagnosticsAre(data, c, SlotsNotGenerated(name, c.slots));
    DiagnosticsAre(data, c, PairNotGenerated(name));
  }

  /** Both implementations agree: a remark is made exactly when the list or flag does not admit the value. */
  lemma RulesAgree(data: Data, c: Charm, rules: Rules)
    requires c.classId in data.charmClasses && RulesFor(data, c.classId, c.skill1, c.skill2, rules)
    ensures var ds, name := CharmDiagnostics(data, c), data.charmClasses[c.classId];
      && (SlotsNotGenerated(name, c.slots) in ds <==> c.slots !in rules.slots)
      && (PositionInvalid(name, 1) in ds <==> rules.points1 == [])
      && (PositionInvalid(name, 2) in ds <==> rules.points2 == [])
      && (PointsInvalid(name, 1, c.points1) in ds <==> rules.points1 != [] && c.points1 !in rules.points1)
      && (PointsInvalid(name, 2, c.points2) in ds <==> rules.points2 != [] && c.points2 !in rules.points2)
      && (PairNotGenerated(name) in ds <==> !rules.pairExists)
  {
    hide CharmDiagnostics, SkillRecorded, PointsRecorded, SlotsRecorded, PairRecorded;
    PositionAgrees(data, c, 1, c.skill1, rules.points1);
    PositionAgrees(data, c, 2, c.skill2, rules.points2);
    PositionRemarks(data, c, 1);
    PositionRemarks(data, c, 2);
    WholeRemarks(data, c);
  }
}
