/**
 The loadout tables as a step system.  A submission is validated and checked for duplicates
 first and written by a later transaction, so that any other steps may come in between.
 */
module LoadoutModel {
  import opened Wrappers
  import opened GameData
  import opened Evaluation
  import Names
  import Skills

  type Time = int
  type Id = nat

  /** The installed game data and the digest of a canonical loadout. */
  datatype Environment = Environment(data: Data, digest: Loadout -> int)

  datatype Status = Published | Hidden | Deleted

  datatype Row = Row(owner: string, name: string, remark: string, payload: Loadout, buildHash: int, summary: Summary,
                     isLegal: bool, status: Status, version: int, publishedAt: Option<Time>, deletedAt: Option<Time>,
                     updatedBy: string, updatedAt: Time)

  datatype SkillEntry = SkillEntry(points: int, activeId: Option<int>)

  datatype ReportStatus = Open | Resolved | Dismissed

  datatype Report = Report(loadout: Id, source: int, status: ReportStatus)

  datatype Request =
    | Create(owner: string, remark: string, submitted: Loadout, status: Status, actor: string)
    | Update(id: Id, expected: int, owner: string, remark: string, submitted: Loadout, status: Status, actor: string)

  /** A submission that has passed validation and the duplicate check and is not yet written. */
  datatype Draft = Draft(request: Request, result: Assessment)

  datatype State = State(
    rows: map<Id, Row>,
    equipment: map<Id, map<Slot, (int, int)>>,
    skills: map<Id, map<int, SkillEntry>>,
    reports: map<nat, Report>,
    drafts: map<nat, Draft>)

  datatype Action = NoAction | Hide | Restore | Delete

  datatype Event =
    | Submit(draft: nat, request: Request)
    | Write(draft: nat, newId: Id, now: Time)
    | Discard(draft: nat)
    | SetStatus(id: Id, status: Status, actor: string, now: Time)
    | DeleteOwn(id: Id, actor: string, now: Time)
    | FileReport(report: nat, id: Id, source: int)
    | ResolveReport(report: nat, dismissed: bool, action: Action, actor: string, now: Time)

  // ---------- Submissions ----------

  /** A loadout other than `except` that is not deleted and has this build hash. */
  predicate Conflict(rows: map<Id, Row>, buildHash: int, except: Option<Id>) {
    exists id :: id in rows && rows[id].buildHash == buildHash && !rows[id].status.Deleted? && except != Some(id)
  }

  function TargetOf(request: Request): Option<Id> {
    if request.Create? then None else Some(request.id)
  }

  predicate Acceptable(env: Environment, request: Request) {
    !request.status.Deleted? && |request.remark| <= 500 && Evaluate(env.data, request.submitted, true).Success?
  }

  function HashOf(env: Environment, result: Assessment): int { env.digest(result.fingerprint) }

  function ApplySubmit(env: Environment, s: State, draft: nat, request: Request): State {
    if draft in s.drafts || !Acceptable(env, request) then s
    else
      var result := Evaluate(env.data, request.submitted, true).value;
      if Conflict(s.rows, HashOf(env, result), TargetOf(request)) then s
      else s.(drafts := s.drafts[draft := Draft(request, result)])
  }

  // ---------- Index tables ----------

  function IndexEquipment(rows: seq<EquipmentRow>): map<Slot, (int, int)> {
    if rows == [] then map[]
    else
      var last := rows[|rows| - 1];
      IndexEquipment(rows[..|rows| - 1])[last.slot := (last.saveType, last.saveId)]
  }

  function IndexSkills(rows: seq<Skills.SkillRow>): map<int, SkillEntry> {
    if rows == [] then map[]
    else
      var last := rows[|rows| - 1];
      IndexSkills(rows[..|rows| - 1])[last.tree := SkillEntry(last.points, last.activeId)]
  }

  // ---------- Writing transactions ----------

  function PublishedAt(previous: Option<Time>, status: Status, now: Time): Option<Time> {
    if status.Published? && previous.None? then Some(now) else previous
  }

  function OwnerOf(request: Request): string {
    if request.owner == "" then request.actor else request.owner
  }

  function NewRow(env: Environment, d: Draft, now: Time): Row {
    var r, ev := d.request, d.result;
    Row(OwnerOf(r), ev.payload.name, Names.TrimSpace(r.remark), ev.payload, HashOf(env, ev), ev.summary, ev.isLegal,
        r.status, 1, PublishedAt(None, r.status, now), None, r.actor, now)
  }

  function ChangedRow(env: Environment, before: Row, d: Draft, now: Time): Row {
    var r, ev := d.request, d.result;
    before.(owner := OwnerOf(r), name := ev.payload.name, remark := Names.TrimSpace(r.remark), payload := ev.payload,
             buildHash := HashOf(env, ev), summary := ev.summary, isLegal := ev.isLegal, status := r.status,
             publishedAt := PublishedAt(before.publishedAt, r.status, now), version := before.version + 1,
             updatedBy := r.actor, updatedAt := now)
  }

  /** The row is there, not deleted, and has the expected version unless 0 was given. */
  predicate UpdateMatches(rows: map<Id, Row>, id: Id, expected: int) {
    id in rows && !rows[id].status.Deleted? && (expected == 0 || rows[id].version == expected)
  }

  function ApplyWrite(env: Environment, s: State, draft: nat, newId: Id, now: Time): State {
    if draft !in s.drafts then s
    else
      var d := s.drafts[draft];
      var rest := s.(drafts := s.drafts - {draft});
      var hash := HashOf(env, d.result);
      var id := if d.request.Create? then newId else d.request.id;
      if (d.request.Create? && newId in s.rows)
         || (d.request.Update? && !UpdateMatches(s.rows, id, d.request.expected))
         || Conflict(s.rows, hash, Some(id)) then rest
      else rest.(
        rows := s.rows[id := if d.request.Create? then NewRow(env, d, now) else ChangedRow(env, s.rows[id], d, now)],
        equipment := s.equipment[id := IndexEquipment(d.result.equipment)],
        skills := s.skills[id := IndexSkills(d.result.skills)])
  }

  /** The row after a change of status alone; the version is left to the caller. */
  function WithStatus(row: Row, status: Status, actor: string, now: Time): Row {
    row.(status := status, publishedAt := PublishedAt(row.publishedAt, status, now),
         deletedAt := if status.Deleted? then Some(now) else None, updatedBy := actor, updatedAt := now)
  }

  /** Whether the unique index admits the row with its new status. */
  predicate StatusAllowed(rows: map<Id, Row>, id: Id, status: Status)
    requires id in rows
  {
    status.Deleted? || !Conflict(rows, rows[id].buildHash, Some(id))
  }

  function ApplySetStatus(s: State, id: Id, status: Status, actor: string, now: Time): State {
    if id !in s.rows || !StatusAllowed(s.rows, id, status) then s
    else s.(rows := s.rows[id := WithStatus(s.rows[id], status, actor, now).(version := s.rows[id].version + 1)])
  }

  function ApplyDeleteOwn(s: State, id: Id, actor: string, now: Time): State {
    if id !in s.rows || s.rows[id].owner != actor || s.rows[id].status.Deleted? then s
    else s.(rows := s.rows[id := s.rows[id].(status := Deleted, deletedAt := Some(now), updatedAt := now,
                                             updatedBy := actor, version := s.rows[id].version + 1)])
  }

  /** A change of status alone keeps the version; a written draft of an update raises it. */
  lemma Versions(env: Environment, row: Row, status: Status, actor: string, d: Draft, now: Time)
    ensures WithStatus(row, status, actor, now).version == row.version
    ensures ChangedRow(env, row, d, now).version == row.version + 1
  {
  }

  // ---------- Reports ----------

  function ApplyFileReport(s: State, report: nat, id: Id, source: int): State {
    if report in s.reports || id !in s.rows || !s.rows[id].status.Published?
       || (exists r :: r in s.reports && s.reports[r] == Report(id, source, Open)) then s
    else s.(reports := s.reports[report := Report(id, source, Open)])
  }

  function StatusFor(action: Action): Option<Status> {
    match action
    case NoAction => None
    case Hide => Some(Hidden)
    case Restore => Some(Published)
    case Delete => Some(Deleted)
  }

  function ApplyResolve(s: State, report: nat, dismissed: bool, action: Action, actor: string, now: Time): State {
    if report !in s.reports || !s.reports[report].status.Open? then s
    else
      var id := s.reports[report].loadout;
      var resolution := if dismissed then Dismissed else Resolved;
      var closed := s.(reports := s.reports[report := s.reports[report].(status := resolution)]);
      if StatusFor(action).None? || id !in s.rows then closed
      else
        var status := StatusFor(action).value;
        // A violation of the unique index rolls the whole transaction back.
        if !StatusAllowed(s.rows, id, status) then s
        else closed.(rows := s.rows[id := WithStatus(s.rows[id], status, actor, now)])
  }

  // ---------- Runs ----------

  function Initial(): State { State(map[], map[], map[], map[], map[]) }

  function Apply(env: Environment, s: State, e: Event): State {
    match e
    case Submit(draft, request) => ApplySubmit(env, s, draft, request)
    case Write(draft, newId, now) => ApplyWrite(env, s, draft, newId, now)
    case Discard(draft) => s.(drafts := s.drafts - {draft})
    case SetStatus(id, status, actor, now) => ApplySetStatus(s, id, status, actor, now)
    case DeleteOwn(id, actor, now) => ApplyDeleteOwn(s, id, actor, now)
    case FileReport(report, id, source) => ApplyFileReport(s, report, id, source)
    case ResolveReport(report, dismissed, action, actor, now) => ApplyResolve(s, report, dismissed, action, actor, now)
  }

  function After(env: Environment, es: seq<Event>): State {
    if es == [] then Initial() else Apply(env, After(env, es[..|es| - 1]), es[|es| - 1])
  }

  lemma OneMore(env: Environment, es: seq<Event>, e: Event)
    ensures After(env, es + [e]) == Apply(env, After(env, es), e)
  {
    assert (es + [e])[..|es|] == es;
  }

  // ---------- Steps case by case ----------

  /** What the checks before the writing transaction do. */
  lemma SubmitCases(env: Environment, s: State, draft: nat, request: Request)
    requires draft !in s.drafts
    ensures var t, r := Apply(env, s, Submit(draft, request)), Evaluate(env.data, request.submitted, true);
      if request.status.Deleted? || |request.remark| > 500 || r.Failure?
         || Conflict(s.rows, HashOf(env, r.value), TargetOf(request)) then t == s
      else t == s.(drafts := s.drafts[draft := Draft(request, r.value)])
  {
    hide Evaluate, Conflict, HashOf;
  }

  /** What the writing transaction does, case by case. */
  lemma WriteCases(env: Environment, s: State, draft: nat, newId: Id, now: Time)
    requires draft in s.drafts
    ensures var d := s.drafts[draft];
      var id := if d.request.Create? then newId else d.request.id;
      var rest := s.(drafts := s.drafts - {draft});
      var t := Apply(env, s, Write(draft, newId, now));
      if (d.request.Create? && newId in s.rows)
         || (d.request.Update? && !UpdateMatches(s.rows, id, d.request.expected))
         || Conflict(s.rows, HashOf(env, d.result), Some(id)) then t == rest
      else
        var row := if d.request.Create? then NewRow(env, d, now) else ChangedRow(env, s.rows[id], d, now);
        t == rest.(rows := s.rows[id := row],
                   equipment := s.equipment[id := IndexEquipment(d.result.equipment)],
                   skills := s.skills[id := IndexSkills(d.result.skills)])
  {
    hide Conflict, HashOf, NewRow, ChangedRow, IndexEquipment, IndexSkills;
  }

  lemma SetStatusCases(env: Environment, s: State, id: Id, status: Status, actor: string, now: Time)
    ensures var t := Apply(env, s, SetStatus(id, status, actor, now));
      if id !in s.rows || !StatusAllowed(s.rows, id, status) then t == s
      else
        var row := WithStatus(s.rows[id], status, actor, now).(version := s.rows[id].version + 1);
        t == s.(rows := s.rows[id := row])
  {
    hide StatusAllowed, WithStatus;
  }

  /** What the resolution of a report does, case by case. */
  lemma ResolveCases(env: Environment, s: State, report: nat, dismissed: bool, action: Action, actor: string, now: Time)
    ensures var t := Apply(env, s, ResolveReport(report, dismissed, action, actor, now));
      if report !in s.reports || !s.reports[report].status.Open? then t == s
      else
        var id, status := s.reports[report].loadout, StatusFor(action);
        var closed := s.reports[report].(status := if dismissed then Dismissed else Resolved);
        if status.None? || id !in s.rows then t == s.(reports := s.reports[report := closed])
        else if !StatusAllowed(s.rows, id, status.value) then t == s
        else t == s.(reports := s.reports[report := closed],
                     rows := s.rows[id := WithStatus(s.rows[id], status.value, actor, now)])
  {
    hide StatusAllowed, WithStatus;
  }
}
