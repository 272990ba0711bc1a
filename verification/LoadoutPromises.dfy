/** What the loadout handlers promise of the rows, column by column. */
module LoadoutPromises {
  import opened Wrappers
  import opened GameData
  import opened Evaluation
  import opened LoadoutModel
  import opened LoadoutSafety
  import Fingerprint
  import Names

  // ---------- Duplicates ----------

  /** Another loadout that is not deleted has the build hash. */
  ghost predicate Taken(rows: map<Id, Row>, buildHash: int, id: Option<Id>) {
    exists other ::
      && other in rows && Some(other) != id
      && rows[other].buildHash == buildHash && rows[other].status != Deleted
  }

  lemma TakenIff(rows: map<Id, Row>, buildHash: int, id: Option<Id>)
    ensures Conflict(rows, buildHash, id) <==> Taken(rows, buildHash, id)
  {
  }

  /** The hash of the gear of an accepted loadout. */
  function GearHash(env: Environment, submitted: Loadout): int { env.digest(Fingerprint.Canonical(submitted)) }

  /** The fingerprint of what is stored is that of what was submitted: the name has no part in it. */
  lemma HashIsGearHash(env: Environment, submitted: Loadout)
    requires Evaluate(env.data, submitted, true).Success?
    ensures HashOf(env, Evaluate(env.data, submitted, true).value) == GearHash(env, submitted)
  {
    hide Evaluate, AllPoints, AllTotals, AllDiagnostics, AllEquipment, SkillsOf, LoadoutError;
    EvaluateCases(env.data, submitted, true);
    assert Fingerprint.Canonical(Trimmed(submitted)) == Fingerprint.Canonical(submitted);
  }

  /** The version is the one expected, or none was expected. */
  predicate VersionFits(rows: map<Id, Row>, id: Id, expected: int) {
    id in rows && rows[id].status != Deleted && (expected == 0 || rows[id].version == expected)
  }

  // ---------- What a write puts into the row ----------

  /** The columns that come from the request and its evaluation. */
  predicate WrittenFrom(env: Environment, row: Row, request: Request, ev: Assessment, now: Time) {
    && row.owner == (if request.owner == "" then request.actor else request.owner)
    && row.name == ev.payload.name && row.remark == Names.TrimSpace(request.remark) && row.payload == ev.payload
    && row.buildHash == env.digest(ev.fingerprint) && row.summary == ev.summary && row.isLegal == ev.isLegal
    && row.status == request.status && row.updatedBy == request.actor && row.updatedAt == now
  }

  predicate CreatedRow(env: Environment, row: Row, d: Draft, now: Time) {
    && WrittenFrom(env, row, d.request, d.result, now)
    && row.version == 1 && row.deletedAt.None?
    && row.publishedAt == (if d.request.status == Published then Some(now) else None)
  }

  predicate UpdatedRow(env: Environment, before: Row, row: Row, d: Draft, now: Time) {
    && WrittenFrom(env, row, d.request, d.result, now)
    && row.version == before.version + 1 && row.deletedAt == before.deletedAt
    && row.publishedAt == (if before.publishedAt.Some? then before.publishedAt
                           else if d.request.status == Published then Some(now) else None)
  }

  lemma NewRowIs(env: Environment, d: Draft, now: Time)
    ensures CreatedRow(env, NewRow(env, d, now), d, now)
  {
  }

  lemma ChangedRowIs(env: Environment, before: Row, d: Draft, now: Time)
    ensures UpdatedRow(env, before, ChangedRow(env, before, d, now), d, now)
    ensures ChangedRow(env, before, d, now) != before
  {
  }

  // ---------- Changes of status ----------

  /** Only status, dates and perhaps the version change; `published_at` is set once. */
  predicate StatusChanged(before: Row, after: Row, status: Status, actor: string, now: Time, raised: int) {
    after == before.(
      status := status, updatedBy := actor, updatedAt := now, version := before.version + raised,
      publishedAt := if status == Published && before.publishedAt.None? then Some(now) else before.publishedAt,
      deletedAt := if status == Deleted then Some(now) else None)
  }

  /** The status that the action of a resolution asks for. */
  predicate ActionGives(action: Action, status: Option<Status>) {
    match action
    case NoAction => status == None
    case Hide => status == Some(Hidden)
    case Restore => status == Some(Published)
    case Delete => status == Some(Deleted)
  }

  lemma OneAction(action: Action)
    ensures forall status :: ActionGives(action, status) <==> status == StatusFor(action)
  {
  }

  lemma StatusIs(row: Row, status: Status, actor: string, now: Time)
    ensures StatusChanged(row, WithStatus(row, status, actor, now), status, actor, now, 0)
    ensures StatusChanged(row, WithStatus(row, status, actor, now).(version := row.version + 1), status, actor, now, 1)
  {
  }

  /** Another loadout with the same build stands in the way unless the new status is deleted. */
  ghost predicate Refused(rows: map<Id, Row>, id: Id, status: Status)
    requires id in rows
  {
    status != Deleted && Taken(rows, rows[id].buildHash, Some(id))
  }

  lemma RefusedIff(rows: map<Id, Row>, id: Id, status: Status)
    requires id in rows
    ensures StatusAllowed(rows, id, status) <==> !Refused(rows, id, status)
  {
    hide Conflict, Taken;
    TakenIff(rows, rows[id].buildHash, Some(id));
  }

  /** What the action of a resolution does to the rows, and whether the report can be closed with it. */
  ghost predicate Acted(
    before: map<Id, Row>, after: map<Id, Row>, id: Id, status: Option<Status>, actor: string, now: Time, closed: bool) {
    if status.None? || id !in before then closed && after == before
    else if Refused(before, id, status.value) then !closed && after == before
    else
      && closed && after.Keys == before.Keys && StatusChanged(before[id], after[id], status.value, actor, now, 0)
      && (forall other :: other in before && other != id ==> after[other] == before[other])
  }

  lemma ActedIs(before: map<Id, Row>, id: Id, action: Action, actor: string, now: Time)
    ensures forall status :: ActionGives(action, status) <==> status == StatusFor(action)
    ensures var status := StatusFor(action);
      if status.None? || id !in before then Acted(before, before, id, status, actor, now, true)
      else if !StatusAllowed(before, id, status.value) then Acted(before, before, id, status, actor, now, false)
      else Acted(before, before[id := WithStatus(before[id], status.value, actor, now)], id, status, actor, now, true)
  {
    hide StatusAllowed, Refused, WithStatus, StatusChanged;
    OneAction(action);
    var status := StatusFor(action);
    if status.Some? && id in before {
      RefusedIff(before, id, status.value);
      StatusIs(before[id], status.value, actor, now);
    }
  }

  // ---------- Whose loadouts are deleted ----------

  /** In every run, an owner's deletion changes only a loadout of that owner that is not deleted. */
  lemma OnlyOwnDeleted(env: Environment, es: seq<Event>, e: Event, id: Id)
    requires e.DeleteOwn? && id in After(env, es).rows
    ensures id in After(env, es + [e]).rows
    ensures var before, after := After(env, es).rows[id], After(env, es + [e]).rows[id];
      if e.id == id && before.owner == e.actor && before.status != Deleted
      then after == before.(status := Deleted, deletedAt := Some(e.now), updatedBy := e.actor, updatedAt := e.now,
                            version := before.version + 1)
      else after == before
  {
    hide After;
    OneMore(env, es, e);
  }
}
