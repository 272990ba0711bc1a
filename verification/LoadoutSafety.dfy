/** What every run of submissions, updates, status changes and reports keeps. */
module LoadoutSafety {
  import opened Wrappers
  import opened GameData
  import opened Evaluation
  import opened LoadoutModel
  import Fingerprint

  // ---------- Stored rows are what evaluation says ----------

  /** The row and its index rows are those of the evaluation of its stored payload. */
  ghost predicate MatchesEvaluation(
    env: Environment, row: Row, equipment: map<Slot, (int, int)>, skills: map<int, SkillEntry>) {
    var r := Evaluate(env.data, row.payload, true);
    && r.Success?
    && r.value.payload == row.payload
    && row.name == row.payload.name
    && row.buildHash == env.digest(Fingerprint.Canonical(row.payload)) == HashOf(env, r.value)
    && row.summary == r.value.summary && row.isLegal == r.value.isLegal
    && equipment == IndexEquipment(r.value.equipment)
    && skills == IndexSkills(r.value.skills)
  }

  predicate DatesOk(row: Row) {
    && (row.deletedAt.Some? <==> row.status.Deleted?)
    && (row.status.Published? ==> row.publishedAt.Some?)
    && row.version >= 1
  }

  ghost predicate RowOk(env: Environment, s: State, id: Id)
    requires id in s.rows
  {
    && id in s.equipment && id in s.skills
    && MatchesEvaluation(env, s.rows[id], s.equipment[id], s.skills[id])
    && DatesOk(s.rows[id])
  }

  ghost predicate DraftOk(env: Environment, d: Draft) {
    Acceptable(env, d.request) && Evaluate(env.data, d.request.submitted, true) == Success(d.result)
  }

  /** The unique index over loadouts that are not deleted. */
  predicate UniqueBuilds(rows: map<Id, Row>) {
    forall a, b :: a in rows && b in rows && a != b && !rows[a].status.Deleted? && !rows[b].status.Deleted? ==>
      rows[a].buildHash != rows[b].buildHash
  }

  ghost predicate StoreInv(env: Environment, s: State) {
    && (forall id :: id in s.rows ==> RowOk(env, s, id))
    && (forall d :: d in s.drafts ==> DraftOk(env, s.drafts[d]))
    && UniqueBuilds(s.rows)
    && s.equipment.Keys == s.rows.Keys == s.skills.Keys
  }

  /** How a row may look at a later moment of the same run. */
  predicate RowEvolves(a: Row, b: Row) {
    && (a.publishedAt.Some? ==> b.publishedAt == a.publishedAt)
    && a.version <= b.version
    && (a.version == b.version ==>
         b.payload == a.payload && b.name == a.name && b.remark == a.remark && b.owner == a.owner)
  }

  predicate AllEvolve(a: map<Id, Row>, b: map<Id, Row>) {
    forall id :: id in a ==> id in b && RowEvolves(a[id], b[id])
  }

  /** Two pieces of the state of a draft: what was stored is a fixed point of evaluation. */
  lemma DraftRow(env: Environment, d: Draft, row: Row)
    requires DraftOk(env, d)
    requires row.payload == d.result.payload && row.name == d.result.payload.name
      && row.buildHash == HashOf(env, d.result)
    requires row.summary == d.result.summary && row.isLegal == d.result.isLegal
    ensures MatchesEvaluation(env, row, IndexEquipment(d.result.equipment), IndexSkills(d.result.skills))
  {
    EvaluateStored(env.data, d.request.submitted, true);
    AcceptedParts(env.data, d.request.submitted, true);
  }

  lemma DraftNotDeleted(env: Environment, d: Draft)
    requires DraftOk(env, d)
    ensures !d.request.status.Deleted?
  {
    hide Evaluate;
  }

  lemma PutUnique(rows: map<Id, Row>, id: Id, row: Row)
    requires UniqueBuilds(rows) && (row.status.Deleted? || !Conflict(rows, row.buildHash, Some(id)))
    ensures UniqueBuilds(rows[id := row])
  {
  }

  lemma PutEvolves(rows: map<Id, Row>, id: Id, row: Row)
    requires id in rows ==> RowEvolves(rows[id], row)
    ensures AllEvolve(rows, rows[id := row])
  {
  }

  /** Putting one row with its index rows, when the unique index admits it. */
  lemma PutStep(env: Environment, s: State, t: State, id: Id)
    requires StoreInv(env, s) && id in t.rows && id in t.equipment && id in t.skills
    requires t.rows == s.rows[id := t.rows[id]] && t.equipment == s.equipment[id := t.equipment[id]]
      && t.skills == s.skills[id := t.skills[id]]
    requires forall d :: d in t.drafts ==> d in s.drafts && t.drafts[d] == s.drafts[d]
    requires MatchesEvaluation(env, t.rows[id], t.equipment[id], t.skills[id]) && DatesOk(t.rows[id])
    requires t.rows[id].status.Deleted? || !Conflict(s.rows, t.rows[id].buildHash, Some(id))
    requires id in s.rows ==> RowEvolves(s.rows[id], t.rows[id])
    ensures StoreInv(env, t) && AllEvolve(s.rows, t.rows)
  {
    hide MatchesEvaluation, DatesOk, DraftOk, UniqueBuilds, AllEvolve, Conflict, RowEvolves;
    PutUnique(s.rows, id, t.rows[id]);
    PutEvolves(s.rows, id, t.rows[id]);
    forall i | i in t.rows ensures RowOk(env, t, i) {
      if i != id { assert RowOk(env, s, i); }
    }
  }

  lemma OtherTables(env: Environment, s: State, t: State)
    requires StoreInv(env, s) && t.rows == s.rows && t.equipment == s.equipment && t.skills == s.skills
    requires forall d :: d in t.drafts ==> d in s.drafts && t.drafts[d] == s.drafts[d]
    ensures StoreInv(env, t)
  {
    hide MatchesEvaluation, DraftOk, DatesOk;
    forall i | i in t.rows ensures RowOk(env, t, i) { assert RowOk(env, s, i); }
  }

  lemma NothingWritten(env: Environment, s: State, draft: nat, newId: Id, now: Time)
    requires draft !in s.drafts
    ensures Apply(env, s, Write(draft, newId, now)) == s
  {
  }

  lemma WriteStep(env: Environment, s: State, draft: nat, newId: Id, now: Time)
    requires StoreInv(env, s)
    ensures var t := Apply(env, s, Write(draft, newId, now)); StoreInv(env, t) && AllEvolve(s.rows, t.rows)
  {
    hide MatchesEvaluation, DraftOk, HashOf, Conflict, UniqueBuilds, Apply, IndexEquipment, IndexSkills;
    var t := Apply(env, s, Write(draft, newId, now));
    if draft in s.drafts {
      WriteCases(env, s, draft, newId, now);
      if t.rows == s.rows && t.equipment == s.equipment && t.skills == s.skills {
        OtherTables(env, s, t);
      } else {
        var d := s.drafts[draft];
        var id := if d.request.Create? then newId else d.request.id;
        DraftNotDeleted(env, d);
        DraftRow(env, d, t.rows[id]);
        if d.request.Update? { assert RowOk(env, s, id); }
        PutStep(env, s, t, id);
      }
    } else {
      NothingWritten(env, s, draft, newId, now);
    }
  }

  lemma SubmitStep(env: Environment, s: State, draft: nat, request: Request)
    requires StoreInv(env, s)
    ensures StoreInv(env, ApplySubmit(env, s, draft, request))
  {
    hide Evaluate, MatchesEvaluation, DatesOk;
    var t := ApplySubmit(env, s, draft, request);
    forall i | i in t.rows ensures RowOk(env, t, i) { assert RowOk(env, s, i); }
  }

  lemma SameEvaluation(env: Environment, a: Row, b: Row, equipment: map<Slot, (int, int)>, skills: map<int, SkillEntry>)
    requires MatchesEvaluation(env, a, equipment, skills)
    requires b.payload == a.payload && b.name == a.name && b.buildHash == a.buildHash && b.summary == a.summary
      && b.isLegal == a.isLegal
    ensures MatchesEvaluation(env, b, equipment, skills)
  {
    hide Evaluate;
  }

  /** A step that changes one row's status, dates and version only. */
  lemma StatusStep(env: Environment, s: State, t: State, id: Id)
    requires StoreInv(env, s) && id in s.rows && id in t.rows && t.rows == s.rows[id := t.rows[id]]
    requires t.equipment == s.equipment && t.skills == s.skills && t.drafts == s.drafts
    requires var a, b := s.rows[id], t.rows[id];
      && b.payload == a.payload && b.name == a.name && b.remark == a.remark && b.owner == a.owner
      && b.buildHash == a.buildHash && b.summary == a.summary && b.isLegal == a.isLegal
      && DatesOk(b) && a.version <= b.version && (a.publishedAt.Some? ==> b.publishedAt == a.publishedAt)
      && StatusAllowed(s.rows, id, b.status)
    ensures StoreInv(env, t) && AllEvolve(s.rows, t.rows)
  {
    hide MatchesEvaluation, DraftOk;
    assert RowOk(env, s, id);
    SameEvaluation(env, s.rows[id], t.rows[id], s.equipment[id], s.skills[id]);
    PutStep(env, s, t, id);
  }

  lemma SetStatusStep(env: Environment, s: State, id: Id, status: Status, actor: string, now: Time)
    requires StoreInv(env, s)
    ensures var t := ApplySetStatus(s, id, status, actor, now); StoreInv(env, t) && AllEvolve(s.rows, t.rows)
  {
    hide MatchesEvaluation, DraftOk, Conflict, UniqueBuilds;
    if id in s.rows && StatusAllowed(s.rows, id, status) {
      assert RowOk(env, s, id);
      StatusStep(env, s, ApplySetStatus(s, id, status, actor, now), id);
    }
  }

  lemma DeleteOwnStep(env: Environment, s: State, id: Id, actor: string, now: Time)
    requires StoreInv(env, s)
    ensures var t := ApplyDeleteOwn(s, id, actor, now); StoreInv(env, t) && AllEvolve(s.rows, t.rows)
  {
    hide MatchesEvaluation, DraftOk, Conflict, UniqueBuilds;
    if id in s.rows && s.rows[id].owner == actor && !s.rows[id].status.Deleted? {
      assert RowOk(env, s, id);
      StatusStep(env, s, ApplyDeleteOwn(s, id, actor, now), id);
    }
  }

  lemma ResolveStep(env: Environment, s: State, report: nat, dismissed: bool, action: Action, actor: string, now: Time)
    requires StoreInv(env, s)
    ensures var t := Apply(env, s, ResolveReport(report, dismissed, action, actor, now));
      StoreInv(env, t) && AllEvolve(s.rows, t.rows)
  {
    hide MatchesEvaluation, DraftOk, Conflict, UniqueBuilds, Apply;
    var t := Apply(env, s, ResolveReport(report, dismissed, action, actor, now));
    ResolveCases(env, s, report, dismissed, action, actor, now);
    if t.rows != s.rows {
      var id := s.reports[report].loadout;
      assert RowOk(env, s, id);
      StatusStep(env, s, t, id);
    } else {
      OtherTables(env, s, t);
    }
  }

  lemma StoreStep(env: Environment, s: State, e: Event)
    requires StoreInv(env, s)
    ensures StoreInv(env, Apply(env, s, e)) && AllEvolve(s.rows, Apply(env, s, e).rows)
  {
    hide StoreInv, ApplyWrite, ApplySetStatus, ApplyDeleteOwn, ApplyResolve;
    match e
    case Submit(draft, request) => SubmitStep(env, s, draft, request);
    case Write(draft, newId, now) => WriteStep(env, s, draft, newId, now);
    case Discard(draft) => OtherTables(env, s, s.(drafts := s.drafts - {draft}));
    case SetStatus(id, status, actor, now) => SetStatusStep(env, s, id, status, actor, now);
    case DeleteOwn(id, actor, now) => DeleteOwnStep(env, s, id, actor, now);
    case FileReport(report, id, source) => OtherTables(env, s, ApplyFileReport(s, report, id, source));
    case ResolveReport(report, dismissed, action, actor, now) =>
      ResolveStep(env, s, report, dismissed, action, actor, now);
  }

  lemma {:induction false} StoreInvHolds(env: Environment, es: seq<Event>)
    ensures StoreInv(env, After(env, es))
  {
    if es == [] {
    } else {
      StoreInvHolds(env, es[..|es| - 1]);
      StoreStep(env, After(env, es[..|es| - 1]), es[|es| - 1]);
    }
  }

  // ---------- Main results ----------

  /**
   In every reachable state the stored name, summary, legality, hash and both groups of index
   rows of a loadout are those of the evaluation of its stored payload; `deleted_at` is set
   exactly when the loadout is deleted, and a published one has `published_at`.
   */
  lemma StoredMatchesEvaluation(env: Environment, es: seq<Event>, id: Id)
    requires id in After(env, es).rows
    ensures var s := After(env, es);
      && id in s.equipment && id in s.skills
      && MatchesEvaluation(env, s.rows[id], s.equipment[id], s.skills[id])
      && DatesOk(s.rows[id])
  {
    hide MatchesEvaluation, DatesOk;
    StoreInvHolds(env, es);
    assert RowOk(env, After(env, es), id);
  }

  /** With a collision-free digest no two loadouts that are not deleted ever have the same gear. */
  lemma NoDuplicateGear(env: Environment, es: seq<Event>, a: Id, b: Id)
    requires forall x, y :: env.digest(x) == env.digest(y) ==> x == y
    requires a in After(env, es).rows && b in After(env, es).rows && a != b
    requires !After(env, es).rows[a].status.Deleted? && !After(env, es).rows[b].status.Deleted?
    ensures !Fingerprint.SameGear(After(env, es).rows[a].payload, After(env, es).rows[b].payload)
  {
    hide Evaluate, HashOf, Fingerprint.SameGear;
    StoreInvHolds(env, es);
    var s := After(env, es);
    assert RowOk(env, s, a) && RowOk(env, s, b);
    Fingerprint.FingerprintEqualIff(s.rows[a].payload, s.rows[b].payload);
  }

  lemma EvolvesTransitive(a: Row, b: Row, c: Row)
    requires RowEvolves(a, b) && RowEvolves(b, c)
    ensures RowEvolves(a, c)
  {
  }

  /**
   Between any two moments of any run: a loadout stays in the table, `published_at` never changes
   once set, the version never falls, and an unchanged version means an unchanged payload.
   */
  lemma {:induction false} RowsEvolve(env: Environment, es: seq<Event>, more: seq<Event>, id: Id)
    requires id in After(env, es).rows
    ensures id in After(env, es + more).rows
    ensures RowEvolves(After(env, es).rows[id], After(env, es + more).rows[id])
    decreases |more|
  {
    hide Apply, StoreInv;
    if more == [] {
      assert es + more == es;
    } else {
      var shorter := more[..|more| - 1];
      RowsEvolve(env, es, shorter, id);
      assert (es + more)[..|es + more| - 1] == es + shorter;
      StoreInvHolds(env, es + shorter);
      StoreStep(env, After(env, es + shorter), more[|more| - 1]);
      EvolvesTransitive(After(env, es).rows[id], After(env, es + shorter).rows[id], After(env, es + more).rows[id]);
    }
  }

  /** The event writes an update of loadout `id` that was submitted with version `v`. */
  predicate CommitsUpdate(env: Environment, s: State, e: Event, id: Id, v: int) {
    && e.Write? && e.draft in s.drafts
    && var r := s.drafts[e.draft].request;
      && r.Update? && r.id == id && r.expected == v
      && id in s.rows && Apply(env, s, e).rows != s.rows
  }

  /** Such an event needs the expected version and raises it by one. */
  lemma UpdateRaisesVersion(env: Environment, s: State, e: Event, id: Id, v: int)
    requires CommitsUpdate(env, s, e, id, v)
    ensures UpdateMatches(s.rows, id, v)
    ensures id in Apply(env, s, e).rows && Apply(env, s, e).rows[id].version == s.rows[id].version + 1
  {
    hide Evaluate, HashOf;
  }

  lemma VersionNeverFalls(a: Row, b: Row)
    requires RowEvolves(a, b)
    ensures a.version <= b.version
  {
  }

  /** Two updates of one loadout submitted with the same nonzero version never both commit. */
  lemma NoLostUpdate(env: Environment, es: seq<Event>, e1: Event, more: seq<Event>, e2: Event, id: Id, v: int)
    requires v != 0 && CommitsUpdate(env, After(env, es), e1, id, v)
    ensures !CommitsUpdate(env, After(env, es + [e1] + more), e2, id, v)
  {
    hide Apply, RowEvolves;
    var s, t := After(env, es), After(env, es + [e1]);
    assert (es + [e1])[..|es|] == es;
    UpdateRaisesVersion(env, s, e1, id, v);
    RowsEvolve(env, es + [e1], more, id);
    var u := After(env, es + [e1] + more);
    assert u.rows[id].version > v by { VersionNeverFalls(t.rows[id], u.rows[id]); }
    if CommitsUpdate(env, u, e2, id, v) {
      UpdateRaisesVersion(env, u, e2, id, v);
    }
  }

  /** A versioned update never overwrites a payload, name, remark or owner changed since that version was read. */
  lemma UpdateSeesItsVersion(env: Environment, es: seq<Event>, more: seq<Event>, e: Event, id: Id, v: int)
    requires id in After(env, es).rows && After(env, es).rows[id].version == v != 0
    requires CommitsUpdate(env, After(env, es + more), e, id, v)
    ensures var a, b := After(env, es).rows[id], After(env, es + more).rows[id];
      b.payload == a.payload && b.name == a.name && b.remark == a.remark && b.owner == a.owner
  {
    RowsEvolve(env, es, more, id);
    UpdateRaisesVersion(env, After(env, es + more), e, id, v);
  }

  /**
   The version does not guard everything: any event that changes a row raises its version by one,
   except the resolution of a report, which changes the status and leaves the version alone.
   */
  lemma ChangeRaisesVersionIff(env: Environment, s: State, e: Event, id: Id)
    requires id in s.rows && id in Apply(env, s, e).rows && Apply(env, s, e).rows[id] != s.rows[id]
    ensures Apply(env, s, e).rows[id].version == s.rows[id].version + 1 <==> !e.ResolveReport?
    ensures e.ResolveReport? ==> Apply(env, s, e).rows[id].version == s.rows[id].version
  {
    hide Evaluate, HashOf;
  }

  // ---------- What the version does not guard ----------

  /** The event resolves an open report on the loadout with an action that the unique index admits. */
  predicate Moderates(s: State, e: Event, id: Id) {
    && e.ResolveReport? && e.report in s.reports && s.reports[e.report].status.Open?
    && s.reports[e.report].loadout == id && id in s.rows
    && StatusFor(e.action).Some? && StatusAllowed(s.rows, id, StatusFor(e.action).value)
  }

  /** Such an event writes the status of its action and leaves the version and the payload alone. */
  lemma ModerationStep(env: Environment, s: State, e: Event, id: Id)
    requires Moderates(s, e, id)
    ensures id in Apply(env, s, e).rows
    ensures Apply(env, s, e).rows[id] == WithStatus(s.rows[id], StatusFor(e.action).value, e.actor, e.now)
    ensures Apply(env, s, e).rows[id].version == s.rows[id].version
  {
    hide StatusAllowed;
  }

  /** Any other resolution leaves the loadout alone. */
  lemma OtherResolution(env: Environment, s: State, e: Event, id: Id)
    requires e.ResolveReport? && id in s.rows && !Moderates(s, e, id)
    ensures id in Apply(env, s, e).rows && Apply(env, s, e).rows[id] == s.rows[id]
  {
    hide StatusAllowed, WithStatus;
  }

  /** The status that a moderator has last given the loadout in the continuation, if any has. */
  function Decision(env: Environment, es: seq<Event>, more: seq<Event>, id: Id): Option<Status> {
    if more == [] then None
    else
      var shorter, e := more[..|more| - 1], more[|more| - 1];
      if Moderates(After(env, es + shorter), e, id) then StatusFor(e.action) else Decision(env, es, shorter, id)
  }

  lemma ModeratesBy(s: State, e: Event, id: Id)
    requires Moderates(s, e, id)
    ensures e.ResolveReport? && StatusFor(e.action).Some?
  {
  }

  /** There is such a decision exactly when some event of the continuation moderates the loadout. */
  lemma {:induction false} DecisionIff(env: Environment, es: seq<Event>, more: seq<Event>, id: Id)
    ensures Decision(env, es, more, id).Some? <==>
      exists i :: 0 <= i < |more| && Moderates(After(env, es + more[..i]), more[i], id)
  {
    hide After, Moderates;
    if more == [] {
    } else {
      var n := |more| - 1;
      var shorter := more[..n];
      DecisionIff(env, es, shorter, id);
      assert forall i :: 0 <= i < n ==> shorter[..i] == more[..i];
      if i :| 0 <= i < n && Moderates(After(env, es + shorter[..i]), shorter[i], id) {
        assert Moderates(After(env, es + more[..i]), more[i], id);
      }
      if Moderates(After(env, es + shorter), more[n], id) {
        assert StatusFor(more[n].action).Some? by { ModeratesBy(After(env, es + shorter), more[n], id); }
      }
    }
  }

  /** Apart from status and dates the rows are the same. */
  predicate SameButStatus(a: Row, b: Row) {
    b.(status := a.status, publishedAt := a.publishedAt, deletedAt := a.deletedAt, updatedBy := a.updatedBy,
       updatedAt := a.updatedAt) == a
  }

  /** How the loadout looks after a moderator's decision, or the same if there was none. */
  predicate AsDecided(read: Row, row: Row, decision: Option<Status>) {
    && SameButStatus(read, row)
    && row.status == (if decision.Some? then decision.value else read.status)
    && (decision.None? ==> row == read)
  }

  lemma AsDecidedStep(env: Environment, s: State, e: Event, id: Id, read: Row, decision: Option<Status>)
    requires id in s.rows && AsDecided(read, s.rows[id], decision)
    requires id in Apply(env, s, e).rows && Apply(env, s, e).rows[id].version == s.rows[id].version
    ensures AsDecided(read, Apply(env, s, e).rows[id], if Moderates(s, e, id) then StatusFor(e.action) else decision)
  {
    hide Apply, Moderates;
    if Moderates(s, e, id) {
      ModerationStep(env, s, e, id);
      ModeratesBy(s, e, id);
    } else if e.ResolveReport? {
      OtherResolution(env, s, e, id);
    } else if Apply(env, s, e).rows[id] != s.rows[id] {
      ChangeRaisesVersionIff(env, s, e, id);
    }
  }

  /** As long as its version is that of the moment it was read, only moderators' decisions change a loadout. */
  lemma {:induction false} OnlyDecisions(env: Environment, es: seq<Event>, more: seq<Event>, id: Id)
    requires id in After(env, es).rows && id in After(env, es + more).rows
    requires After(env, es + more).rows[id].version == After(env, es).rows[id].version
    ensures AsDecided(After(env, es).rows[id], After(env, es + more).rows[id], Decision(env, es, more, id))
    decreases |more|
  {
    hide After, Apply, RowEvolves, StoreInv, Moderates;
    if more == [] {
      assert es + more == es;
    } else {
      var shorter, e := more[..|more| - 1], more[|more| - 1];
      assert es + more == es + shorter + [e];
      OneMore(env, es + shorter, e);
      RowsEvolve(env, es, shorter, id);
      RowsEvolve(env, es + shorter, [e], id);
      VersionNeverFalls(After(env, es).rows[id], After(env, es + shorter).rows[id]);
      VersionNeverFalls(After(env, es + shorter).rows[id], After(env, es + more).rows[id]);
      OnlyDecisions(env, es, shorter, id);
      AsDecidedStep(env, After(env, es + shorter), e, id, After(env, es).rows[id], Decision(env, es, shorter, id));
    }
  }

  /** The status that the event, an update, asks for. */
  function StatusAsked(s: State, e: Event): Status
    requires e.Write? && e.draft in s.drafts
  {
    s.drafts[e.draft].request.status
  }

  lemma UpdateWritesStatus(env: Environment, s: State, e: Event, id: Id, v: int)
    requires CommitsUpdate(env, s, e, id, v)
    ensures id in Apply(env, s, e).rows && Apply(env, s, e).rows[id].status == StatusAsked(s, e)
  {
    hide Evaluate, HashOf, Conflict;
  }

  /**
   An update committed with the version v read earlier replaces exactly the row that was read,
   unless a moderator has decided in between; then it replaces that row with the status of the last
   decision.  In either case it writes the status it asks for.
   */
  lemma UpdateReplacesRow(env: Environment, es: seq<Event>, more: seq<Event>, e: Event, id: Id, v: int)
    requires id in After(env, es).rows && After(env, es).rows[id].version == v != 0
    requires CommitsUpdate(env, After(env, es + more), e, id, v)
    ensures AsDecided(After(env, es).rows[id], After(env, es + more).rows[id], Decision(env, es, more, id))
    ensures (forall i :: 0 <= i < |more| ==> !Moderates(After(env, es + more[..i]), more[i], id)) ==>
      After(env, es + more).rows[id] == After(env, es).rows[id]
    ensures id in After(env, es + more + [e]).rows
    ensures After(env, es + more + [e]).rows[id].status == StatusAsked(After(env, es + more), e)
  {
    hide After, Apply, Moderates, SameButStatus;
    UpdateRaisesVersion(env, After(env, es + more), e, id, v);
    OnlyDecisions(env, es, more, id);
    DecisionIff(env, es, more, id);
    OneMore(env, es + more, e);
    UpdateWritesStatus(env, After(env, es + more), e, id, v);
  }

  /**
   Such an update undoes a moderator's decision exactly when there was one since the version was
   read and the last one gave a status other than the one the update asks for.
   */
  lemma DecisionUndoneIff(env: Environment, es: seq<Event>, more: seq<Event>, e: Event, id: Id, v: int)
    requires id in After(env, es).rows && After(env, es).rows[id].version == v != 0
    requires CommitsUpdate(env, After(env, es + more), e, id, v)
    ensures id in After(env, es + more + [e]).rows
    ensures (exists i :: 0 <= i < |more| && Moderates(After(env, es + more[..i]), more[i], id))
         && After(env, es + more + [e]).rows[id].status != After(env, es + more).rows[id].status
       <==> Decision(env, es, more, id).Some?
            && Decision(env, es, more, id).value != StatusAsked(After(env, es + more), e)
  {
    hide After, Apply, Moderates, CommitsUpdate, SameButStatus;
    UpdateReplacesRow(env, es, more, e, id, v);
    DecisionIff(env, es, more, id);
  }

  lemma Start(env: Environment)
    ensures After(env, []) == Initial()
  {
  }

  /** A submission that passes becomes a draft. */
  lemma SubmitPasses(env: Environment, s: State, draft: nat, request: Request)
    requires draft !in s.drafts && Acceptable(env, request)
    requires !Conflict(s.rows, HashOf(env, Evaluate(env.data, request.submitted, true).value), TargetOf(request))
    ensures Apply(env, s, Submit(draft, request))
         == s.(drafts := s.drafts[draft := Draft(request, Evaluate(env.data, request.submitted, true).value)])
  {
    hide Evaluate, HashOf, Conflict;
  }

  /** A draft of a new loadout that meets no conflict is inserted. */
  lemma WriteInserts(env: Environment, s: State, draft: nat, id: Id, now: Time)
    requires draft in s.drafts && s.drafts[draft].request.Create? && id !in s.rows
    requires !Conflict(s.rows, HashOf(env, s.drafts[draft].result), Some(id))
    ensures var t := Apply(env, s, Write(draft, id, now));
      && t.rows == s.rows[id := NewRow(env, s.drafts[draft], now)]
      && t.drafts == s.drafts - {draft} && t.reports == s.reports
  {
    hide HashOf, Conflict, NewRow;
  }

  /** A draft of an update that meets its version and no conflict replaces the row. */
  lemma WriteUpdates(env: Environment, s: State, draft: nat, id: Id, now: Time)
    requires draft in s.drafts && s.drafts[draft].request.Update? && s.drafts[draft].request.id == id
    requires UpdateMatches(s.rows, id, s.drafts[draft].request.expected)
    requires !Conflict(s.rows, HashOf(env, s.drafts[draft].result), Some(id))
    ensures Apply(env, s, Write(draft, id, now)).rows == s.rows[id := ChangedRow(env, s.rows[id], s.drafts[draft], now)]
  {
    hide HashOf, Conflict, ChangedRow;
  }

  lemma ReportFiled(env: Environment, s: State, report: nat, id: Id, source: int)
    requires s.reports == map[] && id in s.rows && s.rows[id].status.Published?
    ensures Apply(env, s, FileReport(report, id, source)) == s.(reports := map[report := Report(id, source, Open)])
  {
  }

  /** Resolving an open report by hiding its loadout. */
  lemma ReportHides(env: Environment, s: State, report: nat, actor: string, now: Time)
    requires report in s.reports && s.reports[report].status.Open? && s.reports[report].loadout in s.rows
    requires !Conflict(s.rows, s.rows[s.reports[report].loadout].buildHash, Some(s.reports[report].loadout))
    ensures var id := s.reports[report].loadout; var t := Apply(env, s, ResolveReport(report, false, Hide, actor, now));
      t.rows == s.rows[id := WithStatus(s.rows[id], Hidden, actor, now)] && t.drafts == s.drafts
  {
    hide Conflict, WithStatus;
  }

  /** A published loadout with an open report, at version 1. */
  lemma Reported(env: Environment, l: Loadout) returns (es: seq<Event>)
    requires Evaluate(env.data, l, true).Success?
    ensures var s := After(env, es);
      && s.rows.Keys == {0} && s.rows[0].version == 1 && s.rows[0].status.Published?
      && s.drafts == map[] && s.reports == map[0 := Report(0, 7, Open)]
  {
    hide Evaluate, HashOf, Apply, After;
    var request := Create("owner", "", l, Published, "owner");
    Start(env);
    OneMore(env, [], Submit(0, request));
    SubmitPasses(env, Initial(), 0, request);
    var a := [] + [Submit(0, request)];
    OneMore(env, a, Write(0, 0, 0));
    WriteInserts(env, After(env, a), 0, 0, 0);
    var b := a + [Write(0, 0, 0)];
    OneMore(env, b, FileReport(0, 0, 7));
    ReportFiled(env, After(env, b), 0, 0, 7);
    es := b + [FileReport(0, 0, 7)];
  }

  /**
   A versioned update prepared before a moderator hides the loadout still commits afterwards and
   publishes it again, because resolving a report leaves the version alone.
   */
  lemma ModerationOverwritten(env: Environment, l: Loadout) returns (es: seq<Event>, more: seq<Event>, e: Event)
    requires Evaluate(env.data, l, true).Success?
    ensures 0 in After(env, es).rows && After(env, es).rows[0].version == 1
    ensures 0 in After(env, es + more).rows && After(env, es + more).rows[0].status.Hidden?
    ensures CommitsUpdate(env, After(env, es + more), e, 0, 1)
    ensures 0 in After(env, es + more + [e]).rows && After(env, es + more + [e]).rows[0].status.Published?
  {
    hide Evaluate, HashOf, Apply, After;
    es := Reported(env, l);
    var s := After(env, es);
    var request := Update(0, 1, "owner", "", l, Published, "owner");
    OneMore(env, es, Submit(1, request));
    SubmitPasses(env, s, 1, request);
    var t := After(env, es + [Submit(1, request)]);
    var hiding := ResolveReport(0, false, Hide, "moderator", 1);
    OneMore(env, es + [Submit(1, request)], hiding);
    ReportHides(env, t, 0, "moderator", 1);
    more := [Submit(1, request), hiding];
    assert es + [Submit(1, request)] + [hiding] == es + more;
    var u := After(env, es + more);
    assert u.rows.Keys == {0};
    e := Write(1, 0, 2);
    OneMore(env, es + more, e);
    WriteUpdates(env, u, 1, 0, 2);
  }
}
