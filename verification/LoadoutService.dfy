/**
 The loadout handlers as an object whose fields are the tables.  Each method that changes them
 performs one committed transaction, statement by statement; what it does is the event of
 `LoadoutModel` that bears its name, so that what is proved of every run holds of every schedule
 of these methods.
 */
module LoadoutService {
  import opened Wrappers
  import opened GameData
  import opened Verdicts
  import opened Evaluation
  import opened LoadoutModel
  import opened LoadoutSafety
  import opened LoadoutSearch
  import opened LoadoutPromises
  import opened Adapter
  import Skills

  datatype SubmitResult = Drafted | RemarkTooLong | BadStatus | Invalid(error: Error) | DuplicateOf(id: Id)

  datatype WriteResult = Written(id: Id) | NotFound | DatabaseConflict

  datatype ReportResult = Filed | BadReport | TooManyReports | AlreadyOpen

  const REASONS: set<string> := {"inappropriate", "spam", "invalid_data", "infringement", "other"}
  const MAX_REPORTS := 5

  /** What the public sees of a loadout. */
  datatype View = View(id: Id, name: string, remark: string, isLegal: bool, summary: Summary,
                       payload: Option<Loadout>, publishedAt: Option<Time>)

  function ViewOf(id: Id, row: Row): View {
    View(id, row.name, row.remark, row.isLegal, row.summary, None, row.publishedAt)
  }

  /** No two index rows have the same primary key. */
  predicate DistinctKeys(result: Assessment) {
    && (forall i, j :: 0 <= i < j < |result.equipment| ==> result.equipment[i].slot != result.equipment[j].slot)
    && (forall i, j :: 0 <= i < j < |result.skills| ==> result.skills[i].tree != result.skills[j].tree)
  }

  lemma AcceptedDistinctKeys(data: Data, submitted: Loadout)
    requires Evaluate(data, submitted, true).Success?
    ensures DistinctKeys(Evaluate(data, submitted, true).value)
  {
    hide LoadoutError, AllPoints, AllTotals, AllDiagnostics, AllEquipment, SkillsOf;
    EquipmentFillsSlots(Trimmed(submitted));
    AcceptedSkillRows(data, submitted, true);
  }

  function StatusRow(row: Row, status: Status, actor: string, now: Time, raised: nat): Row {
    WithStatus(row, status, actor, now).(version := row.version + raised)
  }

  lemma SameVersion(row: Row, status: Status, actor: string, now: Time)
    ensures StatusRow(row, status, actor, now, 0) == WithStatus(row, status, actor, now)
  {
  }

  /** The views are those of the loadouts on the page, with the columns as they are stored. */
  predicate Shows(rows: map<Id, Row>, page: seq<Id>, views: seq<View>) {
    |views| == |page| && forall i :: 0 <= i < |page| ==>
      && page[i] in rows
      && var row := rows[page[i]];
        views[i] == View(page[i], row.name, row.remark, row.isLegal, row.summary, None, row.publishedAt)
  }

  class LoadoutServer {
    const env: Environment
    const game: GameAdapter
    var rows: map<Id, Row>
    var equipment: map<Id, map<Slot, (int, int)>>
    var skills: map<Id, map<int, SkillEntry>>
    var reports: map<nat, Report>
    var drafts: map<nat, Draft>

    function Snapshot(): State
      reads this
    {
      State(rows, equipment, skills, reports, drafts)
    }

    ghost predicate Valid()
      reads this
    {
      game.data == env.data && StoreInv(env, Snapshot())
    }

    constructor (env: Environment)
      ensures this.env == env && Snapshot() == Initial() && Valid()
    {
      this.env := env;
      game := new GameAdapter(env.data);
      rows, equipment, skills, reports, drafts := map[], map[], map[], map[], map[];
    }

    // ---------- Submitting ----------

    method FindDuplicate(buildHash: int, except: Option<Id>) returns (duplicate: Option<Id>)
      ensures duplicate.None? <==> !Taken(rows, buildHash, except)
      ensures duplicate.Some? ==>
        duplicate.value in rows && rows[duplicate.value].buildHash == buildHash
          && !rows[duplicate.value].status.Deleted?
        && except != duplicate
    {
      if id :| id in rows && rows[id].buildHash == buildHash && !rows[id].status.Deleted? && except != Some(id) {
        return Some(id);
      }
      return None;
    }

    /** Validation and the duplicate check, both outside the writing transaction. */
    method SubmitLoadout(draft: nat, request: Request) returns (result: SubmitResult)
      requires Valid() && draft !in drafts
      modifies this`drafts
      ensures Valid() && Snapshot() == Apply(env, old(Snapshot()), Submit(draft, request))
      ensures result.BadStatus? <==> request.status.Deleted?
      ensures result.RemarkTooLong? <==> !request.status.Deleted? && |request.remark| > 500
      ensures result.Invalid? <==>
        !request.status.Deleted? && |request.remark| <= 500 && Evaluate(env.data, request.submitted, true).Failure?
      ensures result.Invalid? ==> Evaluate(env.data, request.submitted, true) == Failure(result.error)
      ensures result.Drafted? || result.DuplicateOf? ==>
        (result.Drafted? <==>
           !Taken(rows, GearHash(env, request.submitted), if request.Update? then Some(request.id) else None))
      ensures result.Drafted? ==>
        && drafts.Keys == old(drafts).Keys + {draft} && drafts[draft].request == request
        && Evaluate(env.data, request.submitted, true) == Success(drafts[draft].result)
      ensures !result.Drafted? ==> drafts == old(drafts)
      ensures result.DuplicateOf? ==>
        && result.id in rows && rows[result.id].buildHash == GearHash(env, request.submitted)
        && rows[result.id].status != Deleted && (request.Update? ==> result.id != request.id)
    {
      hide StoreInv, Evaluate, Conflict, Taken, GearHash, Apply;
      StoreStep(env, Snapshot(), Submit(draft, request));
      SubmitCases(env, Snapshot(), draft, request);
      TakenIff(rows, GearHash(env, request.submitted), TargetOf(request));
      if Evaluate(env.data, request.submitted, true).Success? { HashIsGearHash(env, request.submitted); }
      if request.status.Deleted? {
        return BadStatus;
      }
      if |request.remark| > 500 {
        return RemarkTooLong;
      }
      var r := game.Validate(request.submitted, true);
      if r.Failure? {
        return Invalid(r.error);
      }
      var except := None;
      if request.Update? {
        except := Some(request.id);
      }
      var duplicate := FindDuplicate(env.digest(r.value.fingerprint), except);
      if duplicate.Some? {
        return DuplicateOf(duplicate.value);
      }
      drafts := drafts[draft := Draft(request, r.value)];
      return Drafted;
    }

    // ---------- Writing ----------

    method InsertEquipment(id: Id, items: seq<EquipmentRow>) returns (ok: bool)
      requires id in equipment && equipment[id] == map[]
      modifies this`equipment
      ensures ok <==> forall i, j :: 0 <= i < j < |items| ==> items[i].slot != items[j].slot
      ensures ok ==> equipment == old(equipment)[id := IndexEquipment(items)]
    {
      for i := 0 to |items|
        invariant forall j, k :: 0 <= j < k < i ==> items[j].slot != items[k].slot
        invariant equipment == old(equipment)[id := IndexEquipment(items[..i])]
      {
        EquipmentEntries(items[..i]);
        assert items[..i + 1][..i] == items[..i];
        if items[i].slot in equipment[id] {
          return false;
        }
        assert forall j :: 0 <= j < i ==> items[..i][j].slot != items[i].slot;
        equipment := equipment[id := equipment[id][items[i].slot := (items[i].saveType, items[i].saveId)]];
      }
      assert items[..|items|] == items;
      return true;
    }

    method InsertSkills(id: Id, items: seq<Skills.SkillRow>) returns (ok: bool)
      requires id in skills && skills[id] == map[]
      modifies this`skills
      ensures ok <==> forall i, j :: 0 <= i < j < |items| ==> items[i].tree != items[j].tree
      ensures ok ==> skills == old(skills)[id := IndexSkills(items)]
    {
      for i := 0 to |items|
        invariant forall j, k :: 0 <= j < k < i ==> items[j].tree != items[k].tree
        invariant skills == old(skills)[id := IndexSkills(items[..i])]
      {
        SkillEntries(items[..i]);
        assert items[..i + 1][..i] == items[..i];
        if items[i].tree in skills[id] {
          return false;
        }
        assert forall j :: 0 <= j < i ==> items[..i][j].tree != items[i].tree;
        skills := skills[id := skills[id][items[i].tree := SkillEntry(items[i].points, items[i].activeId)]];
      }
      assert items[..|items|] == items;
      return true;
    }

    /** The old index rows of a loadout are deleted and the new ones inserted; a repeated key is an error. */
    method WriteIndexes(id: Id, result: Assessment) returns (ok: bool)
      modifies this`equipment, this`skills
      ensures ok <==> DistinctKeys(result)
      ensures ok ==> equipment == old(equipment)[id := IndexEquipment(result.equipment)]
      ensures ok ==> skills == old(skills)[id := IndexSkills(result.skills)]
    {
      equipment := equipment[id := map[]];
      skills := skills[id := map[]];
      ok := InsertEquipment(id, result.equipment);
      if ok {
        ok := InsertSkills(id, result.skills);
      }
    }

    lemma DraftDistinct(draft: nat)
      requires Valid() && draft in drafts
      ensures DistinctKeys(drafts[draft].result)
    {
      var d := drafts[draft];
      assert DraftOk(env, d);
      AcceptedDistinctKeys(env.data, d.request.submitted);
    }

    /** The row and its index rows, unless the unique index over builds refuses the row. */
    method StoreRow(id: Id, row: Row, hash: int, result: Assessment) returns (stored: bool)
      requires DistinctKeys(result)
      modifies this`rows, this`equipment, this`skills
      ensures stored <==> !Taken(old(rows), hash, Some(id))
      ensures stored ==>
        && rows == old(rows)[id := row]
        && equipment == old(equipment)[id := IndexEquipment(result.equipment)]
        && skills == old(skills)[id := IndexSkills(result.skills)]
      ensures !stored ==> rows == old(rows) && equipment == old(equipment) && skills == old(skills)
    {
      hide Taken, DistinctKeys, IndexEquipment, IndexSkills;
      var duplicate := FindDuplicate(hash, Some(id));
      if duplicate.Some? {
        return false;
      }
      rows := rows[id := row];
      stored := WriteIndexes(id, result);
    }

    /** The transaction that inserts or updates the row and its index rows. */
    method WriteDraft(draft: nat, newId: Id, now: Time) returns (result: WriteResult)
      requires Valid() && draft in drafts
      modifies this
      ensures Valid() && Snapshot() == Apply(env, old(Snapshot()), Write(draft, newId, now))
      ensures drafts == old(drafts) - {draft} && reports == old(reports)
      ensures var d := old(drafts)[draft];
        var id := if d.request.Create? then newId else d.request.id;
        if d.request.Update? && !VersionFits(old(rows), id, d.request.expected) then result == NotFound
        else if (d.request.Create? && id in old(rows))
          || Taken(old(rows), env.digest(d.result.fingerprint), Some(id)) then
          result == DatabaseConflict
        else result == Written(id)
      ensures result.Written? ==>
        var d := old(drafts)[draft];
        && rows.Keys == old(rows).Keys + {result.id}
        && (forall other :: other in old(rows) && other != result.id ==> rows[other] == old(rows)[other])
        && (if d.request.Create? then CreatedRow(env, rows[result.id], d, now)
            else result.id in old(rows) && UpdatedRow(env, old(rows)[result.id], rows[result.id], d, now))
      ensures !result.Written? ==> rows == old(rows) && equipment == old(equipment) && skills == old(skills)
    {
      hide StoreInv, Evaluate, Conflict, DistinctKeys, Apply, NewRow, ChangedRow, IndexEquipment, IndexSkills;
      hide Taken, CreatedRow, UpdatedRow;
      StoreStep(env, Snapshot(), Write(draft, newId, now));
      WriteCases(env, Snapshot(), draft, newId, now);
      DraftDistinct(draft);
      var d := drafts[draft];
      drafts := drafts - {draft};
      var hash := env.digest(d.result.fingerprint);
      TakenIff(rows, hash, Some(if d.request.Create? then newId else d.request.id));
      var id := newId;
      var row := NewRow(env, d, now);
      if d.request.Create? {
        if newId in rows {
          return DatabaseConflict;
        }
      } else {
        id := d.request.id;
        if !(id in rows && !rows[id].status.Deleted?
          && (d.request.expected == 0 || rows[id].version == d.request.expected)) {
          return NotFound;
        }
        row := ChangedRow(env, rows[id], d, now);
      }
      if d.request.Create? { NewRowIs(env, d, now); } else { ChangedRowIs(env, rows[id], d, now); }
      var stored := StoreRow(id, row, hash, d.result);
      return if stored then Written(id) else DatabaseConflict;
    }

    method DiscardDraft(draft: nat)
      requires Valid()
      modifies this`drafts
      ensures Valid() && Snapshot() == Apply(env, old(Snapshot()), Discard(draft))
    {
      hide StoreInv;
      StoreStep(env, Snapshot(), Discard(draft));
      drafts := drafts - {draft};
    }

    // ---------- Status ----------

    /** The statement that sets status and dates and may raise the version; the unique index may refuse it. */
    method StatusStatement(id: Id, status: Status, actor: string, now: Time, raised: nat) returns (changed: bool)
      requires id in rows
      modifies this`rows
      ensures changed <==> StatusAllowed(old(rows), id, status)
      ensures rows == if changed
                      then old(rows)[id := StatusRow(old(rows)[id], status, actor, now, raised)]
                      else old(rows)
    {
      var row := rows[id];
      var publishedAt, deletedAt := row.publishedAt, None;
      if !status.Deleted? {
        var duplicate := FindDuplicate(row.buildHash, Some(id));
        if duplicate.Some? {
          return false;
        }
      }
      if status.Published? && publishedAt.None? {
        publishedAt := Some(now);
      }
      if status.Deleted? {
        deletedAt := Some(now);
      }
      rows := rows[id := row.(status := status, publishedAt := publishedAt, deletedAt := deletedAt, updatedBy := actor,
        updatedAt := now, version := row.version + raised)];
      return true;
    }

    method UpdateStatus(id: Id, status: Status, actor: string, now: Time) returns (result: WriteResult)
      requires Valid()
      modifies this`rows
      ensures Valid() && Snapshot() == Apply(env, old(Snapshot()), SetStatus(id, status, actor, now))
      ensures if id !in old(rows) then result == NotFound
              else if old(Refused(rows, id, status)) then result == DatabaseConflict
              else result == Written(id)
      ensures result.Written? ==>
        && rows.Keys == old(rows).Keys && StatusChanged(old(rows)[id], rows[id], status, actor, now, 1)
        && (forall other :: other in rows && other != id ==> rows[other] == old(rows)[other])
      ensures !result.Written? ==> rows == old(rows)
    {
      hide StoreInv, StatusAllowed, WithStatus, Conflict, Apply, Refused, StatusChanged;
      StoreStep(env, Snapshot(), SetStatus(id, status, actor, now));
      SetStatusCases(env, Snapshot(), id, status, actor, now);
      if id !in rows {
        return NotFound;
      }
      RefusedIff(rows, id, status);
      StatusIs(rows[id], status, actor, now);
      var changed := StatusStatement(id, status, actor, now, 1);
      return if changed then Written(id) else DatabaseConflict;
    }

    method DeleteOwnLoadout(id: Id, actor: string, now: Time) returns (found: bool)
      requires Valid()
      modifies this`rows
      ensures Valid() && Snapshot() == Apply(env, old(Snapshot()), DeleteOwn(id, actor, now))
      ensures found <==> id in old(rows) && old(rows)[id].owner == actor && old(rows)[id].status != Deleted
      ensures found ==>
        && rows.Keys == old(rows).Keys
        && rows[id] == old(rows)[id].(status := Deleted, deletedAt := Some(now), updatedBy := actor, updatedAt := now,
                                      version := old(rows)[id].version + 1)
        && (forall other :: other in rows && other != id ==> rows[other] == old(rows)[other])
      ensures !found ==> rows == old(rows)
    {
      hide StoreInv;
      StoreStep(env, Snapshot(), DeleteOwn(id, actor, now));
      found := id in rows && rows[id].owner == actor && !rows[id].status.Deleted?;
      if found {
        rows := rows[id := rows[id].(status := Deleted, deletedAt := Some(now), updatedAt := now, updatedBy := actor,
                                     version := rows[id].version + 1)];
      }
    }

    // ---------- Reports ----------

    /**
     `recent` is the number of reports that a separate statement has counted for the source in the
     last hour, 0 if it failed.
     */
    method CreateReport(report: nat, id: Id, source: int, reason: string, details: string, recent: nat)
      returns (result: ReportResult)
      requires Valid() && report !in reports
      modifies this`reports
      ensures Valid()
      ensures result.BadReport? <==> reason !in REASONS || |details| > 500
      ensures result.TooManyReports? <==> !result.BadReport? && recent >= MAX_REPORTS
      ensures result.Filed? <==> report in reports
      ensures if result.BadReport? || result.TooManyReports? then Snapshot() == old(Snapshot())
              else Snapshot() == Apply(env, old(Snapshot()), FileReport(report, id, source))
      ensures result.AlreadyOpen? <==>
        && !result.BadReport? && !result.TooManyReports?
        && (id !in rows || rows[id].status != Published
            || exists r :: r in old(reports) && old(reports)[r] == Report(id, source, Open))
      ensures result.Filed? ==> reports == old(reports)[report := Report(id, source, Open)]
      ensures !result.Filed? ==> reports == old(reports)
    {
      hide StoreInv;
      StoreStep(env, Snapshot(), FileReport(report, id, source));
      if reason !in REASONS || |details| > 500 {
        return BadReport;
      }
      if recent >= MAX_REPORTS {
        return TooManyReports;
      }
      if id !in rows || !rows[id].status.Published? {
        return AlreadyOpen;
      }
      if r :| r in reports && reports[r] == Report(id, source, Open) {
        return AlreadyOpen;
      }
      reports := reports[report := Report(id, source, Open)];
      return Filed;
    }

    method CloseReport(report: nat, dismissed: bool, action: Action, actor: string, now: Time) returns (closed: bool)
      requires Valid()
      modifies this`rows, this`reports
      ensures Valid() && Snapshot() == Apply(env, old(Snapshot()), ResolveReport(report, dismissed, action, actor, now))
      ensures !closed ==> rows == old(rows) && reports == old(reports)
      ensures closed ==>
        && report in old(reports) && old(reports)[report].status == Open
        && reports == old(reports)[report := Report(old(reports)[report].loadout, old(reports)[report].source,
                                                    if dismissed then Dismissed else Resolved)]
      ensures report in old(reports) && old(reports)[report].status == Open ==>
        forall status :: ActionGives(action, status) ==>
          Acted(old(rows), rows, old(reports)[report].loadout, status, actor, now, closed)
    {
      hide StoreInv, StatusAllowed, WithStatus, StatusRow, Conflict, StatusFor, Apply, Refused, StatusChanged;
      hide ActionGives, Acted;
      if report in reports { ActedIs(rows, reports[report].loadout, action, actor, now); }
      StoreStep(env, Snapshot(), ResolveReport(report, dismissed, action, actor, now));
      ResolveCases(env, Snapshot(), report, dismissed, action, actor, now);
      if report !in reports || !reports[report].status.Open? {
        return false;
      }
      var before := reports;
      var id := reports[report].loadout;
      reports := reports[report := reports[report].(status := if dismissed then Dismissed else Resolved)];
      var status := StatusFor(action);
      if status.Some? && id in rows {
        SameVersion(rows[id], status.value, actor, now);
        var changed := StatusStatement(id, status.value, actor, now, 0);
        if !changed {
          reports := before;
          return false;
        }
      }
      return true;
    }

    // ---------- Reading ----------

    /** One page of the public search, read from the rows and the index tables. */
    method PublicLoadouts(like: string -> bool, legalOnly: bool, items: seq<string>, actives: seq<string>,
        limitText: string)
      returns (r: Result<seq<View>, FilterError>)
      requires Valid()
      ensures r == Failure(TooManyFilters) <==> |items| > 8 || |actives| > 8
      ensures r.Success? <==> exists wantedItems, wantedActives :: Wanted(items, actives, wantedItems, wantedActives)
      ensures r.Success? ==> forall wantedItems, wantedActives :: Wanted(items, actives, wantedItems, wantedActives) ==>
        exists page: seq<Id> ::
          && IsPage(rows, PayloadMatches(env, Snapshot(), Query(like, legalOnly, wantedActives), wantedItems),
                    ParseLimit(limitText), page)
          && Shows(rows, page, r.value)
    {
      hide StoreInv, MatchesIndex, MatchesPayload, Wanted, IsPage;
      var filters := PublicLoadoutFilters(items, actives);
      if filters.Failure? {
        return Failure(filters.error);
      }
      var (keys, ids) := filters.value;
      var q := Query(like, legalOnly, ids);
      ghost var wanted :| Wanted(items, actives, wanted, ids) && Keys(wanted, keys);
      IndexIsRecomputation(env, Snapshot(), q, keys, wanted);
      var page := NewestFirst(rows, IndexMatches(Snapshot(), q, keys), ParseLimit(limitText));
      var views: seq<View> := [];
      for i := 0 to |page|
        invariant |views| == i
        invariant forall j :: 0 <= j < i ==> page[j] in rows && views[j] == ViewOf(page[j], rows[page[j]])
      {
        var row := rows[page[i]];
        views := views + [View(page[i], row.name, row.remark, row.isLegal, row.summary, None, row.publishedAt)];
      }
      forall wantedItems, wantedActives | Wanted(items, actives, wantedItems, wantedActives)
        ensures wantedItems == wanted && wantedActives == ids
      {
        WantedUnique(items, actives, wantedItems, wantedActives, wanted, ids);
      }
      assert Shows(rows, page, views);
      return Success(views);
    }

    /** The detail view: the stored summary and legality are replaced by those of a fresh evaluation. */
    method PublicLoadout(id: Id) returns (view: Option<View>)
      requires Valid()
      ensures view.Some? <==> id in rows && rows[id].status == Published
      ensures view.Some? ==>
        var row := rows[id];
        view.value == View(id, row.name, row.remark, row.isLegal, row.summary, Some(row.payload), row.publishedAt)
    {
      hide Evaluate;
      if id !in rows || !rows[id].status.Published? {
        return None;
      }
      assert RowOk(env, Snapshot(), id);
      var row := rows[id];
      var value := View(id, row.name, row.remark, row.isLegal, row.summary, Some(row.payload), row.publishedAt);
      var calculated := game.Validate(row.payload, true);
      if calculated.Success? {
        value := value.(summary := calculated.value.summary, isLegal := calculated.value.isLegal);
      }
      return Some(value);
    }

    // ---------- Schedules ----------

    method Perform(e: Event)
      requires Valid()
      modifies this
      ensures Valid() && Snapshot() == Apply(env, old(Snapshot()), e)
    {
      hide StoreInv;
      match e
      case Submit(draft, request) => if draft !in drafts { var _ := SubmitLoadout(draft, request); }
      case Write(draft, newId, now) => if draft in drafts { var _ := WriteDraft(draft, newId, now); }
      case Discard(draft) => DiscardDraft(draft);
      case SetStatus(id, status, actor, now) => var _ := UpdateStatus(id, status, actor, now);
      case DeleteOwn(id, actor, now) => var _ := DeleteOwnLoadout(id, actor, now);
      case FileReport(report, id, source) =>
        if report !in reports { var _ := CreateReport(report, id, source, "spam", "", 0); }
      case ResolveReport(report, dismissed, action, actor, now) =>
        var _ := CloseReport(report, dismissed, action, actor, now);
    }

    /** Any interleaving of requests leads to the state of the run. */
    method Run(es: seq<Event>)
      requires Valid() && Snapshot() == Initial()
      modifies this
      ensures Valid() && Snapshot() == After(env, es)
    {
      hide StoreInv, Apply;
      for i := 0 to |es|
        invariant Valid() && Snapshot() == After(env, es[..i])
      {
        Perform(es[i]);
        assert es[..i + 1][..i] == es[..i];
      }
      assert es[..|es|] == es;
    }
  }
}
