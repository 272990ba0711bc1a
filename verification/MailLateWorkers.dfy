/** What goes wrong in the outbox without the lease assumption, and exactly when. */
module MailLateWorkers {
  import opened Wrappers
  import opened MailModel
  import opened MailDelivery

  // ---------- Steps that write other rows ----------

  lemma ClaimLeavesFinal(s: State, worker: nat, start: Time, skip: set<nat>, r: nat)
    requires r in s.outbox && !s.outbox[r].Pending()
    ensures var t := ApplyClaim(s, worker, start, skip); r in t.outbox && t.outbox[r] == s.outbox[r]
  {
  }

  lemma InsertLeaves(env: Environment, s: State, call: nat, row: nat, r: nat)
    requires r in s.outbox
    ensures var t := ApplyCommit(env, s, call, row); r in t.outbox && t.outbox[r] == s.outbox[r]
  {
  }

  lemma TestLeaves(s: State, row: nat, recipient: string, outcome: Outcome, r: nat)
    requires r in s.outbox
    ensures var t := ApplySendTest(s, row, recipient, outcome); r in t.outbox && t.outbox[r] == s.outbox[r]
  {
  }

  lemma CommitLeavesWorkers(env: Environment, s: State, call: nat, row: nat)
    ensures ApplyCommit(env, s, call, row).workers == s.workers
  {
  }

  lemma TestLeavesWorkers(s: State, row: nat, recipient: string, outcome: Outcome)
    ensures ApplySendTest(s, row, recipient, outcome).workers == s.workers
  {
  }

  // ---------- When a finished row changes ----------

  /** What the update of an outcome writes over a row, whatever its status. */
  function RowWritten(row: OutboxRow, attempts: int, outcome: Outcome, start: Time): OutboxRow {
    match Decide(attempts, outcome)
    case RecordSent =>
      row.(status := OutboxSent, messageId := outcome.messageId, payload := None, sentAt := Some(start))
    case GiveUp => row.(status := OutboxFailed, lastError := "DELIVERY_FAILED", payload := None)
    case Retry =>
      if attempts < 1 then row
      else row.(status := OutboxQueued, lastError := "DELIVERY_RETRY", nextAttemptAt := start + Backoff(attempts))
  }

  /** The event saves the outcome of a worker that is still working on the row. */
  predicate SavesOutcome(s: State, e: Event, r: nat) {
    e.Finish? && e.saved && CanFinish(s, e.worker, e.start) && WorksOn(s, e.worker, r)
  }

  /** Such an outcome writes something else over the row than what is there. */
  predicate Overwrites(s: State, e: Event, r: nat) {
    && r in s.outbox && SavesOutcome(s, e, r)
    && RowWritten(s.outbox[r], s.workers[e.worker].attempts, e.outcome, e.start) != s.outbox[r]
  }

  lemma OutcomeWrites(s: State, e: Event, r: nat)
    requires e.Finish? && r in s.outbox
    ensures var t := ApplyFinish(s, e.worker, e.outcome, e.start, e.saved);
      && r in t.outbox
      && t.outbox[r] == if SavesOutcome(s, e, r)
                        then RowWritten(s.outbox[r], s.workers[e.worker].attempts, e.outcome, e.start)
                        else s.outbox[r]
  {
    hide Backoff;
  }

  /**
   In every state, reachable or not, an event changes a finished row exactly when it saves the
   outcome of a worker still working on it and the branch of that outcome writes something else.
   */
  lemma FinalRowChangedIff(env: Environment, s: State, e: Event, r: nat)
    requires r in s.outbox && !s.outbox[r].Pending()
    ensures r in Apply(env, s, e).outbox
    ensures Apply(env, s, e).outbox[r] == if SavesOutcome(s, e, r)
                                          then RowWritten(s.outbox[r], s.workers[e.worker].attempts, e.outcome, e.start)
                                          else s.outbox[r]
    ensures Apply(env, s, e).outbox[r] != s.outbox[r] <==> Overwrites(s, e, r)
  {
    hide ApplyClaim, ApplyFinish, ApplyCommit, ApplySendTest, RowWritten;
    if Quiet(e) {
      QuietEvent(env, s, e);
    } else {
      match e
      case Claim(worker, start, skip) => ClaimLeavesFinal(s, worker, start, skip, r);
      case Finish(_, _, _, _) => OutcomeWrites(s, e, r);
      case EnqueueCommit(call, row) => InsertLeaves(env, s, call, row, r);
      case SendTest(row, recipient, outcome) => TestLeaves(s, row, recipient, outcome, r);
      case Crash(_) =>
    }
  }

  /** A finished row becomes pending exactly through a retry. */
  lemma FinalRowRevivedIff(env: Environment, s: State, e: Event, r: nat)
    requires r in s.outbox && !s.outbox[r].Pending()
    ensures r in Apply(env, s, e).outbox
    ensures Apply(env, s, e).outbox[r].Pending() <==>
      && SavesOutcome(s, e, r)
      && s.workers[e.worker].attempts >= 1 && Decide(s.workers[e.worker].attempts, e.outcome).Retry?
  {
    hide Apply, SavesOutcome, Decide;
    FinalRowChangedIff(env, s, e, r);
  }

  // ---------- Whole runs ----------

  predicate RowIs(s: State, r: nat, row: OutboxRow) { r in s.outbox && s.outbox[r] == row }

  /** The row is there at each moment of the continuation as it was at its start. */
  ghost predicate RowStays(env: Environment, es: seq<Event>, more: seq<Event>, r: nat) {
    r in After(env, es).outbox
    && forall n :: 0 <= n <= |more| ==> RowIs(After(env, es + more[..n]), r, After(env, es).outbox[r])
  }

  lemma NextMoment(env: Environment, es: seq<Event>, more: seq<Event>, n: nat)
    requires n < |more|
    ensures After(env, es + more[..n + 1]) == Apply(env, After(env, es + more[..n]), more[n])
  {
    assert es + more[..n + 1] == es + more[..n] + [more[n]];
    OneMore(env, es + more[..n], more[n]);
  }

  lemma {:induction false} RowStaysUpTo(env: Environment, es: seq<Event>, more: seq<Event>, r: nat, n: nat)
    requires r in After(env, es).outbox && !After(env, es).outbox[r].Pending() && n <= |more|
    requires forall i :: 0 <= i < |more| ==> !Overwrites(After(env, es + more[..i]), more[i], r)
    ensures RowIs(After(env, es + more[..n]), r, After(env, es).outbox[r])
  {
    hide After, Apply, SavesOutcome, Overwrites;
    if n == 0 {
      assert es + more[..0] == es;
    } else {
      RowStaysUpTo(env, es, more, r, n - 1);
      NextMoment(env, es, more, n - 1);
      FinalRowChangedIff(env, After(env, es + more[..n - 1]), more[n - 1], r);
    }
  }

  /**
   In any continuation of any run, with or without the lease, a finished row stays exactly if no event overwrites
   it.
   */
  lemma FinalRowsStayIff(env: Environment, es: seq<Event>, more: seq<Event>, r: nat)
    requires r in After(env, es).outbox && !After(env, es).outbox[r].Pending()
    ensures RowStays(env, es, more, r) <==>
      forall i :: 0 <= i < |more| ==> !Overwrites(After(env, es + more[..i]), more[i], r)
  {
    hide After, Apply, SavesOutcome, Overwrites;
    if RowStays(env, es, more, r) {
      forall i | 0 <= i < |more| ensures !Overwrites(After(env, es + more[..i]), more[i], r) {
        assert RowIs(After(env, es + more[..i]), r, After(env, es).outbox[r]);
        assert RowIs(After(env, es + more[..i + 1]), r, After(env, es).outbox[r]);
        NextMoment(env, es, more, i);
        FinalRowChangedIff(env, After(env, es + more[..i]), more[i], r);
      }
    }
    if forall i :: 0 <= i < |more| ==> !Overwrites(After(env, es + more[..i]), more[i], r) {
      forall n | 0 <= n <= |more| ensures RowIs(After(env, es + more[..n]), r, After(env, es).outbox[r]) {
        RowStaysUpTo(env, es, more, r, n);
      }
    }
  }

  // ---------- Rows without a payload ----------

  /** A pending row whose payload is gone: what a late retry leaves behind. */
  predicate Poisoned(s: State, r: nat) {
    r in s.outbox && s.outbox[r].Pending() && s.outbox[r].payload.None? && s.outbox[r].challenge.Some?
  }

  lemma ClaimKeepsPoisoned(s: State, worker: nat, start: Time, skip: set<nat>, r: nat)
    requires Poisoned(s, r)
    ensures var t := ApplyClaim(s, worker, start, skip);
      Poisoned(t, r) && forall w :: WorksOn(t, w, r) ==> WorksOn(s, w, r)
  {
  }

  lemma FinishKeepsWorkers(s: State, worker: nat, outcome: Outcome, start: Time, saved: bool, r: nat)
    ensures forall w :: WorksOn(ApplyFinish(s, worker, outcome, start, saved), w, r) ==> WorksOn(s, w, r)
  {
  }

  /** A claim of such a row ends its worker, so that only a worker from before can ever finish it. */
  lemma PoisonedStep(env: Environment, s: State, e: Event, r: nat)
    requires Poisoned(s, r) && !SavesOutcome(s, e, r)
    ensures Poisoned(Apply(env, s, e), r)
    ensures forall w :: WorksOn(Apply(env, s, e), w, r) ==> WorksOn(s, w, r)
  {
    hide ApplyClaim, ApplyFinish, ApplyCommit, ApplySendTest;
    if Quiet(e) {
      QuietEvent(env, s, e);
    } else {
      match e
      case Claim(worker, start, skip) => ClaimKeepsPoisoned(s, worker, start, skip, r);
      case Finish(worker, outcome, start, saved) =>
        OutcomeWrites(s, e, r);
        FinishKeepsWorkers(s, worker, outcome, start, saved, r);
      case EnqueueCommit(call, row) =>
        InsertLeaves(env, s, call, row, r);
        CommitLeavesWorkers(env, s, call, row);
      case SendTest(row, recipient, outcome) =>
        TestLeaves(s, row, recipient, outcome, r);
        TestLeavesWorkers(s, row, recipient, outcome);
      case Crash(_) =>
    }
  }

  /**
   In every continuation such a row stays pending and is never delivered, as long as no worker that
   worked on it before saves its outcome; and without such a worker it stays so for ever.
   */
  lemma {:induction false} PoisonedStays(env: Environment, es: seq<Event>, more: seq<Event>, r: nat)
    requires Poisoned(After(env, es), r)
    requires || (forall i :: 0 <= i < |more| ==> !SavesOutcome(After(env, es + more[..i]), more[i], r))
             || (forall w :: !WorksOn(After(env, es), w, r))
    ensures Poisoned(After(env, es + more), r)
    ensures forall w :: WorksOn(After(env, es + more), w, r) ==> WorksOn(After(env, es), w, r)
    decreases |more|
  {
    hide After, Apply, Poisoned, WorksOn;
    if more == [] {
      assert es + more == es;
    } else {
      var n := |more| - 1;
      assert forall i :: 0 <= i < n ==> more[..n][..i] == more[..i];
      PoisonedStays(env, es, more[..n], r);
      assert more[..n + 1] == more;
      NextMoment(env, es, more, n);
      assert !SavesOutcome(After(env, es + more[..n]), more[n], r);
      PoisonedStep(env, After(env, es + more[..n]), more[n], r);
    }
  }

  // ---------- A run without the lease ----------

  /** One `Enqueue` that holds its lock and has read both counts, alone in the system. */
  lemma FirstCounts(env: Environment, request: EnqueueRequest) returns (es: seq<Event>)
    ensures After(env, es) == State(env.epoch, map[], map[], map[KeyOf(env, request) := 0],
                                    map[0 := Call(request, env.epoch, SourceCounted(0, 0, 0))], map[])
  {
    var key := KeyOf(env, request);
    var a := [] + [EnqueueBegin(0, request)];
    OneMore(env, [], EnqueueBegin(0, request));
    assert After(env, a) == State(env.epoch, map[], map[], map[], map[0 := Call(request, env.epoch, Begun)], map[]);
    var b := a + [EnqueueLock(0)];
    OneMore(env, a, EnqueueLock(0));
    assert After(env, b) == State(env.epoch, map[], map[], map[key := 0], map[0 := Call(request, env.epoch, Locked)],
      map[]);
    var c := b + [EnqueueCountEmail(0)];
    OneMore(env, b, EnqueueCountEmail(0));
    assert CreatedAfter(env, map[], env.fold(request.email), env.epoch - RESEND_GAP) == {};
    assert CreatedAfter(env, map[], env.fold(request.email), env.epoch - HOUR) == {};
    assert After(env, c).calls == map[0 := Call(request, env.epoch, EmailCounted(0, 0))];
    es := c + [EnqueueCountSource(0)];
    OneMore(env, c, EnqueueCountSource(0));
    assert FromSource(map[], request.source, env.epoch - HOUR) == {};
    assert After(env, es).calls == map[0 := Call(request, env.epoch, SourceCounted(0, 0, 0))];
  }

  /** The same request committed and claimed: row 0 is being sent by worker 0 since the epoch. */
  lemma FirstClaim(env: Environment, request: EnqueueRequest) returns (es: seq<Event>)
    ensures var s := After(env, es);
      && s.now == env.epoch
      && s.outbox == map[0 := NewOutboxRow(request, env.epoch).(status := OutboxSending, attempts := 1,
           nextAttemptAt := env.epoch + LEASE)]
      && s.workers == map[0 := InFlight(0, request.id, 1, env.epoch)]
  {
    hide After;
    var a := FirstCounts(env, request);
    var b := a + [EnqueueCommit(0, 0)];
    OneMore(env, a, EnqueueCommit(0, 0));
    assert After(env, b) == ApplyCommit(env, After(env, a), 0, 0);
    assert After(env, b).outbox == map[0 := NewOutboxRow(request, env.epoch)];
    es := b + [Claim(0, env.epoch, {})];
    OneMore(env, b, Claim(0, env.epoch, {}));
    assert Eligible(After(env, b).outbox, env.epoch, {}) == {0};
    assert Least({0}) == 0;
  }

  /**
   A row that one worker has sent while another, whose lease has run out, still works on it.
   */
  lemma SentWhileLate(env: Environment, request: EnqueueRequest) returns (es: seq<Event>)
    ensures var s := After(env, es); var later := env.epoch + LEASE;
      && 0 in s.outbox && s.outbox[0].status.OutboxSent? && s.outbox[0].payload.None?
      && s.outbox[0].challenge == Some(request.id)
      && s.workers == map[0 := InFlight(0, request.id, 1, env.epoch)] && s.now == later
  {
    hide After;
    var a := FirstClaim(env, request);
    var b := a + [Tick(LEASE)];
    OneMore(env, a, Tick(LEASE));
    var later := env.epoch + LEASE;
    var c := b + [Claim(1, later, {})];
    OneMore(env, b, Claim(1, later, {}));
    assert Eligible(After(env, b).outbox, later, {}) == {0};
    assert Least({0}) == 0;
    es := c + [Finish(1, Accepted("id"), later, true)];
    OneMore(env, c, Finish(1, Accepted("id"), later, true));
  }

  /** The late worker's outcome replaces the record of the delivery. */
  lemma LateOutcome(env: Environment, es: seq<Event>, id: string, outcome: Outcome)
    requires var s := After(env, es);
      0 in s.outbox && s.workers == map[0 := InFlight(0, id, 1, env.epoch)] && s.now == env.epoch + LEASE
    ensures var s := After(env, es + [Finish(0, outcome, env.epoch + LEASE, true)]);
      0 in s.outbox && s.outbox[0] == RowWritten(After(env, es).outbox[0], 1, outcome, env.epoch + LEASE)
  {
    hide After, ApplyFinish, RowWritten;
    var e := Finish(0, outcome, env.epoch + LEASE, true);
    OneMore(env, es, e);
    OutcomeWrites(After(env, es), e, 0);
  }

  /**
   A worker that outlives its lease can put a row that another worker has sent back into the
   queue, without its payload: the assumption in `FinalRowsStay` cannot be dropped.
   */
  lemma LeaseNeeded(env: Environment, request: EnqueueRequest) returns (es: seq<Event>, more: seq<Event>)
    ensures 0 in After(env, es).outbox && After(env, es).outbox[0].status.OutboxSent?
    ensures 0 in After(env, es + more).outbox
    ensures After(env, es + more).outbox[0].status.OutboxQueued? && Poisoned(After(env, es + more), 0)
  {
    hide After;
    es := SentWhileLate(env, request);
    more := [Finish(0, OtherError, env.epoch + LEASE, true)];
    LateOutcome(env, es, request.id, OtherError);
  }

  /** Such a worker can also turn the record of a delivery into that of a failure. */
  lemma LateFailure(env: Environment, request: EnqueueRequest) returns (es: seq<Event>, more: seq<Event>)
    ensures 0 in After(env, es).outbox && After(env, es).outbox[0].status.OutboxSent?
    ensures 0 in After(env, es + more).outbox && After(env, es + more).outbox[0].status.OutboxFailed?
  {
    hide After;
    es := SentWhileLate(env, request);
    more := [Finish(0, Rejected(true, 0), env.epoch + LEASE, true)];
    LateOutcome(env, es, request.id, Rejected(true, 0));
  }
}
