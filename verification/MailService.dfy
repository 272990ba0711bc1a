/**
 The mail service as an object whose fields are the two tables and the processes at work on
 them.  Each method performs one step of the program by assignment to the fields.  `history` is
 the run so far: every method adds its event, and `Valid` says that the fields are the state that
 the run leads to.  So the theorems about runs become promises to the callers of the methods.
 */
module MailService {
  import opened Wrappers
  import opened Text
  import opened MailModel
  import opened MailEnqueue
  import opened MailChallenge
  import opened MailDelivery

  datatype EnqueueResult = Queued(id: string) | RateLimitedError | InsertError

  // ---------- What the theorems about runs say of one challenge or row ----------

  /** The challenge keeps its distance from every other of its address, and no hour holds too many of them. */
  ghost predicate WithinLimits(env: Environment, challenges: map<string, Challenge>, id: string)
    requires id in challenges
  {
    var folded := env.fold(challenges[id].email);
    && (forall other :: other in challenges && other != id && env.fold(challenges[other].email) == folded ==>
          || challenges[other].createdAt + RESEND_GAP <= challenges[id].createdAt
          || challenges[id].createdAt + RESEND_GAP <= challenges[other].createdAt)
    && (forall t :: |Window(env, challenges, folded, t)| <= MAX_PER_EMAIL)
  }

  lemma CommittedWithinLimits(env: Environment, es: seq<Event>, id: string)
    requires id in After(env, es).challenges
    ensures WithinLimits(env, After(env, es).challenges, id)
  {
    hide After;
    var challenges := After(env, es).challenges;
    forall other | other in challenges && other != id
      && env.fold(challenges[other].email) == env.fold(challenges[id].email)
      ensures || challenges[other].createdAt + RESEND_GAP <= challenges[id].createdAt
              || challenges[id].createdAt + RESEND_GAP <= challenges[other].createdAt
    {
      RequestsSpaced(env, es, other, id);
    }
    forall t ensures |Window(env, challenges, env.fold(challenges[id].email), t)| <= MAX_PER_EMAIL {
      HourlyLimitHolds(env, es, env.fold(challenges[id].email), t);
    }
  }

  /** The call is past its lock. */
  predicate PastLock(s: State, call: nat) { call in s.calls && !s.calls[call].phase.Begun? }

  lemma OneHolder(env: Environment, es: seq<Event>, c: nat, d: nat)
    requires PastLock(After(env, es), c) && PastLock(After(env, es), d)
    requires KeyOf(env, After(env, es).calls[c].request) == KeyOf(env, After(env, es).calls[d].request)
    ensures c == d
  {
    EnqueueInvHolds(env, es);
    assert HoldsLock(env, After(env, es), c) && HoldsLock(env, After(env, es), d);
  }

  /** No other worker is at work on the row, and it has not been claimed too often. */
  ghost predicate ClaimedAlone(env: Environment, es: seq<Event>, worker: nat, r: nat) {
    && (forall w :: WorksOn(After(env, es), w, r) ==> w == worker)
    && r in After(env, es).outbox
    && After(env, es).outbox[r].attempts <= MAX_DELIVERIES + TrailOf(env, es, r).lost
  }

  lemma ClaimIsAlone(env: Environment, es: seq<Event>, worker: nat, r: nat)
    requires LeaseKept(env, es) && WorksOn(After(env, es), worker, r)
    ensures ClaimedAlone(env, es, worker, r)
  {
    hide After, TrailOf, LeaseKept;
    var s := After(env, es);
    forall w | WorksOn(s, w, r) ensures w == worker {
      OneWorkerPerRow(env, es, w, worker, r);
    }
    OneWorkerPerRow(env, es, worker, worker, r);
    DeliveriesBounded(env, es, r);
  }

  /** The lease was kept up to the event before the last. */
  lemma LeaseBefore(env: Environment, es: seq<Event>, e: Event)
    requires LeaseKept(env, es + [e])
    ensures LeaseKept(env, es) && LeaseHolds(After(env, es))
  {
    LeasePrefix(env, es + [e], |es|);
    assert (es + [e])[..|es|] == es;
  }

  lemma LeaseKeepsFinalRows(env: Environment, es: seq<Event>, e: Event)
    requires LeaseKept(env, es + [e])
    ensures FinalRowsKept(After(env, es), Apply(env, After(env, es), e))
  {
    hide After, Apply, LeaseKept, FinalRowsKept, DeliveryInv;
    LeaseBefore(env, es, e);
    DeliveryInvHolds(env, es);
    DeliveryStep(env, After(env, es), e);
  }

  lemma WorkerIsDone(s: State, worker: nat, outcome: Outcome, start: Time, saved: bool)
    ensures CanFinish(s, worker, start) ==>
      forall r :: !WorksOn(ApplyFinish(s, worker, outcome, start, saved), worker, r)
  {
  }

  /** The success of a guess, told from the run before it. */
  ghost predicate RightlyVerified(env: Environment, es: seq<Event>, e: Event, id: string) {
    var s := After(env, es);
    && id in s.challenges && e.Verify?
    && s.challenges[id].digest == env.digest(id, e.code)
    && s.challenges[id].sentAt.Some? && AcceptanceRecorded(env, es, id, s.challenges[id].sentAt.value)
    && s.challenges[id].sentAt.value <= s.now <= s.challenges[id].sentAt.value + CODE_LIFETIME
    && Count(env, es, id).successes == 0 && Count(env, es + [e], id).successes == 1
  }

  lemma SuccessIsRight(env: Environment, es: seq<Event>, e: Event, id: string)
    requires IsSuccess(env, After(env, es), e, id)
    ensures RightlyVerified(env, es, e, id)
  {
    hide After, AcceptanceRecorded;
    SuccessFollowsAcceptance(env, es, e, id);
    assert (es + [e])[..|es|] == es;
    GuessesBounded(env, es + [e], id);
  }

  lemma VerifiedIsRight(
    env: Environment, es: seq<Event>, id: string, purpose: string, code: string, user: Option<string>, start: Time,
    saved: bool)
    requires VerifyOutcome(env, After(env, es), id, purpose, code, user, saved).Verified? && start <= After(env, es).now
    ensures var s := After(env, es); var t := ApplyVerify(env, s, id, purpose, code, user, start, saved);
      && RightlyVerified(env, es, Verify(id, purpose, code, user, start, saved), id)
      && id in s.challenges
      && VerifyOutcome(env, s, id, purpose, code, user, saved).challenge == s.challenges[id]
      && id in t.challenges && t.challenges[id].status.ChallengeUsed?
  {
    hide After, RightlyVerified;
    SuccessIsRight(env, es, Verify(id, purpose, code, user, start, saved), id);
  }

  lemma FinalChallengesKept(env: Environment, es: seq<Event>, e: Event)
    ensures AllEvolve(After(env, es).challenges, Apply(env, After(env, es), e).challenges)
  {
    hide After, Apply, ChallengeInv, AllEvolve;
    ChallengeInvHolds(env, es);
    ChallengeStep(env, After(env, es), e);
  }

  lemma AttemptsInRange(env: Environment, es: seq<Event>, id: string)
    ensures id in After(env, es).challenges ==> 0 <= After(env, es).challenges[id].attempts <= MAX_GUESSES
  {
    GuessesBounded(env, es, id);
  }

  // ---------- What callers are promised, spelled out ----------

  /** The address has a challenge of the last minute or five of the last hour, or the source's count was ten. */
  ghost predicate Refused(env: Environment, challenges: map<string, Challenge>, c: Call)
    requires c.phase.SourceCounted?
  {
    var folded := env.fold(c.request.email);
    || (exists id :: id in challenges && env.fold(challenges[id].email) == folded
                     && challenges[id].createdAt > c.start - 60 * SECOND)
    || |set id | id in challenges && env.fold(challenges[id].email) == folded
                 && challenges[id].createdAt > c.start - 3600 * SECOND| >= 5
    || c.phase.hourlySource >= 10
  }

  lemma CountIs(env: Environment, challenges: map<string, Challenge>, folded: string, start: Time)
    ensures |CreatedAfter(env, challenges, folded, start - RESEND_GAP)| > 0 <==>
      exists id :: id in challenges && env.fold(challenges[id].email) == folded
                   && challenges[id].createdAt > start - 60 * SECOND
    ensures |CreatedAfter(env, challenges, folded, start - HOUR)|
      == |set id | id in challenges && env.fold(challenges[id].email) == folded
                   && challenges[id].createdAt > start - 3600 * SECOND|
  {
    var recent := CreatedAfter(env, challenges, folded, start - RESEND_GAP);
    if |recent| > 0 {
      var id :| id in recent;
    }
    if id :| id in challenges && env.fold(challenges[id].email) == folded
             && challenges[id].createdAt > start - 60 * SECOND {
      assert id in recent;
    }
  }

  lemma RefusedIff(env: Environment, es: seq<Event>, call: nat)
    requires call in After(env, es).calls && After(env, es).calls[call].phase.SourceCounted?
    ensures RateLimited(After(env, es).calls[call].phase)
       <==> Refused(env, After(env, es).challenges, After(env, es).calls[call])
  {
    hide After;
    EnqueueInvHolds(env, es);
    var s := After(env, es);
    var c := s.calls[call];
    assert CountsCurrent(env, s.challenges, c);
    CountIs(env, s.challenges, env.fold(c.request.email), c.start);
  }

  /** A new challenge with its outbox row: the mail goes to the address and carries the code that was hashed. */
  predicate QueuedAs(env: Environment, r: EnqueueRequest, start: Time, c: Challenge, row: OutboxRow) {
    && c.purpose == r.purpose && c.userId == r.userId && c.username == r.username && c.email == r.email
    && c.digest == env.digest(r.id, r.code) && c.source == r.source
    && c.status.ChallengeQueued? && c.attempts == 0 && c.createdAt == start
    && c.sentAt.None? && c.expiresAt.None? && c.consumedAt.None?
    && row.challenge == Some(r.id) && row.recipient == r.email
    && row.payload.Some? && row.payload.value.code == r.code && row.payload.value.username == r.username
    && row.payload.value.userInfo == r.userInfo
    && row.status.OutboxQueued? && row.attempts == 0 && row.nextAttemptAt == start && row.sentAt.None?
  }

  /** A row that may be claimed: queued or sending, due, and not locked by another claim. */
  predicate Due(outbox: map<nat, OutboxRow>, r: nat, start: Time, skip: set<nat>) {
    && r in outbox && (outbox[r].status.OutboxQueued? || outbox[r].status.OutboxSending?)
    && outbox[r].nextAttemptAt <= start && r !in skip
  }

  /** The least due row is now `sending` for a minute, with one more attempt, in the hands of the worker. */
  predicate ClaimedAs(before: State, after: State, worker: nat, start: Time, skip: set<nat>, r: nat) {
    && Due(before.outbox, r, start, skip) && (forall q :: Due(before.outbox, q, start, skip) ==> r <= q)
    && after.outbox.Keys == before.outbox.Keys
    && after.outbox[r] == before.outbox[r].(status := OutboxSending, attempts := before.outbox[r].attempts + 1,
                                            nextAttemptAt := start + 60 * SECOND)
    && (forall q :: q in before.outbox && q != r ==> after.outbox[q] == before.outbox[q])
    && worker in after.workers && before.outbox[r].challenge.Some?
    && after.workers[worker] == InFlight(r, before.outbox[r].challenge.value, before.outbox[r].attempts + 1, start)
  }

  lemma ClaimGives(s: State, worker: nat, start: Time, skip: set<nat>)
    requires worker !in s.workers && worker in ApplyClaim(s, worker, start, skip).workers
    ensures var t := ApplyClaim(s, worker, start, skip);
      t.workers[worker].InFlight? && ClaimedAs(s, t, worker, start, skip, t.workers[worker].row)
  {
    var rows := Eligible(s.outbox, start, skip);
    var r := Least(rows);
    forall q | Due(s.outbox, q, start, skip) ensures r <= q { assert q in rows; }
    assert ClaimedAs(s, ApplyClaim(s, worker, start, skip), worker, start, skip, r);
  }

  lemma NoneWithoutDue(s: State, worker: nat, start: Time, skip: set<nat>)
    requires worker !in s.workers
    ensures worker in ApplyClaim(s, worker, start, skip).workers ==> exists r :: Due(s.outbox, r, start, skip)
  {
    if worker in ApplyClaim(s, worker, start, skip).workers {
      assert Due(s.outbox, Least(Eligible(s.outbox, start, skip)), start, skip);
    }
  }

  /** With the lease a due row never goes unclaimed by a free worker. */
  lemma DueIsClaimed(env: Environment, es: seq<Event>, worker: nat, start: Time, skip: set<nat>, r: nat)
    requires LeaseKept(env, es) && Due(After(env, es).outbox, r, start, skip)
    requires worker !in After(env, es).workers && start <= After(env, es).now
    ensures worker in ApplyClaim(After(env, es), worker, start, skip).workers
  {
    hide After, LeaseKept;
    var s := After(env, es);
    var rows := Eligible(s.outbox, start, skip);
    assert r in rows;
    OneWorkerPerRow(env, es, worker, worker, Least(rows));
  }

  /** What a claim promises in the state that the run leads to. */
  ghost predicate ClaimKept(env: Environment, es: seq<Event>, worker: nat, start: Time, skip: set<nat>) {
    var s, e := After(env, es), Claim(worker, start, skip);
    var t := ApplyClaim(s, worker, start, skip);
    && (worker !in s.workers && worker in t.workers ==>
          t.workers[worker].InFlight? && ClaimedAs(s, t, worker, start, skip, t.workers[worker].row)
          && (LeaseKept(env, es + [e]) ==> ClaimedAlone(env, es + [e], worker, t.workers[worker].row)))
    && (LeaseKept(env, es + [e]) && worker !in s.workers && start <= s.now ==>
          (worker !in t.workers <==> forall r :: !Due(s.outbox, r, start, skip)))
  }

  lemma ClaimIsKept(env: Environment, es: seq<Event>, worker: nat, start: Time, skip: set<nat>)
    ensures ClaimKept(env, es, worker, start, skip)
  {
    hide After, ClaimedAlone, LeaseKept, ClaimedAs, Due, ApplyClaim;
    var s, e := After(env, es), Claim(worker, start, skip);
    OneMore(env, es, e);
    if worker !in s.workers {
      NoneWithoutDue(s, worker, start, skip);
      if worker in ApplyClaim(s, worker, start, skip).workers {
        ClaimGives(s, worker, start, skip);
        if LeaseKept(env, es + [e]) {
          ClaimIsAlone(env, es + [e], worker, ApplyClaim(s, worker, start, skip).workers[worker].row);
        }
      }
    }
    if LeaseKept(env, es + [e]) {
      LeaseBefore(env, es, e);
      forall r | Due(s.outbox, r, start, skip) && worker !in s.workers && start <= s.now
        ensures worker in ApplyClaim(s, worker, start, skip).workers
      {
        DueIsClaimed(env, es, worker, start, skip, r);
      }
    }
  }

  /** How long the row waits after its failed delivery number `attempts`. */
  function Pause(attempts: int): Time {
    if attempts == 1 then 15 * SECOND else if attempts == 2 then 30 * SECOND else 60 * SECOND
  }

  lemma PauseIs(attempts: int)
    requires 1 <= attempts <= 3
    ensures Backoff(attempts) == Pause(attempts)
  {
    GapValues();
    assert attempts == 1 || attempts == 2 || attempts == 3;
    assert Backoff(attempts) == Gap(attempts);
  }

  /** The provider took the mail: row and challenge are sent, the payload is gone, the code lives ten minutes. */
  predicate RecordedSent(before: State, after: State, w: Worker, messageId: string, start: Time)
    requires w.InFlight? && w.row in before.outbox
  {
    && w.row in after.outbox
    && after.outbox[w.row] == before.outbox[w.row].(status := OutboxSent, messageId := messageId, payload := None,
                                                    sentAt := Some(start))
    && (w.challenge in before.challenges && before.challenges[w.challenge].status.ChallengeQueued? ==>
          w.challenge in after.challenges
          && after.challenges[w.challenge]
             == before.challenges[w.challenge].(status := ChallengeSent, sentAt := Some(start),
                                                expiresAt := Some(start + 600 * SECOND)))
  }

  /** The mail is given up: the row is failed without its payload, the challenge is still to be failed. */
  predicate RecordedFailed(before: State, after: State, worker: nat, w: Worker)
    requires w.InFlight? && w.row in before.outbox
  {
    && w.row in after.outbox
    && after.outbox[w.row]
         == before.outbox[w.row].(status := OutboxFailed, lastError := "DELIVERY_FAILED", payload := None)
    && after.challenges == before.challenges
    && worker in after.workers && after.workers[worker] == FailPending(w.challenge)
  }

  /** The mail is to be tried again after a pause. */
  predicate RecordedRetry(before: State, after: State, w: Worker, start: Time)
    requires w.InFlight? && w.row in before.outbox
  {
    && w.row in after.outbox
    && after.outbox[w.row] == before.outbox[w.row].(status := OutboxQueued, lastError := "DELIVERY_RETRY",
                                                    nextAttemptAt := start + Pause(w.attempts))
    && after.challenges == before.challenges
  }

  /** A refusal for good, a missing configuration or a fourth failure ends the attempts. */
  predicate Hopeless(w: Worker, outcome: Outcome)
    requires w.InFlight?
  {
    outcome.NotConfigured? || (outcome.Rejected? && outcome.permanent) || w.attempts >= 4
  }

  ghost predicate OutcomeRecorded(before: State, after: State, worker: nat, outcome: Outcome, start: Time,
      saved: bool) {
    worker in before.workers && before.workers[worker].InFlight?
      && before.workers[worker].claimedAt <= start <= before.now
    && before.workers[worker].row in before.outbox ==>
      var w := before.workers[worker];
      if outcome.Accepted? then worker !in after.workers
        && (saved ==> RecordedSent(before, after, w, outcome.messageId, start))
      else if Hopeless(w, outcome) then
        worker in after.workers && after.workers[worker] == FailPending(w.challenge)
        && (saved ==> RecordedFailed(before, after, worker, w))
      else worker !in after.workers && (saved && w.attempts >= 1 ==> RecordedRetry(before, after, w, start))
  }

  lemma FinishRecords(s: State, worker: nat, outcome: Outcome, start: Time, saved: bool)
    ensures OutcomeRecorded(s, ApplyFinish(s, worker, outcome, start, saved), worker, outcome, start, saved)
  {
    hide Backoff, Pause;
    if CanFinish(s, worker, start) && 1 <= s.workers[worker].attempts <= 3 { PauseIs(s.workers[worker].attempts); }
  }

  /** The challenge was asked for with this purpose and, if a user is given, for this user. */
  predicate Meant(challenges: map<string, Challenge>, id: string, purpose: string, user: Option<string>) {
    id in challenges && challenges[id].purpose == purpose && (user.Some? ==> challenges[id].userId == user)
  }

  /** The challenge's mail was sent and its code has not expired. */
  predicate InTime(c: Challenge, now: Time) {
    c.status == ChallengeSent && c.expiresAt.Some? && now <= c.expiresAt.value
  }

  /** Every outcome of a guess, on the table as it was. */
  ghost predicate Judged(
    env: Environment, before: State, after: map<string, Challenge>, id: string, purpose: string, code: string,
    user: Option<string>, start: Time, saved: bool, result: VerifyResult) {
    var challenges := before.challenges;
    if !Meant(challenges, id, purpose, user) then result == InvalidCode && after == challenges
    else if !InTime(challenges[id], before.now) then result == ExpiredCode && after == challenges
    else if challenges[id].digest != env.digest(id, code) then
      var attempts := challenges[id].attempts + 1;
      && result == InvalidCode
      && after == (if !saved then challenges
                   else if attempts == 5
                   then challenges[id := challenges[id].(attempts := 5, status := ChallengeFailed)]
                   else challenges[id := challenges[id].(attempts := attempts)])
    else
      && result == (if saved then Verified(challenges[id]) else StoreError)
      && after == (if saved
                   then challenges[id := challenges[id].(status := ChallengeUsed, consumedAt := Some(start))]
                   else challenges)
  }

  lemma SameStatus(c: Challenge)
    requires c.status.ChallengeSent?
    ensures forall n :: c.(attempts := n, status := ChallengeSent) == c.(attempts := n)
  {
  }

  lemma GuessIsJudged(
    env: Environment, es: seq<Event>, id: string, purpose: string, code: string, user: Option<string>, start: Time,
    saved: bool)
    requires start <= After(env, es).now
    ensures var s := After(env, es);
      Judged(env, s, ApplyVerify(env, s, id, purpose, code, user, start, saved).challenges, id, purpose, code, user,
             start, saved, VerifyOutcome(env, s, id, purpose, code, user, saved))
  {
    hide After;
    ChallengeInvHolds(env, es);
    var s := After(env, es);
    if id in s.challenges {
      assert WellFormed(s.challenges[id], s.now);
      if s.challenges[id].status.ChallengeSent? { SameStatus(s.challenges[id]); }
    }
  }

  // ---------- The object ----------

  class Service {
    const env: Environment
    var now: Time
    var challenges: map<string, Challenge>
    var outbox: map<nat, OutboxRow>
    var locks: map<int, nat>
    var calls: map<nat, Call>
    var workers: map<nat, Worker>
    ghost var history: seq<Event>

    ghost function Snapshot(): State
      reads this
    {
      State(now, challenges, outbox, locks, calls, workers)
    }

    ghost predicate Valid()
      reads this
    {
      Snapshot() == After(env, history)
    }

    constructor (env: Environment)
      ensures Valid() && this.env == env && history == []
    {
      this.env := env;
      now := env.epoch;
      challenges, outbox, locks, calls, workers := map[], map[], map[], map[], map[];
      history := [];
    }

    method Advance(elapsed: nat)
      requires Valid()
      modifies this`now, this`history
      ensures Valid() && history == old(history) + [Tick(elapsed)]
      ensures now == old(now) + elapsed
    {
      hide After;
      OneMore(env, history, Tick(elapsed));
      history := history + [Tick(elapsed)];
      now := now + elapsed;
    }

    // ---------- Enqueue ----------

    method Begin(call: nat, request: EnqueueRequest)
      requires Valid()
      modifies this`calls, this`history
      ensures Valid() && history == old(history) + [EnqueueBegin(call, request)]
      ensures call !in old(calls) ==> call in calls && calls[call].request == request && calls[call].start == now
    {
      hide After;
      OneMore(env, history, EnqueueBegin(call, request));
      history := history + [EnqueueBegin(call, request)];
      if call !in calls {
        calls := calls[call := Call(request, now, Begun)];
      }
    }

    /** The lock is granted when its key is free, and then no other call for the same key is past its lock. */
    method Lock(call: nat) returns (granted: bool)
      requires Valid()
      modifies this`calls, this`locks, this`history
      ensures Valid() && history == old(history) + [EnqueueLock(call)]
      ensures granted <==> old(call in calls && calls[call].phase.Begun? && KeyOf(env, calls[call].request) !in locks)
      ensures granted ==> PastLock(Snapshot(), call)
      ensures granted ==> forall other ::
        PastLock(Snapshot(), other) && KeyOf(env, calls[other].request) == KeyOf(env, calls[call].request) ==>
          other == call
    {
      hide After, KeyOf;
      OneMore(env, history, EnqueueLock(call));
      history := history + [EnqueueLock(call)];
      granted := false;
      if call in calls && calls[call].phase.Begun? {
        var key := KeyOf(env, calls[call].request);
        if key !in locks {
          locks := locks[key := call];
          calls := calls[call := calls[call].(phase := Locked)];
          granted := true;
          forall other | PastLock(Snapshot(), other)
            && KeyOf(env, calls[other].request) == KeyOf(env, calls[call].request)
            ensures other == call
          {
            OneHolder(env, history, other, call);
          }
        }
      }
    }

    method CountEmail(call: nat)
      requires Valid()
      modifies this`calls, this`history
      ensures Valid() && history == old(history) + [EnqueueCountEmail(call)]
      ensures forall c :: c in old(calls) && c != call ==> c in calls && calls[c] == old(calls)[c]
      ensures old(call in calls && calls[call].phase.Locked?) ==>
        call in calls && calls[call].phase.EmailCounted?
        && calls[call] == old(calls)[call].(phase := calls[call].phase)
    {
      hide After;
      OneMore(env, history, EnqueueCountEmail(call));
      history := history + [EnqueueCountEmail(call)];
      if call in calls && calls[call].phase.Locked? {
        var c := calls[call];
        var folded := env.fold(c.request.email);
        var recent := |CreatedAfter(env, challenges, folded, c.start - RESEND_GAP)|;
        var hourlyEmail := |CreatedAfter(env, challenges, folded, c.start - HOUR)|;
        calls := calls[call := c.(phase := EmailCounted(recent, hourlyEmail))];
      }
    }

    method CountSource(call: nat)
      requires Valid()
      modifies this`calls, this`history
      ensures Valid() && history == old(history) + [EnqueueCountSource(call)]
      ensures old(call in calls && calls[call].phase.EmailCounted?) ==>
        call in calls && calls[call].phase.SourceCounted?
        && calls[call] == old(calls)[call].(phase := calls[call].phase)
        && calls[call].phase.hourlySource
           == |set id | id in challenges && challenges[id].source == calls[call].request.source
                        && challenges[id].createdAt > calls[call].start - 3600 * SECOND|
    {
      hide After;
      OneMore(env, history, EnqueueCountSource(call));
      history := history + [EnqueueCountSource(call)];
      if call in calls && calls[call].phase.EmailCounted? {
        var c := calls[call];
        var hourlySource := |FromSource(challenges, c.request.source, c.start - HOUR)|;
        calls := calls[call := c.(phase := SourceCounted(c.phase.recent, c.phase.hourlyEmail, hourlySource))];
      }
    }

    /** The end of a transaction: its advisory lock becomes free. */
    method EndCall(call: nat)
      modifies this`calls, this`locks
      ensures calls == old(calls) - {call}
      ensures locks == map k | k in old(locks) && old(locks)[k] != call :: old(locks)[k]
    {
      calls := calls - {call};
      locks := map k | k in locks && locks[k] != call :: locks[k];
    }

    method Abort(call: nat)
      requires Valid()
      modifies this`calls, this`locks, this`history
      ensures Valid() && history == old(history) + [EnqueueAbort(call)]
      ensures calls == old(calls) - {call}
      ensures forall k :: k in locks <==> k in old(locks) && old(locks)[k] != call
    {
      hide After;
      OneMore(env, history, EnqueueAbort(call));
      history := history + [EnqueueAbort(call)];
      EndCall(call);
    }

    /**
     A queued challenge is at least a minute from any other of its address, and every hour holds at
     most five of them; a refused request leaves both tables alone.
     */
    method Commit(call: nat, row: nat) returns (result: EnqueueResult)
      requires Valid() && call in calls && calls[call].phase.SourceCounted?
      modifies this
      ensures Valid() && history == old(history) + [EnqueueCommit(call, row)]
      ensures call !in calls && forall k :: k in locks ==> locks[k] != call
      ensures result.RateLimitedError? <==> old(Refused(env, challenges, calls[call]))
      ensures result.InsertError? <==>
        !result.RateLimitedError? && old(calls[call].request.id in challenges || row in outbox)
      ensures result.Queued? ==>
        && result.id == old(calls[call].request.id)
        && challenges.Keys == old(challenges).Keys + {result.id} && outbox.Keys == old(outbox).Keys + {row}
        && QueuedAs(env, old(calls[call].request), old(calls[call].start), challenges[result.id], outbox[row])
        && (forall id :: id in old(challenges) ==> challenges[id] == old(challenges)[id])
        && (forall r :: r in old(outbox) ==> outbox[r] == old(outbox)[r])
        && WithinLimits(env, challenges, result.id)
      ensures !result.Queued? ==> challenges == old(challenges) && outbox == old(outbox)
    {
      hide After, WithinLimits, RateLimited, Refused;
      RefusedIff(env, history, call);
      OneMore(env, history, EnqueueCommit(call, row));
      history := history + [EnqueueCommit(call, row)];
      var c := calls[call];
      EndCall(call);
      if RateLimited(c.phase) {
        return RateLimitedError;
      }
      if c.request.id in challenges || row in outbox {
        return InsertError;
      }
      challenges := challenges[c.request.id := NewChallenge(env, c.request, c.start)];
      outbox := outbox[row := NewOutboxRow(c.request, c.start)];
      CommittedWithinLimits(env, history, c.request.id);
      return Queued(c.request.id);
    }

    // ---------- Delivery ----------

    /** The claim itself; the result is the row, unless its payload or challenge is missing. */
    method TakeRow(worker: nat, start: Time, skip: set<nat>) returns (claimed: Option<nat>)
      modifies this`outbox, this`workers
      ensures Snapshot() == ApplyClaim(old(Snapshot()), worker, start, skip)
      ensures claimed.Some? <==> worker !in old(workers) && worker in workers
      ensures claimed.Some? ==> workers[worker].InFlight? && workers[worker].row == claimed.value
      ensures claimed.None? ==> workers == old(workers)
    {
      claimed := None;
      var rows := Eligible(outbox, start, skip);
      if worker !in workers && start <= now && rows != {} {
        var r := Least(rows);
        var row := outbox[r];
        if row.challenge.Some? {
          var attempts := row.attempts + 1;
          outbox := outbox[r := row.(status := OutboxSending, attempts := attempts, nextAttemptAt := start + LEASE)];
          if row.payload.Some? {
            workers := workers[worker := InFlight(r, row.challenge.value, attempts, start)];
            claimed := Some(r);
          }
        }
      }
    }

    /**
     The first transaction of `deliverOne`; the result is the row now in the worker's hands.  As long
     as every worker has kept its lease, no other worker is at work on the row.
     */
    method ClaimRow(worker: nat, start: Time, skip: set<nat>) returns (claimed: Option<nat>)
      requires Valid()
      modifies this`outbox, this`workers, this`history
      ensures Valid() && history == old(history) + [Claim(worker, start, skip)]
      ensures claimed.Some? ==>
        ClaimedAs(old(Snapshot()), Snapshot(), worker, start, skip, claimed.value)
          && WorksOn(Snapshot(), worker, claimed.value)
      ensures LeaseKept(env, history) && worker !in old(workers) && start <= now ==>
        (claimed.None? <==> forall r :: !Due(old(outbox), r, start, skip))
      ensures claimed.Some? && LeaseKept(env, history) ==> ClaimedAlone(env, history, worker, claimed.value)
      ensures claimed.None? ==> workers == old(workers)
    {
      hide After, ClaimedAlone, LeaseKept, ClaimedAs, Due, ApplyClaim;
      ghost var e := Claim(worker, start, skip);
      OneMore(env, history, e);
      ClaimIsKept(env, history, worker, start, skip);
      history := history + [e];
      claimed := TakeRow(worker, start, skip);
    }

    /** The updates that the outcome and the attempts select, up to the second failure update. */
    method SaveOutcome(worker: nat, outcome: Outcome, start: Time, saved: bool)
      modifies this`outbox, this`challenges, this`workers
      ensures Snapshot() == ApplyFinish(old(Snapshot()), worker, outcome, start, saved)
    {
      hide Backoff, MarkRowSent, MarkRowFailed, MarkRowRetry, MarkChallengeSent;
      if !(worker in workers && workers[worker].InFlight? && workers[worker].claimedAt <= start <= now) {
        return;
      }
      var w := workers[worker];
      if outcome.Accepted? {
        workers := workers - {worker};
        if saved {
          outbox := MarkRowSent(outbox, w.row, outcome.messageId, start);
          challenges := MarkChallengeSent(challenges, w.challenge, start);
        }
      } else if w.attempts >= MAX_DELIVERIES || outcome.NotConfigured? || (outcome.Rejected? && outcome.permanent) {
        if saved {
          outbox := MarkRowFailed(outbox, w.row);
        }
        workers := workers[worker := FailPending(w.challenge)];
      } else {
        workers := workers - {worker};
        if saved && w.attempts >= 1 {
          outbox := MarkRowRetry(outbox, w.row, start + Backoff(w.attempts));
        }
      }
    }

    /**
     The rest of `deliverOne` once the provider has answered.  With the lease no finished row is
     written again; even without it no used or failed challenge changes.
     */
    method FinishDelivery(worker: nat, outcome: Outcome, start: Time, saved: bool)
      requires Valid()
      modifies this`outbox, this`challenges, this`workers, this`history
      ensures Valid() && history == old(history) + [Finish(worker, outcome, start, saved)]
      ensures LeaseKept(env, history) ==> FinalRowsKept(old(Snapshot()), Snapshot())
      ensures AllEvolve(old(challenges), challenges)
      ensures old(CanFinish(Snapshot(), worker, start)) ==> forall r :: !WorksOn(Snapshot(), worker, r)
      ensures OutcomeRecorded(old(Snapshot()), Snapshot(), worker, outcome, start, saved)
    {
      hide After, LeaseKept, FinalRowsKept, AllEvolve, ApplyFinish, CanFinish, WorksOn, OutcomeRecorded;
      FinishRecords(Snapshot(), worker, outcome, start, saved);
      ghost var e := Finish(worker, outcome, start, saved);
      OneMore(env, history, e);
      FinalChallengesKept(env, history, e);
      if LeaseKept(env, history + [e]) {
        LeaseKeepsFinalRows(env, history, e);
      }
      WorkerIsDone(Snapshot(), worker, outcome, start, saved);
      history := history + [e];
      SaveOutcome(worker, outcome, start, saved);
    }

    /** The second update of a final failure reaches only a challenge that was never sent. */
    method FailChallengeOf(worker: nat, saved: bool)
      requires Valid()
      modifies this`challenges, this`workers, this`history
      ensures Valid() && history == old(history) + [FailChallenge(worker, saved)]
      ensures challenges.Keys == old(challenges).Keys
      ensures forall id :: id in challenges && challenges[id] != old(challenges)[id] ==>
        challenges[id] == old(challenges)[id].(status := ChallengeFailed) && old(challenges)[id].status.ChallengeQueued?
      ensures saved && worker in old(workers) && old(workers)[worker].FailPending? ==>
        var id := old(workers)[worker].challenge; id in challenges ==> !challenges[id].status.ChallengeQueued?
    {
      hide After;
      OneMore(env, history, FailChallenge(worker, saved));
      history := history + [FailChallenge(worker, saved)];
      if worker in workers && workers[worker].FailPending? {
        if saved {
          challenges := MarkChallengeFailed(challenges, workers[worker].challenge);
        }
        workers := workers - {worker};
      }
    }

    method CrashWorker(worker: nat)
      requires Valid()
      modifies this`workers, this`history
      ensures Valid() && history == old(history) + [Crash(worker)]
      ensures worker !in workers
    {
      hide After;
      OneMore(env, history, Crash(worker));
      history := history + [Crash(worker)];
      workers := workers - {worker};
    }

    /** The record of a test message is finished from the start, so that no worker ever claims it. */
    method RecordTest(row: nat, recipient: string, outcome: Outcome)
      requires Valid() && row !in outbox
      modifies this`outbox, this`history
      ensures Valid() && history == old(history) + [SendTest(row, recipient, outcome)]
      ensures outbox.Keys == old(outbox).Keys + {row}
      ensures !outbox[row].Pending() && outbox[row].payload.None? && outbox[row].challenge.None?
      ensures outbox[row].status.OutboxSent? <==> outcome.Accepted?
      ensures outbox[row].recipient == recipient && outbox[row].attempts == 1
      ensures outbox[row].sentAt == (if outcome.Accepted? then Some(now) else None)
      ensures outcome.Accepted? ==> outbox[row].messageId == outcome.messageId && outbox[row].lastError == ""
      ensures outcome.Rejected? && outcome.code != 0 ==> outbox[row].lastError == "AOKSEND_" + Itoa(outcome.code)
      ensures outcome.NotConfigured? ==> outbox[row].lastError == "EMAIL_NOT_CONFIGURED"
      ensures outcome.OtherError? || (outcome.Rejected? && outcome.code == 0) ==>
        outbox[row].lastError == "DELIVERY_FAILED"
    {
      hide After;
      OneMore(env, history, SendTest(row, recipient, outcome));
      history := history + [SendTest(row, recipient, outcome)];
      var status, messageId, lastError, sentAt := OutboxSent, "", "", Some(now);
      if outcome.Accepted? {
        messageId := outcome.messageId;
      } else {
        status, lastError, sentAt := OutboxFailed, "DELIVERY_FAILED", None;
        if outcome.Rejected? && outcome.code != 0 {
          lastError := "AOKSEND_" + Itoa(outcome.code);
        } else if outcome.NotConfigured? {
          lastError := "EMAIL_NOT_CONFIGURED";
        }
      }
      outbox := outbox[row := OutboxRow(None, recipient, None, status, 1, now, messageId, lastError, sentAt)];
    }

    // ---------- Verify ----------

    /** The transaction of `Verify`. */
    method Guess(id: string, purpose: string, code: string, user: Option<string>, start: Time, saved: bool)
      returns (result: VerifyResult)
      requires start <= now
      modifies this`challenges
      ensures Snapshot() == ApplyVerify(env, old(Snapshot()), id, purpose, code, user, start, saved)
      ensures result == VerifyOutcome(env, old(Snapshot()), id, purpose, code, user, saved)
    {
      if id !in challenges {
        return InvalidCode;
      }
      var challenge := challenges[id];
      if challenge.purpose != purpose
        || (user.Some? && (challenge.userId.None? || challenge.userId.value != user.value)) {
        return InvalidCode;
      }
      if !challenge.status.ChallengeSent? || challenge.expiresAt.None? || now > challenge.expiresAt.value {
        return ExpiredCode;
      }
      if challenge.attempts >= MAX_GUESSES || challenge.digest != env.digest(id, code) {
        var attempts := challenge.attempts + 1;
        var newStatus := ChallengeSent;
        if attempts >= MAX_GUESSES {
          newStatus := ChallengeFailed;
        }
        if saved {
          challenges := challenges[id := challenge.(attempts := attempts, status := newStatus)];
        }
        return InvalidCode;
      }
      if !saved {
        return StoreError;
      }
      challenges := challenges[id := challenge.(status := ChallengeUsed, consumedAt := Some(start))];
      return Verified(challenge);
    }

    /**
     A guess is right only with the stored digest, only once, and at most ten minutes after an
     acceptance that the run has recorded.
     */
    method VerifyCode(id: string, purpose: string, code: string, user: Option<string>, start: Time, saved: bool)
      returns (result: VerifyResult)
      requires Valid() && start <= now
      modifies this`challenges, this`history
      ensures Valid() && history == old(history) + [Verify(id, purpose, code, user, start, saved)]
      ensures Judged(env, old(Snapshot()), challenges, id, purpose, code, user, start, saved, result)
      ensures result.Verified? ==>
        && RightlyVerified(env, old(history), Verify(id, purpose, code, user, start, saved), id)
        && result.challenge == old(challenges)[id] && id in challenges && challenges[id].status.ChallengeUsed?
      ensures AllEvolve(old(challenges), challenges)
      ensures id in challenges ==> 0 <= challenges[id].attempts <= MAX_GUESSES
    {
      hide After, RightlyVerified, AllEvolve, ApplyVerify, VerifyOutcome, Judged;
      ghost var before, e := history, Verify(id, purpose, code, user, start, saved);
      OneMore(env, history, e);
      FinalChallengesKept(env, history, e);
      AttemptsInRange(env, history + [e], id);
      GuessIsJudged(env, history, id, purpose, code, user, start, saved);
      if VerifyOutcome(env, Snapshot(), id, purpose, code, user, saved).Verified? {
        VerifiedIsRight(env, history, id, purpose, code, user, start, saved);
      }
      history := history + [e];
      result := Guess(id, purpose, code, user, start, saved);
    }

    // ---------- Schedules ----------

    /** Any step that is possible; the others leave the service alone. */
    method Perform(e: Event)
      requires Valid()
      modifies this
      ensures Valid() && Snapshot() == Apply(env, old(Snapshot()), e)
    {
      match e
      case Tick(elapsed) => Advance(elapsed);
      case EnqueueBegin(call, request) => Begin(call, request);
      case EnqueueLock(call) => var _ := Lock(call);
      case EnqueueCountEmail(call) => CountEmail(call);
      case EnqueueCountSource(call) => CountSource(call);
      case EnqueueCommit(call, row) =>
        if call in calls && calls[call].phase.SourceCounted? { var _ := Commit(call, row); }
      case EnqueueAbort(call) => Abort(call);
      case Claim(worker, start, skip) => var _ := ClaimRow(worker, start, skip);
      case Finish(worker, outcome, start, saved) => FinishDelivery(worker, outcome, start, saved);
      case FailChallenge(worker, saved) => FailChallengeOf(worker, saved);
      case Crash(worker) => CrashWorker(worker);
      case Verify(id, purpose, code, user, start, saved) =>
        if start <= now { var _ := VerifyCode(id, purpose, code, user, start, saved); }
      case SendTest(row, recipient, outcome) =>
        if row !in outbox { RecordTest(row, recipient, outcome); }
    }

    /** Any interleaving of callers, workers and the clock leads to the state of the run. */
    method Run(es: seq<Event>)
      requires Valid() && history == []
      modifies this
      ensures Valid() && Snapshot() == After(env, es)
    {
      hide Apply;
      for i := 0 to |es|
        invariant Valid() && Snapshot() == After(env, es[..i])
      {
        Perform(es[i]);
        assert es[..i + 1][..i] == es[..i];
      }
      assert es[..|es|] == es;
    }
  }
}
