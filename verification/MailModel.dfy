/**
 The e-mail verification protocol as a step system: the two tables, the transactions of
 `Enqueue` that are in progress, the delivery workers, and one clock.  A run is any sequence
 of events; an event that is not possible in a state leaves the state unchanged.
 */
module MailModel {
  import opened Wrappers
  import opened Text

  /** A point in time, in microseconds (the resolution of PostgreSQL's timestamptz). */
  type Time = int

  const SECOND: Time := 1_000_000
  const RESEND_GAP: Time := 60 * SECOND
  const HOUR: Time := 3600 * SECOND
  const LEASE: Time := 60 * SECOND
  const CODE_LIFETIME: Time := 600 * SECOND
  const BACKOFF_UNIT: Time := 15 * SECOND
  const MAX_PER_EMAIL := 5
  const MAX_PER_SOURCE := 10
  const MAX_GUESSES := 5
  const MAX_DELIVERIES := 4

  /**
   What the protocol takes from outside: PostgreSQL's `lower`, the hash that turns a folded
   address into an advisory lock key, the keyed digest of a code, and the time the run starts.
   */
  datatype Environment = Environment(fold: string -> string, lockKey: string -> int,
                                     digest: (string, string) -> int, epoch: Time)

  // ---------- Tables ----------

  datatype ChallengeStatus = ChallengeQueued | ChallengeSent | ChallengeUsed | ChallengeFailed

  datatype Challenge = Challenge(
    purpose: string, userId: Option<string>, username: string, email: string,
    digest: int, source: int, status: ChallengeStatus, attempts: int,
    sentAt: Option<Time>, expiresAt: Option<Time>, consumedAt: Option<Time>, createdAt: Time)

  datatype Template = Template(code: string, username: string, userInfo: string)

  datatype OutboxStatus = OutboxQueued | OutboxSending | OutboxSent | OutboxFailed

  datatype OutboxRow = OutboxRow(
    challenge: Option<string>, recipient: string, payload: Option<Template>,
    status: OutboxStatus, attempts: int, nextAttemptAt: Time,
    messageId: string, lastError: string, sentAt: Option<Time>)
  {
    predicate Pending() { status.OutboxQueued? || status.OutboxSending? }
  }

  // ---------- Processes ----------

  datatype EnqueueRequest = EnqueueRequest(
    id: string, purpose: string, userId: Option<string>, username: string, email: string,
    code: string, userInfo: string, source: int)

  /** How far an `Enqueue` transaction has come, with the counts it has read. */
  datatype Phase =
    | Begun
    | Locked
    | EmailCounted(recent: nat, hourlyEmail: nat)
    | SourceCounted(recent: nat, hourlyEmail: nat, hourlySource: nat)

  /** `start` is the transaction start time, which is what `now()` returns inside it. */
  datatype Call = Call(request: EnqueueRequest, start: Time, phase: Phase)

  /** A worker between its claim and its outcome, or between the two updates of a failure. */
  datatype Worker =
    | InFlight(row: nat, challenge: string, attempts: int, claimedAt: Time)
    | FailPending(challenge: string)

  /** `code` is the provider's own error number, 0 when it gave none. */
  datatype Outcome = Accepted(messageId: string) | NotConfigured | Rejected(permanent: bool, code: int) | OtherError

  datatype Decision = RecordSent | GiveUp | Retry

  datatype State = State(
    now: Time,
    challenges: map<string, Challenge>,
    outbox: map<nat, OutboxRow>,
    locks: map<int, nat>,
    calls: map<nat, Call>,
    workers: map<nat, Worker>)

  /**
   `saved` says whether a database update whose error the program drops took effect; `start` is
   the start time of the event's own transaction; `skip` are rows locked by other claims; `row`
   is the identity value of a new outbox row.
   */
  datatype Event =
    | Tick(elapsed: nat)
    | EnqueueBegin(call: nat, request: EnqueueRequest)
    | EnqueueLock(call: nat)
    | EnqueueCountEmail(call: nat)
    | EnqueueCountSource(call: nat)
    | EnqueueCommit(call: nat, row: nat)
    | EnqueueAbort(call: nat)
    | Claim(worker: nat, start: Time, skip: set<nat>)
    | Finish(worker: nat, outcome: Outcome, start: Time, saved: bool)
    | FailChallenge(worker: nat, saved: bool)
    | Crash(worker: nat)
    | Verify(id: string, purpose: string, code: string, user: Option<string>, start: Time, saved: bool)
    | SendTest(row: nat, recipient: string, outcome: Outcome)

  // ---------- Enqueue ----------

  function KeyOf(env: Environment, request: EnqueueRequest): int {
    env.lockKey(env.fold(request.email))
  }

  /** The committed challenges for the same folded address created after `t`. */
  function CreatedAfter(env: Environment, challenges: map<string, Challenge>, folded: string, t: Time): set<string> {
    set id | id in challenges && env.fold(challenges[id].email) == folded && challenges[id].createdAt > t
  }

  function FromSource(challenges: map<string, Challenge>, source: int, t: Time): set<string> {
    set id | id in challenges && challenges[id].source == source && challenges[id].createdAt > t
  }

  function ApplyBegin(s: State, call: nat, request: EnqueueRequest): State {
    if call in s.calls then s else s.(calls := s.calls[call := Call(request, s.now, Begun)])
  }

  /** The advisory lock is granted only when no other transaction holds the key. */
  function ApplyLock(env: Environment, s: State, call: nat): State {
    if call !in s.calls || !s.calls[call].phase.Begun? || KeyOf(env, s.calls[call].request) in s.locks then s
    else s.(calls := s.calls[call := s.calls[call].(phase := Locked)],
            locks := s.locks[KeyOf(env, s.calls[call].request) := call])
  }

  function ApplyCountEmail(env: Environment, s: State, call: nat): State {
    if call !in s.calls || !s.calls[call].phase.Locked? then s
    else
      var c := s.calls[call];
      var folded := env.fold(c.request.email);
      s.(calls := s.calls[call := c.(phase := EmailCounted(
        |CreatedAfter(env, s.challenges, folded, c.start - RESEND_GAP)|,
        |CreatedAfter(env, s.challenges, folded, c.start - HOUR)|))])
  }

  function ApplyCountSource(s: State, call: nat): State {
    if call !in s.calls || !s.calls[call].phase.EmailCounted? then s
    else
      var c := s.calls[call];
      s.(calls := s.calls[call := c.(phase := SourceCounted(c.phase.recent, c.phase.hourlyEmail,
        |FromSource(s.challenges, c.request.source, c.start - HOUR)|))])
  }

  predicate RateLimited(phase: Phase)
    requires phase.SourceCounted?
  {
    phase.recent > 0 || phase.hourlyEmail >= MAX_PER_EMAIL || phase.hourlySource >= MAX_PER_SOURCE
  }

  function NewChallenge(env: Environment, r: EnqueueRequest, start: Time): Challenge {
    Challenge(r.purpose, r.userId, r.username, r.email, env.digest(r.id, r.code), r.source,
              ChallengeQueued, 0, None, None, None, start)
  }

  function NewOutboxRow(r: EnqueueRequest, start: Time): OutboxRow {
    OutboxRow(Some(r.id), r.email, Some(Template(r.code, r.username, r.userInfo)), OutboxQueued, 0, start, "", "", None)
  }

  /** The end of a transaction, committed or rolled back, gives up its advisory lock. */
  function Release(s: State, call: nat): State {
    s.(calls := s.calls - {call}, locks := map k | k in s.locks && s.locks[k] != call :: s.locks[k])
  }

  function ApplyCommit(env: Environment, s: State, call: nat, row: nat): State {
    if call !in s.calls || !s.calls[call].phase.SourceCounted? then s
    else
      var c := s.calls[call];
      if RateLimited(c.phase) || c.request.id in s.challenges || row in s.outbox then Release(s, call)
      else Release(s, call).(
        challenges := s.challenges[c.request.id := NewChallenge(env, c.request, c.start)],
        outbox := s.outbox[row := NewOutboxRow(c.request, c.start)])
  }

  // ---------- Delivery ----------

  function Eligible(outbox: map<nat, OutboxRow>, start: Time, skip: set<nat>): set<nat> {
    set r | r in outbox && outbox[r].Pending() && outbox[r].nextAttemptAt <= start && r !in skip
  }

  lemma {:induction false} LeastOf(rows: set<nat>) returns (r: nat)
    requires rows != {}
    ensures r in rows && forall q :: q in rows ==> r <= q
  {
    r :| r in rows;
    var others := rows - {r};
    assert rows == {r} + others;
    if others != {} {
      var m := LeastOf(others);
      r := if m < r then m else r;
    }
  }

  /** The row that ORDER BY id LIMIT 1 selects. */
  function Least(rows: set<nat>): (r: nat)
    requires rows != {}
    ensures r in rows && forall q :: q in rows ==> r <= q
  {
    assert exists r :: r in rows && forall q :: q in rows ==> r <= q by { var m := LeastOf(rows); }
    var r :| r in rows && forall q :: q in rows ==> r <= q;
    r
  }

  function ApplyClaim(s: State, worker: nat, start: Time, skip: set<nat>): State {
    var rows := Eligible(s.outbox, start, skip);
    if worker in s.workers || start > s.now || rows == {} then s
    else
      var r := Least(rows);
      var row := s.outbox[r];
      // A NULL challenge id cannot be scanned into a string, so the transaction is rolled back.
      if row.challenge.None? then s
      else
        var claimed := s.(outbox := s.outbox[r := row.(
          status := OutboxSending, attempts := row.attempts + 1, nextAttemptAt := start + LEASE)]);
        // Without a payload there is no nonce: opening it panics and the worker is gone.
        if row.payload.None? then claimed
        else claimed.(workers := s.workers[worker := InFlight(r, row.challenge.value, row.attempts + 1, start)])
  }

  function Decide(attempts: int, outcome: Outcome): Decision {
    if outcome.Accepted? then RecordSent
    else if attempts >= MAX_DELIVERIES || outcome.NotConfigured? || (outcome.Rejected? && outcome.permanent) then GiveUp
    else Retry
  }

  function PowerOfTwo(n: nat): nat { if n == 0 then 1 else 2 * PowerOfTwo(n - 1) }

  /** The pause after the failed delivery number `attempts`. */
  function Backoff(attempts: int): Time
    requires attempts >= 1
  {
    PowerOfTwo(attempts - 1) * BACKOFF_UNIT
  }

  function MarkRowSent(outbox: map<nat, OutboxRow>, r: nat, messageId: string, start: Time): map<nat, OutboxRow> {
    if r !in outbox then outbox
    else outbox[r := outbox[r].(status := OutboxSent, messageId := messageId, payload := None, sentAt := Some(start))]
  }

  function MarkRowFailed(outbox: map<nat, OutboxRow>, r: nat): map<nat, OutboxRow> {
    if r !in outbox then outbox
    else outbox[r := outbox[r].(status := OutboxFailed, lastError := "DELIVERY_FAILED", payload := None)]
  }

  function MarkRowRetry(outbox: map<nat, OutboxRow>, r: nat, next: Time): map<nat, OutboxRow> {
    if r !in outbox then outbox
    else outbox[r := outbox[r].(status := OutboxQueued, lastError := "DELIVERY_RETRY", nextAttemptAt := next)]
  }

  function MarkChallengeSent(challenges: map<string, Challenge>, id: string, start: Time): map<string, Challenge> {
    if id !in challenges || !challenges[id].status.ChallengeQueued? then challenges
    else challenges[id := challenges[id].(
      status := ChallengeSent, sentAt := Some(start), expiresAt := Some(start + CODE_LIFETIME))]
  }

  function MarkChallengeFailed(challenges: map<string, Challenge>, id: string): map<string, Challenge> {
    if id !in challenges || !challenges[id].status.ChallengeQueued? then challenges
    else challenges[id := challenges[id].(status := ChallengeFailed)]
  }

  predicate CanFinish(s: State, worker: nat, start: Time) {
    worker in s.workers && s.workers[worker].InFlight? && s.workers[worker].claimedAt <= start <= s.now
  }

  function ApplyFinish(s: State, worker: nat, outcome: Outcome, start: Time, saved: bool): State {
    if !CanFinish(s, worker, start) then s
    else
      var w := s.workers[worker];
      var done := s.(workers := s.workers - {worker});
      match Decide(w.attempts, outcome)
      case RecordSent =>
        if !saved then done
        else done.(outbox := MarkRowSent(s.outbox, w.row, outcome.messageId, start),
                   challenges := MarkChallengeSent(s.challenges, w.challenge, start))
      case GiveUp =>
        s.(workers := s.workers[worker := FailPending(w.challenge)],
           outbox := if saved then MarkRowFailed(s.outbox, w.row) else s.outbox)
      case Retry =>
        if !saved || w.attempts < 1 then done
        else done.(outbox := MarkRowRetry(s.outbox, w.row, start + Backoff(w.attempts)))
  }

  function ApplyFailChallenge(s: State, worker: nat, saved: bool): State {
    if worker !in s.workers || !s.workers[worker].FailPending? then s
    else s.(workers := s.workers - {worker},
            challenges := if saved then MarkChallengeFailed(s.challenges, s.workers[worker].challenge)
              else s.challenges)
  }

  /** What the record of a failed test message names as its cause. */
  function TestError(outcome: Outcome): string {
    if outcome.Rejected? && outcome.code != 0 then "AOKSEND_" + Itoa(outcome.code)
    else if outcome.NotConfigured? then "EMAIL_NOT_CONFIGURED"
    else "DELIVERY_FAILED"
  }

  function ApplySendTest(s: State, row: nat, recipient: string, outcome: Outcome): State {
    if row in s.outbox then s
    else s.(outbox := s.outbox[row :=
      if outcome.Accepted? then
        OutboxRow(None, recipient, None, OutboxSent, 1, s.now, outcome.messageId, "", Some(s.now))
      else OutboxRow(None, recipient, None, OutboxFailed, 1, s.now, "", TestError(outcome), None)])
  }

  // ---------- Verify ----------

  datatype VerifyResult = Verified(challenge: Challenge) | InvalidCode | ExpiredCode | StoreError

  predicate Addressed(s: State, id: string, purpose: string, user: Option<string>) {
    && id in s.challenges
    && s.challenges[id].purpose == purpose
    && (user.Some? ==> s.challenges[id].userId == user)
  }

  predicate Open(c: Challenge, now: Time) {
    c.status.ChallengeSent? && c.expiresAt.Some? && now <= c.expiresAt.value
  }

  /** Whether `Verify` gets as far as comparing the given code with the stored digest. */
  predicate Compares(s: State, id: string, purpose: string, user: Option<string>) {
    Addressed(s, id, purpose, user) && Open(s.challenges[id], s.now) && s.challenges[id].attempts < MAX_GUESSES
  }

  function VerifyOutcome(env: Environment, s: State, id: string, purpose: string, code: string,
                         user: Option<string>, saved: bool): VerifyResult {
    if !Addressed(s, id, purpose, user) then InvalidCode
    else if !Open(s.challenges[id], s.now) then ExpiredCode
    else if s.challenges[id].attempts >= MAX_GUESSES || s.challenges[id].digest != env.digest(id, code) then InvalidCode
    else if saved then Verified(s.challenges[id])
    else StoreError
  }

  function ApplyVerify(env: Environment, s: State, id: string, purpose: string, code: string,
                       user: Option<string>, start: Time, saved: bool): State {
    if !saved || start > s.now || !Addressed(s, id, purpose, user) || !Open(s.challenges[id], s.now) then s
    else
      var c := s.challenges[id];
      if c.attempts >= MAX_GUESSES || c.digest != env.digest(id, code) then
        s.(challenges := s.challenges[id := c.(
          attempts := c.attempts + 1,
          status := if c.attempts + 1 >= MAX_GUESSES then ChallengeFailed else ChallengeSent)])
      else
        s.(challenges := s.challenges[id := c.(status := ChallengeUsed, consumedAt := Some(start))])
  }

  // ---------- Runs ----------

  function Initial(env: Environment): State {
    State(env.epoch, map[], map[], map[], map[], map[])
  }

  function Apply(env: Environment, s: State, e: Event): State {
    match e
    case Tick(elapsed) => s.(now := s.now + elapsed)
    case EnqueueBegin(call, request) => ApplyBegin(s, call, request)
    case EnqueueLock(call) => ApplyLock(env, s, call)
    case EnqueueCountEmail(call) => ApplyCountEmail(env, s, call)
    case EnqueueCountSource(call) => ApplyCountSource(s, call)
    case EnqueueCommit(call, row) => ApplyCommit(env, s, call, row)
    case EnqueueAbort(call) => Release(s, call)
    case Claim(worker, start, skip) => ApplyClaim(s, worker, start, skip)
    case Finish(worker, outcome, start, saved) => ApplyFinish(s, worker, outcome, start, saved)
    case FailChallenge(worker, saved) => ApplyFailChallenge(s, worker, saved)
    case Crash(worker) => s.(workers := s.workers - {worker})
    case Verify(id, purpose, code, user, start, saved) => ApplyVerify(env, s, id, purpose, code, user, start, saved)
    case SendTest(row, recipient, outcome) => ApplySendTest(s, row, recipient, outcome)
  }

  /** The state after a run. */
  function After(env: Environment, es: seq<Event>): State {
    if es == [] then Initial(env) else Apply(env, After(env, es[..|es| - 1]), es[|es| - 1])
  }

  lemma OneMore(env: Environment, es: seq<Event>, e: Event)
    ensures After(env, es + [e]) == Apply(env, After(env, es), e)
  {
    assert (es + [e])[..|es|] == es;
  }
}
