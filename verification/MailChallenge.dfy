/**
 The life of one challenge over every run, with no assumption about workers: late and
 overlapping deliveries are allowed.
 */
module MailChallenge {
  import opened Wrappers
  import opened MailModel

  predicate SentColumns(c: Challenge, now: Time) {
    c.sentAt.Some? && c.sentAt.value <= now && c.expiresAt == Some(c.sentAt.value + CODE_LIFETIME)
  }

  /** What the columns of a challenge say about one another. */
  predicate WellFormed(c: Challenge, now: Time) {
    match c.status
    case ChallengeQueued => c.sentAt.None? && c.expiresAt.None? && c.consumedAt.None? && c.attempts == 0
    case ChallengeSent => SentColumns(c, now) && c.consumedAt.None? && 0 <= c.attempts < MAX_GUESSES
    case ChallengeUsed => SentColumns(c, now) && c.consumedAt.Some? && 0 <= c.attempts < MAX_GUESSES
    case ChallengeFailed =>
      && c.consumedAt.None?
      && ((c.sentAt.None? && c.expiresAt.None? && c.attempts == 0)
           || (SentColumns(c, now) && c.attempts == MAX_GUESSES))
  }

  predicate ChallengeInv(s: State) {
    forall id :: id in s.challenges ==> WellFormed(s.challenges[id], s.now)
  }

  predicate Final(c: Challenge) { c.status.ChallengeUsed? || c.status.ChallengeFailed? }

  /** One event: queued -> sent, queued -> failed, sent -> used, sent -> failed, or no move. */
  predicate Moves(a: ChallengeStatus, b: ChallengeStatus) {
    a == b || (a.ChallengeQueued? && (b.ChallengeSent? || b.ChallengeFailed?))
           || (a.ChallengeSent? && (b.ChallengeUsed? || b.ChallengeFailed?))
  }

  /** What any number of moves can lead to. */
  predicate Reaches(a: ChallengeStatus, b: ChallengeStatus) {
    a == b || a.ChallengeQueued? || (a.ChallengeSent? && !b.ChallengeQueued?)
  }

  /** How a challenge may look at a later moment of the same run. */
  predicate Evolves(c: Challenge, d: Challenge) {
    && d.(status := c.status, attempts := c.attempts, sentAt := c.sentAt, expiresAt := c.expiresAt,
         consumedAt := c.consumedAt) == c
    && Reaches(c.status, d.status)
    && (c.sentAt.Some? ==> d.sentAt == c.sentAt && d.expiresAt == c.expiresAt)
    && c.attempts <= d.attempts
    && (Final(c) ==> d == c)
  }

  predicate AllEvolve(a: map<string, Challenge>, b: map<string, Challenge>) {
    forall id :: id in a ==> id in b && Evolves(a[id], b[id]) && Moves(a[id].status, b[id].status)
  }

  lemma FinishEvolves(s: State, worker: nat, outcome: Outcome, start: Time, saved: bool)
    requires ChallengeInv(s)
    ensures var t := ApplyFinish(s, worker, outcome, start, saved);
      ChallengeInv(t) && AllEvolve(s.challenges, t.challenges)
  {
    var t := ApplyFinish(s, worker, outcome, start, saved);
    forall id | id in s.challenges
      ensures id in t.challenges && WellFormed(t.challenges[id], t.now)
      ensures Evolves(s.challenges[id], t.challenges[id]) && Moves(s.challenges[id].status, t.challenges[id].status)
    {
      assert WellFormed(s.challenges[id], s.now);
    }
  }

  lemma FailChallengeEvolves(s: State, worker: nat, saved: bool)
    requires ChallengeInv(s)
    ensures var t := ApplyFailChallenge(s, worker, saved);
      ChallengeInv(t) && AllEvolve(s.challenges, t.challenges)
  {
    var t := ApplyFailChallenge(s, worker, saved);
    forall id | id in s.challenges
      ensures id in t.challenges && WellFormed(t.challenges[id], t.now)
      ensures Evolves(s.challenges[id], t.challenges[id]) && Moves(s.challenges[id].status, t.challenges[id].status)
    {
      assert WellFormed(s.challenges[id], s.now);
    }
  }

  /** A saved comparison uses the challenge, or counts the guess and fails the challenge at the fifth. */
  lemma GuessEvolves(c: Challenge, d: Challenge, now: Time, start: Time)
    requires WellFormed(c, now) && c.status.ChallengeSent?
    requires var wrong := if c.attempts + 1 >= MAX_GUESSES then ChallengeFailed else ChallengeSent;
      || d == c.(attempts := c.attempts + 1, status := wrong)
      || (d == c.(status := ChallengeUsed, consumedAt := Some(start)) && c.attempts < MAX_GUESSES)
    ensures Evolves(c, d) && Moves(c.status, d.status) && WellFormed(d, now)
  {
  }

  lemma PutEvolves(s: State, t: State, id: string)
    requires ChallengeInv(s) && id in s.challenges && id in t.challenges
    requires t.challenges == s.challenges[id := t.challenges[id]] && t.now == s.now
    requires var c, d := s.challenges[id], t.challenges[id];
      Evolves(c, d) && Moves(c.status, d.status) && WellFormed(d, t.now)
    ensures ChallengeInv(t) && AllEvolve(s.challenges, t.challenges)
  {
    hide WellFormed;
  }

  lemma SameChallenges(s: State, t: State)
    requires ChallengeInv(s) && t.challenges == s.challenges && t.now == s.now
    ensures ChallengeInv(t) && AllEvolve(s.challenges, t.challenges)
  {
  }

  lemma VerifyEvolves(env: Environment, s: State, id: string, purpose: string, code: string,
                      user: Option<string>, start: Time, saved: bool)
    requires ChallengeInv(s)
    ensures var t := ApplyVerify(env, s, id, purpose, code, user, start, saved);
      ChallengeInv(t) && AllEvolve(s.challenges, t.challenges)
  {
    hide Evolves, Moves, WellFormed, AllEvolve;
    var t := ApplyVerify(env, s, id, purpose, code, user, start, saved);
    if t.challenges == s.challenges {
      SameChallenges(s, t);
    } else {
      assert WellFormed(s.challenges[id], s.now);
      GuessEvolves(s.challenges[id], t.challenges[id], s.now, start);
      PutEvolves(s, t, id);
    }
  }

  lemma CommitEvolves(env: Environment, s: State, call: nat, row: nat)
    requires ChallengeInv(s)
    ensures var t := ApplyCommit(env, s, call, row);
      ChallengeInv(t) && AllEvolve(s.challenges, t.challenges)
  {
    var t := ApplyCommit(env, s, call, row);
    forall id | id in t.challenges ensures WellFormed(t.challenges[id], t.now) {
      if id in s.challenges { assert WellFormed(s.challenges[id], s.now); }
    }
  }

  lemma TickEvolves(s: State, elapsed: nat)
    requires ChallengeInv(s)
    ensures ChallengeInv(s.(now := s.now + elapsed)) && AllEvolve(s.challenges, s.challenges)
  {
    forall id | id in s.challenges ensures WellFormed(s.challenges[id], s.now + elapsed) {
      assert WellFormed(s.challenges[id], s.now);
    }
  }

  lemma ChallengeStep(env: Environment, s: State, e: Event)
    requires ChallengeInv(s)
    ensures ChallengeInv(Apply(env, s, e)) && AllEvolve(s.challenges, Apply(env, s, e).challenges)
  {
    match e
    case Tick(elapsed) => TickEvolves(s, elapsed);
    case EnqueueCommit(call, row) => CommitEvolves(env, s, call, row);
    case Finish(worker, outcome, start, saved) => FinishEvolves(s, worker, outcome, start, saved);
    case FailChallenge(worker, saved) => FailChallengeEvolves(s, worker, saved);
    case Verify(id, purpose, code, user, start, saved) => VerifyEvolves(env, s, id, purpose, code, user, start, saved);
    case EnqueueBegin(_, _) => SameChallenges(s, Apply(env, s, e));
    case EnqueueLock(_) => SameChallenges(s, Apply(env, s, e));
    case EnqueueCountEmail(_) => SameChallenges(s, Apply(env, s, e));
    case EnqueueCountSource(_) => SameChallenges(s, Apply(env, s, e));
    case EnqueueAbort(_) => SameChallenges(s, Apply(env, s, e));
    case Claim(_, _, _) => SameChallenges(s, Apply(env, s, e));
    case Crash(_) => SameChallenges(s, Apply(env, s, e));
    case SendTest(_, _, _) => SameChallenges(s, Apply(env, s, e));
  }

  lemma {:induction false} ChallengeInvHolds(env: Environment, es: seq<Event>)
    ensures ChallengeInv(After(env, es))
  {
    if es == [] {
    } else {
      ChallengeInvHolds(env, es[..|es| - 1]);
      ChallengeStep(env, After(env, es[..|es| - 1]), es[|es| - 1]);
    }
  }

  /** No single event of any run makes any other move, and none removes a challenge. */
  lemma MovesHold(env: Environment, es: seq<Event>, e: Event, id: string)
    requires id in After(env, es).challenges
    ensures id in After(env, es + [e]).challenges
    ensures Moves(After(env, es).challenges[id].status, After(env, es + [e]).challenges[id].status)
  {
    assert (es + [e])[..|es|] == es;
    ChallengeInvHolds(env, es);
    ChallengeStep(env, After(env, es), e);
  }

  lemma EvolvesTransitive(a: Challenge, b: Challenge, c: Challenge)
    requires Evolves(a, b) && Evolves(b, c)
    ensures Evolves(a, c)
  {
  }

  /**
   Between any two moments of any run a challenge only moves queued -> sent -> used | failed or
   queued -> failed, keeps what was enqueued, keeps `sent_at` and `expires_at` once written, and
   does not change at all once used or failed.
   */
  lemma {:induction false} LifecycleHolds(env: Environment, es: seq<Event>, more: seq<Event>, id: string)
    requires id in After(env, es).challenges
    ensures id in After(env, es + more).challenges
    ensures Evolves(After(env, es).challenges[id], After(env, es + more).challenges[id])
    decreases |more|
  {
    hide Apply, ChallengeInv, Moves;
    if more == [] {
      assert es + more == es;
    } else {
      var shorter := more[..|more| - 1];
      LifecycleHolds(env, es, shorter, id);
      assert (es + more)[..|es + more| - 1] == es + shorter;
      ChallengeInvHolds(env, es + shorter);
      ChallengeStep(env, After(env, es + shorter), more[|more| - 1]);
      EvolvesTransitive(After(env, es).challenges[id], After(env, es + shorter).challenges[id],
        After(env, es + more).challenges[id]);
    }
  }

  // ---------- Counting guesses ----------

  /** The event compares a code with the digest of challenge `id`. */
  predicate IsComparison(s: State, e: Event, id: string) {
    e.Verify? && e.id == id && e.start <= s.now && Compares(s, id, e.purpose, e.user)
  }

  /** A comparison whose database update was lost. */
  predicate IsLostComparison(s: State, e: Event, id: string) {
    IsComparison(s, e, id) && !e.saved
  }

  predicate IsSuccess(env: Environment, s: State, e: Event, id: string) {
    IsComparison(s, e, id) && e.saved && VerifyOutcome(env, s, id, e.purpose, e.code, e.user, true).Verified?
  }

  datatype Tally = Tally(comparisons: nat, lost: nat, successes: nat)

  function Count(env: Environment, es: seq<Event>, id: string): Tally {
    if es == [] then Tally(0, 0, 0)
    else
      var s := After(env, es[..|es| - 1]);
      var t := Count(env, es[..|es| - 1], id);
      var e := es[|es| - 1];
      Tally(t.comparisons + (if IsComparison(s, e, id) then 1 else 0),
            t.lost + (if IsLostComparison(s, e, id) then 1 else 0),
            t.successes + (if IsSuccess(env, s, e, id) then 1 else 0))
  }

  /** What the columns of a challenge say about the guesses made so far. */
  ghost predicate TallyMatches(s: State, id: string, t: Tally) {
    if id in s.challenges then
      var c := s.challenges[id];
      && t.comparisons - t.lost == c.attempts + (if c.status.ChallengeUsed? then 1 else 0)
      && t.successes == (if c.status.ChallengeUsed? then 1 else 0)
    else t == Tally(0, 0, 0)
  }

  /** The events that change no challenge. */
  lemma ChallengesStay(env: Environment, s: State, e: Event)
    requires !e.EnqueueCommit? && !e.Finish? && !e.FailChallenge? && !e.Verify?
    ensures Apply(env, s, e).challenges == s.challenges
  {
    match e
    case EnqueueBegin(_, _) =>
    case EnqueueLock(_) =>
    case Claim(_, _, _) =>
    case SendTest(_, _, _) =>
    case _ =>
  }

  lemma FinishColumns(s: State, worker: nat, outcome: Outcome, start: Time, saved: bool, id: string)
    ensures var t := ApplyFinish(s, worker, outcome, start, saved);
      (id in t.challenges <==> id in s.challenges)
      && (id in s.challenges ==>
            && t.challenges[id].attempts == s.challenges[id].attempts
            && t.challenges[id].status.ChallengeUsed? == s.challenges[id].status.ChallengeUsed?)
  {
  }

  lemma FailColumns(s: State, worker: nat, saved: bool, id: string)
    ensures var t := ApplyFailChallenge(s, worker, saved);
      (id in t.challenges <==> id in s.challenges)
      && (id in s.challenges ==>
            && t.challenges[id].attempts == s.challenges[id].attempts
            && t.challenges[id].status.ChallengeUsed? == s.challenges[id].status.ChallengeUsed?)
  {
  }

  /** A guess that is not compared, or whose update is lost, or that is for another challenge. */
  lemma VerifyColumns(env: Environment, s: State, i: string, purpose: string, code: string, user: Option<string>,
                      start: Time, saved: bool, id: string)
    requires ChallengeInv(s)
    requires !(i == id && start <= s.now && Compares(s, id, purpose, user) && saved)
    ensures var t := ApplyVerify(env, s, i, purpose, code, user, start, saved);
      (id in t.challenges <==> id in s.challenges)
      && (id in s.challenges ==>
            && t.challenges[id].attempts == s.challenges[id].attempts
            && t.challenges[id].status.ChallengeUsed? == s.challenges[id].status.ChallengeUsed?)
  {
    if id in s.challenges { assert WellFormed(s.challenges[id], s.now); }
  }

  /** An event that is not a saved comparison leaves both columns of the tally alone. */
  lemma TallyFrame(env: Environment, s: State, e: Event, id: string)
    requires ChallengeInv(s) && !(IsComparison(s, e, id) && e.saved)
    ensures var t := Apply(env, s, e);
      if id in s.challenges then
        && id in t.challenges
        && t.challenges[id].attempts == s.challenges[id].attempts
        && t.challenges[id].status.ChallengeUsed? == s.challenges[id].status.ChallengeUsed?
      else id in t.challenges ==> t.challenges[id].attempts == 0 && t.challenges[id].status.ChallengeQueued?
  {
    hide ApplyFinish, ApplyFailChallenge, ApplyVerify, ApplyClaim, ApplySendTest, WellFormed;
    match e
    case EnqueueCommit(_, _) =>
    case Finish(worker, outcome, start, saved) => FinishColumns(s, worker, outcome, start, saved, id);
    case FailChallenge(worker, saved) => FailColumns(s, worker, saved, id);
    case Verify(i, purpose, code, user, start, saved) =>
      VerifyColumns(env, s, i, purpose, code, user, start, saved, id);
    case _ => ChallengesStay(env, s, e);
  }

  lemma TallyStep(env: Environment, s: State, e: Event, id: string)
    requires ChallengeInv(s) && IsComparison(s, e, id) && e.saved
    ensures var c := s.challenges[id]; var t := Apply(env, s, e);
      && id in t.challenges
      && (if IsSuccess(env, s, e, id)
          then t.challenges[id].status.ChallengeUsed? && t.challenges[id].attempts == c.attempts
          else !t.challenges[id].status.ChallengeUsed? && t.challenges[id].attempts == c.attempts + 1)
  {
    assert WellFormed(s.challenges[id], s.now);
  }

  lemma {:induction false} TallyHolds(env: Environment, es: seq<Event>, id: string)
    ensures TallyMatches(After(env, es), id, Count(env, es, id))
  {
    if es != [] {
      var before := es[..|es| - 1];
      var s, e := After(env, before), es[|es| - 1];
      TallyHolds(env, before, id);
      ChallengeInvHolds(env, before);
      if IsComparison(s, e, id) && e.saved {
        TallyStep(env, s, e, id);
      } else {
        TallyFrame(env, s, e, id);
      }
    }
  }

  /**
   Over every run a challenge is compared at most five times more often than an update was lost,
   and verified at most once; the stored count stays within 0..5 and is below 5 while the
   challenge is `sent`, so the `attempts >= 5` guard never fires.
   */
  lemma GuessesBounded(env: Environment, es: seq<Event>, id: string)
    ensures Count(env, es, id).comparisons <= MAX_GUESSES + Count(env, es, id).lost
    ensures Count(env, es, id).successes <= 1
    ensures id in After(env, es).challenges ==>
      var c := After(env, es).challenges[id];
      0 <= c.attempts <= MAX_GUESSES && (c.status.ChallengeSent? ==> c.attempts < MAX_GUESSES)
  {
    TallyHolds(env, es, id);
    ChallengeInvHolds(env, es);
    if id in After(env, es).challenges { assert WellFormed(After(env, es).challenges[id], After(env, es).now); }
  }

  /** After a success nothing is ever compared with that challenge again. */
  lemma {:induction false} NoComparisonAfterSuccess(env: Environment, es: seq<Event>, more: seq<Event>, id: string)
    requires Count(env, es, id).successes == 1
    ensures Count(env, es + more, id) == Count(env, es, id)
    decreases |more|
  {
    if more == [] {
      assert es + more == es;
    } else {
      var shorter := more[..|more| - 1];
      NoComparisonAfterSuccess(env, es, shorter, id);
      assert (es + more)[..|es + more| - 1] == es + shorter;
      TallyHolds(env, es + shorter, id);
    }
  }

  predicate RecordsAcceptance(s: State, e: Event, id: string, t: Time) {
    && e.Finish? && e.outcome.Accepted? && e.saved && e.start == t
    && CanFinish(s, e.worker, t) && s.workers[e.worker].challenge == id
  }

  /** The run contains the saved batch of a delivery the provider accepted, started at `t`, for challenge `id`. */
  ghost predicate AcceptanceRecorded(env: Environment, es: seq<Event>, id: string, t: Time) {
    exists i :: 0 <= i < |es| && RecordsAcceptance(After(env, es[..i]), es[i], id, t)
  }

  lemma AcceptanceExtends(env: Environment, es: seq<Event>, id: string, t: Time)
    requires es != [] && AcceptanceRecorded(env, es[..|es| - 1], id, t)
    ensures AcceptanceRecorded(env, es, id, t)
  {
    var i :| 0 <= i < |es| - 1 && RecordsAcceptance(After(env, es[..|es| - 1][..i]), es[..|es| - 1][i], id, t);
    assert es[..|es| - 1][..i] == es[..i];
    assert RecordsAcceptance(After(env, es[..i]), es[i], id, t);
  }

  lemma FinishSentAt(s: State, worker: nat, outcome: Outcome, start: Time, saved: bool, id: string)
    ensures var t := ApplyFinish(s, worker, outcome, start, saved);
      id in t.challenges ==> (
        && id in s.challenges
        && (t.challenges[id].sentAt == s.challenges[id].sentAt
            || (RecordsAcceptance(s, Finish(worker, outcome, start, saved), id, start)
                 && t.challenges[id].sentAt == Some(start))))
  {
  }

  lemma FailSentAt(s: State, worker: nat, saved: bool, id: string)
    ensures var t := ApplyFailChallenge(s, worker, saved);
      id in t.challenges ==> id in s.challenges && t.challenges[id].sentAt == s.challenges[id].sentAt
  {
  }

  lemma VerifySentAt(env: Environment, s: State, i: string, purpose: string, code: string, user: Option<string>,
                     start: Time, saved: bool, id: string)
    ensures var t := ApplyVerify(env, s, i, purpose, code, user, start, saved);
      id in t.challenges ==> id in s.challenges && t.challenges[id].sentAt == s.challenges[id].sentAt
  {
  }

  /** Only a recorded acceptance writes `sent_at`. */
  lemma SentAtStep(env: Environment, s: State, e: Event, id: string)
    requires ChallengeInv(s)
    requires id in Apply(env, s, e).challenges && Apply(env, s, e).challenges[id].sentAt.Some?
    ensures (id in s.challenges && s.challenges[id].sentAt == Apply(env, s, e).challenges[id].sentAt)
         || RecordsAcceptance(s, e, id, Apply(env, s, e).challenges[id].sentAt.value)
  {
    hide ApplyFinish, ApplyFailChallenge, ApplyVerify, ApplyClaim, ApplySendTest, CanFinish;
    match e
    case EnqueueCommit(call, row) =>
    case Finish(worker, outcome, start, saved) => FinishSentAt(s, worker, outcome, start, saved, id);
    case FailChallenge(worker, saved) => FailSentAt(s, worker, saved, id);
    case Verify(i, purpose, code, user, start, saved) => VerifySentAt(env, s, i, purpose, code, user, start, saved, id);
    case _ => ChallengesStay(env, s, e);
  }

  lemma {:induction false} SentAtRecorded(env: Environment, es: seq<Event>, id: string)
    requires id in After(env, es).challenges && After(env, es).challenges[id].sentAt.Some?
    ensures AcceptanceRecorded(env, es, id, After(env, es).challenges[id].sentAt.value)
  {
    var before := es[..|es| - 1];
    var s, e := After(env, before), es[|es| - 1];
    ChallengeInvHolds(env, before);
    SentAtStep(env, s, e, id);
    var t := After(env, es).challenges[id].sentAt.value;
    if RecordsAcceptance(s, e, id, t) {
      assert RecordsAcceptance(After(env, es[..|es| - 1]), es[|es| - 1], id, t);
    } else {
      SentAtRecorded(env, before, id);
      AcceptanceExtends(env, es, id, t);
    }
  }

  /** A code verifies only within ten minutes of an acceptance that the run recorded, and only if its digest matches. */
  lemma SuccessFollowsAcceptance(env: Environment, es: seq<Event>, e: Event, id: string)
    requires IsSuccess(env, After(env, es), e, id)
    ensures var s := After(env, es); var c := s.challenges[id];
      && c.sentAt.Some?
      && AcceptanceRecorded(env, es, id, c.sentAt.value)
      && c.sentAt.value <= s.now <= c.sentAt.value + CODE_LIFETIME
      && c.digest == env.digest(id, e.code)
  {
    ChallengeInvHolds(env, es);
    assert WellFormed(After(env, es).challenges[id], After(env, es).now);
    SentAtRecorded(env, es, id);
  }
}
