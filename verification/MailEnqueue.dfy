/** Rate limiting of `Enqueue` under every interleaving of its transactions. */
module MailEnqueue {
  import opened Wrappers
  import opened MailModel

  ghost predicate SameAddress(env: Environment, challenges: map<string, Challenge>, a: string, b: string)
    requires a in challenges && b in challenges
  {
    env.fold(challenges[a].email) == env.fold(challenges[b].email)
  }

  /** Two committed challenges for one folded address are at least a minute apart. */
  ghost predicate Spaced(env: Environment, challenges: map<string, Challenge>) {
    forall a, b :: a in challenges && b in challenges && a != b && SameAddress(env, challenges, a, b) ==>
      challenges[a].createdAt + RESEND_GAP <= challenges[b].createdAt
        || challenges[b].createdAt + RESEND_GAP <= challenges[a].createdAt
  }

  /** The committed challenges for a folded address created in the hour (t - 1h, t]. */
  ghost function Window(env: Environment, challenges: map<string, Challenge>, folded: string, t: Time): set<string> {
    set id | id in challenges && env.fold(challenges[id].email) == folded && t - HOUR < challenges[id].createdAt <= t
  }

  ghost predicate HourlyBounded(env: Environment, challenges: map<string, Challenge>) {
    forall folded, t :: |Window(env, challenges, folded, t)| <= MAX_PER_EMAIL
  }

  /** The counts a transaction has read for its address are still the true ones. */
  ghost predicate CountsCurrent(env: Environment, challenges: map<string, Challenge>, c: Call) {
    var folded := env.fold(c.request.email);
    (c.phase.EmailCounted? || c.phase.SourceCounted?) ==>
      && c.phase.recent == |CreatedAfter(env, challenges, folded, c.start - RESEND_GAP)|
      && c.phase.hourlyEmail == |CreatedAfter(env, challenges, folded, c.start - HOUR)|
  }

  ghost predicate HoldsLock(env: Environment, s: State, call: nat)
    requires call in s.calls
  {
    !s.calls[call].phase.Begun? ==>
      KeyOf(env, s.calls[call].request) in s.locks && s.locks[KeyOf(env, s.calls[call].request)] == call
  }

  ghost predicate EnqueueInv(env: Environment, s: State) {
    && (forall call :: call in s.calls ==> HoldsLock(env, s, call))
    && (forall call :: call in s.calls ==> CountsCurrent(env, s.challenges, s.calls[call]))
    && Spaced(env, s.challenges)
    && HourlyBounded(env, s.challenges)
  }

  predicate SameCreation(c: Challenge, d: Challenge) {
    c.email == d.email && c.source == d.source && c.createdAt == d.createdAt
  }

  /** Two tables that hold the same identifiers with the same address, source and creation time. */
  ghost predicate SameCreations(a: map<string, Challenge>, b: map<string, Challenge>) {
    a.Keys == b.Keys && forall id :: id in a ==> SameCreation(a[id], b[id])
  }

  lemma SameCreationsKeep(env: Environment, a: map<string, Challenge>, b: map<string, Challenge>)
    requires SameCreations(a, b)
    ensures Spaced(env, a) ==> Spaced(env, b)
    ensures HourlyBounded(env, a) ==> HourlyBounded(env, b)
    ensures forall folded, t :: CreatedAfter(env, a, folded, t) == CreatedAfter(env, b, folded, t)
  {
    forall folded, t ensures Window(env, a, folded, t) == Window(env, b, folded, t) {}
    if Spaced(env, a) {
      forall x, y | x in b && y in b && x != y && SameAddress(env, b, x, y)
        ensures b[x].createdAt + RESEND_GAP <= b[y].createdAt || b[y].createdAt + RESEND_GAP <= b[x].createdAt
      {
        assert SameAddress(env, a, x, y);
      }
    }
  }

  lemma InsertCounts(env: Environment, challenges: map<string, Challenge>, id: string, c: Challenge, folded: string,
      t: Time)
    requires id !in challenges && env.fold(c.email) != folded
    ensures CreatedAfter(env, challenges[id := c], folded, t) == CreatedAfter(env, challenges, folded, t)
  {
  }

  lemma {:induction false} Subset<T>(a: set<T>, b: set<T>)
    requires a <= b
    ensures |a| <= |b|
  {
    assert b == a + (b - a);
  }

  lemma InsertSpaced(env: Environment, challenges: map<string, Challenge>, id: string, c: Challenge)
    requires Spaced(env, challenges) && id !in challenges
    requires CreatedAfter(env, challenges, env.fold(c.email), c.createdAt - RESEND_GAP) == {}
    ensures Spaced(env, challenges[id := c])
  {
    var after := challenges[id := c];
    forall x | x in challenges && env.fold(challenges[x].email) == env.fold(c.email)
      ensures challenges[x].createdAt + RESEND_GAP <= c.createdAt
    {
      assert x !in CreatedAfter(env, challenges, env.fold(c.email), c.createdAt - RESEND_GAP);
    }
    forall a, b | a in after && b in after && a != b && SameAddress(env, after, a, b)
      ensures after[a].createdAt + RESEND_GAP <= after[b].createdAt
        || after[b].createdAt + RESEND_GAP <= after[a].createdAt
    {
      if a != id && b != id { assert SameAddress(env, challenges, a, b); }
    }
  }

  lemma InsertWindow(
    env: Environment, challenges: map<string, Challenge>, id: string, c: Challenge, folded: string, t: Time)
    requires id !in challenges
    ensures var before, after := Window(env, challenges, folded, t), Window(env, challenges[id := c], folded, t);
      if env.fold(c.email) == folded && t - HOUR < c.createdAt <= t
      then after == before + {id} && before <= CreatedAfter(env, challenges, folded, c.createdAt - HOUR)
      else after == before
  {
  }

  /** An insertion allowed by exact counts keeps the spacing and the hourly bound. */
  lemma InsertKeeps(env: Environment, challenges: map<string, Challenge>, id: string, c: Challenge)
    requires Spaced(env, challenges) && HourlyBounded(env, challenges) && id !in challenges
    requires CreatedAfter(env, challenges, env.fold(c.email), c.createdAt - RESEND_GAP) == {}
    requires |CreatedAfter(env, challenges, env.fold(c.email), c.createdAt - HOUR)| < MAX_PER_EMAIL
    ensures Spaced(env, challenges[id := c]) && HourlyBounded(env, challenges[id := c])
  {
    hide Spaced, Window, CreatedAfter;
    InsertSpaced(env, challenges, id, c);
    var after := challenges[id := c];
    forall folded, t ensures |Window(env, after, folded, t)| <= MAX_PER_EMAIL {
      InsertWindow(env, challenges, id, c, folded, t);
      var before := Window(env, challenges, folded, t);
      if env.fold(c.email) == folded && t - HOUR < c.createdAt <= t {
        Subset(before, CreatedAfter(env, challenges, folded, c.createdAt - HOUR));
      }
    }
  }

  lemma ReleaseKeeps(env: Environment, s: State, call: nat)
    requires EnqueueInv(env, s)
    ensures EnqueueInv(env, Release(s, call))
  {
    var t := Release(s, call);
    forall c | c in t.calls ensures HoldsLock(env, t, c) {
      assert HoldsLock(env, s, c);
    }
  }

  lemma LockKeeps(env: Environment, s: State, call: nat)
    requires EnqueueInv(env, s)
    ensures EnqueueInv(env, ApplyLock(env, s, call))
  {
    var t := ApplyLock(env, s, call);
    forall c | c in t.calls ensures HoldsLock(env, t, c) {
      assert HoldsLock(env, s, c);
    }
  }

  /** A step of one call that keeps its lock, with counts that are exact. */
  lemma CallKeeps(env: Environment, s: State, t: State, call: nat)
    requires EnqueueInv(env, s) && call in s.calls && call in t.calls
    requires t == s.(calls := s.calls[call := t.calls[call]])
    requires t.calls[call].request == s.calls[call].request && !s.calls[call].phase.Begun?
    requires CountsCurrent(env, s.challenges, t.calls[call])
    ensures EnqueueInv(env, t)
  {
    hide CountsCurrent, Spaced, HourlyBounded;
    forall c | c in t.calls ensures HoldsLock(env, t, c) && CountsCurrent(env, t.challenges, t.calls[c]) {
      assert HoldsLock(env, s, c) && CountsCurrent(env, s.challenges, s.calls[c]);
    }
  }

  lemma CountKeeps(env: Environment, s: State, call: nat)
    requires EnqueueInv(env, s)
    ensures EnqueueInv(env, ApplyCountEmail(env, s, call))
    ensures EnqueueInv(env, ApplyCountSource(s, call))
  {
    hide CreatedAfter, FromSource, Spaced, HourlyBounded;
    if call in s.calls {
      assert CountsCurrent(env, s.challenges, s.calls[call]);
      if s.calls[call].phase.Locked? { CallKeeps(env, s, ApplyCountEmail(env, s, call), call); }
      if s.calls[call].phase.EmailCounted? { CallKeeps(env, s, ApplyCountSource(s, call), call); }
    }
  }

  /** Counts that allow the insertion are exact, since only the holder of the lock inserts. */
  lemma AllowedCounts(env: Environment, s: State, call: nat)
    requires call in s.calls && CountsCurrent(env, s.challenges, s.calls[call])
    requires s.calls[call].phase.SourceCounted? && !RateLimited(s.calls[call].phase)
    ensures var c := s.calls[call]; var folded := env.fold(c.request.email);
      && CreatedAfter(env, s.challenges, folded, c.start - RESEND_GAP) == {}
      && |CreatedAfter(env, s.challenges, folded, c.start - HOUR)| < MAX_PER_EMAIL
  {
    hide CreatedAfter;
  }

  /** The insertion by the holder of one lock leaves the counts of every other transaction exact. */
  lemma OtherCounts(env: Environment, s: State, call: nat, d: nat, added: Challenge)
    requires call in s.calls && d in s.calls && d != call && !s.calls[call].phase.Begun?
    requires HoldsLock(env, s, call) && HoldsLock(env, s, d) && CountsCurrent(env, s.challenges, s.calls[d])
    requires added.email == s.calls[call].request.email && s.calls[call].request.id !in s.challenges
    ensures CountsCurrent(env, s.challenges[s.calls[call].request.id := added], s.calls[d])
  {
    hide CreatedAfter;
    var id, other := s.calls[call].request.id, env.fold(s.calls[d].request.email);
    if other != env.fold(added.email) {
      InsertCounts(env, s.challenges, id, added, other, s.calls[d].start - RESEND_GAP);
      InsertCounts(env, s.challenges, id, added, other, s.calls[d].start - HOUR);
    }
  }

  lemma CommitKeeps(env: Environment, s: State, call: nat, row: nat)
    requires EnqueueInv(env, s)
    ensures EnqueueInv(env, ApplyCommit(env, s, call, row))
  {
    hide NewOutboxRow, RateLimited, CountsCurrent, Spaced, HourlyBounded;
    var t := ApplyCommit(env, s, call, row);
    ReleaseKeeps(env, s, call);
    if t.challenges != s.challenges {
      var c := s.calls[call];
      var added := NewChallenge(env, c.request, c.start);
      AllowedCounts(env, s, call);
      InsertKeeps(env, s.challenges, c.request.id, added);
      forall d | d in t.calls ensures HoldsLock(env, t, d) && CountsCurrent(env, t.challenges, t.calls[d]) {
        assert HoldsLock(env, Release(s, call), d) && HoldsLock(env, s, d) && HoldsLock(env, s, call);
        OtherCounts(env, s, call, d, added);
      }
    }
  }

  lemma OtherKeeps(env: Environment, s: State, t: State)
    requires EnqueueInv(env, s) && SameCreations(s.challenges, t.challenges)
    requires t.calls == s.calls && t.locks == s.locks
    ensures EnqueueInv(env, t)
  {
    SameCreationsKeep(env, s.challenges, t.challenges);
    forall c | c in t.calls ensures HoldsLock(env, t, c) && CountsCurrent(env, t.challenges, t.calls[c]) {
      assert HoldsLock(env, s, c) && CountsCurrent(env, s.challenges, s.calls[c]);
    }
  }

  lemma BeginKeeps(env: Environment, s: State, call: nat, request: EnqueueRequest)
    requires EnqueueInv(env, s)
    ensures EnqueueInv(env, ApplyBegin(s, call, request))
  {
    var t := ApplyBegin(s, call, request);
    forall c | c in t.calls ensures HoldsLock(env, t, c) && CountsCurrent(env, t.challenges, t.calls[c]) {
      if c in s.calls { assert HoldsLock(env, s, c) && CountsCurrent(env, s.challenges, s.calls[c]); }
    }
  }

  /** Replacing a challenge by one with the same address, source and creation time. */
  lemma UpdateSame(challenges: map<string, Challenge>, id: string, c: Challenge)
    requires id in challenges && SameCreation(challenges[id], c)
    ensures SameCreations(challenges, challenges[id := c])
  {
    assert challenges[id := c].Keys == challenges.Keys;
  }

  lemma MarkSame(challenges: map<string, Challenge>, id: string, start: Time)
    ensures SameCreations(challenges, MarkChallengeSent(challenges, id, start))
    ensures SameCreations(challenges, MarkChallengeFailed(challenges, id)) && SameCreations(challenges, challenges)
  {
  }

  lemma FinishSame(s: State, worker: nat, outcome: Outcome, start: Time, saved: bool)
    ensures var t := ApplyFinish(s, worker, outcome, start, saved);
      SameCreations(s.challenges, t.challenges) && t.calls == s.calls && t.locks == s.locks
  {
    hide SameCreations, MarkChallengeSent, MarkRowSent, MarkRowFailed, MarkRowRetry, Backoff, Decide;
    MarkSame(s.challenges, "", 0);
    if CanFinish(s, worker, start) { MarkSame(s.challenges, s.workers[worker].challenge, start); }
  }

  lemma FailChallengeSame(s: State, worker: nat, saved: bool)
    ensures var t := ApplyFailChallenge(s, worker, saved);
      SameCreations(s.challenges, t.challenges) && t.calls == s.calls && t.locks == s.locks
  {
    hide SameCreations, MarkChallengeFailed;
    MarkSame(s.challenges, "", 0);
    if worker in s.workers && s.workers[worker].FailPending? { MarkSame(s.challenges, s.workers[worker].challenge, 0); }
  }

  lemma VerifySame(env: Environment, s: State, id: string, purpose: string, code: string,
                   user: Option<string>, start: Time, saved: bool)
    ensures var t := ApplyVerify(env, s, id, purpose, code, user, start, saved);
      SameCreations(s.challenges, t.challenges) && t.calls == s.calls && t.locks == s.locks
  {
    hide SameCreations, Open;
    MarkSame(s.challenges, "", 0);
    if Addressed(s, id, purpose, user) {
      var c := s.challenges[id];
      var wrong := if c.attempts + 1 >= MAX_GUESSES then ChallengeFailed else ChallengeSent;
      UpdateSame(s.challenges, id, c.(attempts := c.attempts + 1, status := wrong));
      UpdateSame(s.challenges, id, c.(status := ChallengeUsed, consumedAt := Some(start)));
    }
  }

  lemma UntouchedKeeps(env: Environment, s: State, t: State)
    requires EnqueueInv(env, s) && t.challenges == s.challenges && t.calls == s.calls && t.locks == s.locks
    ensures EnqueueInv(env, t)
  {
    OtherKeeps(env, s, t);
  }

  lemma EnqueueStep(env: Environment, s: State, e: Event)
    requires EnqueueInv(env, s)
    ensures EnqueueInv(env, Apply(env, s, e))
  {
    hide EnqueueInv, SameCreations, ApplyFinish, ApplyFailChallenge, ApplyVerify, ApplyCommit, ApplyCountEmail,
      ApplyCountSource, ApplyLock, ApplyBegin, Release;
    match e
    case EnqueueBegin(call, request) => BeginKeeps(env, s, call, request);
    case EnqueueLock(call) => LockKeeps(env, s, call);
    case EnqueueCountEmail(call) => CountKeeps(env, s, call);
    case EnqueueCountSource(call) => CountKeeps(env, s, call);
    case EnqueueCommit(call, row) => CommitKeeps(env, s, call, row);
    case EnqueueAbort(call) => ReleaseKeeps(env, s, call);
    case Finish(worker, outcome, start, saved) =>
      FinishSame(s, worker, outcome, start, saved);
      OtherKeeps(env, s, Apply(env, s, e));
    case FailChallenge(worker, saved) =>
      FailChallengeSame(s, worker, saved);
      OtherKeeps(env, s, Apply(env, s, e));
    case Verify(id, purpose, code, user, start, saved) =>
      VerifySame(env, s, id, purpose, code, user, start, saved);
      OtherKeeps(env, s, Apply(env, s, e));
    case Tick(_) => UntouchedKeeps(env, s, Apply(env, s, e));
    case Claim(_, _, _) => UntouchedKeeps(env, s, Apply(env, s, e));
    case Crash(_) => UntouchedKeeps(env, s, Apply(env, s, e));
    case SendTest(_, _, _) => UntouchedKeeps(env, s, Apply(env, s, e));
  }

  lemma {:induction false} EnqueueInvHolds(env: Environment, es: seq<Event>)
    ensures EnqueueInv(env, After(env, es))
  {
    if es == [] {
    } else {
      EnqueueInvHolds(env, es[..|es| - 1]);
      EnqueueStep(env, After(env, es[..|es| - 1]), es[|es| - 1]);
    }
  }

  /**
   For any number of callers and any interleaving, two committed challenges for one folded
   address are at least 60 s apart.
   */
  lemma RequestsSpaced(env: Environment, es: seq<Event>, a: string, b: string)
    ensures var challenges := After(env, es).challenges;
      a in challenges && b in challenges && a != b && env.fold(challenges[a].email) == env.fold(challenges[b].email) ==>
        (challenges[a].createdAt + RESEND_GAP <= challenges[b].createdAt
          || challenges[b].createdAt + RESEND_GAP <= challenges[a].createdAt)
  {
    EnqueueInvHolds(env, es);
    var challenges := After(env, es).challenges;
    if a in challenges && b in challenges {
      assert SameAddress(env, challenges, a, b) || env.fold(challenges[a].email) != env.fold(challenges[b].email);
    }
  }

  /**
   For any number of callers and any interleaving, every window of an hour holds at most five challenges of one
   address.
   */
  lemma HourlyLimitHolds(env: Environment, es: seq<Event>, folded: string, t: Time)
    ensures var challenges := After(env, es).challenges;
      |set id | id in challenges && env.fold(challenges[id].email) == folded
        && t - HOUR < challenges[id].createdAt <= t| <= MAX_PER_EMAIL
  {
    EnqueueInvHolds(env, es);
    assert |Window(env, After(env, es).challenges, folded, t)| <= MAX_PER_EMAIL;
  }
}
