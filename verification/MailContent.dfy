/** What a mail says: it goes to the address of its challenge and carries the code that the challenge accepts. */
module MailContent {
  import opened Wrappers
  import opened MailModel
  import opened MailChallenge
  import opened MailDelivery

  /** The row's mail is for its challenge: address, name and, as long as there is a payload, the code. */
  predicate MailFits(env: Environment, challenges: map<string, Challenge>, row: OutboxRow) {
    row.challenge.Some? ==>
      && row.challenge.value in challenges
      && var c := challenges[row.challenge.value];
        && row.recipient == c.email
        && (row.payload.Some? ==>
              row.payload.value.username == c.username
              && env.digest(row.challenge.value, row.payload.value.code) == c.digest)
  }

  predicate MailInv(env: Environment, s: State) {
    forall r :: r in s.outbox ==> MailFits(env, s.challenges, s.outbox[r])
  }

  /** A row keeps its recipient and challenge, and its payload until that is removed. */
  predicate SameMail(a: OutboxRow, b: OutboxRow) {
    b.challenge == a.challenge && b.recipient == a.recipient && (b.payload == a.payload || b.payload.None?)
  }

  lemma Untouched(before: map<string, Challenge>, after: map<string, Challenge>, id: string)
    requires AllEvolve(before, after) && id in before
    ensures id in after && after[id].email == before[id].email && after[id].username == before[id].username
    ensures after[id].digest == before[id].digest
    ensures after[id].purpose == before[id].purpose && after[id].userId == before[id].userId
  {
    assert Evolves(before[id], after[id]);
  }

  lemma FitStays(env: Environment, before: map<string, Challenge>, after: map<string, Challenge>, a: OutboxRow,
      b: OutboxRow)
    requires MailFits(env, before, a) && SameMail(a, b) && AllEvolve(before, after)
    ensures MailFits(env, after, b)
  {
    hide AllEvolve;
    if a.challenge.Some? { Untouched(before, after, a.challenge.value); }
  }

  lemma EligibleIn(outbox: map<nat, OutboxRow>, start: Time, skip: set<nat>, r: nat)
    requires r in Eligible(outbox, start, skip)
    ensures r in outbox
  {
  }

  lemma ClaimMail(s: State, worker: nat, start: Time, skip: set<nat>, r: nat)
    requires r in s.outbox
    ensures var t := ApplyClaim(s, worker, start, skip);
      t.outbox.Keys == s.outbox.Keys && SameMail(s.outbox[r], t.outbox[r])
  {
    hide Eligible;
    var rows := Eligible(s.outbox, start, skip);
    if rows != {} { EligibleIn(s.outbox, start, skip, Least(rows)); }
  }

  lemma FinishMail(s: State, worker: nat, outcome: Outcome, start: Time, saved: bool, r: nat)
    requires r in s.outbox
    ensures var t := ApplyFinish(s, worker, outcome, start, saved);
      t.outbox.Keys == s.outbox.Keys && SameMail(s.outbox[r], t.outbox[r])
  {
    hide Backoff;
  }

  lemma CommitMail(env: Environment, s: State, call: nat, row: nat)
    requires MailInv(env, s) && AllEvolve(s.challenges, ApplyCommit(env, s, call, row).challenges)
    ensures MailInv(env, ApplyCommit(env, s, call, row))
  {
    hide AllEvolve, RateLimited;
    var t := ApplyCommit(env, s, call, row);
    forall r | r in t.outbox ensures MailFits(env, t.challenges, t.outbox[r]) {
      if r in s.outbox { FitStays(env, s.challenges, t.challenges, s.outbox[r], t.outbox[r]); }
    }
  }

  lemma TestMail(env: Environment, s: State, row: nat, recipient: string, outcome: Outcome)
    requires MailInv(env, s)
    ensures MailInv(env, ApplySendTest(s, row, recipient, outcome))
  {
    hide TestError;
    var t := ApplySendTest(s, row, recipient, outcome);
    forall r | r in t.outbox ensures MailFits(env, t.challenges, t.outbox[r]) {
      if r in s.outbox { assert MailFits(env, s.challenges, s.outbox[r]); }
    }
  }

  /** Rows that keep their mail, while challenges evolve. */
  lemma KeptMail(env: Environment, s: State, t: State)
    requires MailInv(env, s) && AllEvolve(s.challenges, t.challenges) && t.outbox.Keys == s.outbox.Keys
    requires forall r :: r in s.outbox ==> SameMail(s.outbox[r], t.outbox[r])
    ensures MailInv(env, t)
  {
    hide AllEvolve, MailFits, SameMail;
    forall r | r in t.outbox ensures MailFits(env, t.challenges, t.outbox[r]) {
      FitStays(env, s.challenges, t.challenges, s.outbox[r], t.outbox[r]);
    }
  }

  lemma SameRows(s: State, t: State, e: Event)
    requires e.Claim? && t == ApplyClaim(s, e.worker, e.start, e.skip)
    ensures t.outbox.Keys == s.outbox.Keys
  {
  }

  lemma MailStep(env: Environment, s: State, e: Event)
    requires MailInv(env, s) && ChallengeInv(s)
    ensures MailInv(env, Apply(env, s, e))
  {
    hide MailInv, ChallengeInv, AllEvolve, ApplyClaim, ApplyFinish, ApplyCommit, ApplySendTest;
    ChallengeStep(env, s, e);
    var t := Apply(env, s, e);
    if Quiet(e) || e.Crash? {
      if Quiet(e) { QuietEvent(env, s, e); }
      KeptMail(env, s, t);
    } else {
      match e
      case Claim(worker, start, skip) =>
        forall r | r in s.outbox ensures t.outbox.Keys == s.outbox.Keys && SameMail(s.outbox[r], t.outbox[r]) {
          ClaimMail(s, worker, start, skip, r);
        }
        SameRows(s, t, e);
        KeptMail(env, s, t);
      case Finish(worker, outcome, start, saved) =>
        forall r | r in s.outbox ensures t.outbox.Keys == s.outbox.Keys && SameMail(s.outbox[r], t.outbox[r]) {
          FinishMail(s, worker, outcome, start, saved, r);
        }
        FinishParts(s, worker, outcome, start, saved);
        KeptMail(env, s, t);
      case EnqueueCommit(call, row) => CommitMail(env, s, call, row);
      case SendTest(row, recipient, outcome) => TestMail(env, s, row, recipient, outcome);
    }
  }

  lemma {:induction false} MailInvHolds(env: Environment, es: seq<Event>)
    ensures MailInv(env, After(env, es))
  {
    hide Apply, ChallengeInv, MailFits;
    if es == [] {
    } else {
      MailInvHolds(env, es[..|es| - 1]);
      ChallengeInvHolds(env, es[..|es| - 1]);
      MailStep(env, After(env, es[..|es| - 1]), es[|es| - 1]);
    }
  }

  // ---------- Main results ----------

  /**
   In every run, with late workers too: a row with a challenge goes to the address of that challenge,
   and the code in its payload is the one whose digest the challenge stores.
   */
  lemma MailFitsChallenge(env: Environment, es: seq<Event>, r: nat, id: string)
    requires r in After(env, es).outbox && After(env, es).outbox[r].challenge == Some(id)
    ensures var s := After(env, es);
      && id in s.challenges && s.outbox[r].recipient == s.challenges[id].email
      && (s.outbox[r].payload.Some? ==>
            s.outbox[r].payload.value.username == s.challenges[id].username
            && env.digest(id, s.outbox[r].payload.value.code) == s.challenges[id].digest)
  {
    hide After;
    MailInvHolds(env, es);
    assert MailFits(env, After(env, es).challenges, After(env, es).outbox[r]);
  }

  /** A saved guess with the stored digest on a challenge that is sent, in time and meant uses the challenge. */
  lemma RightGuessUses(env: Environment, s: State, id: string, code: string, user: Option<string>, start: Time)
    requires ChallengeInv(s) && id in s.challenges && start <= s.now
    requires var c := s.challenges[id];
      && c.status.ChallengeSent? && c.expiresAt.Some? && s.now <= c.expiresAt.value
      && (user.None? || c.userId == user) && env.digest(id, code) == c.digest
    ensures var t := ApplyVerify(env, s, id, s.challenges[id].purpose, code, user, start, true);
      && t.challenges == s.challenges[id := s.challenges[id].(status := ChallengeUsed, consumedAt := Some(start))]
      && VerifyOutcome(env, s, id, s.challenges[id].purpose, code, user, true) == Verified(s.challenges[id])
  {
    assert WellFormed(s.challenges[id], s.now);
  }

  /**
   The code that a mail carries at any moment of a run, entered at any later moment for its challenge
   with its purpose and user, while the challenge is sent and not expired, uses the challenge.
   */
  lemma DeliveredCodeVerifies(
    env: Environment, es: seq<Event>, more: seq<Event>, r: nat, id: string, user: Option<string>, start: Time)
    requires r in After(env, es).outbox && After(env, es).outbox[r].challenge == Some(id)
    requires After(env, es).outbox[r].payload.Some?
    requires id in After(env, es + more).challenges && start <= After(env, es + more).now
    requires var c := After(env, es + more).challenges[id];
      && c.status.ChallengeSent? && c.expiresAt.Some? && After(env, es + more).now <= c.expiresAt.value
      && (user.None? || c.userId == user)
    ensures var s, code := After(env, es + more), After(env, es).outbox[r].payload.value.code;
      var guess := Verify(id, s.challenges[id].purpose, code, user, start, true);
      && id in After(env, es + more + [guess]).challenges
      && After(env, es + more + [guess]).challenges[id].status.ChallengeUsed?
      && VerifyOutcome(env, s, id, s.challenges[id].purpose, code, user, true).Verified?
  {
    hide After, ChallengeInv;
    var s, code := After(env, es + more), After(env, es).outbox[r].payload.value.code;
    MailFitsChallenge(env, es, r, id);
    LifecycleHolds(env, es, more, id);
    ChallengeInvHolds(env, es + more);
    RightGuessUses(env, s, id, code, user, start);
    OneMore(env, es + more, Verify(id, s.challenges[id].purpose, code, user, start, true));
  }
}
