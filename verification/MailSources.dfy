/**
 The limit per source.  The lock is on the address alone, so that several transactions of one
 source may read their counts before any of them inserts.  If at most k of them are in progress
 at each moment, an hour holds at most 9 + k challenges of the source.
 */
module MailSources {
  import opened MailModel
  import opened MailEnqueue

  ghost function InProgress(calls: map<nat, Call>, source: int): set<nat> {
    set c | c in calls && calls[c].request.source == source
  }

  /** The assumption on a run: at each moment at most k transactions of the source are in progress. */
  ghost predicate OverlapKept(env: Environment, es: seq<Event>, source: int, k: nat) {
    forall i :: 0 <= i <= |es| ==> |InProgress(After(env, es[..i]).calls, source)| <= k
  }

  /** The committed challenges of a source created in the hour (t - 1h, t]. */
  ghost function SourceWindow(challenges: map<string, Challenge>, source: int, t: Time): set<string> {
    set id | id in challenges && challenges[id].source == source && t - HOUR < challenges[id].createdAt <= t
  }

  /** A transaction whose count admits it and whose challenge would belong to the hour. */
  predicate IsAdmitted(c: Call, source: int, t: Time) {
    && c.request.source == source && t - HOUR < c.start <= t
    && c.phase.SourceCounted? && c.phase.hourlySource < MAX_PER_SOURCE
  }

  ghost function Admitted(calls: map<nat, Call>, source: int, t: Time): set<nat> {
    set c | c in calls && IsAdmitted(calls[c], source, t)
  }

  /** Either the hour is not full, or what it holds and what is admitted to it is within the bound. */
  ghost predicate SourceInv(s: State, source: int, t: Time, k: nat) {
    var held := |SourceWindow(s.challenges, source, t)|;
    held < MAX_PER_SOURCE || held + |Admitted(s.calls, source, t)| < MAX_PER_SOURCE + k
  }

  // ---------- The steps ----------

  lemma AdmittedInProgress(calls: map<nat, Call>, source: int, t: Time)
    ensures |Admitted(calls, source, t)| <= |InProgress(calls, source)|
  {
    Subset(Admitted(calls, source, t), InProgress(calls, source));
  }

  /** Steps that change no creation and admit no transaction. */
  lemma NothingAdmitted(s: State, u: State, source: int, t: Time, k: nat)
    requires SourceInv(s, source, t, k) && SameCreations(s.challenges, u.challenges)
    requires Admitted(u.calls, source, t) <= Admitted(s.calls, source, t)
    ensures SourceInv(u, source, t, k)
  {
    hide Admitted;
    assert SourceWindow(u.challenges, source, t) == SourceWindow(s.challenges, source, t);
    Subset(Admitted(u.calls, source, t), Admitted(s.calls, source, t));
  }

  /** A count that admits a transaction proves the hour not full, since it looks at least as far back. */
  lemma CountStep(s: State, call: nat, source: int, t: Time, k: nat)
    requires SourceInv(s, source, t, k)
    ensures SourceInv(ApplyCountSource(s, call), source, t, k)
  {
    var u := ApplyCountSource(s, call);
    if u != s && IsAdmitted(u.calls[call], source, t) {
      Subset(SourceWindow(s.challenges, source, t), FromSource(s.challenges, source, s.calls[call].start - HOUR));
    } else {
      Subset(Admitted(u.calls, source, t), Admitted(s.calls, source, t));
    }
  }

  lemma InsertWindow(challenges: map<string, Challenge>, id: string, c: Challenge, source: int, t: Time)
    requires id !in challenges
    ensures SourceWindow(challenges[id := c], source, t)
         == SourceWindow(challenges, source, t)
            + (if c.source == source && t - HOUR < c.createdAt <= t then {id} else {})
  {
  }

  lemma RemoveAdmitted(calls: map<nat, Call>, call: nat, source: int, t: Time)
    requires call in calls
    ensures |Admitted(calls - {call}, source, t)|
         == |Admitted(calls, source, t)| - (if IsAdmitted(calls[call], source, t) then 1 else 0)
  {
    hide IsAdmitted;
    var before, after := Admitted(calls, source, t), Admitted(calls - {call}, source, t);
    assert after == before - {call};
  }

  /** An insertion turns an admitted transaction into a challenge of the hour. */
  lemma CommitStep(env: Environment, s: State, call: nat, row: nat, source: int, t: Time, k: nat)
    requires SourceInv(s, source, t, k) && |InProgress(s.calls, source)| <= k
    ensures SourceInv(ApplyCommit(env, s, call, row), source, t, k)
  {
    hide SourceWindow, Admitted, InProgress;
    var u := ApplyCommit(env, s, call, row);
    AdmittedInProgress(s.calls, source, t);
    if call in s.calls {
      var c := s.calls[call];
      RemoveAdmitted(s.calls, call, source, t);
      if u.challenges != s.challenges {
        InsertWindow(s.challenges, c.request.id, NewChallenge(env, c.request, c.start), source, t);
      }
    }
  }

  /** The steps of the delivery and the clock. */
  lemma OutsideStep(env: Environment, s: State, e: Event, source: int, t: Time, k: nat)
    requires SourceInv(s, source, t, k)
    requires e.Tick? || e.Claim? || e.Crash? || e.SendTest?
    ensures SourceInv(Apply(env, s, e), source, t, k)
  {
    hide SourceInv, SameCreations, Admitted;
    MarkSame(s.challenges, "", 0);
    assert Apply(env, s, e).calls == s.calls && Apply(env, s, e).challenges == s.challenges;
    NothingAdmitted(s, Apply(env, s, e), source, t, k);
  }

  /** The steps of a transaction before it counts, and its end without an insertion. */
  lemma EarlyStep(env: Environment, s: State, e: Event, source: int, t: Time, k: nat)
    requires SourceInv(s, source, t, k)
    requires e.EnqueueBegin? || e.EnqueueLock? || e.EnqueueCountEmail? || e.EnqueueAbort?
    ensures SourceInv(Apply(env, s, e), source, t, k)
  {
    hide SourceInv, SameCreations;
    MarkSame(s.challenges, "", 0);
    NothingAdmitted(s, Apply(env, s, e), source, t, k);
  }

  lemma SourceStep(env: Environment, s: State, e: Event, source: int, t: Time, k: nat)
    requires SourceInv(s, source, t, k) && |InProgress(s.calls, source)| <= k
    ensures SourceInv(Apply(env, s, e), source, t, k)
  {
    hide SourceInv, SameCreations, Admitted, InProgress;
    hide ApplyFinish, ApplyFailChallenge, ApplyVerify, ApplyCommit, ApplyCountSource;
    match e
    case EnqueueCommit(call, row) => CommitStep(env, s, call, row, source, t, k);
    case EnqueueCountSource(call) => CountStep(s, call, source, t, k);
    case EnqueueBegin(_, _) => EarlyStep(env, s, e, source, t, k);
    case EnqueueLock(_) => EarlyStep(env, s, e, source, t, k);
    case EnqueueCountEmail(_) => EarlyStep(env, s, e, source, t, k);
    case EnqueueAbort(_) => EarlyStep(env, s, e, source, t, k);
    case Finish(worker, outcome, start, saved) =>
      FinishSame(s, worker, outcome, start, saved);
      NothingAdmitted(s, Apply(env, s, e), source, t, k);
    case FailChallenge(worker, saved) =>
      FailChallengeSame(s, worker, saved);
      NothingAdmitted(s, Apply(env, s, e), source, t, k);
    case Verify(id, purpose, code, user, start, saved) =>
      VerifySame(env, s, id, purpose, code, user, start, saved);
      NothingAdmitted(s, Apply(env, s, e), source, t, k);
    case Tick(_) => OutsideStep(env, s, e, source, t, k);
    case Claim(_, _, _) => OutsideStep(env, s, e, source, t, k);
    case Crash(_) => OutsideStep(env, s, e, source, t, k);
    case SendTest(_, _, _) => OutsideStep(env, s, e, source, t, k);
  }

  lemma {:induction false} SourceInvHolds(env: Environment, es: seq<Event>, source: int, t: Time, k: nat)
    requires OverlapKept(env, es, source, k)
    ensures SourceInv(After(env, es), source, t, k)
  {
    hide Apply;
    if es == [] {
      assert SourceWindow(After(env, es).challenges, source, t) == {};
    } else {
      hide SourceInv, InProgress;
      var before := es[..|es| - 1];
      assert forall i :: 0 <= i <= |before| ==> before[..i] == es[..i];
      assert before[..|before|] == before;
      SourceInvHolds(env, before, source, t, k);
      SourceStep(env, After(env, before), es[|es| - 1], source, t, k);
    }
  }

  // ---------- Main results ----------

  /** If at most k transactions of a source overlap, every hour holds at most 9 + k of its challenges. */
  lemma OverlapBound(env: Environment, es: seq<Event>, source: int, t: Time, k: nat)
    requires OverlapKept(env, es, source, k)
    ensures |set id | id in After(env, es).challenges && After(env, es).challenges[id].source == source
                      && t - HOUR < After(env, es).challenges[id].createdAt <= t| <= MAX_PER_SOURCE - 1 + k
  {
    SourceInvHolds(env, es, source, t, k);
    assert |SourceWindow(After(env, es).challenges, source, t)| <= MAX_PER_SOURCE - 1 + k;
  }

  /** When the transactions of the source do not overlap, the documented ten hold. */
  lemma SourceLimitHolds(env: Environment, es: seq<Event>, source: int, t: Time)
    requires OverlapKept(env, es, source, 1)
    ensures |set id | id in After(env, es).challenges && After(env, es).challenges[id].source == source
                      && t - HOUR < After(env, es).challenges[id].createdAt <= t| <= MAX_PER_SOURCE
  {
    OverlapBound(env, es, source, t, 1);
  }
}
