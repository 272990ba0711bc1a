/**
 The outbox under the lease assumption: every worker records its outcome or is gone before the
 minute that its claim reserved is over.  Any number of workers, crashes and lost updates.
 */
module MailDelivery {
  import opened Wrappers
  import opened MailModel

  predicate LeaseHolds(s: State) {
    forall w :: w in s.workers && s.workers[w].InFlight? ==> s.now < s.workers[w].claimedAt + LEASE
  }

  /** The assumption on a run: the lease holds at each of its moments. */
  ghost predicate LeaseKept(env: Environment, es: seq<Event>) {
    forall i :: 0 <= i <= |es| ==> LeaseHolds(After(env, es[..i]))
  }

  lemma LeasePrefix(env: Environment, es: seq<Event>, n: nat)
    requires LeaseKept(env, es) && n <= |es|
    ensures LeaseKept(env, es[..n]) && LeaseHolds(After(env, es[..n]))
  {
    forall i | 0 <= i <= n ensures LeaseHolds(After(env, es[..n][..i])) {
      assert es[..n][..i] == es[..i];
    }
  }

  // ---------- Rows and workers ----------

  predicate WorkerOk(s: State, w: Worker)
    requires w.InFlight?
  {
    && w.row in s.outbox
    && var row := s.outbox[w.row];
      && row.status.OutboxSending?
      && row.challenge == Some(w.challenge)
      && row.attempts == w.attempts >= 1
      && row.nextAttemptAt == w.claimedAt + LEASE
      && w.claimedAt <= s.now
  }

  predicate RowOk(s: State, row: OutboxRow) {
    if row.Pending() then row.payload.Some? && row.challenge.Some? && row.challenge.value in s.challenges
      && row.attempts >= 0
    else row.payload.None?
  }

  predicate DeliveryInv(s: State) {
    && (forall w :: w in s.workers && s.workers[w].InFlight? ==> WorkerOk(s, s.workers[w]))
    && (forall v, w ::
          v in s.workers && w in s.workers && v != w && s.workers[v].InFlight? && s.workers[w].InFlight? ==>
          s.workers[v].row != s.workers[w].row)
    && (forall r :: r in s.outbox ==> RowOk(s, s.outbox[r]))
  }

  /** Rows stay, and a row that was sent or failed stays as it is. */
  predicate FinalRowsKept(s: State, t: State) {
    forall r :: r in s.outbox ==> r in t.outbox && (!s.outbox[r].Pending() ==> t.outbox[r] == s.outbox[r])
  }

  lemma ClaimStep(s: State, worker: nat, start: Time, skip: set<nat>)
    requires DeliveryInv(s) && LeaseHolds(s)
    ensures var t := ApplyClaim(s, worker, start, skip); DeliveryInv(t) && FinalRowsKept(s, t)
  {
    var t := ApplyClaim(s, worker, start, skip);
    if t != s {
      var r := Least(Eligible(s.outbox, start, skip));
      assert RowOk(s, s.outbox[r]);
      forall w | w in s.workers && s.workers[w].InFlight? ensures s.workers[w].row != r && WorkerOk(t, s.workers[w]) {
        assert WorkerOk(s, s.workers[w]);
      }
      forall q | q in t.outbox ensures RowOk(t, t.outbox[q]) {
        assert RowOk(s, s.outbox[q]);
      }
    }
  }

  /** The row is unchanged, in the queue again, or finished without its payload. */
  predicate RowAfter(a: OutboxRow, b: OutboxRow) {
    || b == a
    || (b.status.OutboxQueued? && b.payload == a.payload && b.challenge == a.challenge && b.attempts == a.attempts)
    || (!b.Pending() && b.payload.None?)
  }

  /** What an outcome changes: the worker's row, its challenge's columns and the worker itself. */
  lemma FinishParts(s: State, worker: nat, outcome: Outcome, start: Time, saved: bool)
    ensures var t := ApplyFinish(s, worker, outcome, start, saved);
      && (!CanFinish(s, worker, start) ==> t == s)
      && t.now == s.now && t.challenges.Keys == s.challenges.Keys && t.outbox.Keys == s.outbox.Keys
      && (CanFinish(s, worker, start) ==>
            && (forall w :: w in t.workers && t.workers[w].InFlight? ==>
                 w != worker && w in s.workers && s.workers[w] == t.workers[w])
            && (forall r :: r in s.outbox && r != s.workers[worker].row ==> t.outbox[r] == s.outbox[r])
            && (s.workers[worker].row in s.outbox ==>
                 RowAfter(s.outbox[s.workers[worker].row], t.outbox[s.workers[worker].row])))
  {
  }

  lemma FinishStep(s: State, worker: nat, outcome: Outcome, start: Time, saved: bool)
    requires DeliveryInv(s)
    ensures var t := ApplyFinish(s, worker, outcome, start, saved); DeliveryInv(t) && FinalRowsKept(s, t)
  {
    hide ApplyFinish;
    var t := ApplyFinish(s, worker, outcome, start, saved);
    FinishParts(s, worker, outcome, start, saved);
    if CanFinish(s, worker, start) {
      var mine := s.workers[worker];
      assert WorkerOk(s, mine);
      forall w | w in t.workers && t.workers[w].InFlight? ensures WorkerOk(t, t.workers[w]) {
        assert WorkerOk(s, s.workers[w]);
      }
      forall r | r in t.outbox ensures RowOk(t, t.outbox[r]) {
        assert RowOk(s, s.outbox[r]);
      }
    }
  }

  lemma QuietStep(s: State, t: State)
    requires DeliveryInv(s)
    requires t.outbox == s.outbox && s.challenges.Keys <= t.challenges.Keys && s.now <= t.now
    requires forall w :: w in t.workers && t.workers[w].InFlight? ==> w in s.workers && s.workers[w] == t.workers[w]
    ensures DeliveryInv(t) && FinalRowsKept(s, t)
  {
    forall w | w in t.workers && t.workers[w].InFlight? ensures WorkerOk(t, t.workers[w]) {
      assert WorkerOk(s, s.workers[w]);
    }
    forall r | r in t.outbox ensures RowOk(t, t.outbox[r]) {
      assert RowOk(s, s.outbox[r]);
    }
  }

  /** A new row changes nothing for the old ones. */
  lemma InsertStep(s: State, t: State, row: nat)
    requires DeliveryInv(s) && row !in s.outbox && row in t.outbox
    requires t.outbox == s.outbox[row := t.outbox[row]] && RowOk(t, t.outbox[row])
    requires s.challenges.Keys <= t.challenges.Keys && t.now == s.now && t.workers == s.workers
    ensures DeliveryInv(t) && FinalRowsKept(s, t)
  {
    forall w | w in t.workers && t.workers[w].InFlight? ensures WorkerOk(t, t.workers[w]) {
      assert WorkerOk(s, s.workers[w]);
    }
    forall r | r in t.outbox ensures RowOk(t, t.outbox[r]) {
      if r != row { assert RowOk(s, s.outbox[r]); }
    }
  }

  lemma CommitStep(env: Environment, s: State, call: nat, row: nat)
    requires DeliveryInv(s)
    ensures var t := ApplyCommit(env, s, call, row); DeliveryInv(t) && FinalRowsKept(s, t)
  {
    var t := ApplyCommit(env, s, call, row);
    if t.outbox == s.outbox && t.challenges == s.challenges { QuietStep(s, t); } else { InsertStep(s, t, row); }
  }

  lemma SendTestStep(s: State, row: nat, recipient: string, outcome: Outcome)
    requires DeliveryInv(s)
    ensures var t := ApplySendTest(s, row, recipient, outcome); DeliveryInv(t) && FinalRowsKept(s, t)
  {
    var t := ApplySendTest(s, row, recipient, outcome);
    if row in s.outbox { QuietStep(s, t); } else { InsertStep(s, t, row); }
  }

  /** Events that touch no outbox row and claim nothing. */
  predicate Quiet(e: Event) {
    !e.Claim? && !e.Finish? && !e.Crash? && !e.EnqueueCommit? && !e.SendTest?
  }

  lemma QuietEvent(env: Environment, s: State, e: Event)
    requires Quiet(e)
    ensures var t := Apply(env, s, e);
      && t.outbox == s.outbox && s.challenges.Keys <= t.challenges.Keys && s.now <= t.now
      && (forall w :: w in t.workers ==> w in s.workers && s.workers[w] == t.workers[w])
      && (forall w :: w in s.workers && s.workers[w].InFlight? ==> w in t.workers)
  {
    match e
    case Verify(id, purpose, code, user, start, saved) =>
      assert Apply(env, s, e) == ApplyVerify(env, s, id, purpose, code, user, start, saved);
    case FailChallenge(worker, saved) =>
      assert Apply(env, s, e) == ApplyFailChallenge(s, worker, saved);
    case _ =>
  }

  lemma DeliveryStep(env: Environment, s: State, e: Event)
    requires DeliveryInv(s) && LeaseHolds(s)
    ensures DeliveryInv(Apply(env, s, e)) && FinalRowsKept(s, Apply(env, s, e))
  {
    if Quiet(e) {
      QuietEvent(env, s, e);
      QuietStep(s, Apply(env, s, e));
    } else {
      match e
      case Claim(worker, start, skip) => ClaimStep(s, worker, start, skip);
      case Finish(worker, outcome, start, saved) => FinishStep(s, worker, outcome, start, saved);
      case EnqueueCommit(call, row) => CommitStep(env, s, call, row);
      case SendTest(row, recipient, outcome) => SendTestStep(s, row, recipient, outcome);
      case Crash(worker) => QuietStep(s, s.(workers := s.workers - {worker}));
    }
  }

  lemma {:induction false} DeliveryInvHolds(env: Environment, es: seq<Event>)
    requires LeaseKept(env, es)
    ensures DeliveryInv(After(env, es))
  {
    if es == [] {
    } else {
      LeasePrefix(env, es, |es| - 1);
      DeliveryInvHolds(env, es[..|es| - 1]);
      DeliveryStep(env, After(env, es[..|es| - 1]), es[|es| - 1]);
    }
  }

  predicate WorksOn(s: State, w: nat, r: nat) {
    w in s.workers && s.workers[w].InFlight? && s.workers[w].row == r
  }

  /**
   At most one worker is in flight for a row; it works on a `sending` row whose challenge it
   carries.  Every queued or sending row has its payload and an existing challenge, so the claim
   never scans a NULL and the worker never opens a missing payload.
   */
  lemma OneWorkerPerRow(env: Environment, es: seq<Event>, v: nat, w: nat, r: nat)
    requires LeaseKept(env, es)
    ensures var s := After(env, es);
      && (WorksOn(s, v, r) && WorksOn(s, w, r) ==> v == w)
      && (v in s.workers && s.workers[v].InFlight? ==>
            s.workers[v].row in s.outbox && s.outbox[s.workers[v].row].status.OutboxSending?
            && s.outbox[s.workers[v].row].challenge == Some(s.workers[v].challenge))
      && (r in s.outbox && s.outbox[r].Pending() ==>
            s.outbox[r].payload.Some? && s.outbox[r].challenge.Some? && s.outbox[r].challenge.value in s.challenges)
      && (r in s.outbox && !s.outbox[r].Pending() ==> s.outbox[r].payload.None?)
  {
    DeliveryInvHolds(env, es);
    var s := After(env, es);
    if v in s.workers && s.workers[v].InFlight? { assert WorkerOk(s, s.workers[v]); }
    if r in s.outbox { assert RowOk(s, s.outbox[r]); }
  }

  /** A row that was sent or failed never becomes pending again and is never written again. */
  lemma {:induction false} FinalRowsStay(env: Environment, es: seq<Event>, more: seq<Event>, r: nat)
    requires LeaseKept(env, es + more)
    requires r in After(env, es).outbox && !After(env, es).outbox[r].Pending()
    ensures r in After(env, es + more).outbox && After(env, es + more).outbox[r] == After(env, es).outbox[r]
    decreases |more|
  {
    hide Apply, DeliveryInv, LeaseHolds;
    if more == [] {
      assert es + more == es;
    } else {
      var shorter := more[..|more| - 1];
      assert (es + more)[..|es + more| - 1] == es + shorter;
      LeasePrefix(env, es + more, |es + more| - 1);
      FinalRowsStay(env, es, shorter, r);
      DeliveryInvHolds(env, es + shorter);
      DeliveryStep(env, After(env, es + shorter), more[|more| - 1]);
    }
  }

  // ---------- Counting deliveries ----------

  /** The event claims row `r`. */
  predicate ClaimsRow(s: State, e: Event, r: nat) {
    && e.Claim? && e.worker !in s.workers && e.start <= s.now
    && Eligible(s.outbox, e.start, e.skip) != {}
    && Least(Eligible(s.outbox, e.start, e.skip)) == r
    && s.outbox[r].challenge.Some?
  }

  /** The worker on row `r` dies, or the update that should record its outcome is lost. */
  predicate LosesOutcome(s: State, e: Event, r: nat) {
    || (e.Crash? && WorksOn(s, e.worker, r))
    || (e.Finish? && !e.saved && CanFinish(s, e.worker, e.start) && WorksOn(s, e.worker, r))
  }

  /** The start times of the claims of one row, and how many of them ended without an outcome. */
  datatype Trail = Trail(claims: seq<Time>, lost: nat)

  function Extend(t: Trail, s: State, e: Event, r: nat): Trail {
    Trail(if ClaimsRow(s, e, r) then t.claims + [e.start] else t.claims,
          if LosesOutcome(s, e, r) then t.lost + 1 else t.lost)
  }

  function TrailOf(env: Environment, es: seq<Event>, r: nat): Trail {
    if es == [] then Trail([], 0)
    else Extend(TrailOf(env, es[..|es| - 1], r), After(env, es[..|es| - 1]), es[|es| - 1], r)
  }

  /** The least time from claim number `k` to the next: 15, 30, 60 s and then the lease. */
  function Gap(k: nat): Time
    requires k >= 1
  {
    if k < MAX_DELIVERIES then Backoff(k) else LEASE
  }

  lemma GapValues()
    ensures Gap(1) == 15 * SECOND && Gap(2) == 30 * SECOND && Gap(3) == 60 * SECOND
    ensures forall k: nat :: k >= 1 ==> 15 * SECOND <= Gap(k) <= LEASE
  {
    assert PowerOfTwo(0) == 1 && PowerOfTwo(1) == 2 && PowerOfTwo(2) == 4;
    forall k: nat | k >= 1 ensures 15 * SECOND <= Gap(k) <= LEASE {
      assert k == 1 || k == 2 || k == 3 || k >= 4;
    }
  }

  predicate SpacedClaims(claims: seq<Time>) {
    forall i :: 0 < i < |claims| ==> claims[i - 1] + Gap(i) <= claims[i]
  }

  ghost predicate Busy(s: State, r: nat) { exists w :: WorksOn(s, w, r) }

  ghost predicate TrailOk(s: State, r: nat, t: Trail) {
    if r !in s.outbox then t == Trail([], 0)
    else
      var row := s.outbox[r];
      var n := |t.claims|;
      && SpacedClaims(t.claims)
      && (if row.challenge.Some? then row.attempts == n else n == 0)
      && (row.status.OutboxQueued? ==> row.attempts < MAX_DELIVERIES)
      && (row.status.OutboxSending? && !Busy(s, r) ==> row.attempts < MAX_DELIVERIES + t.lost)
      && n <= MAX_DELIVERIES + t.lost
      && (row.Pending() && n > 0 ==> t.claims[n - 1] + Gap(n) <= row.nextAttemptAt)
      && (row.status.OutboxSending? ==> n > 0)
      && (forall w :: WorksOn(s, w, r) ==> n > 0 && s.workers[w].claimedAt == t.claims[n - 1])
  }

  /** No worker holds a row that is not `sending`, or whose lease has run out. */
  lemma Idle(s: State, r: nat)
    requires DeliveryInv(s) && LeaseHolds(s)
    requires r !in s.outbox || !s.outbox[r].status.OutboxSending? || s.outbox[r].nextAttemptAt <= s.now
    ensures forall w :: !WorksOn(s, w, r)
  {
    forall w ensures !WorksOn(s, w, r) {
      if w in s.workers && s.workers[w].InFlight? { assert WorkerOk(s, s.workers[w]); }
    }
  }

  /** An event that neither claims nor ends a delivery of row `r`. */
  lemma TrailQuiet(s: State, u: State, r: nat, t: Trail)
    requires TrailOk(s, r, t)
    requires r in s.outbox ==> r in u.outbox && u.outbox[r] == s.outbox[r]
    requires r !in s.outbox ==> forall w :: !WorksOn(s, w, r)
    requires r !in s.outbox && r in u.outbox ==>
      (u.outbox[r].attempts == 0 && u.outbox[r].status.OutboxQueued?)
        || (!u.outbox[r].Pending() && u.outbox[r].challenge.None?)
    requires forall w :: WorksOn(u, w, r) <==> WorksOn(s, w, r)
    requires forall w :: WorksOn(u, w, r) ==> w in s.workers && u.workers[w] == s.workers[w]
    ensures TrailOk(u, r, t)
  {
    assert Busy(u, r) == Busy(s, r);
  }

  lemma TrailClaimMine(s: State, e: Event, r: nat, t: Trail)
    requires e.Claim? && DeliveryInv(s) && LeaseHolds(s) && TrailOk(s, r, t) && ClaimsRow(s, e, r)
    ensures TrailOk(ApplyClaim(s, e.worker, e.start, e.skip), r, Extend(t, s, e, r))
  {
    var u := ApplyClaim(s, e.worker, e.start, e.skip);
    var row := s.outbox[r];
    assert RowOk(s, row);
    Idle(s, r);
    assert !Busy(s, r);
    assert u.outbox[r] == row.(status := OutboxSending, attempts := row.attempts + 1, nextAttemptAt := e.start + LEASE);
    assert forall w :: WorksOn(u, w, r) ==> w == e.worker;
    assert WorksOn(u, e.worker, r) && Busy(u, r);
    GapValues();
    assert Gap(|t.claims| + 1) <= LEASE;
  }

  lemma TrailClaim(s: State, e: Event, r: nat, t: Trail)
    requires e.Claim? && DeliveryInv(s) && LeaseHolds(s) && TrailOk(s, r, t)
    ensures TrailOk(ApplyClaim(s, e.worker, e.start, e.skip), r, Extend(t, s, e, r))
  {
    if ClaimsRow(s, e, r) {
      TrailClaimMine(s, e, r, t);
    } else {
      if r !in s.outbox { Idle(s, r); }
      TrailQuiet(s, ApplyClaim(s, e.worker, e.start, e.skip), r, t);
    }
  }

  lemma TrailFinishMine(s: State, e: Event, r: nat, t: Trail)
    requires e.Finish? && DeliveryInv(s) && TrailOk(s, r, t) && CanFinish(s, e.worker, e.start)
      && WorksOn(s, e.worker, r)
    ensures TrailOk(ApplyFinish(s, e.worker, e.outcome, e.start, e.saved), r, Extend(t, s, e, r))
  {
    var u := ApplyFinish(s, e.worker, e.outcome, e.start, e.saved);
    assert WorkerOk(s, s.workers[e.worker]);
    assert forall w :: !WorksOn(u, w, r);
    assert !Busy(u, r);
  }

  lemma TrailFinish(s: State, e: Event, r: nat, t: Trail)
    requires e.Finish? && DeliveryInv(s) && LeaseHolds(s) && TrailOk(s, r, t)
    ensures TrailOk(ApplyFinish(s, e.worker, e.outcome, e.start, e.saved), r, Extend(t, s, e, r))
  {
    if CanFinish(s, e.worker, e.start) && WorksOn(s, e.worker, r) {
      TrailFinishMine(s, e, r, t);
    } else {
      if r !in s.outbox { Idle(s, r); }
      TrailQuiet(s, ApplyFinish(s, e.worker, e.outcome, e.start, e.saved), r, t);
    }
  }

  lemma TrailCrash(s: State, e: Event, r: nat, t: Trail)
    requires e.Crash? && DeliveryInv(s) && LeaseHolds(s) && TrailOk(s, r, t)
    ensures TrailOk(s.(workers := s.workers - {e.worker}), r, Extend(t, s, e, r))
  {
    var u := s.(workers := s.workers - {e.worker});
    if WorksOn(s, e.worker, r) {
      assert WorkerOk(s, s.workers[e.worker]);
      assert forall w :: !WorksOn(u, w, r);
      assert !Busy(u, r);
    } else {
      if r !in s.outbox { Idle(s, r); }
      TrailQuiet(s, u, r, t);
    }
  }

  lemma TrailStep(env: Environment, s: State, e: Event, r: nat, t: Trail)
    requires DeliveryInv(s) && LeaseHolds(s) && TrailOk(s, r, t)
    ensures TrailOk(Apply(env, s, e), r, Extend(t, s, e, r))
  {
    hide TrailOk, ApplyClaim, ApplyFinish, LeaseHolds, WorkerOk, RowOk;
    if r !in s.outbox { Idle(s, r); }
    if Quiet(e) {
      QuietEvent(env, s, e);
      TrailQuiet(s, Apply(env, s, e), r, t);
    } else {
      match e
      case Claim(_, _, _) => TrailClaim(s, e, r, t);
      case Finish(_, _, _, _) => TrailFinish(s, e, r, t);
      case Crash(_) => TrailCrash(s, e, r, t);
      case EnqueueCommit(call, row) => TrailQuiet(s, ApplyCommit(env, s, call, row), r, t);
      case SendTest(row, recipient, outcome) => TrailQuiet(s, ApplySendTest(s, row, recipient, outcome), r, t);
    }
  }

  lemma {:induction false} TrailHolds(env: Environment, es: seq<Event>, r: nat)
    requires LeaseKept(env, es)
    ensures TrailOk(After(env, es), r, TrailOf(env, es, r))
  {
    if es == [] {
    } else {
      LeasePrefix(env, es, |es| - 1);
      TrailHolds(env, es[..|es| - 1], r);
      DeliveryInvHolds(env, es[..|es| - 1]);
      TrailStep(env, After(env, es[..|es| - 1]), es[|es| - 1], r, TrailOf(env, es[..|es| - 1], r));
    }
  }

  /**
   The delivery attempts of a row: the stored count is the number of claims, at most four more
   than the number of lost outcomes, and successive claims are at least 15, 30 and 60 s apart
   and 60 s after that, whether or not workers crash.
   */
  lemma DeliveriesBounded(env: Environment, es: seq<Event>, r: nat)
    requires LeaseKept(env, es) && r in After(env, es).outbox
    ensures var row := After(env, es).outbox[r]; var t := TrailOf(env, es, r);
      && (row.challenge.Some? ==> row.attempts == |t.claims|)
      && |t.claims| <= MAX_DELIVERIES + t.lost
      && forall i :: 0 < i < |t.claims| ==> t.claims[i - 1] + Gap(i) <= t.claims[i]
  {
    TrailHolds(env, es, r);
  }

  /**
   Progress without crashes and lost updates: a row is claimed at most four times, a waiting row
   has a delivery left, and a row that no worker holds after its fourth claim is sent or failed.
   So four less the attempts falls with every claim and is positive while the row waits.
   */
  lemma ProgressWithoutLoss(env: Environment, es: seq<Event>, r: nat)
    requires LeaseKept(env, es) && r in After(env, es).outbox && TrailOf(env, es, r).lost == 0
    ensures var s := After(env, es); var n := |TrailOf(env, es, r).claims|;
      && n <= MAX_DELIVERIES
      && (s.outbox[r].Pending() && (forall w :: !WorksOn(s, w, r)) ==>
           s.outbox[r].attempts == n && MAX_DELIVERIES - n > 0)
  {
    TrailHolds(env, es, r);
    DeliveryInvHolds(env, es);
    assert RowOk(After(env, es), After(env, es).outbox[r]);
  }

  /** With any number of crashes, in any state of any run, the backoff doubles at most twice. */
  lemma BackoffShiftBounded(attempts: int, outcome: Outcome)
    requires attempts >= 1 && Decide(attempts, outcome).Retry?
    ensures 0 <= attempts - 1 <= 2
    ensures Backoff(attempts) in {15 * SECOND, 30 * SECOND, 60 * SECOND}
  {
    GapValues();
    assert Gap(attempts) == Backoff(attempts);
  }
}
