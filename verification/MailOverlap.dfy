/**
 The bound of `MailSources` is reached: nine requests of a source one after another and then k at
 once.  So the documented limit of ten is met with at most k overlapping transactions exactly when
 k is at most one.
 */
module MailOverlap {
  import opened Wrappers
  import opened MailModel
  import opened MailEnqueue
  import opened MailSources

  predicate DifferentLocks(env: Environment, r: EnqueueRequest, q: EnqueueRequest) {
    r.id != q.id && KeyOf(env, r) != KeyOf(env, q)
  }

  /** Requests from one source, with different identifiers, for addresses with different locks. */
  predicate FromOneSource(env: Environment, requests: seq<EnqueueRequest>, source: int) {
    && (forall i :: 0 <= i < |requests| ==> requests[i].source == source)
    && (forall i, j :: 0 <= i < j < |requests| ==> DifferentLocks(env, requests[i], requests[j]))
  }

  // ---------- The transactions and challenges of the run ----------

  /** The call has read its counts, and they admit it. */
  predicate Ready(env: Environment, c: Call, r: EnqueueRequest) {
    c.request == r && c.start == env.epoch && c.phase.SourceCounted? && !RateLimited(c.phase)
  }

  /** Requests from number `done` up to `begun` wait to commit, each with its lock. */
  ghost predicate Waiting(env: Environment, s: State, requests: seq<EnqueueRequest>, done: nat, begun: nat)
    requires done <= begun <= |requests|
  {
    && |s.calls| == begun - done
    && (forall i :: i in s.calls <==> done <= i < begun)
    && (forall i :: done <= i < begun ==> Ready(env, s.calls[i], requests[i]))
    && (forall key :: key in s.locks ==>
          done <= s.locks[key] < begun && key == KeyOf(env, requests[s.locks[key]]))
  }

  /** A committed challenge shares neither identifier nor address with a request that is still to come. */
  predicate Apart(env: Environment, id: string, c: Challenge, r: EnqueueRequest) {
    id != r.id && env.fold(c.email) != env.fold(r.email)
  }

  /** The first `done` requests are committed, all with the creation time of the epoch. */
  ghost predicate Written(env: Environment, s: State, requests: seq<EnqueueRequest>, source: int, done: nat)
    requires done <= |requests|
  {
    && |s.challenges| == done
    && (forall r :: r in s.outbox ==> r < done)
    && (forall id :: id in s.challenges ==>
          s.challenges[id].source == source && s.challenges[id].createdAt == env.epoch)
    && (forall id, i :: id in s.challenges && done <= i < |requests| ==>
          Apart(env, id, s.challenges[id], requests[i]))
  }

  ghost predicate Progress(
    env: Environment, s: State, requests: seq<EnqueueRequest>, source: int, done: nat, begun: nat)
    requires done <= begun <= |requests|
  {
    s.now == env.epoch && Waiting(env, s, requests, done, begun) && Written(env, s, requests, source, done)
  }

  // ---------- One request begins, takes its lock and reads its counts ----------

  lemma TakesLock(env: Environment, s: State, n: nat, r: EnqueueRequest)
    requires s.now == env.epoch && n !in s.calls && KeyOf(env, r) !in s.locks
    ensures var a := Apply(env, s, EnqueueBegin(n, r));
      && a == s.(calls := s.calls[n := Call(r, env.epoch, Begun)])
      && Apply(env, a, EnqueueLock(n))
         == s.(calls := s.calls[n := Call(r, env.epoch, Locked)], locks := s.locks[KeyOf(env, r) := n])
  {
    hide KeyOf;
  }

  /** No challenge has the address, and there are few of the source. */
  ghost predicate CountsAdmit(env: Environment, s: State, r: EnqueueRequest) {
    && (forall id :: id in s.challenges ==> env.fold(s.challenges[id].email) != env.fold(r.email))
    && |s.challenges| < MAX_PER_SOURCE
  }

  lemma SameCountsAdmit(env: Environment, s: State, u: State, r: EnqueueRequest)
    requires CountsAdmit(env, s, r) && u.challenges == s.challenges
    ensures CountsAdmit(env, u, r)
  {
  }

  lemma ReadsCounts(env: Environment, s: State, n: nat, r: EnqueueRequest)
    requires n in s.calls && s.calls[n] == Call(r, env.epoch, Locked) && CountsAdmit(env, s, r)
    ensures var b := Apply(env, s, EnqueueCountEmail(n)); var c := Apply(env, b, EnqueueCountSource(n));
      && b.calls.Keys == s.calls.Keys
      && c == s.(calls := c.calls) && n in c.calls && c.calls == s.calls[n := c.calls[n]]
      && Ready(env, c.calls[n], r)
  {
    var folded := env.fold(r.email);
    assert CreatedAfter(env, s.challenges, folded, env.epoch - RESEND_GAP) == {};
    assert CreatedAfter(env, s.challenges, folded, env.epoch - HOUR) == {};
    Subset(FromSource(s.challenges, r.source, env.epoch - HOUR), s.challenges.Keys);
  }

  // ---------- Runs with few transactions in progress ----------

  lemma FewInProgress(s: State, source: int)
    ensures |InProgress(s.calls, source)| <= |s.calls|
  {
    Subset(InProgress(s.calls, source), s.calls.Keys);
  }

  lemma OverlapExtends(env: Environment, es: seq<Event>, e: Event, source: int, k: nat)
    requires OverlapKept(env, es, source, k) && |Apply(env, After(env, es), e).calls| <= k
    ensures OverlapKept(env, es + [e], source, k)
    ensures After(env, es + [e]) == Apply(env, After(env, es), e)
  {
    hide After, Apply, InProgress;
    OneMore(env, es, e);
    FewInProgress(After(env, es + [e]), source);
    forall i | 0 <= i <= |es + [e]| ensures |InProgress(After(env, (es + [e])[..i]).calls, source)| <= k {
      if i <= |es| {
        assert (es + [e])[..i] == es[..i];
      } else {
        assert (es + [e])[..i] == es + [e];
      }
    }
  }

  lemma SameSize(a: map<nat, Call>, b: map<nat, Call>)
    requires a.Keys == b.Keys
    ensures |a| == |b|
  {
    assert |a| == |a.Keys| && |b| == |b.Keys|;
  }

  lemma AddCall(calls: map<nat, Call>, n: nat, c: Call)
    ensures |calls[n := c]| == |calls| + (if n in calls then 0 else 1)
  {
    assert calls[n := c].Keys == calls.Keys + {n};
  }

  /** What one request needs to be counted and admitted: its number, its lock and its address are free. */
  lemma NextIsFree(
    env: Environment, s: State, requests: seq<EnqueueRequest>, source: int, done: nat, begun: nat)
    requires FromOneSource(env, requests, source) && done <= begun < |requests| && done < MAX_PER_SOURCE
    requires Progress(env, s, requests, source, done, begun)
    ensures begun !in s.calls && KeyOf(env, requests[begun]) !in s.locks && CountsAdmit(env, s, requests[begun])
  {
    hide Ready, KeyOf;
    forall id | id in s.challenges ensures env.fold(s.challenges[id].email) != env.fold(requests[begun].email) {
      assert Apart(env, id, s.challenges[id], requests[begun]);
    }
    forall key | key in s.locks ensures key != KeyOf(env, requests[begun]) {
      assert DifferentLocks(env, requests[s.locks[key]], requests[begun]);
    }
  }

  lemma OneMoreWaits(
    env: Environment, s: State, u: State, requests: seq<EnqueueRequest>, done: nat, begun: nat)
    requires done <= begun < |requests| && Waiting(env, s, requests, done, begun)
    requires begun in u.calls && u.calls == s.calls[begun := u.calls[begun]]
      && Ready(env, u.calls[begun], requests[begun])
    requires u.locks == s.locks[KeyOf(env, requests[begun]) := begun]
    ensures Waiting(env, u, requests, done, begun + 1)
  {
    hide Ready, KeyOf;
    AddCall(s.calls, begun, u.calls[begun]);
  }

  lemma CountOne(
    env: Environment, es: seq<Event>, requests: seq<EnqueueRequest>, source: int, done: nat, begun: nat, k: nat)
    returns (more: seq<Event>)
    requires FromOneSource(env, requests, source) && done <= begun < |requests|
    requires done < MAX_PER_SOURCE && begun - done < k
    requires Progress(env, After(env, es), requests, source, done, begun) && OverlapKept(env, es, source, k)
    ensures Progress(env, After(env, more), requests, source, done, begun + 1) && OverlapKept(env, more, source, k)
  {
    hide After, Apply, FromOneSource, Ready, CountsAdmit, KeyOf, OverlapKept, Apart;
    var s, r := After(env, es), requests[begun];
    NextIsFree(env, s, requests, source, done, begun);
    TakesLock(env, s, begun, r);
    AddCall(s.calls, begun, Call(r, env.epoch, Begun));
    AddCall(s.calls, begun, Call(r, env.epoch, Locked));
    OverlapExtends(env, es, EnqueueBegin(begun, r), source, k);
    var a := es + [EnqueueBegin(begun, r)];
    OverlapExtends(env, a, EnqueueLock(begun), source, k);
    var b := a + [EnqueueLock(begun)];
    SameCountsAdmit(env, s, After(env, b), r);
    ReadsCounts(env, After(env, b), begun, r);
    SameSize(After(env, b).calls, Apply(env, After(env, b), EnqueueCountEmail(begun)).calls);
    OverlapExtends(env, b, EnqueueCountEmail(begun), source, k);
    var c := b + [EnqueueCountEmail(begun)];
    AddCall(After(env, b).calls, begun, Apply(env, After(env, c), EnqueueCountSource(begun)).calls[begun]);
    OverlapExtends(env, c, EnqueueCountSource(begun), source, k);
    more := c + [EnqueueCountSource(begun)];
    assert After(env, more).calls == s.calls[begun := After(env, more).calls[begun]];
    OneMoreWaits(env, s, After(env, more), requests, done, begun);
  }

  // ---------- One request commits ----------

  lemma CommitPasses(env: Environment, s: State, n: nat, r: EnqueueRequest)
    requires n in s.calls && Ready(env, s.calls[n], r) && r.id !in s.challenges && n !in s.outbox
    ensures var u := Apply(env, s, EnqueueCommit(n, n));
      && u.now == s.now && u.calls == s.calls - {n} && u.outbox == s.outbox[n := NewOutboxRow(r, env.epoch)]
      && u.challenges == s.challenges[r.id := NewChallenge(env, r, env.epoch)]
      && (forall key :: key in u.locks ==> key in s.locks && u.locks[key] == s.locks[key] != n)
  {
    hide NewChallenge, NewOutboxRow, RateLimited;
  }

  lemma RemoveCall(calls: map<nat, Call>, n: nat)
    requires n in calls
    ensures |calls - {n}| == |calls| - 1
  {
    assert (calls - {n}).Keys == calls.Keys - {n};
  }

  lemma OneLessWaits(
    env: Environment, s: State, u: State, requests: seq<EnqueueRequest>, done: nat, begun: nat)
    requires done < begun <= |requests| && Waiting(env, s, requests, done, begun)
    requires u.calls == s.calls - {done}
    requires forall key :: key in u.locks ==> key in s.locks && u.locks[key] == s.locks[key] != done
    ensures Waiting(env, u, requests, done + 1, begun)
  {
    hide Ready, KeyOf;
    RemoveCall(s.calls, done);
    assert forall i :: i in u.calls <==> i in s.calls && i != done;
    forall i | done + 1 <= i < begun ensures Ready(env, u.calls[i], requests[i]) {
      assert u.calls[i] == s.calls[i];
    }
  }

  lemma Grows(challenges: map<string, Challenge>, id: string, c: Challenge)
    requires id !in challenges
    ensures |challenges[id := c]| == |challenges| + 1
  {
    assert challenges[id := c].Keys == challenges.Keys + {id};
  }

  lemma NewIsApart(env: Environment, requests: seq<EnqueueRequest>, source: int, done: nat, i: nat)
    requires FromOneSource(env, requests, source) && done < i < |requests|
    ensures Apart(env, requests[done].id, NewChallenge(env, requests[done], env.epoch), requests[i])
  {
    assert DifferentLocks(env, requests[done], requests[i]);
  }

  lemma NewIs(env: Environment, requests: seq<EnqueueRequest>, source: int, done: nat)
    requires FromOneSource(env, requests, source) && done < |requests|
    ensures var c := NewChallenge(env, requests[done], env.epoch); c.source == source && c.createdAt == env.epoch
  {
  }

  lemma OneMoreWritten(
    env: Environment, s: State, u: State, requests: seq<EnqueueRequest>, source: int, done: nat)
    requires FromOneSource(env, requests, source) && done < |requests|
    requires Written(env, s, requests, source, done) && requests[done].id !in s.challenges
    requires u.challenges == s.challenges[requests[done].id := NewChallenge(env, requests[done], env.epoch)]
    requires u.outbox == s.outbox[done := NewOutboxRow(requests[done], env.epoch)]
    ensures Written(env, u, requests, source, done + 1)
  {
    hide FromOneSource, NewChallenge, NewOutboxRow, Apart;
    Grows(s.challenges, requests[done].id, NewChallenge(env, requests[done], env.epoch));
    NewIs(env, requests, source, done);
    forall id, i | id in u.challenges && done < i < |requests|
      ensures Apart(env, id, u.challenges[id], requests[i])
    {
      NewIsApart(env, requests, source, done, i);
    }
  }

  lemma NextIsNew(env: Environment, s: State, requests: seq<EnqueueRequest>, source: int, done: nat)
    requires done < |requests| && Written(env, s, requests, source, done)
    ensures requests[done].id !in s.challenges && done !in s.outbox
  {
    forall id | id in s.challenges ensures id != requests[done].id {
      assert Apart(env, id, s.challenges[id], requests[done]);
    }
  }

  lemma CommitOne(
    env: Environment, es: seq<Event>, requests: seq<EnqueueRequest>, source: int, done: nat, begun: nat, k: nat)
    returns (more: seq<Event>)
    requires FromOneSource(env, requests, source) && done < begun <= |requests| && begun - done <= k
    requires Progress(env, After(env, es), requests, source, done, begun) && OverlapKept(env, es, source, k)
    ensures Progress(env, After(env, more), requests, source, done + 1, begun) && OverlapKept(env, more, source, k)
  {
    hide After, Apply, FromOneSource, Ready, KeyOf, OverlapKept;
    var s, e := After(env, es), EnqueueCommit(done, done);
    NextIsNew(env, s, requests, source, done);
    hide Written;
    CommitPasses(env, s, done, requests[done]);
    OneLessWaits(env, s, Apply(env, s, e), requests, done, begun);
    OneMoreWritten(env, s, Apply(env, s, e), requests, source, done);
    OverlapExtends(env, es, e, source, k);
    more := es + [e];
  }

  // ---------- The run ----------

  lemma Start(env: Environment, requests: seq<EnqueueRequest>, source: int, k: nat)
    ensures Progress(env, After(env, []), requests, source, 0, 0) && OverlapKept(env, [], source, k)
  {
    var es: seq<Event> := [];
    assert InProgress(After(env, es).calls, source) == {};
    assert es[..0] == es;
  }

  /** The first n requests one after another. */
  lemma {:induction false} OneByOne(
    env: Environment, requests: seq<EnqueueRequest>, source: int, n: nat, k: nat) returns (es: seq<Event>)
    requires FromOneSource(env, requests, source) && n <= |requests| && n < MAX_PER_SOURCE && k > 0
    ensures Progress(env, After(env, es), requests, source, n, n) && OverlapKept(env, es, source, k)
  {
    hide After, FromOneSource, Progress, OverlapKept;
    if n == 0 {
      es := [];
      Start(env, requests, source, k);
    } else {
      var before := OneByOne(env, requests, source, n - 1, k);
      var counted := CountOne(env, before, requests, source, n - 1, n - 1, k);
      es := CommitOne(env, counted, requests, source, n - 1, n, k);
    }
  }

  /** After the first n, the next m begin and are counted before any of them commits. */
  lemma {:induction false} CountTogether(
    env: Environment, requests: seq<EnqueueRequest>, source: int, n: nat, m: nat, k: nat) returns (es: seq<Event>)
    requires FromOneSource(env, requests, source) && n + m <= |requests| && n < MAX_PER_SOURCE && m <= k && k > 0
    ensures Progress(env, After(env, es), requests, source, n, n + m) && OverlapKept(env, es, source, k)
    decreases m
  {
    hide After, FromOneSource, Progress, OverlapKept;
    if m == 0 {
      es := OneByOne(env, requests, source, n, k);
    } else {
      var before := CountTogether(env, requests, source, n, m - 1, k);
      es := CountOne(env, before, requests, source, n, n + m - 1, k);
    }
  }

  /** Of the k that were counted together, the first m commit. */
  lemma {:induction false} CommitTogether(
    env: Environment, requests: seq<EnqueueRequest>, source: int, n: nat, m: nat, k: nat) returns (es: seq<Event>)
    requires FromOneSource(env, requests, source) && n + k <= |requests| && n < MAX_PER_SOURCE && m <= k && k > 0
    ensures Progress(env, After(env, es), requests, source, n + m, n + k) && OverlapKept(env, es, source, k)
    decreases m
  {
    hide After, FromOneSource, Progress, OverlapKept;
    if m == 0 {
      es := CountTogether(env, requests, source, n, k, k);
    } else {
      var before := CommitTogether(env, requests, source, n, m - 1, k);
      es := CommitOne(env, before, requests, source, n + m - 1, n + k, k);
    }
  }

  // ---------- Main results ----------

  /** The bound 9 + k is reached by a run with at most k transactions of the source in progress. */
  lemma OverlapReached(env: Environment, requests: seq<EnqueueRequest>, source: int, k: nat) returns (es: seq<Event>)
    requires FromOneSource(env, requests, source) && |requests| == MAX_PER_SOURCE - 1 + k && k > 0
    ensures OverlapKept(env, es, source, k)
    ensures |SourceWindow(After(env, es).challenges, source, env.epoch)| == MAX_PER_SOURCE - 1 + k
  {
    hide After, FromOneSource, OverlapKept;
    es := CommitTogether(env, requests, source, MAX_PER_SOURCE - 1, k, k);
    var challenges := After(env, es).challenges;
    assert SourceWindow(challenges, source, env.epoch) == challenges.Keys;
  }

  ghost predicate LimitMet(env: Environment, source: int, k: nat) {
    forall es, t :: OverlapKept(env, es, source, k) ==>
      |SourceWindow(After(env, es).challenges, source, t)| <= MAX_PER_SOURCE
  }

  /**
   Ten challenges per source and hour are guaranteed for runs with at most k overlapping
   transactions of the source exactly when k is at most one, as soon as there are enough addresses
   with different locks.
   */
  lemma LimitMetIff(env: Environment, requests: seq<EnqueueRequest>, source: int, k: nat)
    requires FromOneSource(env, requests, source) && |requests| == MAX_PER_SOURCE - 1 + k
    ensures LimitMet(env, source, k) <==> k <= 1
  {
    if k <= 1 {
      forall es, t | OverlapKept(env, es, source, k)
        ensures |SourceWindow(After(env, es).challenges, source, t)| <= MAX_PER_SOURCE
      {
        SourceInvHolds(env, es, source, t, k);
      }
    } else {
      var es := OverlapReached(env, requests, source, k);
      assert |SourceWindow(After(env, es).challenges, source, env.epoch)| > MAX_PER_SOURCE;
    }
  }

  // ---------- Such requests exist ----------

  function Letters(n: nat): string { seq(n, _ => 'a') }

  /** An environment whose locks tell addresses of different lengths apart. */
  function Simple(): Environment {
    Environment((s: string) => s, (s: string) => |s|, (id: string, code: string) => 0, 0)
  }

  function RequestsFrom(source: int, n: nat): seq<EnqueueRequest> {
    seq(n, i requires 0 <= i < n => EnqueueRequest(Letters(i), "register", None, "", Letters(i), "123456", "", source))
  }

  lemma RequestsExist(source: int, n: nat)
    ensures FromOneSource(Simple(), RequestsFrom(source, n), source) && |RequestsFrom(source, n)| == n
  {
    var requests := RequestsFrom(source, n);
    forall i, j | 0 <= i < j < n ensures DifferentLocks(Simple(), requests[i], requests[j]) {
      assert |requests[i].id| == i && |requests[j].id| == j;
    }
  }

  /** Eleven requests, the last two of them at the same time, are all committed within one hour. */
  lemma ElevenInAnHour(source: int) returns (es: seq<Event>)
    ensures OverlapKept(Simple(), es, source, 2)
    ensures |SourceWindow(After(Simple(), es).challenges, source, Simple().epoch)| == 11
  {
    RequestsExist(source, 11);
    es := OverlapReached(Simple(), RequestsFrom(source, 11), source, 2);
  }
}
