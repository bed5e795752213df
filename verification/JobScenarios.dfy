/** Runs that show where the bounds on one life of a job end: a job that nobody
    can claim any more, and jobs that are over and start again. */
module JobScenarios {
  import opened Digraph
  import opened JobModel
  import opened JobTable
  import opened JobInvariants
  import opened JobRuns

  // ----- runs, one event at a time -----

  ghost function Extended(r: Run, e: Event, now: Time): Run
    requires r.tables != []
  {
    Run(r.tables + [Step(r.tables[|r.tables| - 1], e, now)], r.events + [e], r.times + [now])
  }

  lemma ExtendedValid(r: Run, e: Event, now: Time)
    requires r.Valid() && forall i :: 0 <= i < |r.times| ==> r.times[i] <= now
    requires e.IsClaim() ==> forall i :: 0 <= i < |r.events| && r.events[i].IsClaim() ==> r.events[i].token != e.token
    ensures Extended(r, e, now).Valid()
  {
    var x := Extended(r, e, now);
    forall i | 0 <= i < |x.events| ensures x.tables[i + 1] == Step(x.tables[i], x.events[i], x.times[i]) {
      if i < |r.events| { assert x.tables[i + 1] == r.tables[i + 1]; }
    }
  }

  ghost function Last(r: Run): Table
    requires r.tables != []
  {
    r.tables[|r.tables| - 1]
  }

  /** One job, queued and due, that no dependency holds back. */
  ghost predicate Alone(t: Table, id: Id, now: Time) {
    && t.deps == {} && t.jobs.Keys == {id} && t.jobs[id].id == id
    && t.jobs[id].state.Queued? && t.jobs[id].availableAt <= now
  }

  lemma WithoutEdges(t: Table, now: Time)
    requires t.deps == {}
    ensures Reconciled(t, now) == t
  {
    assert forall p :: |p| >= 2 && IsPath(t.deps, p) ==> (p[0], p[1]) in t.deps;
    assert forall id :: !Doomed(t, id);
    assert Reconciled(t, now).jobs == t.jobs;
  }

  lemma AloneClaimed(t: Table, id: Id, owner: string, token: string, now: Time)
    requires Alone(t, id, now) && t.jobs[id].attempts < t.jobs[id].maxAttempts && ValidClaim(t.jobs[id].target, owner)
    ensures Claimed(t, t.jobs[id].target, owner, token, AnyJob, now) == WithLease(t, id, owner, token, now)
  {
    WithoutEdges(t, now);
    assert ClaimableSet(t, t.jobs[id].target, now) == {id};
    assert Candidates(t, t.jobs[id].target, AnyJob, now) == {id};
    ChosenIs(t, t.jobs[id].target, AnyJob, now, id);
  }

  /** A claim and the revocation of its worker spend one attempt. */
  lemma ClaimAndRevoke(t: Table, id: Id, owner: string, token: string, now: Time) returns (u: Table)
    requires Alone(t, id, now) && t.jobs[id].attempts < t.jobs[id].maxAttempts && ValidClaim(t.jobs[id].target, owner)
    ensures u == Revoked(Claimed(t, t.jobs[id].target, owner, token, AnyJob, now), owner, now)
    ensures Alone(u, id, now) && u.jobs[id].attempts == t.jobs[id].attempts + 1
    ensures u.jobs[id].maxAttempts == t.jobs[id].maxAttempts && u.jobs[id].target == t.jobs[id].target
  {
    AloneClaimed(t, id, owner, token, now);
    u := Revoked(WithLease(t, id, owner, token, now), owner, now);
  }

  function Token(n: nat): string {
    if n == 0 then "" else Token(n - 1) + "t"
  }

  lemma {:induction false} TokenLength(n: nat)
    ensures |Token(n)| == n
  {
    if n > 0 { TokenLength(n - 1); }
  }

  /** All at one time, with tokens no longer than n. */
  ghost predicate Steady(r: Run, now: Time, n: nat) {
    && r.Valid()
    && (forall i :: 0 <= i < |r.times| ==> r.times[i] == now)
    && (forall i :: 0 <= i < |r.events| && r.events[i].IsClaim() ==> |r.events[i].token| <= n)
  }

  lemma ExtendedSteady(r: Run, e: Event, now: Time, n: nat, more: nat) returns (x: Run)
    requires Steady(r, now, n) && n <= more && (e.IsClaim() ==> n < |e.token| <= more)
    ensures Steady(x, now, more) && Last(x) == Step(Last(r), e, now) && x == Extended(r, e, now)
  {
    ExtendedValid(r, e, now);
    x := Extended(r, e, now);
  }

  /** The run so far: the job is alone, n of its attempts spent. */
  ghost predicate Spent(r: Run, spec: Spec, id: Id, now: Time, n: nat)
    requires ValidSpec(spec)
  {
    && Steady(r, now, n) && Alone(Last(r), id, now) && Last(r).jobs[id].attempts == n
    && Last(r).jobs[id].maxAttempts == NewRow(spec, id, now).maxAttempts && Last(r).jobs[id].target == spec.target
  }

  lemma Enqueuing(spec: Spec, id: Id, now: Time) returns (r: Run)
    requires ValidSpec(spec) && spec.id == ZERO_ID && spec.availableAt.None?
    ensures Spent(r, spec, id, now, 0) && |r.events| == 1
  {
    r := ExtendedSteady(Run([EMPTY], [], []), Enqueue(spec, id), now, 0, 0);
    assert Last(r).jobs == map[id := NewRow(spec, id, now)];
  }

  lemma RevocationRuns(s: Run, target: Target, owner: string, token: string, now: Time, n: nat, t: Table, u: Table)
    returns (r: Run)
    requires Steady(s, now, n) && Last(s) == t && |token| == n + 1
    requires u == Revoked(Claimed(t, target, owner, token, AnyJob, now), owner, now)
    ensures Steady(r, now, n + 1) && Last(r) == u
  {
    r := ExtendedSteady(s, Claim(target, owner, token, AnyJob), now, n, n + 1);
    r := ExtendedSteady(r, Revoke(owner), now, n + 1, n + 1);
  }

  lemma OneMoreSpent(s: Run, spec: Spec, id: Id, owner: string, now: Time, n: nat) returns (r: Run)
    requires ValidSpec(spec) && !Blank(owner) && Spent(s, spec, id, now, n) && n < NewRow(spec, id, now).maxAttempts
    ensures Spent(r, spec, id, now, n + 1)
  {
    TokenLength(n + 1);
    var u := ClaimAndRevoke(Last(s), id, owner, Token(n + 1), now);
    r := RevocationRuns(s, spec.target, owner, Token(n + 1), now, n, Last(s), u);
  }

  /** n times in a row the job is claimed and its worker, a new one each time or
      not, revoked. */
  lemma {:induction false} RevokedOver(spec: Spec, id: Id, owners: nat -> string, now: Time, n: nat) returns (r: Run)
    requires ValidSpec(spec) && spec.id == ZERO_ID && spec.availableAt.None? && forall i :: !Blank(owners(i))
    requires n <= NewRow(spec, id, now).maxAttempts
    ensures Spent(r, spec, id, now, n)
  {
    if n == 0 {
      r := Enqueuing(spec, id, now);
    } else {
      var s := RevokedOver(spec, id, owners, now, n - 1);
      r := OneMoreSpent(s, spec, id, owners(n), now, n - 1);
    }
  }

  /** Any job at all can get stuck: revoke its worker in each of its attempts.
      It is queued, nothing is in flight, and no claim will ever take it. */
  lemma RevocationsStrandAJob(spec: Spec, id: Id, owners: nat -> string, now: Time) returns (r: Run)
    requires ValidSpec(spec) && spec.id == ZERO_ID && spec.availableAt.None? && forall i :: !Blank(owners(i))
    ensures r.Valid() && id in Last(r).jobs && Last(r).jobs[id].state.Queued? && NoActiveJob(Last(r))
    ensures forall later: Time :: Reconciled(Last(r), later) == Last(r)
    ensures forall target: Target, later: Time :: !Claimable(Last(r), id, target, later)
  {
    r := RevokedOver(spec, id, owners, now, NewRow(spec, id, now).maxAttempts);
    forall later: Time ensures Reconciled(Last(r), later) == Last(r) { WithoutEdges(Last(r), later); }
  }

  // ----- runs that start over -----

  /** Whatever a run has come to, a request can take any job that is over back
      to the queue, a succeeded dependency of a job in flight included; nothing
      else changes. */
  lemma OverJobReturns(r: Run, id: Id, now: Time) returns (x: Run)
    requires r.Valid() && id in Last(r).jobs && Last(r).jobs[id].state.Terminal()
    requires forall i :: 0 <= i < |r.times| ==> r.times[i] <= now
    ensures x == Extended(r, RequeueSpeech(Last(r).jobs[id].key, true), now) && x.Valid()
    ensures Last(x).jobs == Last(r).jobs[id := RequeueRow(Last(r).jobs[id], now)] && Last(x).deps == Last(r).deps
    ensures x.RequeuedAt(|r.events|, id) && Last(x).jobs[id].state.Queued?
  {
    var e := RequeueSpeech(Last(r).jobs[id].key, true);
    RunTablesValid(r, |r.events|);
    ExtendedValid(r, e, now);
    x := Extended(r, e, now);
    assert forall other :: other in Last(r).jobs && Last(r).jobs[other].key == e.key ==> other == id;
  }

  /** A job in flight can be given any dependency that does not depend on it, one
      that is not succeeded included, and stays in flight. */
  lemma DependencyAddedInFlight(r: Run, id: Id, d: Id, now: Time) returns (x: Run)
    requires r.Valid() && id in Last(r).jobs && d in Last(r).jobs && Last(r).jobs[id].state.Active() && d != id
    requires id != ZERO_ID && d != ZERO_ID && !Reaches(Last(r).deps, d, id)
    requires forall i :: 0 <= i < |r.times| ==> r.times[i] <= now
    ensures x == Extended(r, AddDependency(id, d), now) && x.Valid()
    ensures Last(x).jobs == Last(r).jobs && Last(x).deps == Last(r).deps + {(id, d)}
  {
    ExtendedValid(r, AddDependency(id, d), now);
    x := Extended(r, AddDependency(id, d), now);
  }

  ghost function Successes(r: Run, id: Id, n: nat): nat {
    if n == 0 then 0 else Successes(r, id, n - 1) + (if SucceedsAt(r, n - 1, id) then 1 else 0)
  }

  lemma {:induction false} CountsKept(r: Run, e: Event, now: Time, id: Id, n: nat)
    requires r.Valid() && n <= |r.events|
    ensures Successes(Extended(r, e, now), id, n) == Successes(r, id, n)
    ensures Claims(Extended(r, e, now), id, 0, n) == Claims(r, id, 0, n)
  {
    if n > 0 { CountsKept(r, e, now, id, n - 1); }
  }

  /** The job waits alone for its first attempt. */
  ghost predicate Waiting(t: Table, spec: Spec, id: Id, now: Time) {
    Alone(t, id, now) && t.jobs[id].attempts == 0 && 0 < t.jobs[id].maxAttempts && t.jobs[id].target == spec.target
  }

  lemma ClaimAndFinish(t: Table, id: Id, owner: string, token: string, now: Time) returns (claimed: Table, done: Table)
    requires Alone(t, id, now) && t.jobs[id].attempts == 0 && 0 < t.jobs[id].maxAttempts
    requires ValidClaim(t.jobs[id].target, owner) && token != ""
    ensures claimed == Claimed(t, t.jobs[id].target, owner, token, AnyJob, now)
    ensures done == Finished(claimed, id, 1, token, true, "", false, now)
    ensures id in claimed.jobs && claimed.jobs[id] == LeaseRow(t.jobs[id], owner, token, now)
    ensures done.deps == {} && done.jobs == map[id := SucceedRow(claimed.jobs[id], now)]
  {
    AloneClaimed(t, id, owner, token, now);
    claimed := WithLease(t, id, owner, token, now);
    done := Finished(claimed, id, 1, token, true, "", false, now);
  }

  /** A life from the queue to success and, by a request, to the queue again. */
  lemma LifeAndRequeue(t: Table, spec: Spec, id: Id, owner: string, token: string, now: Time)
    returns (claimed: Table, done: Table, again: Table)
    requires Waiting(t, spec, id, now) && ValidClaim(spec.target, owner) && token != ""
    ensures claimed == Claimed(t, spec.target, owner, token, AnyJob, now)
    ensures done == Finished(claimed, id, 1, token, true, "", false, now)
    ensures id in claimed.jobs && ClaimedBy(t.jobs[id], claimed.jobs[id]) && claimed.jobs[id].state.Leased?
    ensures id in done.jobs && done.jobs[id].attempts == claimed.jobs[id].attempts && done.jobs[id].state.Succeeded?
    ensures again == SpeechRequeued(done, done.jobs[id].key, true, now)
    ensures Waiting(again, spec, id, now)
  {
    claimed, done := ClaimAndFinish(t, id, owner, token, now);
    again := SpeechRequeued(done, done.jobs[id].key, true, now);
  }

  lemma LastCounted(x: Run, n: nat, id: Id)
    requires |x.events| == n + 1 && x.Has(n, id) && x.Has(n + 1, id)
    ensures var j, k := x.Row(n, id), x.Row(n + 1, id);
            && Successes(x, id, n + 1)
              == Successes(x, id, n) + (if !j.state.Succeeded? && k.state.Succeeded? then 1 else 0)
            && Claims(x, id, 0, n + 1) == Claims(x, id, 0, n) + (if ClaimedBy(j, k) then 1 else 0)
  {}

  /** A steady run that has come to t, its successes and claims counted. */
  ghost predicate Counted(r: Run, id: Id, now: Time, n: nat, t: Table, successes: nat, claims: nat) {
    && Steady(r, now, n) && Last(r) == t && id in t.jobs
    && Successes(r, id, |r.events|) == successes && Claims(r, id, 0, |r.events|) == claims
  }

  /** One more event, counted. */
  lemma OneMoreEvent(r: Run, e: Event, now: Time, n: nat, more: nat, id: Id, t: Table, successes: nat, claims: nat)
    returns (x: Run)
    requires Counted(r, id, now, n, t, successes, claims) && n <= more && (e.IsClaim() ==> n < |e.token| <= more)
    requires id in Step(t, e, now).jobs
    ensures var j, k := t.jobs[id], Step(t, e, now).jobs[id];
            Counted(x, id, now, more, Step(t, e, now),
                    successes + (if !j.state.Succeeded? && k.state.Succeeded? then 1 else 0),
                    claims + (if ClaimedBy(j, k) then 1 else 0))
  {
    CountsKept(r, e, now, id, |r.events|);
    x := ExtendedSteady(r, e, now, n, more);
    assert x.tables[|r.events|] == Last(r) && x.tables[|r.events| + 1] == Last(x);
    LastCounted(x, |r.events|, id);
  }

  /** The run goes through one life of the job. */
  lemma LifeRuns(s: Run, id: Id, target: Target, owner: string, token: string, now: Time, n: nat, t: Table,
                 claimed: Table, done: Table) returns (r: Run)
    requires Counted(s, id, now, n, t, n, n) && |token| == n + 1
    requires claimed == Claimed(t, target, owner, token, AnyJob, now)
    requires done == Finished(claimed, id, 1, token, true, "", false, now)
    requires id in claimed.jobs && ClaimedBy(t.jobs[id], claimed.jobs[id]) && claimed.jobs[id].state.Leased?
    requires id in done.jobs && done.jobs[id].attempts == claimed.jobs[id].attempts && done.jobs[id].state.Succeeded?
    ensures Counted(r, id, now, n + 1, done, n + 1, n + 1)
  {
    var claim, finish := Claim(target, owner, token, AnyJob), Finish(id, 1, token, true, "", false);
    assert Step(t, claim, now) == claimed && Step(claimed, finish, now) == done;
    r := OneMoreEvent(s, claim, now, n, n + 1, id, t, n, n);
    r := OneMoreEvent(r, finish, now, n + 1, n + 1, id, claimed, n, n + 1);
  }

  lemma RequeueRuns(s: Run, id: Id, now: Time, n: nat, done: Table, again: Table) returns (r: Run)
    requires Counted(s, id, now, n, done, n, n) && again == SpeechRequeued(done, done.jobs[id].key, true, now)
    requires done.jobs[id].state.Succeeded?
    ensures Counted(r, id, now, n, again, n, n)
  {
    var e := RequeueSpeech(done.jobs[id].key, true);
    assert Step(done, e, now) == again && again.jobs[id] == RequeueRow(done.jobs[id], now);
    r := OneMoreEvent(s, e, now, n, n, id, done, n, n);
  }

  /** Without a bound on its lives a job is claimed and succeeds any number of
      times: each time its audio is lost and asked for again. */
  lemma {:induction false} SucceedsAgain(spec: Spec, id: Id, owner: string, now: Time, n: nat)
    returns (r: Run, t: Table)
    requires ValidSpec(spec) && spec.id == ZERO_ID && spec.availableAt.None? && !Blank(owner)
    ensures r.Valid() && Successes(r, id, |r.events|) == n && Claims(r, id, 0, |r.events|) == n
    ensures Counted(r, id, now, n, t, n, n) && Waiting(t, spec, id, now)
  {
    if n == 0 {
      r := Enqueuing(spec, id, now);
      t := Last(r);
      assert !r.Has(0, id) && Successes(r, id, 0) == 0 && Claims(r, id, 0, 0) == 0;
    } else {
      var s, was := SucceedsAgain(spec, id, owner, now, n - 1);
      TokenLength(n);
      var claimed, done, again := LifeAndRequeue(was, spec, id, owner, Token(n), now);
      r := LifeRuns(s, id, spec.target, owner, Token(n), now, n - 1, was, claimed, done);
      t := again;
      r := RequeueRuns(r, id, now, n, done, again);
    }
  }
}
