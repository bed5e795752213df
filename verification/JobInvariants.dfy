/** What every scheduler transaction keeps, and how one transaction may change
    one row. */
module JobInvariants {
  import opened Digraph
  import opened JobModel
  import opened JobTable
  import JobStore

  ghost predicate ValidRow(j: Job) {
    && 1 <= j.maxAttempts <= 3 && j.attempts <= j.maxAttempts
    && (j.state.Queued? ==> j.leaseExpires.None?)
    && (j.state.Active() ==> j.attempts > 0 && j.token.HashOf? && j.leaseExpires.Some?)
    && (j.attempts == 0 ==> j.token.NoToken?)
  }

  ghost predicate KeysUnique(jobs: map<Id, Job>) {
    forall a, b :: a in jobs && b in jobs && jobs[a].key == jobs[b].key ==> a == b
  }

  ghost predicate Valid(t: Table) {
    && KeyedById(t.jobs)
    && (forall id :: id in t.jobs ==> ValidRow(t.jobs[id]))
    && KeysUnique(t.jobs)
    && (forall e :: e in t.deps ==> e.0 in t.jobs && e.1 in t.jobs)
    && Acyclic(t.deps)
  }

  /** Every way one event at time `now` can change an existing row. */
  ghost predicate RowChange(j: Job, k: Job, e: Event, now: Time) {
    || k == j
    || (j.state.Queued? && k == DependencyFailRow(j, now) && (e.IsClaim() || e.RecoverExpired? || e.RecoverExpiredJob?))
    || (e.IsClaim() && j.state.Queued? && j.target == e.target && j.attempts < j.maxAttempts && j.availableAt <= now
        && k == LeaseRow(j, e.owner, e.token, now))
    || (e.Heartbeat? && j.id == e.id && j.attempts == e.attempt && TokenMatches(e.token, j.token)
        && j.state.Active() && LeaseLive(j, now) && 0 <= e.progress && k == HeartbeatRow(j, e.progress, now))
    || (e.Finish? && e.success && j.id == e.id && j.attempts == e.attempt && TokenMatches(e.token, j.token)
        && j.state.Active() && LeaseLive(j, now) && k == SucceedRow(j, now))
    || (e.Finish? && !e.success && j.id == e.id && j.attempts == e.attempt && TokenMatches(e.token, j.token)
        && j.state.Active() && k == FailRow(j, e.code, e.retry, now))
    || ((e.Cancel? || e.CancelOwner?) && Cancelable(j) && k == CancelRow(j, e.code, now))
    || ((e.RecoverExpired? || e.RecoverExpiredJob?) && LeaseExpiredAt(j, now)
        && (k == ExpireRow(j, now)
            || (ExpireRow(j, now).state.Queued? && k == DependencyFailRow(ExpireRow(j, now), now))))
    || (e.Revoke? && j.state.Active() && j.leaseOwner == e.owner && k == RevokeRow(j, now))
    || (e.RequeueSpeech? && SpeechRequeues(j, e.key, e.audioGone) && k == RequeueRow(j, now))
    || (e.RequeueArticle? && j.key == e.key && j.state.Terminal()
        && k == ArticleRequeueRow(j, e.payload, e.inputHash, now))
  }

  lemma ReconciledRows(t: Table, now: Time)
    ensures forall id :: id in t.jobs ==>
              Reconciled(t, now).jobs[id] == t.jobs[id]
              || (t.jobs[id].state.Queued? && Reconciled(t, now).jobs[id] == DependencyFailRow(t.jobs[id], now))
  {}

  lemma ReconcileChange(t: Table, e: Event, now: Time)
    requires e.IsClaim() || e.RecoverExpired? || e.RecoverExpiredJob?
    ensures forall id :: id in t.jobs ==> RowChange(t.jobs[id], Reconciled(t, now).jobs[id], e, now)
  {}

  lemma LeaseChange(j: Job, k: Job, e: Event, now: Time)
    requires e.IsClaim() && j.target == e.target && k == LeaseRow(j, e.owner, e.token, now)
    requires j.state.Queued? && j.attempts < j.maxAttempts && j.availableAt <= now
    ensures RowChange(j, k, e, now)
  {
  }

  lemma ClaimRows(t: Table, e: Event, ok: Job -> bool, now: Time)
    requires e.IsClaim()
    ensures var u := Claimed(t, e.target, e.owner, e.token, ok, now);
            u.jobs.Keys == t.jobs.Keys && u.deps == t.deps
            && forall id :: id in t.jobs ==> RowChange(t.jobs[id], u.jobs[id], e, now)
  {
    ReconcileChange(t, e, now);
    var taken := ClaimedShape(t, e.target, e.owner, e.token, ok, now);
    if taken.Some? {
      var id, r := taken.value, Reconciled(t, now);
      assert r.jobs[id] == t.jobs[id];
      LeaseChange(t.jobs[id], LeaseRow(t.jobs[id], e.owner, e.token, now), e, now);
    }
  }

  lemma WorkerRows(t: Table, e: Event, now: Time)
    requires KeyedById(t.jobs) && (e.Heartbeat? || e.Finish? || e.Cancel?)
    ensures Step(t, e, now).jobs.Keys == t.jobs.Keys && Step(t, e, now).deps == t.deps
    ensures forall id :: id in t.jobs ==> RowChange(t.jobs[id], Step(t, e, now).jobs[id], e, now)
  {}

  lemma RecoveryRows(t: Table, e: Event, now: Time)
    requires e.RecoverExpired? || e.RecoverExpiredJob?
    ensures Step(t, e, now).jobs.Keys == t.jobs.Keys && Step(t, e, now).deps == t.deps
    ensures forall id :: id in t.jobs ==> RowChange(t.jobs[id], Step(t, e, now).jobs[id], e, now)
  {}

  /** Rows only change in the listed ways; only an enqueue adds one, queued
      and unattempted; dependencies only grow. */
  lemma StepRows(t: Table, e: Event, now: Time)
    requires KeyedById(t.jobs)
    ensures forall id :: id in t.jobs ==>
              id in Step(t, e, now).jobs && RowChange(t.jobs[id], Step(t, e, now).jobs[id], e, now)
    ensures forall id :: id in Step(t, e, now).jobs && id !in t.jobs ==>
              e.Enqueue? && ValidSpec(e.spec) && Step(t, e, now).jobs[id] == NewRow(e.spec, e.freshId, now)
    ensures t.deps <= Step(t, e, now).deps
  {
    if e.Claim? {
      ClaimRows(t, e, e.ok, now);
    } else if e.ClaimCapability? {
      ClaimRows(t, e, LaneFilter(Reconciled(t, now).jobs, e.owner, e.jobType), now);
    } else if e.RecoverExpired? || e.RecoverExpiredJob? {
      RecoveryRows(t, e, now);
    } else if e.Heartbeat? || e.Finish? || e.Cancel? {
      WorkerRows(t, e, now);
    }
  }

  lemma RowChangeValid(j: Job, k: Job, e: Event, now: Time)
    requires ValidRow(j) && RowChange(j, k, e, now)
    ensures ValidRow(k) && SameJob(j, k)
    ensures SameWork(j, k) || (e.RequeueArticle? && k.payload == e.payload && k.inputHash == e.inputHash)
    ensures j.state.Terminal() && k != j ==> e.IsRequeue() && e.key == j.key && k.state.Queued? && k.attempts == 0
    ensures e.IsRequeue() && k != j ==> j.state.Terminal()
  {
  }

  lemma StepRowsValid(t: Table, e: Event, now: Time)
    requires KeyedById(t.jobs) && forall id :: id in t.jobs ==> ValidRow(t.jobs[id])
    ensures KeyedById(Step(t, e, now).jobs) && forall id :: id in Step(t, e, now).jobs ==>
              ValidRow(Step(t, e, now).jobs[id])
    ensures forall id :: id in t.jobs ==> id in Step(t, e, now).jobs && Step(t, e, now).jobs[id].key == t.jobs[id].key
  {
    var u := Step(t, e, now);
    StepRows(t, e, now);
    forall id | id in t.jobs
      ensures ValidRow(u.jobs[id]) && u.jobs[id].id == id && u.jobs[id].key == t.jobs[id].key
    {
      RowChangeValid(t.jobs[id], u.jobs[id], e, now);
    }
  }

  lemma StepKeys(t: Table, e: Event, now: Time)
    requires Valid(t)
    ensures KeysUnique(Step(t, e, now).jobs)
  {
    StepRowsValid(t, e, now);
    StepNewRow(t, e, now);
  }

  lemma StepNewRow(t: Table, e: Event, now: Time)
    requires KeyedById(t.jobs)
    ensures forall id :: id in Step(t, e, now).jobs && id !in t.jobs ==>
              e.Enqueue? && ValidSpec(e.spec) && !KeyTaken(t, e.spec.key) && id == NewRow(e.spec, e.freshId, now).id
              && Step(t, e, now).jobs[id].key == e.spec.key
  {}

  lemma StepGraph(t: Table, e: Event, now: Time)
    requires Valid(t)
    ensures forall d :: d in Step(t, e, now).deps ==> d.0 in t.jobs && d.1 in t.jobs
    ensures Acyclic(Step(t, e, now).deps)
  {
    if e.AddDependency? {
      AcyclicAfterEdge(t.deps, e.job, e.dependency);
    }
  }

  /** Every transaction keeps the table valid: bounded attempts, one row per
      idempotency key, no dangling dependency and no dependency cycle. */
  lemma StepValid(t: Table, e: Event, now: Time)
    requires Valid(t)
    ensures Valid(Step(t, e, now))
  {
    StepRowsValid(t, e, now);
    StepKeys(t, e, now);
    StepGraph(t, e, now);
  }

  // ----- the bounded life of a job -----

  /** What is left of a job's life. */
  function Measure(j: Job): nat
    requires j.attempts <= j.maxAttempts
  {
    if j.state.Terminal() then 0
    else 2 * (j.maxAttempts - j.attempts) + (if j.state.Active() then 2 else 1)
  }

  ghost predicate ClaimedBy(j: Job, k: Job) { k.attempts == j.attempts + 1 }

  /** A job that was over is queued again from the start. */
  predicate NewLife(j: Job, k: Job) { j.state.Terminal() && !k.state.Terminal() }

  predicate Moved(j: Job, k: Job) {
    j.state.Active() != k.state.Active() || j.state.Terminal() != k.state.Terminal() || j.attempts != k.attempts
  }

  /** Within one life the measure falls on every claim, requeue by the scheduler
      and finish, and never grows; only a completion under a live lease
      succeeds; only an owner's requeue starts another life. */
  lemma LifeShrinks(j: Job, k: Job, e: Event, now: Time)
    requires ValidRow(j) && RowChange(j, k, e, now)
    ensures k.attempts <= k.maxAttempts
    ensures NewLife(j, k) <==> e.IsRequeue() && k != j
    ensures !NewLife(j, k) ==> Measure(k) <= Measure(j) && j.attempts <= k.attempts <= j.attempts + 1
    ensures !NewLife(j, k) && Moved(j, k) ==> Measure(k) < Measure(j)
    ensures ClaimedBy(j, k) <==> e.IsClaim() && j.state.Queued? && k.state.Leased?
    ensures ClaimedBy(j, k) ==> k == LeaseRow(j, e.owner, e.token, now)
    ensures k.state.Succeeded? && !j.state.Succeeded? ==>
              e.Finish? && e.success && e.id == j.id && e.attempt == j.attempts && TokenMatches(e.token, j.token)
              && j.state.Active() && LeaseLive(j, now)
  {
  }

  /** Without a new claim a row's token is never replaced, only kept or cleared. */
  lemma TokenKept(j: Job, k: Job, e: Event, now: Time)
    requires ValidRow(j) && RowChange(j, k, e, now) && !ClaimedBy(j, k)
    ensures NewLife(j, k) || k.attempts == j.attempts
    ensures k.token.HashOf? ==> j.token == k.token && k.attempts == j.attempts
    ensures k.state.Active() ==> j.state.Active() && k.token == j.token
    ensures k.state.Succeeded? && k != j ==> j.state.Active() && k.token == j.token
  {
  }

  /** A capability claim never gives a worker a second active lease of one
      job type. */
  lemma OneLeasePerLane(t: Table, target: Target, owner: string, token: string, jobType: JobType, now: Time, a: Id,
                        b: Id)
    requires KeyedById(t.jobs) && a in t.jobs && b in t.jobs && a != b
    requires var u := ClaimedCapability(t, target, owner, token, jobType, now);
             a in u.jobs && ClaimedBy(t.jobs[a], u.jobs[a]) && b in u.jobs && u.jobs[b].leaseOwner == owner
             && u.jobs[b].jobType == jobType
    ensures var u := ClaimedCapability(t, target, owner, token, jobType, now);
            u.jobs[a].jobType == jobType && u.jobs[a].leaseOwner == owner && !u.jobs[b].state.Active()
  {
    ReconciledRows(t, now);
    var r := Reconciled(t, now);
    var taken := ClaimedShape(t, target, owner, token, LaneFilter(r.jobs, owner, jobType), now);
    assert !LaneFilter(r.jobs, owner, jobType)(r.jobs[b]) || !HoldsLane(r.jobs, owner, jobType);
  }

  // ----- leases and backoff -----

  /** While a lease is live only its own worker, the revocation of that worker or
      a cancellation changes the row: no recovery and no other claim can. */
  lemma LeaseProtects(j: Job, k: Job, e: Event, now: Time)
    requires ValidRow(j) && RowChange(j, k, e, now) && j.state.Active() && LeaseLive(j, now) && k != j
    ensures e.Cancel? || e.CancelOwner? || (e.Revoke? && e.owner == j.leaseOwner)
            || ((e.Heartbeat? || e.Finish?) && e.attempt == j.attempts && HashOf(e.token) == j.token)
  {}

  /** Each claim and each accepted heartbeat grants the full lease from then on. */
  lemma LeaseLastsInFull(j: Job, k: Job, e: Event, now: Time, later: Time)
    requires ValidRow(j) && RowChange(j, k, e, now) && k != j && k.state.Active() && !j.state.Terminal()
    ensures LeaseLive(k, later) <==> later < now + 90000
  {}

  /** A job put back in the queue by its worker's failure or by an expired lease
      is due only after the backoff of the attempt it used: five seconds after
      the first, thirty after the second. */
  lemma RetryWaitsItsBackoff(j: Job, k: Job, e: Event, now: Time)
    requires ValidRow(j) && RowChange(j, k, e, now) && j.state.Active() && k.state.Queued? && !e.Revoke?
    ensures k.attempts == j.attempts && j.attempts < j.maxAttempts
    ensures k.availableAt == now + (if j.attempts == 1 then 5000 else 30000)
  {}

  // ----- jobs nobody can claim -----

  /** Queued with every attempt spent: no claim selects the row. */
  predicate Exhausted(j: Job) { j.state.Queued? && j.attempts >= j.maxAttempts }

  /** One way leads there: a worker is revoked during the last attempt. */
  lemma ExhaustedOnlyByRevocation(j: Job, k: Job, e: Event, now: Time)
    requires ValidRow(j) && RowChange(j, k, e, now) && !Exhausted(j)
    ensures Exhausted(k) <==> k != j && e.Revoke? && j.attempts == j.maxAttempts
    ensures k != j && e.Revoke? ==> j.state.Active() && j.leaseOwner == e.owner
  {}

  /** And only a cancellation or a dead dependency leads away. */
  lemma ExhaustedStays(j: Job, k: Job, e: Event, now: Time)
    requires ValidRow(j) && RowChange(j, k, e, now) && Exhausted(j) && k != j
    ensures k.state.Dead() && (e.Cancel? || e.CancelOwner? || k == DependencyFailRow(j, now))
  {}

  lemma {:induction false} NoDoomPathLeft(t: Table, p: seq<Id>, now: Time)
    ensures !DoomPath(Reconciled(t, now), p)
    decreases |p|
  {
    var r := Reconciled(t, now);
    if |p| > 2 {
      if DoomPath(r, p) { DoomPathTail(r, p); }
      NoDoomPathLeft(t, p[1..], now);
    } else if DoomPath(r, p) {
      ReconciledRows(t, now);
      assert (p[0], p[1]) in t.deps;
      DoomedByEdge(t, p[0], p[1]);
    }
  }

  /** One pass of the loop leaves nothing for a second one. */
  lemma ReconciledTwice(t: Table, now: Time)
    ensures Reconciled(Reconciled(t, now), now) == Reconciled(t, now)
  {
    var r := Reconciled(t, now);
    forall id
      ensures !Doomed(r, id)
    {
      if p :| DoomPath(r, p) && p[0] == id {
        NoDoomPathLeft(t, p, now);
      }
    }
    assert Reconciled(r, now).jobs == r.jobs;
  }

  lemma DependencyFailValid(j: Job, now: Time)
    requires ValidRow(j) && j.state.Queued?
    ensures ValidRow(DependencyFailRow(j, now))
  {}

  lemma SameKeysUnique(jobs: map<Id, Job>, rows: map<Id, Job>)
    requires KeysUnique(jobs) && rows.Keys == jobs.Keys && forall id :: id in jobs ==> rows[id].key == jobs[id].key
    ensures KeysUnique(rows)
  {}

  lemma ReconciledValid(t: Table, now: Time)
    requires Valid(t)
    ensures Valid(Reconciled(t, now))
    ensures forall id :: id in t.jobs && Reconciled(t, now).jobs[id].state.Queued? ==>
              Reconciled(t, now).jobs[id] == t.jobs[id]
  {
    var u := Reconciled(t, now);
    ReconciledRows(t, now);
    forall id | id in t.jobs
      ensures ValidRow(u.jobs[id]) && u.jobs[id].id == id && u.jobs[id].key == t.jobs[id].key
    {
      if t.jobs[id].state.Queued? { DependencyFailValid(t.jobs[id], now); }
    }
    SameKeysUnique(t.jobs, u.jobs);
  }

  // ----- progress -----

  ghost predicate NoActiveJob(t: Table) {
    forall id :: id in t.jobs ==> !t.jobs[id].state.Active()
  }

  lemma NoneDoomed(t: Table, now: Time)
    ensures forall id :: !Doomed(Reconciled(t, now), id)
  {
    forall id ensures !Doomed(Reconciled(t, now), id) {
      if p :| DoomPath(Reconciled(t, now), p) && p[0] == id {
        NoDoomPathLeft(t, p, now);
      }
    }
  }

  /** A queued job that waits for no other job. */
  ghost predicate Frontier(t: Table, id: Id) {
    id in t.jobs && t.jobs[id].state.Queued? && DependenciesMet(t, id)
  }

  /** With some job queued and none in flight, some queued job waits for no
      other job once dependency failures are reconciled. */
  lemma FrontierExists(t: Table, queued: Id, now: Time) returns (ready: Id)
    requires Valid(t) && NoActiveJob(t)
    requires queued in t.jobs && Reconciled(t, now).jobs[queued].state.Queued?
    ensures Frontier(Reconciled(t, now), ready)
  {
    var u := Reconciled(t, now);
    ReconciledValid(t, now);
    NoneDoomed(t, now);
    var waiting := JobStore.QueuedIds(u.jobs);
    ready := SinkWithin(u.deps, waiting, queued);
    forall d | (ready, d) in u.deps && d in u.jobs
      ensures u.jobs[d].state.Succeeded?
    {
      assert d !in waiting && !u.jobs[d].state.Active();
      if u.jobs[d].state.Dead() { DoomedByEdge(u, ready, d); }
    }
  }

  /** Progress, exactly: with some job queued and none in flight, a claim can
      ever find work if and only if the attempts of some queued job that waits
      for no other are not spent. */
  lemma SchedulerProgress(t: Table, queued: Id, now: Time)
    requires Valid(t) && NoActiveJob(t)
    requires queued in t.jobs && Reconciled(t, now).jobs[queued].state.Queued?
    ensures var u := Reconciled(t, now);
      && (exists id :: Frontier(u, id))
      && ((exists id: Id, target: Target, later: Time :: Claimable(u, id, target, later))
          <==> exists id :: Frontier(u, id) && !Exhausted(u.jobs[id]))
  {
    var u := Reconciled(t, now);
    var ready := FrontierExists(t, queued, now);
    if id :| Frontier(u, id) && !Exhausted(u.jobs[id]) {
      assert Claimable(u, id, u.jobs[id].target, u.jobs[id].availableAt);
    }
    if id: Id, target: Target, later: Time :| Claimable(u, id, target, later) {
      assert Frontier(u, id) && !Exhausted(u.jobs[id]);
    }
  }

  lemma {:induction false} FirstAmong(t: Table, ids: set<Id>)
    requires ids != {} && ids <= t.jobs.Keys && KeyedById(t.jobs)
    ensures exists id :: IsFirst(t, ids, id)
  {
    JobStore.FirstExists(t, ids);
    var id :| id in ids && forall o :: o in ids && o != id ==> Before(t.jobs[id], t.jobs[o]);
    assert IsFirst(t, ids, id);
  }

  /** Progress at the interface: a claim for the target of such a job, once its
      backoff has passed, leases a job. */
  lemma ClaimFindsWork(t: Table, ready: Id, owner: string, token: string, now: Time)
    requires Valid(t) && Frontier(Reconciled(t, now), ready) && !Exhausted(Reconciled(t, now).jobs[ready])
    requires ValidClaim(t.jobs[ready].target, owner) && now >= t.jobs[ready].availableAt
    ensures exists id ::
              id in t.jobs
              && Claimed(t, t.jobs[ready].target, owner, token, AnyJob, now).jobs[id].state.Leased?
  {
    ReconciledValid(t, now);
    var u, target := Reconciled(t, now), t.jobs[ready].target;
    var ids := Candidates(u, target, AnyJob, now);
    assert ready in ids;
    FirstAmong(u, ids);
    var first := Chosen(u, target, AnyJob, now).value;
    assert Claimed(t, target, owner, token, AnyJob, now).jobs[first].state.Leased?;
  }

  predicate AnyJob(j: Job) { true }
}
