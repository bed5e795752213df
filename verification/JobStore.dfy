/** The scheduler's store: each method is one transaction over the rows it
    updates in place (internal/jobs/jobs.go). */
module JobStore {
  import opened Wrappers
  import opened Digraph
  import opened JobModel
  import opened JobTable

  datatype Lease = Lease(row: Job, token: string)

  // ----- what callers are promised, column by column -----

  /** No row comes before id's: highest priority first, then oldest, then smallest id. */
  ghost predicate Foremost(jobs: map<Id, Job>, ids: set<Id>, id: Id) {
    && id in ids && id in jobs
    && forall o :: o in ids && o in jobs ==>
         && jobs[o].priority <= jobs[id].priority
         && (jobs[o].priority == jobs[id].priority ==>
               jobs[id].createdAt <= jobs[o].createdAt && (jobs[o].createdAt == jobs[id].createdAt ==> id <= o))
  }

  /** k is j, leased to the owner for ninety seconds under a new attempt and token. */
  predicate LeasedFrom(j: Job, k: Job, owner: string, token: string, now: Time) {
    && SameWork(j, k) && j.state.Queued? && k.state.Leased? && k.attempts == j.attempts + 1 <= j.maxAttempts
    && k.leaseOwner == owner && k.token == HashOf(token) && k.leaseExpires == Some(now + 90000) && k.progress == 0
    && k.startedAt == (if j.startedAt.Some? then j.startedAt else Some(now))
  }

  /** Attempt and credentials are as they were. */
  predicate SameAttempt(j: Job, k: Job) {
    SameWork(j, k) && k.attempts == j.attempts && k.leaseOwner == j.leaseOwner && k.token == j.token
  }

  predicate Unleased(k: Job) {
    k.leaseOwner == "" && k.token.NoToken? && k.leaseExpires.None?
  }

  /** k is j canceled; an active attempt can still see it. */
  predicate CanceledFrom(j: Job, k: Job, code: string, now: Time) {
    && SameWork(j, k) && k.attempts == j.attempts && k.state.Canceled? && k.errorCode == Code(code)
    && k.completedAt == Some(now)
    && (if j.state.Queued? then Unleased(k) else SameAttempt(j, k) && k.leaseExpires == j.leaseExpires)
  }

  /** Five seconds, half a minute, two minutes. */
  function BackoffAfter(attempts: nat): Time {
    if attempts <= 1 then 5000 else if attempts == 2 then 30000 else 120000
  }

  /** k is j after its lease ran out: queued again while attempts are left, else failed. */
  predicate GivenUp(j: Job, k: Job, now: Time) {
    && SameWork(j, k) && k.attempts == j.attempts && Unleased(k) && k.errorCode.LeaseExpiredCode?
    && (if j.attempts < j.maxAttempts then k.state.Queued? && k.availableAt == now + BackoffAfter(j.attempts)
        else k.state.Failed? && k.completedAt == Some(now))
  }

  /** Exactly the lapsed leases are given up. */
  ghost predicate LapsedGivenUp(before: map<Id, Job>, after: map<Id, Job>, now: Time) {
    && after.Keys == before.Keys
    && forall id :: id in before ==>
         var j := before[id];
         if j.state.Active() && j.leaseExpires.Some? && j.leaseExpires.value <= now then GivenUp(j, after[id], now)
         else after[id] == j
  }

  /** Exactly the owner's unfinished jobs of the type are canceled. */
  ghost predicate OwnersCanceled(before: map<Id, Job>, after: map<Id, Job>, ownerType: OwnerType, ownerId: Id,
                                 jobType: JobType, code: string, now: Time) {
    && after.Keys == before.Keys
    && forall id :: id in before ==>
         var j := before[id];
         if j.ownerType == ownerType && j.ownerId == ownerId && j.jobType == jobType && !j.state.Terminal()
         then CanceledFrom(j, after[id], code, now) else after[id] == j
  }

  /** That, or failed at once because a dependency is dead. */
  predicate GivenUpOrDoomed(j: Job, k: Job, now: Time) {
    || GivenUp(j, k, now)
    || (SameWork(j, k) && j.attempts < j.maxAttempts && k.state.Failed? && k.errorCode.DependencyFailedCode?)
  }

  /** k is j at the start of a new life. */
  predicate StartsOver(j: Job, k: Job, now: Time) {
    && SameJob(j, k) && k.state.Queued? && k.attempts == 0 && k.availableAt == now && Unleased(k)
    && k.errorCode.NoCode? && k.completedAt.None?
  }

  class Store {
    var jobs: map<Id, Job>
    var deps: Edges

    ghost function Contents(): Table
      reads this
    {
      Table(jobs, deps)
    }

    constructor ()
      ensures Contents() == EMPTY
    {
      jobs := map[];
      deps := {};
    }

    method Enqueue(spec: Spec, freshId: Id, now: Time) returns (r: Result<Job, Error>)
      requires KeyedById(jobs)
      modifies this`jobs
      ensures Contents() == Enqueued(old(Contents()), spec, freshId, now)
      ensures r.Ok? ==> r.value.key == spec.key && r.value.id in jobs && jobs[r.value.id] == r.value
      ensures r.Err? ==> Contents() == old(Contents())
      ensures r.Err? <==>
                !ValidSpec(spec) || (!old(KeyTaken(Contents(), spec.key)) && NewRow(spec, freshId, now).id in old(jobs))
      ensures r.Ok? && old(KeyTaken(Contents(), spec.key)) ==> jobs == old(jobs)
      ensures r.Ok? && !old(KeyTaken(Contents(), spec.key)) ==>
                && jobs == old(jobs)[r.value.id := r.value]
                && r.value.id == (if spec.id == ZERO_ID then freshId else spec.id)
                && r.value.state.Queued? && r.value.attempts == 0 && Unleased(r.value)
                && r.value.maxAttempts == (if spec.maxAttempts == 0 then 3 else spec.maxAttempts)
                && r.value.jobType == spec.jobType && r.value.target == spec.target
                && r.value.ownerType == spec.ownerType && r.value.ownerId == spec.ownerId
                && r.value.inputHash == spec.inputHash && r.value.payload == spec.payload
                && r.value.priority == spec.priority && r.value.createdAt == now
                && r.value.availableAt == (if spec.availableAt.Some? then spec.availableAt.value else now)
    {
      var valid := ValidateSpec(spec);
      if !valid {
        return Err(Validation);
      }
      if id :| id in jobs && jobs[id].key == spec.key {
        return Ok(jobs[id]);
      }
      var row := NewRow(spec, freshId, now);
      if row.id in jobs {
        return Err(Conflict);
      }
      jobs := jobs[row.id := row];
      r := Ok(row);
    }

    method ValidateSpec(spec: Spec) returns (ok: bool)
      ensures ok == ValidSpec(spec)
      ensures !ok <==>
                || spec.jobType.UnknownType? || spec.target.UnknownTarget?
                || (spec.ownerType.OtherOwner? && Blank(spec.ownerType.name)) || spec.ownerId == ZERO_ID
                || Blank(spec.key) || Blank(spec.inputHash) || Blank(spec.payload) || !spec.payloadParses
                || spec.maxAttempts < 0 || spec.maxAttempts > 3
    {
      if spec.jobType.UnknownType? || spec.target.UnknownTarget? {
        return false;
      }
      if BlankOwner(spec.ownerType) || spec.ownerId == ZERO_ID || Blank(spec.key) || Blank(spec.inputHash)
         || Blank(spec.payload) {
        return false;
      }
      if !spec.payloadParses {
        return false;
      }
      ok := 0 <= spec.maxAttempts <= 3;
    }

    /** "v1." and up to 117 lower-case letters, digits, dots, underscores and dashes. */
    method CheckErrorCode(code: string) returns (ok: bool)
      ensures ok == ValidErrorCode(code)
      ensures ok <==>
                && 3 <= |code| <= 120 && code[0] == 'v' && code[1] == '1' && code[2] == '.'
                && forall i :: 0 <= i < |code| ==>
                     code[i] in {'.', '_', '-'} || 'a' <= code[i] <= 'z' || '0' <= code[i] <= '9'
    {
      if |code| == 0 || |code| > 120 || !("v1." <= code) {
        return false;
      }
      for n := 0 to |code|
        invariant forall i :: 0 <= i < n ==>
                    code[i] in {'.', '_', '-'} || 'a' <= code[i] <= 'z' || '0' <= code[i] <= '9'
      {
        var r := code[n];
        assert r in code;
        if r != '.' && r != '_' && r != '-' && (r < 'a' || r > 'z') && (r < '0' || r > '9') {
          return false;
        }
      }
      ok := true;
    }

    /** The recursive query: every job the given one depends on, directly or not. */
    method Ancestors(start: Id) returns (ancestors: set<Id>)
      ensures forall x :: x in ancestors <==> Reaches(deps, start, x)
    {
      ancestors := set e | e in deps && e.0 == start :: e.1;
      var queue := ancestors;
      var all := set e | e in deps :: e.1;
      forall x | x in ancestors
        ensures Reaches(deps, start, x)
      {
        ReachesEdge(deps, start, x);
      }
      while queue != {}
        invariant queue <= ancestors <= all
        invariant forall e :: e in deps && e.0 == start ==> e.1 in ancestors
        invariant forall x :: x in ancestors ==> Reaches(deps, start, x)
        invariant forall e :: e in deps && e.0 in ancestors && e.0 !in queue ==> e.1 in ancestors
        decreases |all - ancestors|, |queue|
      {
        var a :| a in queue;
        var found := (set e | e in deps && e.0 == a :: e.1) - ancestors;
        forall x | x in found
          ensures Reaches(deps, start, x) && x in all
        {
          ReachesEdge(deps, a, x);
          ReachesTransitive(deps, start, a, x);
        }
        if found == {} {
          SmallerAfterRemoval(queue, a);
        } else {
          FewerLeft(all, ancestors, found);
        }
        ancestors := ancestors + found;
        queue := queue - {a} + found;
      }
      forall x | Reaches(deps, start, x)
        ensures x in ancestors
      {
        ClosedUnderEdges(deps, start, ancestors, x);
      }
    }

    method AddDependency(job: Id, dependency: Id) returns (r: Result<(), Error>)
      modifies this`deps
      ensures Contents() == WithDependency(old(Contents()), job, dependency)
      ensures r.Err? ==> deps == old(deps)
      ensures r.Ok? ==> deps == old(deps) + {(job, dependency)}
      ensures job != ZERO_ID && dependency != ZERO_ID && job in jobs && dependency in jobs ==>
                (r.Err? <==> job == dependency || Reaches(old(deps), dependency, job))
    {
      if job == ZERO_ID || dependency == ZERO_ID || job == dependency {
        return Err(Cycle);
      }
      if job !in jobs || dependency !in jobs {
        return Err(NotFound);
      }
      var ancestors := Ancestors(dependency);
      if job in ancestors {
        return Err(Cycle);
      }
      deps := deps + {(job, dependency)};
      r := Ok(());
    }

    /** One UPDATE statement of the loop below. Rows are visited in any order,
        and each row's condition may or may not see rows already updated. */
    method FailDependentsOnce(ghost start: Table, now: Time) returns (affected: nat)
      requires Reconciling(start, Contents(), now)
      modifies this`jobs
      ensures Reconciling(start, Contents(), now)
      ensures affected == 0 ==> jobs == old(jobs) && Settled(jobs, deps, {})
      ensures affected > 0 ==> QueuedIds(jobs) < QueuedIds(old(jobs))
    {
      var before, rows := jobs, jobs;
      var todo := rows.Keys;
      affected := 0;
      while todo != {}
        invariant todo <= rows.Keys
        invariant Reconciling(start, Table(rows, deps), now)
        invariant PassInvariant(before, rows, todo, affected)
        invariant affected == 0 ==> Settled(before, deps, todo)
        decreases todo
      {
        var id :| id in todo;
        var live: bool := *;
        if rows[id].state.Queued? && HasDeadDependency(if live then rows else before, deps, id) {
          ReconcilingStep(start, Table(rows, deps), before, id, now);
          PassStep(before, rows, todo, affected, id, now);
          rows := rows[id := DependencyFailRow(rows[id], now)];
          affected := affected + 1;
        } else {
          SettledStep(before, rows, deps, todo, affected, id);
        }
        todo := todo - {id};
      }
      jobs := rows;
    }

    method ReconcileDependencyFailures(now: Time)
      modifies this`jobs
      ensures Contents() == Reconciled(old(Contents()), now)
      ensures forall id :: id in jobs && jobs[id] != old(jobs)[id] ==>
                && SameAttempt(old(jobs)[id], jobs[id]) && old(jobs)[id].state.Queued? && jobs[id].state.Failed?
                && jobs[id].errorCode.DependencyFailedCode? && jobs[id].completedAt == Some(now)
      ensures forall id, d :: (id, d) in deps && id in jobs && d in jobs && jobs[id].state.Queued? ==>
                !(jobs[d].state.Failed? || jobs[d].state.Canceled?)
      ensures forall id :: id in jobs && jobs[id] != old(jobs)[id] ==>
                exists d :: (id, d) in deps && d in jobs && (jobs[d].state.Failed? || jobs[d].state.Canceled?)
    {
      ghost var start := Contents();
      var affected: nat := 1;
      while affected != 0
        invariant Reconciling(start, Contents(), now)
        invariant affected == 0 ==> Settled(jobs, deps, {})
        decreases QueuedIds(jobs), affected
      {
        affected := FailDependentsOnce(start, now);
      }
      ReconcilingDone(start, Contents(), now);
      NoQueuedBehindDead(jobs, deps);
      FailedForAReason(start, now);
    }

    method DependenciesAreMet(id: Id) returns (met: bool)
      ensures met == DependenciesMet(Contents(), id)
    {
      met := forall e | e in deps :: e.0 == id && e.1 in jobs ==> jobs[e.1].state.Succeeded?;
      assert met ==> DependenciesMet(Contents(), id) by {
        if met {
          forall d | (id, d) in deps && d in jobs
            ensures jobs[d].state.Succeeded?
          {
            var e := (id, d);
            assert e in deps;
          }
        }
      }
      assert DependenciesMet(Contents(), id) ==> met by {
        if !met {
          var e :| e in deps && e.0 == id && e.1 in jobs && !jobs[e.1].state.Succeeded?;
          assert (id, e.1) in deps;
        }
      }
    }

    /** The claim query: the claimable rows of the table. */
    method ClaimableRows(target: Target, now: Time) returns (rows: set<Id>)
      ensures rows == ClaimableSet(Contents(), target, now)
      ensures forall id :: id in rows <==>
                && id in jobs && jobs[id].target == target && jobs[id].state.Queued? && jobs[id].availableAt <= now
                && jobs[id].attempts < jobs[id].maxAttempts
                && forall d :: (id, d) in deps && d in jobs ==> jobs[d].state.Succeeded?
    {
      rows := {};
      var todo := jobs.Keys;
      while todo != {}
        invariant todo <= jobs.Keys
        invariant rows == set id | id in jobs && id !in todo && Claimable(Contents(), id, target, now)
        decreases todo
      {
        var id :| id in todo;
        todo := todo - {id};
        var met := DependenciesAreMet(id);
        var j := jobs[id];
        if j.target == target && j.state.Queued? && j.availableAt <= now && j.attempts < j.maxAttempts && met {
          rows := rows + {id};
        }
      }
    }

    /** Scans the rows in the query's order and stops at the first match. */
    method FirstMatch(rows: set<Id>, matches: Job -> bool) returns (found: Option<Id>)
      requires rows <= jobs.Keys && KeyedById(jobs)
      ensures found.None? ==> Matching(jobs, rows, matches) == {}
      ensures found.Some? ==>
                && IsFirst(Contents(), Matching(jobs, rows, matches), found.value)
                && Foremost(jobs, Matching(jobs, rows, matches), found.value) && matches(jobs[found.value])
    {
      var left := rows;
      while left != {}
        invariant left <= rows
        invariant forall id :: id in rows - left ==> !matches(jobs[id])
        decreases left
      {
        FirstExists(Contents(), left);
        var id :| id in left && forall o | o in left :: o != id ==> Before(jobs[id], jobs[o]);
        if matches(jobs[id]) {
          return Some(id);
        }
        left := left - {id};
      }
      found := None;
    }

    /** Leases the first claimable row that matches, if there is one. */
    method LeaseFirst(target: Target, owner: string, token: string, matches: Job -> bool, now: Time)
      returns (r: Result<Lease, Error>)
      requires KeyedById(jobs)
      modifies this`jobs
      ensures Contents() == Taken(old(Contents()), target, owner, token, matches, now)
      ensures r.Ok? ==>
          r.value.token == token && r.value.row.id in jobs && jobs[r.value.row.id] == r.value.row
          && r.value.row.state.Leased?
      ensures r.Err? ==> r.error.NoWork? && Candidates(old(Contents()), target, matches, now) == {}
      ensures r.Ok? ==> r.value.row.id in Candidates(old(Contents()), target, matches, now)
      ensures r.Ok? ==>
                && Foremost(old(jobs), Candidates(old(Contents()), target, matches, now), r.value.row.id)
                && LeasedFrom(old(jobs)[r.value.row.id], r.value.row, owner, token, now)
                && r.value.row.target == target && matches(old(jobs)[r.value.row.id])
    {
      var rows := ClaimableRows(target, now);
      var found := FirstMatch(rows, matches);
      if found.None? {
        return Err(NoWork);
      }
      var id := found.value;
      ChosenIs(Contents(), target, matches, now, id);
      jobs := jobs[id := LeaseRow(jobs[id], owner, token, now)];
      r := Ok(Lease(jobs[id], token));
    }

    method ClaimMatching(target: Target, owner: string, token: string, matches: Job -> bool, now: Time)
      returns (r: Result<Lease, Error>)
      requires KeyedById(jobs)
      modifies this`jobs
      ensures Contents() == Claimed(old(Contents()), target, owner, token, matches, now)
      ensures r.Ok? ==>
          r.value.token == token && r.value.row.id in jobs && jobs[r.value.row.id] == r.value.row
          && r.value.row.state.Leased?
      ensures ValidClaim(target, owner) ==>
                (r.Err? <==> Candidates(Reconciled(old(Contents()), now), target, matches, now) == {})
      ensures r.Ok? ==>
                var t := Reconciled(old(Contents()), now);
                && Foremost(t.jobs, Candidates(t, target, matches, now), r.value.row.id) && r.value.row.id in old(jobs)
                && LeasedFrom(old(jobs)[r.value.row.id], r.value.row, owner, token, now)
                && r.value.row.target == target && matches(old(jobs)[r.value.row.id])
      ensures target.UnknownTarget? || Blank(owner) ==> r == Err(Validation) && jobs == old(jobs)
    {
      if !ValidClaim(target, owner) {
        return Err(Validation);
      }
      ReconcileDependencyFailures(now);
      r := LeaseFirst(target, owner, token, matches, now);
    }

    /** Claims one exact job type, and only while the worker holds no active
        lease of that type. */
    method ClaimMatchingCapability(target: Target, owner: string, token: string, jobType: JobType, now: Time)
      returns (r: Result<Lease, Error>)
      requires KeyedById(jobs)
      modifies this`jobs
      ensures Contents() == ClaimedCapability(old(Contents()), target, owner, token, jobType, now)
      ensures r.Ok? ==>
          r.value.token == token && r.value.row.id in jobs && jobs[r.value.row.id] == r.value.row
          && r.value.row.state.Leased?
      ensures ValidClaim(target, owner) ==>
                (r.Err? <==> NoLaneWork(Reconciled(old(Contents()), now), target, owner, jobType, now))
      ensures r.Err? && ValidClaim(target, owner) ==> r.error.NoWork?
      ensures r.Ok? ==>
                var t := Reconciled(old(Contents()), now);
                && Foremost(t.jobs, OfType(t.jobs, ClaimableSet(t, target, now), jobType), r.value.row.id)
                && r.value.row.id in old(jobs)
                && LeasedFrom(old(jobs)[r.value.row.id], r.value.row, owner, token, now)
                && r.value.row.target == target && r.value.row.jobType == jobType
      ensures target.UnknownTarget? || Blank(owner) ==> r == Err(Validation) && jobs == old(jobs)
    {
      if !ValidClaim(target, owner) {
        return Err(Validation);
      }
      ReconcileDependencyFailures(now);
      LaneCandidates(Contents(), target, owner, jobType, now);
      r := LeaseFirst(target, owner, token, LaneFilter(jobs, owner, jobType), now);
    }

    method Heartbeat(id: Id, attempt: nat, token: string, progress: int, now: Time)
      returns (r: Result<(bool, Job), Error>)
      modifies this`jobs
      ensures Contents() == HeartbeatDone(old(Contents()), id, attempt, token, progress, now)
      ensures r.Ok? <==>
                && 0 <= progress <= 100 && token != "" && id in old(jobs)
                && old(jobs)[id].attempts == attempt && old(jobs)[id].token == HashOf(token)
                && (old(jobs)[id].state.Terminal() || (old(jobs)[id].state.Active() && LeaseLive(old(jobs)[id], now)))
      ensures r.Ok? ==> id in jobs && r.value.1 == jobs[id] && r.value.0 == jobs[id].state.Dead()
      ensures r.Ok? && old(jobs)[id].state.Active() ==>
                && SameAttempt(old(jobs)[id], jobs[id]) && jobs[id].state.Running?
                && jobs[id].leaseExpires == Some(now + 90000) && jobs[id].progress == progress
      ensures r.Ok? && !old(jobs)[id].state.Active() ==> jobs == old(jobs)
      ensures r.Err? ==> jobs == old(jobs)
    {
      if progress < 0 || progress > 100 || token == "" {
        return Err(Validation);
      }
      if id !in jobs {
        return Err(NotFound);
      }
      var j := jobs[id];
      if j.attempts != attempt || !TokenMatches(token, j.token) {
        return Err(LeaseLost);
      }
      if j.state.Succeeded? {
        return Ok((false, j));
      }
      if j.state.Dead() {
        return Ok((true, j));
      }
      if !j.state.Active() {
        return Err(LeaseLost);
      }
      if !LeaseLive(j, now) {
        return Err(LeaseRanOut);
      }
      jobs := jobs[id := HeartbeatRow(j, progress, now)];
      r := Ok((false, jobs[id]));
    }

    /** Complete (success) and Fail (with a code and a retry flag). */
    method Finish(id: Id, attempt: nat, token: string, success: bool, code: string, retry: bool, now: Time)
      returns (r: Result<(), Error>)
      modifies this`jobs
      ensures Contents() == Finished(old(Contents()), id, attempt, token, success, code, retry, now)
      ensures r.Ok? <==>
                && token != "" && (success || ValidErrorCode(code)) && id in old(jobs)
                && old(jobs)[id].attempts == attempt && old(jobs)[id].token == HashOf(token)
                && (success ==> old(jobs)[id].state.Succeeded?
                                || (old(jobs)[id].state.Active() && LeaseLive(old(jobs)[id], now)))
      ensures r.Err? ==> jobs == old(jobs)
      ensures r.Ok? && !old(jobs)[id].state.Active() ==> jobs == old(jobs)
      ensures r.Ok? && success ==> id in jobs && jobs[id].state.Succeeded?
      ensures r.Ok? && !success ==> id in jobs && !jobs[id].state.Active()
      ensures r.Ok? && old(jobs)[id].state.Active() ==>
                SameAttempt(old(jobs)[id], jobs[id]) && jobs[id].leaseExpires.None?
      ensures r.Ok? && success && old(jobs)[id].state.Active() ==>
                jobs[id].progress == 100 && jobs[id].errorCode.NoCode? && jobs[id].completedAt == Some(now)
      ensures r.Ok? && !success && old(jobs)[id].state.Active() ==>
                && jobs[id].errorCode == Code(code)
                && (if retry && attempt < old(jobs)[id].maxAttempts
                    then jobs[id].state.Queued? && jobs[id].availableAt == now + BackoffAfter(attempt)
                    else jobs[id].state.Failed? && jobs[id].completedAt == Some(now))
    {
      var valid := CheckErrorCode(code);
      if !success && !valid {
        return Err(Validation);
      }
      if token == "" {
        return Err(LeaseLost);
      }
      if id !in jobs {
        return Err(NotFound);
      }
      var j := jobs[id];
      if j.attempts != attempt || !TokenMatches(token, j.token) {
        return Err(LeaseLost);
      }
      if success {
        if j.state.Succeeded? {
          return Ok(());
        }
        if !j.state.Active() {
          return Err(LeaseLost);
        }
        if !LeaseLive(j, now) {
          return Err(LeaseRanOut);
        }
        jobs := jobs[id := SucceedRow(j, now)];
      } else if j.state.Active() {
        jobs := jobs[id := FailRow(j, code, retry, now)];
      }
      r := Ok(());
    }

    method Cancel(id: Id, code: string, now: Time) returns (r: Result<(), Error>)
      modifies this`jobs
      ensures Contents() == CanceledTable(old(Contents()), id, code, now)
      ensures id != ZERO_ID && id in jobs && ValidErrorCode(code) ==>
                jobs[id].state.Terminal() && (r.Ok? <==> jobs[id].state.Canceled?)
      ensures id == ZERO_ID || id !in jobs || !ValidErrorCode(code) ==> r.Err?
      ensures r.Err? ==> jobs == old(jobs)
      ensures r.Ok? && jobs != old(jobs) ==> CanceledFrom(old(jobs)[id], jobs[id], code, now)
      ensures r.Ok? ==> (jobs == old(jobs) <==> old(jobs)[id].state.Canceled?)
    {
      var valid := CheckErrorCode(code);
      if id == ZERO_ID || !valid {
        return Err(Validation);
      }
      if id in jobs && (jobs[id].state.Queued? || jobs[id].state.Active()) {
        jobs := jobs[id := CancelRow(jobs[id], code, now)];
        return Ok(());
      }
      if id !in jobs {
        return Err(NotFound);
      }
      r := if jobs[id].state.Canceled? then Ok(()) else Err(LeaseLost);
    }

    method CancelOwnerJobs(ownerType: OwnerType, ownerId: Id, jobType: JobType, code: string, now: Time)
      returns (r: Result<nat, Error>)
      modifies this`jobs
      ensures Contents() == OwnerCanceled(old(Contents()), ownerType, ownerId, jobType, code, now)
      ensures r.Ok? <==> ValidOwnerCancel(ownerType, ownerId, jobType, code)
      ensures r.Ok? ==> r.value == |OwnerCancelable(old(jobs), ownerType, ownerId, jobType)|
      ensures r.Err? ==> jobs == old(jobs)
      ensures r.Ok? ==> OwnersCanceled(old(jobs), jobs, ownerType, ownerId, jobType, code, now)
    {
      var valid := CheckErrorCode(code);
      if BlankOwner(ownerType) || ownerId == ZERO_ID || BlankType(jobType) || !valid {
        return Err(Validation);
      }
      var queued := QueuedOwned(jobs, ownerType, ownerId, jobType);
      var active := ActiveOwned(jobs, ownerType, ownerId, jobType);
      CancelInTwo(Contents(), ownerType, ownerId, jobType, code, now);
      jobs := WithCanceled(jobs, queued, code, now);
      jobs := WithCanceled(jobs, active, code, now);
      OwnerRowsCanceled(old(Contents()), ownerType, ownerId, jobType, code, now);
      r := Ok(|queued| + |active|);
    }

    /** Expires every lapsed lease; a failing terminal-recovery callback stops it. */
    method ExpireLeases(failing: set<Id>, now: Time) returns (affected: nat, ok: bool)
      modifies this`jobs
      ensures ok ==> Contents() == Expired(old(Contents()), now)
      ensures ok ==> affected == |ExpiredIds(old(jobs), now)|
      ensures !ok <==> exists id :: id in failing && CallbackRuns(old(Contents()), id, now)
      ensures ok ==> LapsedGivenUp(old(jobs), jobs, now)
    {
      ghost var expired := ExpiredIds(jobs, now);
      var rows, left := jobs, ExpiredIds(jobs, now);
      affected := 0;
      while left != {}
        invariant left <= expired && affected + |left| == |expired|
        invariant ExpiringInvariant(jobs, rows, left, now)
        invariant forall id :: id in failing && id !in left ==> !CallbackRuns(Contents(), id, now)
        decreases left
      {
        var id :| id in left;
        rows := rows[id := ExpireRow(rows[id], now)];
        left := left - {id};
        affected := affected + 1;
        if rows[id].state.Failed? && id in failing {
          assert CallbackRuns(Contents(), id, now);
          jobs := rows;
          return affected, false;
        }
      }
      assert rows == Expired(Contents(), now).jobs;
      jobs := rows;
      ok := true;
      ExpiredRows(old(Contents()), now);
    }

    /** `failing` are the jobs whose terminal-recovery callback reports an
        error, which rolls the whole transaction back. */
    method RecoverExpired(failing: set<Id>, now: Time) returns (affected: nat, r: Result<(), Error>)
      modifies this`jobs
      ensures Contents() == Recovered(old(Contents()), failing, now)
      ensures r.Ok? ==> affected == |ExpiredIds(old(jobs), now)|
      ensures r.Err? ==> jobs == old(jobs)
      ensures r.Err? <==>
                exists id :: id in failing && id in old(jobs) && LeaseExpiredAt(old(jobs)[id], now)
                             && old(jobs)[id].attempts >= old(jobs)[id].maxAttempts
    {
      var saved := jobs;
      var ok;
      affected, ok := ExpireLeases(failing, now);
      if !ok {
        jobs := saved;
        return affected, Err(Recovery);
      }
      ReconcileDependencyFailures(now);
      r := Ok(());
    }

    method RecoverExpiredJob(id: Id, callbackFails: bool, now: Time) returns (r: Result<bool, Error>)
      modifies this`jobs
      ensures Contents() == RecoveredJob(old(Contents()), id, callbackFails, now)
      ensures r == Ok(false) || r.Err? ==> jobs == old(jobs)
      ensures r == Ok(true) ==>
                id in old(jobs) && LeaseExpiredAt(old(jobs)[id], now) && GivenUpOrDoomed(old(jobs)[id], jobs[id], now)
      ensures id != ZERO_ID && id in old(jobs) && LeaseExpiredAt(old(jobs)[id], now) ==>
                r.Ok? == (!callbackFails || old(jobs)[id].attempts < old(jobs)[id].maxAttempts) && r != Ok(false)
      ensures id == ZERO_ID ==> r.Err?
      ensures id != ZERO_ID && (id !in old(jobs) || !LeaseExpiredAt(old(jobs)[id], now)) ==> r == Ok(false)
    {
      if id == ZERO_ID {
        return Err(Validation);
      }
      if id !in jobs || !jobs[id].state.Active() || jobs[id].leaseExpires.None? || jobs[id].leaseExpires.value > now {
        return Ok(false);
      }
      var saved := jobs;
      jobs := jobs[id := ExpireRow(jobs[id], now)];
      if jobs[id].state.Failed? && callbackFails {
        jobs := saved;
        return Err(Recovery);
      }
      ReconcileDependencyFailures(now);
      r := Ok(true);
    }

    /** One UPDATE outside the store: a revoked worker's jobs go back to the
        queue, their attempts spent. */
    method Revoke(owner: string, now: Time)
      modifies this`jobs
      ensures Contents() == Revoked(old(Contents()), owner, now)
      ensures jobs.Keys == old(jobs).Keys
      ensures forall id :: id in jobs ==>
                var j := old(jobs)[id];
                if j.state.Active() && j.leaseOwner == owner
                then SameWork(j, jobs[id]) && jobs[id].state.Queued? && jobs[id].attempts == j.attempts
                     && jobs[id].availableAt == j.availableAt && Unleased(jobs[id])
                     && jobs[id].errorCode.WorkerRevokedCode?
                else jobs[id] == j
    {
      jobs := map id | id in jobs ::
        if jobs[id].state.Active() && jobs[id].leaseOwner == owner then RevokeRow(jobs[id], now) else jobs[id];
    }

    /** Speech work is wanted: a job that is over starts again, and a missing one
        is enqueued, so afterwards the key has a job that is not dead. */
    method EnsureSpeechJob(spec: Spec, audioGone: bool, freshId: Id, now: Time) returns (r: Result<Job, Error>)
      requires KeyedById(jobs)
      modifies this`jobs
      ensures r.Ok? ==>
                Contents() == Enqueued(SpeechRequeued(old(Contents()), spec.key, audioGone, now), spec, freshId, now)
      ensures r.Err? ==> Contents() == old(Contents())
      ensures r.Err? <==>
                !ValidSpec(spec) || (!old(KeyTaken(Contents(), spec.key)) && NewRow(spec, freshId, now).id in old(jobs))
      ensures r.Ok? ==> r.value.id in jobs && jobs[r.value.id] == r.value && r.value.key == spec.key
      ensures r.Ok? ==> !r.value.state.Dead() && (audioGone ==> !r.value.state.Succeeded?)
    {
      var saved := jobs;
      RequeueSpeech(spec.key, audioGone, now);
      assert KeyTaken(Contents(), spec.key) == old(KeyTaken(Contents(), spec.key));
      r := Enqueue(spec, freshId, now);
      if r.Err? { jobs := saved; }
    }

    /** Its UPDATE: the jobs of the key that are over start again. */
    method RequeueSpeech(key: string, audioGone: bool, now: Time)
      requires KeyedById(jobs)
      modifies this`jobs
      ensures Contents() == SpeechRequeued(old(Contents()), key, audioGone, now)
      ensures KeyedById(jobs) && jobs.Keys == old(jobs).Keys
      ensures forall id :: id in jobs ==>
                var j := old(jobs)[id];
                if j.key == key && (j.state.Failed? || j.state.Canceled? || (j.state.Succeeded? && audioGone))
                then StartsOver(j, jobs[id], now) && SameWork(j, jobs[id]) else jobs[id] == j
    {
      jobs := map id | id in jobs ::
        if SpeechRequeues(jobs[id], key, audioGone) then RequeueRow(jobs[id], now) else jobs[id];
    }

    /** A finished analysis is asked for again under its idempotency key. */
    method RequeueArticle(key: string, payload: string, inputHash: string, now: Time) returns (requeued: Option<Job>)
      requires forall a, b :: a in jobs && b in jobs && jobs[a].key == jobs[b].key ==> a == b
      modifies this`jobs
      ensures Contents() == ArticleRequeued(old(Contents()), key, payload, inputHash, now)
      ensures requeued.Some? <==>
                exists id :: id in old(jobs) && old(jobs)[id].key == key && old(jobs)[id].state.Terminal()
      ensures requeued.Some? ==>
                && (exists id :: id in old(jobs) && jobs == old(jobs)[id := requeued.value]
                                 && StartsOver(old(jobs)[id], requeued.value, now))
                && requeued.value.key == key && requeued.value.payload == payload
                && requeued.value.inputHash == inputHash && requeued.value.progress == 0
      ensures requeued.None? ==> jobs == old(jobs)
    {
      if id :| id in jobs && jobs[id].key == key {
        if jobs[id].state.Terminal() {
          ghost var all := ArticleRequeued(Contents(), key, payload, inputHash, now).jobs;
          jobs := jobs[id := ArticleRequeueRow(jobs[id], payload, inputHash, now)];
          assert jobs == all;
          return Some(jobs[id]);
        }
      }
      assert jobs == ArticleRequeued(Contents(), key, payload, inputHash, now).jobs;
      requeued := None;
    }

    /** Checks a worker's attempt and changes nothing. */
    method VerifyLease(id: Id, attempt: nat, token: string, owner: string, now: Time) returns (r: Result<Job, Error>)
      ensures r.Ok? ==> id in jobs && r.value == jobs[id]
      ensures r.Ok? <==>
                && id != ZERO_ID && id in jobs && attempt > 0 && token != "" && !Blank(owner)
                && jobs[id].attempts == attempt && jobs[id].token == HashOf(token)
                && (jobs[id].state.Succeeded?
                    || (jobs[id].leaseOwner == owner && (jobs[id].state.Active() ==> LeaseLive(jobs[id], now))))
    {
      if id == ZERO_ID || attempt == 0 || token == "" || Blank(owner) {
        return Err(LeaseLost);
      }
      if id !in jobs {
        return Err(NotFound);
      }
      var j := jobs[id];
      if j.attempts != attempt || !TokenMatches(token, j.token) {
        return Err(LeaseLost);
      }
      if !j.state.Active() {
        if j.state.Succeeded? || (j.leaseOwner == owner && (j.state.Dead() || j.state.Queued?)) {
          return Ok(j);
        }
        return Err(LeaseLost);
      }
      if j.leaseOwner != owner {
        return Err(LeaseLost);
      }
      if !LeaseLive(j, now) {
        return Err(LeaseRanOut);
      }
      r := Ok(j);
    }
  }

  function OfType(jobs: map<Id, Job>, ids: set<Id>, jobType: JobType): set<Id> {
    set id | id in ids && id in jobs && jobs[id].jobType == jobType
  }

  /** No row of the type is claimable, or the worker's lane is taken. */
  ghost predicate NoLaneWork(t: Table, target: Target, owner: string, jobType: JobType, now: Time) {
    (exists id :: id in t.jobs && t.jobs[id].leaseOwner == owner && t.jobs[id].jobType == jobType
                  && t.jobs[id].state.Active())
    || forall id :: Claimable(t, id, target, now) ==> t.jobs[id].jobType != jobType
  }

  lemma LaneCandidates(t: Table, target: Target, owner: string, jobType: JobType, now: Time)
    ensures Candidates(t, target, LaneFilter(t.jobs, owner, jobType), now) == {}
            <==> NoLaneWork(t, target, owner, jobType, now)
    ensures Candidates(t, target, LaneFilter(t.jobs, owner, jobType), now) != {} ==>
              Candidates(t, target, LaneFilter(t.jobs, owner, jobType), now)
              == OfType(t.jobs, ClaimableSet(t, target, now), jobType)
  {
    var ok := LaneFilter(t.jobs, owner, jobType);
    assert HoldsLane(t.jobs, owner, jobType) ==> Candidates(t, target, ok, now) == {};
    assert !HoldsLane(t.jobs, owner, jobType) ==>
        Candidates(t, target, ok, now) == OfType(t.jobs, ClaimableSet(t, target, now), jobType);
    if id :| Claimable(t, id, target, now) && t.jobs[id].jobType == jobType {
      assert !HoldsLane(t.jobs, owner, jobType) ==> id in Candidates(t, target, ok, now);
    }
  }

  function OwnerCancelable(jobs: map<Id, Job>, ownerType: OwnerType, ownerId: Id, jobType: JobType): set<Id> {
    set id | id in jobs && Owned(jobs[id], ownerType, ownerId, jobType) && Cancelable(jobs[id])
  }

  function WithCanceled(jobs: map<Id, Job>, ids: set<Id>, code: string, now: Time): map<Id, Job> {
    map id | id in jobs :: if id in ids then CancelRow(jobs[id], code, now) else jobs[id]
  }

  // ----- proof support -----

  lemma NoQueuedBehindDead(jobs: map<Id, Job>, deps: Edges)
    requires Settled(jobs, deps, {})
    ensures forall id, d :: (id, d) in deps && id in jobs && d in jobs && jobs[id].state.Queued? ==>
              !(jobs[d].state.Failed? || jobs[d].state.Canceled?)
  {
    forall id, d | (id, d) in deps && id in jobs && d in jobs && jobs[id].state.Queued?
      ensures !(jobs[d].state.Failed? || jobs[d].state.Canceled?)
    {
      assert !HasDeadDependency(jobs, deps, id);
    }
  }

  lemma FailedForAReason(t: Table, now: Time)
    ensures forall id :: id in t.jobs && Reconciled(t, now).jobs[id] != t.jobs[id] ==>
              exists d :: (id, d) in t.deps && d in t.jobs
                          && (Reconciled(t, now).jobs[d].state.Failed? || Reconciled(t, now).jobs[d].state.Canceled?)
  {
    forall id | id in t.jobs && Doomed(t, id)
      ensures exists d :: (id, d) in t.deps && d in t.jobs
                          && (Reconciled(t, now).jobs[d].state.Failed? || Reconciled(t, now).jobs[d].state.Canceled?)
    {
      var p :| DoomPath(t, p) && p[0] == id;
      assert (p[0], p[1]) in t.deps;
      if |p| > 2 {
        DoomPathTail(t, p);
        assert p[1..][0] == p[1] && Doomed(t, p[1]);
      }
    }
  }

  lemma ExpiredRow(j: Job, now: Time)
    ensures GivenUp(j, ExpireRow(j, now), now)
  {}

  lemma ExpiredRows(t: Table, now: Time)
    ensures LapsedGivenUp(t.jobs, Expired(t, now).jobs, now)
  {
    forall id | id in t.jobs ensures GivenUp(t.jobs[id], ExpireRow(t.jobs[id], now), now) {
      ExpiredRow(t.jobs[id], now);
    }
  }

  lemma CanceledRow(j: Job, code: string, now: Time)
    ensures CanceledFrom(j, CancelRow(j, code, now), code, now)
  {}

  lemma OwnerRowsCanceled(t: Table, ownerType: OwnerType, ownerId: Id, jobType: JobType, code: string, now: Time)
    requires ValidOwnerCancel(ownerType, ownerId, jobType, code)
    ensures OwnersCanceled(t.jobs, OwnerCanceled(t, ownerType, ownerId, jobType, code, now).jobs, ownerType, ownerId,
                           jobType, code, now)
  {
    forall id | id in t.jobs ensures CanceledFrom(t.jobs[id], CancelRow(t.jobs[id], code, now), code, now) {
      CanceledRow(t.jobs[id], code, now);
    }
  }

  function QueuedOwned(jobs: map<Id, Job>, ownerType: OwnerType, ownerId: Id, jobType: JobType): set<Id> {
    set id | id in jobs && Owned(jobs[id], ownerType, ownerId, jobType) && jobs[id].state.Queued?
  }

  function ActiveOwned(jobs: map<Id, Job>, ownerType: OwnerType, ownerId: Id, jobType: JobType): set<Id> {
    set id | id in jobs && Owned(jobs[id], ownerType, ownerId, jobType) && jobs[id].state.Active()
  }

  lemma CancelableCounted(jobs: map<Id, Job>, ownerType: OwnerType, ownerId: Id, jobType: JobType)
    ensures |QueuedOwned(jobs, ownerType, ownerId, jobType)| + |ActiveOwned(jobs, ownerType, ownerId, jobType)|
            == |OwnerCancelable(jobs, ownerType, ownerId, jobType)|
  {
    var queued := QueuedOwned(jobs, ownerType, ownerId, jobType);
    var active := ActiveOwned(jobs, ownerType, ownerId, jobType);
    var all := OwnerCancelable(jobs, ownerType, ownerId, jobType);
    forall id ensures id in all <==> id in queued || id in active {}
    CountedApart(queued, active, all);
  }

  lemma CountedApart(a: set<Id>, b: set<Id>, all: set<Id>)
    requires a !! b && forall id :: id in all <==> id in a || id in b
    ensures |a| + |b| == |all|
  {
    assert all == a + b;
  }

  /** The queued rows and the active rows, canceled by two statements. */
  lemma CancelInTwo(t: Table, ownerType: OwnerType, ownerId: Id, jobType: JobType, code: string, now: Time)
    requires ValidOwnerCancel(ownerType, ownerId, jobType, code)
    ensures WithCanceled(WithCanceled(t.jobs, QueuedOwned(t.jobs, ownerType, ownerId, jobType), code, now),
                         ActiveOwned(t.jobs, ownerType, ownerId, jobType), code, now)
            == OwnerCanceled(t, ownerType, ownerId, jobType, code, now).jobs
    ensures |QueuedOwned(t.jobs, ownerType, ownerId, jobType)| + |ActiveOwned(t.jobs, ownerType, ownerId, jobType)|
            == |OwnerCancelable(t.jobs, ownerType, ownerId, jobType)|
  {
    CancelableCounted(t.jobs, ownerType, ownerId, jobType);
  }

  function QueuedIds(jobs: map<Id, Job>): set<Id> {
    set id | id in jobs && jobs[id].state.Queued?
  }

  /** The reconcile loop's invariant: so far only doomed jobs were failed. */
  ghost predicate Reconciling(start: Table, t: Table, now: Time) {
    && t.deps == start.deps && t.jobs.Keys == start.jobs.Keys
    && forall id :: id in t.jobs ==>
         t.jobs[id] == start.jobs[id] || (Doomed(start, id) && t.jobs[id] == DependencyFailRow(start.jobs[id], now))
  }

  /** No queued job outside `todo` depends on a failed or canceled job. */
  ghost predicate Settled(jobs: map<Id, Job>, deps: Edges, todo: set<Id>) {
    forall id :: id in jobs && id !in todo && jobs[id].state.Queued? ==> !HasDeadDependency(jobs, deps, id)
  }

  ghost predicate ExpiringInvariant(before: map<Id, Job>, rows: map<Id, Job>, left: set<Id>, now: Time) {
    && rows.Keys == before.Keys
    && (forall id :: id in rows && id in left ==> rows[id] == before[id])
    && forall id :: id in rows && id !in left ==>
         rows[id] == if LeaseExpiredAt(before[id], now) then ExpireRow(before[id], now) else before[id]
  }

  ghost predicate PassInvariant(before: map<Id, Job>, jobs: map<Id, Job>, todo: set<Id>, affected: nat) {
    && jobs.Keys == before.Keys
    && (forall id :: id in jobs && (id in todo || before[id].state.Dead()) ==> jobs[id] == before[id])
    && (affected == 0 ==> jobs == before)
    && (if affected == 0 then QueuedIds(jobs) == QueuedIds(before) else QueuedIds(jobs) < QueuedIds(before))
  }

  lemma PassStep(before: map<Id, Job>, jobs: map<Id, Job>, todo: set<Id>, affected: nat, id: Id, now: Time)
    requires PassInvariant(before, jobs, todo, affected)
    requires id in jobs && id in todo && jobs[id].state.Queued?
    ensures PassInvariant(before, jobs[id := DependencyFailRow(jobs[id], now)], todo - {id}, affected + 1)
  {
    var next := jobs[id := DependencyFailRow(jobs[id], now)];
    assert QueuedIds(next) == QueuedIds(jobs) - {id};
    assert id in QueuedIds(jobs);
  }

  lemma SettledStep(before: map<Id, Job>, jobs: map<Id, Job>, deps: Edges, todo: set<Id>, affected: nat, id: Id)
    requires PassInvariant(before, jobs, todo, affected) && id in todo
    requires affected == 0 ==> Settled(before, deps, todo)
    requires id in jobs
             && !(jobs[id].state.Queued? && HasDeadDependency(before, deps, id) && HasDeadDependency(jobs, deps, id))
    ensures affected == 0 ==> Settled(before, deps, todo - {id})
    ensures PassInvariant(before, jobs, todo - {id}, affected)
  {
  }

  lemma ReconcilingStep(start: Table, t: Table, before: map<Id, Job>, id: Id, now: Time)
    requires Reconciling(start, t, now) && id in t.jobs && t.jobs[id].state.Queued?
    requires before.Keys == t.jobs.Keys && forall d :: d in before && before[d].state.Dead() ==> t.jobs[d] == before[d]
    requires HasDeadDependency(t.jobs, t.deps, id) || HasDeadDependency(before, t.deps, id)
    ensures Reconciling(start, t.(jobs := t.jobs[id := DependencyFailRow(t.jobs[id], now)]), now)
  {
    var d :| d in t.jobs && (id, d) in t.deps && t.jobs[d].state.Dead();
    DoomedByEdge(start, id, d);
  }

  lemma {:induction false} DoomedAreDead(start: Table, t: Table, p: seq<Id>, now: Time)
    requires Reconciling(start, t, now) && DoomPath(start, p) && Settled(t.jobs, t.deps, {})
    ensures t.jobs[p[0]] == DependencyFailRow(start.jobs[p[0]], now)
    decreases |p|
  {
    if |p| > 2 {
      DoomPathTail(start, p);
      DoomedAreDead(start, t, p[1..], now);
    } else {
      assert start.jobs[p[1]].state.Dead();
    }
    assert (p[0], p[1]) in t.deps && t.jobs[p[1]].state.Dead();
    assert HasDeadDependency(t.jobs, t.deps, p[0]);
  }

  lemma ReconcilingDone(start: Table, t: Table, now: Time)
    requires Reconciling(start, t, now) && Settled(t.jobs, t.deps, {})
    ensures t == Reconciled(start, now)
  {
    forall id | id in t.jobs && Doomed(start, id)
      ensures t.jobs[id] == DependencyFailRow(start.jobs[id], now)
    {
      var p :| DoomPath(start, p) && p[0] == id;
      DoomedAreDead(start, t, p, now);
    }
    assert t.jobs == Reconciled(start, now).jobs;
  }

  lemma {:induction false} ClosedUnderEdges(deps: Edges, start: Id, closed: set<Id>, x: Id)
    requires forall e :: e in deps && (e.0 == start || e.0 in closed) ==> e.1 in closed
    requires Reaches(deps, start, x)
    ensures x in closed
  {
    var p :| PathBetween(deps, p, start, x);
    var i := 1;
    assert (p[0], p[1]) in deps;
    while i < |p| - 1
      invariant 1 <= i < |p| && p[i] in closed
    {
      assert (p[i], p[i + 1]) in deps;
      i := i + 1;
    }
  }

  lemma SmallerAfterRemoval(s: set<Id>, a: Id)
    requires a in s
    ensures |s - {a}| < |s|
  {}

  lemma FewerLeft(all: set<Id>, had: set<Id>, found: set<Id>)
    requires found != {} && found <= all && found !! had
    ensures |all - (had + found)| < |all - had|
  {
    var x :| x in found;
    assert all - had == (all - (had + found)) + found;
    assert |all - had| == |all - (had + found)| + |found|;
  }

  lemma {:induction false} FirstExists(t: Table, ids: set<Id>)
    requires ids != {} && ids <= t.jobs.Keys && KeyedById(t.jobs)
    ensures exists id :: id in ids && forall o :: o in ids && o != id ==> Before(t.jobs[id], t.jobs[o])
    decreases ids
  {
    var a :| a in ids;
    var rest := ids - {a};
    if rest == {} {
      assert ids == {a};
    } else {
      FirstExists(t, rest);
      var b :| b in rest && forall o :: o in rest && o != b ==> Before(t.jobs[b], t.jobs[o]);
      var first := if Before(t.jobs[a], t.jobs[b]) then a else b;
      assert first in ids && forall o :: o in ids && o != first ==> Before(t.jobs[first], t.jobs[o]);
    }
  }
}
