/** Whole runs of the scheduler: any sequence of transactions from the empty
    table, at non-decreasing times, with a fresh token for every claim. */
module JobRuns {
  import opened Digraph
  import opened JobModel
  import opened JobTable
  import opened JobInvariants

  datatype Run = Run(tables: seq<Table>, events: seq<Event>, times: seq<Time>) {
    ghost predicate Valid() {
      && |tables| == |events| + 1 && |times| == |events|
      && tables[0] == EMPTY
      && (forall i :: 0 <= i < |events| ==> tables[i + 1] == Step(tables[i], events[i], times[i]))
      && (forall i, k :: 0 <= i <= k < |times| ==> times[i] <= times[k])
      && (forall i, k :: 0 <= i < k < |events| && events[i].IsClaim() && events[k].IsClaim() ==>
            events[i].token != events[k].token)
    }

    ghost predicate Has(i: nat, id: Id) {
      i < |tables| && id in tables[i].jobs
    }

    ghost function Row(i: nat, id: Id): Job
      requires Has(i, id)
    {
      tables[i].jobs[id]
    }

    /** Event i is the claim that starts a new attempt of the job. */
    ghost predicate ClaimsAt(i: nat, id: Id) {
      i < |events| && Has(i, id) && Has(i + 1, id) && ClaimedBy(Row(i, id), Row(i + 1, id))
    }

    /** Event i is an owner's request that queues the job again. */
    ghost predicate RequeuedAt(i: nat, id: Id) {
      i < |events| && Has(i, id) && events[i].Requeues(Row(i, id))
    }

    /** No owner queued the job again between tables i and n. */
    ghost predicate OneLife(i: nat, n: nat, id: Id) {
      forall m :: i <= m < n ==> !RequeuedAt(m, id)
    }
  }

  lemma EmptyValid()
    ensures JobInvariants.Valid(EMPTY)
  {
    var none: Edges := {};
    assert forall a, p :: PathBetween(none, p, a, a) ==> (p[0], p[1]) in none;
  }

  lemma {:induction false} RunTablesValid(r: Run, n: nat)
    requires r.Valid() && n < |r.tables|
    ensures JobInvariants.Valid(r.tables[n])
    decreases n
  {
    if n == 0 {
      EmptyValid();
    } else {
      RunTablesValid(r, n - 1);
      StepValid(r.tables[n - 1], r.events[n - 1], r.times[n - 1]);
    }
  }

  /** One step of a run, seen from one job. */
  lemma RunStep(r: Run, i: nat, id: Id)
    requires r.Valid() && i < |r.events| && r.Has(i, id)
    ensures r.Has(i + 1, id)
    ensures ValidRow(r.Row(i, id)) && ValidRow(r.Row(i + 1, id)) && r.Row(i, id).id == id
    ensures RowChange(r.Row(i, id), r.Row(i + 1, id), r.events[i], r.times[i])
    ensures r.tables[i].deps <= r.tables[i + 1].deps
    ensures r.RequeuedAt(i, id) <==> NewLife(r.Row(i, id), r.Row(i + 1, id))
  {
    RunTablesValid(r, i);
    RunTablesValid(r, i + 1);
    StepRows(r.tables[i], r.events[i], r.times[i]);
    RequeuedIsNew(r.tables[i], r.events[i], r.times[i], id);
  }

  lemma RequeuedIsNew(t: Table, e: Event, now: Time, id: Id)
    requires id in t.jobs && id in Step(t, e, now).jobs && ValidRow(t.jobs[id])
    requires RowChange(t.jobs[id], Step(t, e, now).jobs[id], e, now)
    ensures e.Requeues(t.jobs[id]) <==> NewLife(t.jobs[id], Step(t, e, now).jobs[id])
  {
    LifeShrinks(t.jobs[id], Step(t, e, now).jobs[id], e, now);
  }

  /** A job that is over changes exactly when a request under its key asks for
      it again: a speech request, unless the job succeeded and its audio is
      there, or an article request. It then starts from zero attempts. */
  lemma OverUntilRequeued(r: Run, i: nat, id: Id)
    requires r.Valid() && i < |r.events| && r.Has(i, id) && r.Row(i, id).state.Terminal()
    ensures r.Has(i + 1, id)
    ensures var j, k, e := r.Row(i, id), r.Row(i + 1, id), r.events[i];
            && (k != j <==> || (e.RequeueSpeech? && e.key == j.key && (j.state.Succeeded? ==> e.audioGone))
                            || (e.RequeueArticle? && e.key == j.key))
            && (k != j <==> r.RequeuedAt(i, id))
            && (k != j ==> k.state.Queued? && k.attempts == 0)
  {
    RunStep(r, i, id);
    RowChangeValid(r.Row(i, id), r.Row(i + 1, id), r.events[i], r.times[i]);
  }

  /** Rows are never lost; within one life the attempts never fall and a job
      that is over stays as it is. */
  lemma {:induction false} RowsPersist(r: Run, i: nat, n: nat, id: Id)
    requires r.Valid() && r.Has(i, id) && i <= n < |r.tables|
    ensures r.Has(n, id) && r.tables[i].deps <= r.tables[n].deps
    ensures r.OneLife(i, n, id) ==> r.Row(i, id).attempts <= r.Row(n, id).attempts
    ensures r.OneLife(i, n, id) && r.Row(i, id).state.Terminal() ==> r.Row(n, id) == r.Row(i, id)
    decreases n
  {
    if i < n {
      RowsPersist(r, i, n - 1, id);
      RunStep(r, n - 1, id);
      LifeShrinks(r.Row(n - 1, id), r.Row(n, id), r.events[n - 1], r.times[n - 1]);
      assert r.OneLife(i, n, id) ==> !r.RequeuedAt(n - 1, id);
      if r.OneLife(i, n, id) && r.Row(i, id).state.Terminal() { OverUntilRequeued(r, n - 1, id); }
    }
  }

  /** Over a run a job that is over stays as it is if and only if no such request
      comes; for a dependency that succeeded, that is to stay succeeded. */
  lemma OverForGood(r: Run, i: nat, n: nat, id: Id)
    requires r.Valid() && r.Has(i, id) && i <= n < |r.tables| && r.Row(i, id).state.Terminal()
    ensures r.OneLife(i, n, id) <==> forall m :: i <= m <= n ==> r.Has(m, id) && r.Row(m, id) == r.Row(i, id)
  {
    if r.OneLife(i, n, id) {
      forall m | i <= m <= n ensures r.Has(m, id) && r.Row(m, id) == r.Row(i, id) {
        RowsPersist(r, i, m, id);
      }
    } else {
      var m :| i <= m < n && r.RequeuedAt(m, id);
      if r.Has(m, id) && r.Row(m, id) == r.Row(i, id) { OverUntilRequeued(r, m, id); }
    }
  }

  // ----- bounded lives -----

  ghost function AttemptsAt(r: Run, n: nat, id: Id): nat {
    if r.Has(n, id) then r.Row(n, id).attempts else 0
  }

  lemma NewRowsUnattempted(r: Run, i: nat, id: Id)
    requires r.Valid() && i < |r.events| && !r.Has(i, id) && r.Has(i + 1, id)
    ensures r.Row(i + 1, id).attempts == 0 && r.Row(i + 1, id).token.NoToken? && r.Row(i + 1, id).state.Queued?
    ensures r.Row(i + 1, id).maxAttempts > 0
  {
    RunTablesValid(r, i);
    StepRows(r.tables[i], r.events[i], r.times[i]);
  }

  lemma AttemptsStep(r: Run, i: nat, id: Id)
    requires r.Valid() && i < |r.events|
    ensures !r.RequeuedAt(i, id) ==>
              AttemptsAt(r, i + 1, id) == AttemptsAt(r, i, id) + (if r.ClaimsAt(i, id) then 1 else 0)
    ensures r.RequeuedAt(i, id) ==> AttemptsAt(r, i + 1, id) == 0 && !r.ClaimsAt(i, id)
    ensures AttemptsAt(r, i, id) <= 3
  {
    if r.Has(i, id) {
      RunStep(r, i, id);
      LifeShrinks(r.Row(i, id), r.Row(i + 1, id), r.events[i], r.times[i]);
      RowChangeValid(r.Row(i, id), r.Row(i + 1, id), r.events[i], r.times[i]);
    } else if r.Has(i + 1, id) {
      NewRowsUnattempted(r, i, id);
    }
  }

  /** The claims of the job among events i to n - 1. */
  ghost function Claims(r: Run, id: Id, i: nat, n: nat): nat
    requires i <= n
    decreases n
  {
    if i == n then 0 else Claims(r, id, i, n - 1) + (if r.ClaimsAt(n - 1, id) then 1 else 0)
  }

  ghost function Requeues(r: Run, id: Id, n: nat): nat {
    if n == 0 then 0 else Requeues(r, id, n - 1) + (if r.RequeuedAt(n - 1, id) then 1 else 0)
  }

  lemma {:induction false} ClaimsCounted(r: Run, id: Id, i: nat, n: nat)
    requires r.Valid() && i <= n < |r.tables| && r.OneLife(i, n, id)
    ensures Claims(r, id, i, n) + AttemptsAt(r, i, id) == AttemptsAt(r, n, id)
    decreases n
  {
    if i < n {
      ClaimsCounted(r, id, i, n - 1);
      AttemptsStep(r, n - 1, id);
    }
  }

  /** Between two requeues by its owner a job is claimed at most max_attempts,
      hence at most three, times; the attempt counter counts those claims. */
  lemma ClaimsBounded(r: Run, id: Id, i: nat, n: nat)
    requires r.Valid() && i <= n < |r.tables| && r.OneLife(i, n, id)
    ensures Claims(r, id, i, n) + AttemptsAt(r, i, id) == AttemptsAt(r, n, id) <= 3
    ensures r.Has(n, id) ==> Claims(r, id, i, n) <= r.Row(n, id).maxAttempts
  {
    ClaimsCounted(r, id, i, n);
    RunTablesValid(r, n);
  }

  /** Over a whole run a job is claimed at most three times per life. */
  lemma {:induction false} AllClaimsBounded(r: Run, id: Id, n: nat)
    requires r.Valid() && n < |r.tables|
    ensures Claims(r, id, 0, n) <= 3 * Requeues(r, id, n) + AttemptsAt(r, n, id)
    ensures Claims(r, id, 0, n) <= 3 * (Requeues(r, id, n) + 1)
  {
    if n > 0 {
      AllClaimsBounded(r, id, n - 1);
      AttemptsStep(r, n - 1, id);
    }
    ClaimsBounded(r, id, n, n);
  }

  lemma MoveStep(r: Run, id: Id, i: nat)
    requires r.Valid() && i < |r.events| && r.Has(i, id) && !r.RequeuedAt(i, id)
    ensures r.Has(i + 1, id) && r.Row(i, id).attempts <= r.Row(i, id).maxAttempts
            && r.Row(i + 1, id).attempts <= r.Row(i + 1, id).maxAttempts
    ensures (if MovesAt(r, id, i) then 1 else 0) + Measure(r.Row(i + 1, id)) <= Measure(r.Row(i, id))
  {
    RunStep(r, i, id);
    LifeShrinks(r.Row(i, id), r.Row(i + 1, id), r.events[i], r.times[i]);
  }

  /** In one life claims, returns to the queue and finishes together happen at
      most seven times: each takes at least one from a natural number that
      never grows. */
  lemma {:induction false} LifeBounded(r: Run, id: Id, i: nat, n: nat)
    requires r.Valid() && r.Has(i, id) && i <= n < |r.tables| && r.OneLife(i, n, id)
    ensures r.Has(n, id) && r.Row(i, id).attempts <= r.Row(i, id).maxAttempts
            && r.Row(n, id).attempts <= r.Row(n, id).maxAttempts
    ensures Moves(r, id, i, n) + Measure(r.Row(n, id)) <= Measure(r.Row(i, id)) <= 7
    decreases n
  {
    if i < n {
      LifeBounded(r, id, i, n - 1);
      MoveStep(r, id, n - 1);
    } else {
      RunTablesValid(r, i);
    }
  }

  ghost predicate MovesAt(r: Run, id: Id, i: nat) {
    r.Has(i, id) && r.Has(i + 1, id) && Moved(r.Row(i, id), r.Row(i + 1, id))
  }

  ghost function Moves(r: Run, id: Id, i: nat, n: nat): nat
    requires i <= n
    decreases n
  {
    if i == n then 0 else Moves(r, id, i, n - 1) + (if MovesAt(r, id, n - 1) then 1 else 0)
  }

  // ----- lease fencing -----

  /** Event k is the newest claim of the job before table n, and the attempt it
      started has not been given up since. */
  ghost predicate NewestClaim(r: Run, id: Id, k: nat, n: nat) {
    && k < n < |r.tables| && |r.events| + 1 == |r.tables| && r.ClaimsAt(k, id) && r.events[k].IsClaim()
    && (forall m :: k < m < n ==> !r.ClaimsAt(m, id))
    && (forall m :: k < m <= n ==> r.Has(m, id) && r.Row(m, id).attempts == r.Row(k + 1, id).attempts)
  }

  lemma NewestClaimStep(r: Run, id: Id, k: nat, i: nat)
    requires NewestClaim(r, id, k, i) && i < |r.events| && !r.ClaimsAt(i, id)
    requires r.Has(i + 1, id) && r.Row(i + 1, id).attempts == r.Row(i, id).attempts
    ensures NewestClaim(r, id, k, i + 1)
  {
  }

  lemma RowStep(r: Run, i: nat, id: Id)
    requires r.Valid() && i < |r.events| && r.Has(i, id)
    ensures r.Has(i + 1, id)
    ensures r.ClaimsAt(i, id) ==>
              r.events[i].IsClaim() && r.Row(i + 1, id).token == HashOf(r.events[i].token)
              && r.Row(i + 1, id).state.Leased?
    ensures !r.ClaimsAt(i, id) && r.Row(i + 1, id).token.HashOf? ==>
              r.Row(i, id).token == r.Row(i + 1, id).token && r.Row(i + 1, id).attempts == r.Row(i, id).attempts
    ensures !r.ClaimsAt(i, id) && r.Row(i + 1, id).state.Active() ==> r.Row(i, id).state.Active()
    ensures r.Row(i + 1, id).state.Succeeded? && r.Row(i + 1, id) != r.Row(i, id) ==>
              r.Row(i, id).token == r.Row(i + 1, id).token && r.Row(i, id).state.Active()
    ensures r.Row(i, id).state.Active() ==> r.Row(i, id).token.HashOf?
  {
    RunStep(r, i, id);
    if r.ClaimsAt(i, id) {
      LifeShrinks(r.Row(i, id), r.Row(i + 1, id), r.events[i], r.times[i]);
    } else {
      TokenKept(r.Row(i, id), r.Row(i + 1, id), r.events[i], r.times[i]);
    }
  }

  /** A stored token hash comes from the newest claim; while the job is in
      flight that claim's attempt was in flight all along. */
  lemma {:induction false} TokenOrigin(r: Run, id: Id, n: nat) returns (k: nat)
    requires r.Valid() && r.Has(n, id) && r.Row(n, id).token.HashOf?
    ensures NewestClaim(r, id, k, n)
    ensures r.Row(n, id).token == HashOf(r.events[k].token)
    ensures r.Row(n, id).state.Active() ==> forall m :: k < m <= n ==> r.Has(m, id) && r.Row(m, id).state.Active()
    decreases n
  {
    var i := n - 1;
    if !r.Has(i, id) { NewRowsUnattempted(r, i, id); }
    RowStep(r, i, id);
    if r.ClaimsAt(i, id) {
      k := i;
    } else {
      k := TokenOrigin(r, id, i);
      NewestClaimStep(r, id, k, i);
    }
  }

  /** A heartbeat, completion or failure that changes anything changes only
      its own job, carries the attempt and token of that job's newest claim,
      and that attempt was in flight from its claim up to now. */
  lemma LeaseFencing(r: Run, i: nat) returns (k: nat)
    requires r.Valid() && i < |r.events| && (r.events[i].Heartbeat? || r.events[i].Finish?)
    requires r.tables[i + 1] != r.tables[i]
    ensures r.Has(i, r.events[i].id)
    ensures NewestClaim(r, r.events[i].id, k, i)
    ensures r.events[i].token == r.events[k].token && r.events[i].attempt == r.Row(k + 1, r.events[i].id).attempts
    ensures forall m :: k < m <= i ==> r.Has(m, r.events[i].id) && r.Row(m, r.events[i].id).state.Active()
    ensures forall other :: other in r.tables[i].jobs && other != r.events[i].id ==>
              r.tables[i + 1].jobs[other] == r.tables[i].jobs[other]
    ensures forall c :: 0 <= c < |r.events| && r.events[c].IsClaim() && r.events[c].token == r.events[i].token ==>
              c == k
  {
    var id := r.events[i].id;
    RunStep(r, i, id);
    k := TokenOrigin(r, id, i);
  }

  /** A token outlives its use: once its job was claimed again, or left the
      in-flight states, a heartbeat or finish with it changes no row. */
  lemma StaleTokenChangesNothing(r: Run, k: nat, gone: nat, i: nat, id: Id)
    requires r.Valid() && r.ClaimsAt(k, id) && r.events[k].IsClaim() && k < gone <= i < |r.events|
    requires r.Has(gone, id) && ((r.ClaimsAt(gone, id) && gone < i) || !r.Row(gone, id).state.Active())
    requires (r.events[i].Heartbeat? || r.events[i].Finish?) && r.events[i].token == r.events[k].token
    ensures r.tables[i + 1] == r.tables[i]
  {
    if r.tables[i + 1] != r.tables[i] {
      var newest := LeaseFencing(r, i);
      OneClaimPerEvent(r, k, id, r.events[i].id);
    }
  }

  lemma OneClaimPerEvent(r: Run, k: nat, a: Id, b: Id)
    requires r.Valid() && r.ClaimsAt(k, a) && r.ClaimsAt(k, b)
    ensures a == b
  {
    RunStep(r, k, a);
    RunStep(r, k, b);
    LifeShrinks(r.Row(k, a), r.Row(k + 1, a), r.events[k], r.times[k]);
    ClaimTakesOne(r.tables[k], r.events[k], r.times[k], a, b);
  }

  lemma ClaimTakesOne(t: Table, e: Event, now: Time, a: Id, b: Id)
    requires e.IsClaim() && a in t.jobs && b in t.jobs && a in Step(t, e, now).jobs && b in Step(t, e, now).jobs
    requires ClaimedBy(t.jobs[a], Step(t, e, now).jobs[a]) && ClaimedBy(t.jobs[b], Step(t, e, now).jobs[b])
    ensures a == b
  {
    ReconciledRows(t, now);
    var taken := ClaimedShape(t, e.target, e.owner, e.token, ClaimFilter(t, e, now), now);
  }

  ghost function ClaimFilter(t: Table, e: Event, now: Time): Job -> bool
    requires e.IsClaim()
  {
    if e.Claim? then e.ok else LaneFilter(Reconciled(t, now).jobs, e.owner, e.jobType)
  }

  ghost predicate SucceedsAt(r: Run, i: nat, id: Id) {
    i < |r.events| && r.Has(i, id) && r.Has(i + 1, id) && !r.Row(i, id).state.Succeeded?
    && r.Row(i + 1, id).state.Succeeded?
  }

  /** A job succeeds at most once in each life, by a completion under the live
      lease of the newest attempt. */
  lemma SucceedsOnce(r: Run, i: nat, id: Id) returns (k: nat)
    requires r.Valid() && SucceedsAt(r, i, id)
    ensures r.events[i].Finish? && r.events[i].success && r.events[i].id == id
    ensures r.Row(i, id).state.Active() && LeaseLive(r.Row(i, id), r.times[i])
    ensures NewestClaim(r, id, k, i) && r.events[i].token == r.events[k].token
    ensures forall m: nat :: SucceedsAt(r, m, id) && m < i ==> !r.OneLife(m, i, id)
    ensures forall m: nat :: SucceedsAt(r, m, id) && i < m ==> !r.OneLife(i, m, id)
  {
    RunStep(r, i, id);
    LifeShrinks(r.Row(i, id), r.Row(i + 1, id), r.events[i], r.times[i]);
    k := LeaseFencing(r, i);
    forall m: nat | SucceedsAt(r, m, id)
      ensures m < i ==> !r.OneLife(m, i, id)
      ensures i < m ==> !r.OneLife(i, m, id)
    {
      if m < i { RowsPersist(r, m + 1, i, id); }
      if i < m { RowsPersist(r, i + 1, m, id); }
    }
  }

  // ----- dependencies at claim -----

  lemma ClaimedJobIsMet(t: Table, e: Event, now: Time, id: Id)
    requires e.IsClaim() && id in t.jobs && id in Step(t, e, now).jobs
             && ClaimedBy(t.jobs[id], Step(t, e, now).jobs[id])
    ensures DependenciesMet(Reconciled(t, now), id)
  {}

  lemma MetBeforeReconciling(t: Table, now: Time, id: Id, d: Id)
    requires d in t.jobs && (id, d) in t.deps && DependenciesMet(Reconciled(t, now), id)
    ensures t.jobs[d].state.Succeeded?
  {}

  lemma ClaimNeedsDependencies(t: Table, e: Event, now: Time, id: Id, d: Id)
    requires JobInvariants.Valid(t) && e.IsClaim() && id in t.jobs && (id, d) in t.deps
    requires id in Step(t, e, now).jobs && ClaimedBy(t.jobs[id], Step(t, e, now).jobs[id])
    ensures d in t.jobs && t.jobs[d].state.Succeeded?
  {
    var edge := (id, d);
    assert edge in t.deps && edge.1 in t.jobs;
    ClaimedJobIsMet(t, e, now, id);
    MetBeforeReconciling(t, now, id, d);
  }

  /** Whatever is in flight or has succeeded had, at its newest claim, only
      succeeded dependencies, and each stays succeeded until its own owner
      queues it again. */
  lemma DependenciesAtClaim(r: Run, n: nat, id: Id) returns (k: nat)
    requires r.Valid() && r.Has(n, id) && (r.Row(n, id).state.Active() || r.Row(n, id).state.Succeeded?)
    ensures NewestClaim(r, id, k, n)
    ensures forall d, m {:trigger (id, d) in r.tables[k].deps, r.Has(m, d)} ::
              (id, d) in r.tables[k].deps && k <= m < |r.tables| && r.OneLife(k, m, d) ==>
                    r.Has(m, d) && r.Row(m, d).state.Succeeded?
  {
    SucceededKeepsToken(r, n, id);
    k := TokenOrigin(r, id, n);
    forall d, m | (id, d) in r.tables[k].deps && k <= m < |r.tables| && r.OneLife(k, m, d)
      ensures r.Has(m, d) && r.Row(m, d).state.Succeeded?
    {
      RunTablesValid(r, k);
      ClaimNeedsDependencies(r.tables[k], r.events[k], r.times[k], id, d);
      RowsPersist(r, k, m, d);
    }
  }

  lemma {:induction false} SucceededKeepsToken(r: Run, n: nat, id: Id)
    requires r.Valid() && r.Has(n, id) && (r.Row(n, id).state.Active() || r.Row(n, id).state.Succeeded?)
    ensures r.Row(n, id).token.HashOf?
    decreases n
  {
    var i := n - 1;
    if n == 0 || !r.Has(i, id) { NewRowsUnattempted(r, i, id); }
    RowStep(r, i, id);
    if r.Row(i, id) == r.Row(n, id) {
      SucceededKeepsToken(r, i, id);
    } else if r.Row(n, id).state.Active() {
      RunTablesValid(r, n);
    }
  }

  // ----- progress over runs -----

  /** Event k revoked the worker that held the job's last attempt, and nothing
      has happened to the job since. */
  ghost predicate RevokedOnLastAttempt(r: Run, id: Id, k: nat, n: nat) {
    && k < n < |r.tables| && |r.events| + 1 == |r.tables| && r.Has(k, id) && r.events[k].Revoke?
    && r.Row(k, id).state.Active() && r.Row(k, id).leaseOwner == r.events[k].owner
    && r.Row(k, id).attempts == r.Row(k, id).maxAttempts && r.Has(n, id)
    && (forall m :: k < m <= n ==> r.Has(m, id) && r.Row(m, id) == r.Row(n, id))
  }

  /** Spent queued jobs come from a revocation, */
  lemma {:induction false} ExhaustedWasRevoked(r: Run, n: nat, id: Id) returns (k: nat)
    requires r.Valid() && r.Has(n, id) && Exhausted(r.Row(n, id))
    ensures RevokedOnLastAttempt(r, id, k, n)
    decreases n
  {
    var i := n - 1;
    if !r.Has(i, id) { NewRowsUnattempted(r, i, id); }
    RunStep(r, i, id);
    if Exhausted(r.Row(i, id)) {
      if r.Row(n, id) != r.Row(i, id) { ExhaustedStays(r.Row(i, id), r.Row(n, id), r.events[i], r.times[i]); }
      k := ExhaustedWasRevoked(r, i, id);
    } else {
      ExhaustedOnlyByRevocation(r.Row(i, id), r.Row(n, id), r.events[i], r.times[i]);
      k := i;
    }
  }

  /** and such a revocation always leaves one. */
  lemma RevokedIsExhausted(r: Run, n: nat, id: Id, k: nat)
    requires r.Valid() && RevokedOnLastAttempt(r, id, k, n)
    ensures r.Has(n, id) && Exhausted(r.Row(n, id))
  {
    RunStep(r, k, id);
    assert r.tables[k + 1] == Revoked(r.tables[k], r.events[k].owner, r.times[k]);
    assert r.Row(k + 1, id) == RevokeRow(r.Row(k, id), r.times[k]);
  }

  /** Progress of every run: with some job queued and none in flight, no claim
      can ever find work if and only if every queued job that waits for no other
      had its worker revoked during its last attempt. */
  lemma StuckIffAllRevoked(r: Run, n: nat, queued: Id, now: Time)
    requires r.Valid() && r.Has(n, queued) && NoActiveJob(r.tables[n])
    requires Reconciled(r.tables[n], now).jobs[queued].state.Queued?
    ensures var u := Reconciled(r.tables[n], now);
      (forall id: Id, target: Target, later: Time :: !Claimable(u, id, target, later))
      <==> forall id :: Frontier(u, id) ==> exists k: nat :: RevokedOnLastAttempt(r, id, k, n)
  {
    RunTablesValid(r, n);
    var u := Reconciled(r.tables[n], now);
    ReconciledValid(r.tables[n], now);
    SchedulerProgress(r.tables[n], queued, now);
    forall id | Frontier(u, id)
      ensures Exhausted(u.jobs[id]) <==> exists k: nat :: RevokedOnLastAttempt(r, id, k, n)
    {
      assert r.Has(n, id) && u.jobs[id] == r.Row(n, id);
      if Exhausted(r.Row(n, id)) {
        var k := ExhaustedWasRevoked(r, n, id);
      }
      if k: nat :| RevokedOnLastAttempt(r, id, k, n) { RevokedIsExhausted(r, n, id, k); }
    }
  }
}
