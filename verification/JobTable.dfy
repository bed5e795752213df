/** The job table and the dependency edges as values, and every scheduler
    transaction as a function on them (internal/jobs/jobs.go). */
module JobTable {
  import opened Wrappers
  import opened Digraph
  import opened JobModel

  datatype Table = Table(jobs: map<Id, Job>, deps: Edges)

  const EMPTY := Table(map[], {})

  // ----- dependency failures -----

  predicate HasDeadDependency(jobs: map<Id, Job>, deps: Edges, id: Id) {
    exists d | d in jobs :: (id, d) in deps && jobs[d].state.Dead()
  }

  /** A path of queued jobs that ends in a failed or canceled job. */
  ghost predicate DoomPath(t: Table, p: seq<Id>) {
    && |p| >= 2 && IsPath(t.deps, p)
    && (forall i :: 0 <= i < |p| - 1 ==> p[i] in t.jobs && t.jobs[p[i]].state.Queued?)
    && p[|p| - 1] in t.jobs && t.jobs[p[|p| - 1]].state.Dead()
  }

  ghost predicate Doomed(t: Table, id: Id) {
    exists p :: DoomPath(t, p) && p[0] == id
  }

  /** Exactly the doomed jobs fail; nothing else changes. */
  ghost function Reconciled(t: Table, now: Time): Table {
    Table(map id | id in t.jobs :: if Doomed(t, id) then DependencyFailRow(t.jobs[id], now) else t.jobs[id], t.deps)
  }

  lemma DoomedByEdge(t: Table, id: Id, d: Id)
    requires (id, d) in t.deps && id in t.jobs && d in t.jobs && t.jobs[id].state.Queued?
    requires t.jobs[d].state.Dead() || Doomed(t, d)
    ensures Doomed(t, id)
  {
    if t.jobs[d].state.Dead() {
      assert DoomPath(t, [id, d]);
    } else {
      var p :| DoomPath(t, p) && p[0] == d;
      var q := [id] + p;
      forall i | 0 <= i < |q| - 1
        ensures (q[i], q[i + 1]) in t.deps && q[i] in t.jobs && t.jobs[q[i]].state.Queued?
      {
        if i > 0 { assert q[i] == p[i - 1] && q[i + 1] == p[i]; }
      }
      assert DoomPath(t, q) && q[0] == id;
    }
  }

  lemma DoomPathTail(t: Table, p: seq<Id>)
    requires DoomPath(t, p) && |p| > 2
    ensures DoomPath(t, p[1..])
  {}

  // ----- claiming -----

  predicate KeyedById(jobs: map<Id, Job>) {
    forall id :: id in jobs ==> jobs[id].id == id
  }

  ghost predicate DependenciesMet(t: Table, id: Id) {
    forall d :: (id, d) in t.deps && d in t.jobs ==> t.jobs[d].state.Succeeded?
  }

  ghost predicate Claimable(t: Table, id: Id, target: Target, now: Time) {
    && id in t.jobs && t.jobs[id].target == target && t.jobs[id].state.Queued?
    && t.jobs[id].availableAt <= now && t.jobs[id].attempts < t.jobs[id].maxAttempts
    && DependenciesMet(t, id)
  }

  /** ORDER BY priority DESC, created_at ASC, id ASC. */
  predicate Before(a: Job, b: Job) {
    a.priority > b.priority
    || (a.priority == b.priority && (a.createdAt < b.createdAt || (a.createdAt == b.createdAt && a.id < b.id)))
  }

  ghost function ClaimableSet(t: Table, target: Target, now: Time): set<Id> {
    set id | id in t.jobs && Claimable(t, id, target, now)
  }

  function Matching(jobs: map<Id, Job>, ids: set<Id>, ok: Job -> bool): set<Id> {
    set id | id in ids && id in jobs && ok(jobs[id])
  }

  ghost function Candidates(t: Table, target: Target, ok: Job -> bool, now: Time): set<Id> {
    Matching(t.jobs, ClaimableSet(t, target, now), ok)
  }

  ghost predicate IsFirst(t: Table, ids: set<Id>, id: Id) {
    id in ids && id in t.jobs && forall o :: o in ids && o in t.jobs && o != id ==> Before(t.jobs[id], t.jobs[o])
  }

  predicate HoldsLane(jobs: map<Id, Job>, owner: string, jobType: JobType) {
    exists id | id in jobs :: jobs[id].leaseOwner == owner && jobs[id].jobType == jobType && jobs[id].state.Active()
  }

  /** The job a claim takes from an already reconciled table, if any. */
  ghost function Chosen(t: Table, target: Target, ok: Job -> bool, now: Time): Option<Id> {
    if id :| IsFirst(t, Candidates(t, target, ok, now), id) then Some(id) else None
  }

  ghost function WithLease(t: Table, id: Id, owner: string, token: string, now: Time): Table
    requires id in t.jobs
  {
    t.(jobs := t.jobs[id := LeaseRow(t.jobs[id], owner, token, now)])
  }

  predicate ValidClaim(target: Target, owner: string) {
    !target.UnknownTarget? && !Blank(owner)
  }

  /** What a claim does to a reconciled table. */
  ghost function Taken(t: Table, target: Target, owner: string, token: string, ok: Job -> bool, now: Time): Table {
    match Chosen(t, target, ok, now)
    case None => t
    case Some(id) => if id in t.jobs then WithLease(t, id, owner, token, now) else t
  }

  ghost function Claimed(t: Table, target: Target, owner: string, token: string, ok: Job -> bool, now: Time): Table {
    if !ValidClaim(target, owner) then t else Taken(Reconciled(t, now), target, owner, token, ok, now)
  }

  lemma ChosenIs(t: Table, target: Target, ok: Job -> bool, now: Time, id: Id)
    requires IsFirst(t, Candidates(t, target, ok, now), id)
    ensures Chosen(t, target, ok, now) == Some(id)
  {}

  /** A claim reconciles and then leases one candidate, or none. */
  lemma ClaimedShape(t: Table, target: Target, owner: string, token: string, ok: Job -> bool, now: Time)
    returns (taken: Option<Id>)
    ensures taken.None? ==> Claimed(t, target, owner, token, ok, now) in {t, Reconciled(t, now)}
    ensures taken.Some? ==>
              taken.value in t.jobs && taken.value in Candidates(Reconciled(t, now), target, ok, now)
              && Claimed(t, target, owner, token, ok, now)
                == WithLease(Reconciled(t, now), taken.value, owner, token, now)
  {
    taken := if ValidClaim(target, owner) then Chosen(Reconciled(t, now), target, ok, now) else None;
  }

  function LaneFilter(jobs: map<Id, Job>, owner: string, jobType: JobType): Job -> bool {
    (j: Job) => j.jobType == jobType && !HoldsLane(jobs, owner, jobType)
  }

  ghost function ClaimedCapability(t: Table, target: Target, owner: string, token: string, jobType: JobType,
                                   now: Time): Table {
    Claimed(t, target, owner, token, LaneFilter(Reconciled(t, now).jobs, owner, jobType), now)
  }

  // ----- one-row operations -----

  ghost predicate KeyTaken(t: Table, key: string) {
    exists id :: id in t.jobs && t.jobs[id].key == key
  }

  ghost function Enqueued(t: Table, spec: Spec, freshId: Id, now: Time): Table {
    if !ValidSpec(spec) || KeyTaken(t, spec.key) then t
    else
      var row := NewRow(spec, freshId, now);
      if row.id in t.jobs then t else t.(jobs := t.jobs[row.id := row])
  }

  ghost function WithDependency(t: Table, job: Id, dependency: Id): Table {
    if job == ZERO_ID || dependency == ZERO_ID || job == dependency || job !in t.jobs || dependency !in t.jobs
       || Reaches(t.deps, dependency, job)
    then t
    else t.(deps := t.deps + {(job, dependency)})
  }

  function Applied(t: Table, id: Id, v: Verdict): Table {
    if v.Replace? then t.(jobs := t.jobs[id := v.row]) else t
  }

  function HeartbeatDone(t: Table, id: Id, attempt: nat, token: string, progress: int, now: Time): Table {
    if !(0 <= progress <= 100) || token == "" || id !in t.jobs then t
    else Applied(t, id, HeartbeatVerdict(t.jobs[id], attempt, token, progress, now))
  }

  function Finished(t: Table, id: Id, attempt: nat, token: string, success: bool, code: string, retry: bool,
                    now: Time): Table {
    if token == "" || id !in t.jobs || (!success && !ValidErrorCode(code)) then t
    else Applied(t, id, FinishVerdict(t.jobs[id], attempt, token, success, code, retry, now))
  }

  predicate Cancelable(j: Job) { j.state.Queued? || j.state.Active() }

  function CanceledTable(t: Table, id: Id, code: string, now: Time): Table {
    if id == ZERO_ID || !ValidErrorCode(code) || id !in t.jobs || !Cancelable(t.jobs[id]) then t
    else t.(jobs := t.jobs[id := CancelRow(t.jobs[id], code, now)])
  }

  predicate Owned(j: Job, ownerType: OwnerType, ownerId: Id, jobType: JobType) {
    j.ownerType == ownerType && j.ownerId == ownerId && j.jobType == jobType
  }

  predicate ValidOwnerCancel(ownerType: OwnerType, ownerId: Id, jobType: JobType, code: string) {
    !BlankOwner(ownerType) && ownerId != ZERO_ID && !BlankType(jobType) && ValidErrorCode(code)
  }

  function OwnerCanceled(t: Table, ownerType: OwnerType, ownerId: Id, jobType: JobType, code: string,
                         now: Time): Table {
    if !ValidOwnerCancel(ownerType, ownerId, jobType, code) then t
    else t.(jobs := map id | id in t.jobs ::
      if Owned(t.jobs[id], ownerType, ownerId, jobType) && Cancelable(t.jobs[id])
      then CancelRow(t.jobs[id], code, now) else t.jobs[id])
  }

  // ----- expiry -----

  function ExpiredIds(jobs: map<Id, Job>, now: Time): set<Id> {
    set id | id in jobs && LeaseExpiredAt(jobs[id], now)
  }

  function Expired(t: Table, now: Time): Table {
    t.(jobs := map id | id in t.jobs ::
      if LeaseExpiredAt(t.jobs[id], now) then ExpireRow(t.jobs[id], now) else t.jobs[id])
  }

  /** The terminal-recovery callback runs for `id` when its lease expires for the last time. */
  predicate CallbackRuns(t: Table, id: Id, now: Time) {
    id in t.jobs && LeaseExpiredAt(t.jobs[id], now) && ExpireRow(t.jobs[id], now).state.Failed?
  }

  /** `failing` are the jobs whose terminal-recovery callback reports an error. */
  ghost function Recovered(t: Table, failing: set<Id>, now: Time): Table {
    if exists id :: id in failing && CallbackRuns(t, id, now) then t
    else Reconciled(Expired(t, now), now)
  }

  ghost function RecoveredJob(t: Table, id: Id, callbackFails: bool, now: Time): Table {
    if id == ZERO_ID || id !in t.jobs || !LeaseExpiredAt(t.jobs[id], now) then t
    else if callbackFails && CallbackRuns(t, id, now) then t
    else Reconciled(t.(jobs := t.jobs[id := ExpireRow(t.jobs[id], now)]), now)
  }

  // ----- writers outside the store -----

  function Revoked(t: Table, owner: string, now: Time): Table {
    t.(jobs := map id | id in t.jobs ::
      if t.jobs[id].state.Active() && t.jobs[id].leaseOwner == owner then RevokeRow(t.jobs[id], now) else t.jobs[id])
  }

  /** A speech job is wanted again; a succeeded one only when its audio is gone. */
  predicate SpeechRequeues(j: Job, key: string, audioGone: bool) {
    j.key == key && (j.state.Dead() || (j.state.Succeeded? && audioGone))
  }

  function SpeechRequeued(t: Table, key: string, audioGone: bool, now: Time): Table {
    t.(jobs := map id | id in t.jobs ::
      if SpeechRequeues(t.jobs[id], key, audioGone) then RequeueRow(t.jobs[id], now) else t.jobs[id])
  }

  function ArticleRequeued(t: Table, key: string, payload: string, inputHash: string, now: Time): Table {
    t.(jobs := map id | id in t.jobs ::
      if t.jobs[id].key == key && t.jobs[id].state.Terminal()
      then ArticleRequeueRow(t.jobs[id], payload, inputHash, now) else t.jobs[id])
  }

  // ----- every writer of the table as an event -----

  datatype Event =
    | Enqueue(spec: Spec, freshId: Id)
    | AddDependency(job: Id, dependency: Id)
    | Claim(target: Target, owner: string, token: string, ok: Job -> bool)
    | ClaimCapability(target: Target, owner: string, token: string, jobType: JobType)
    | Heartbeat(id: Id, attempt: nat, token: string, progress: int)
    | Finish(id: Id, attempt: nat, token: string, success: bool, code: string, retry: bool)
    | Cancel(id: Id, code: string)
    | CancelOwner(ownerType: OwnerType, ownerId: Id, jobType: JobType, code: string)
    | RecoverExpired(failing: set<Id>)
    | RecoverExpiredJob(id: Id, callbackFails: bool)
    | Revoke(owner: string)
    | RequeueSpeech(key: string, audioGone: bool)
    | RequeueArticle(key: string, payload: string, inputHash: string)
  {
    predicate IsClaim() { Claim? || ClaimCapability? }
    predicate IsRequeue() { RequeueSpeech? || RequeueArticle? }

    /** The event queues the row again: what the two updates ask of a row. */
    predicate Requeues(j: Job) {
      || (RequeueSpeech? && SpeechRequeues(j, key, audioGone))
      || (RequeueArticle? && j.key == key && j.state.Terminal())
    }
  }

  ghost function Step(t: Table, e: Event, now: Time): Table {
    match e
    case Enqueue(spec, freshId) => Enqueued(t, spec, freshId, now)
    case AddDependency(job, dependency) => WithDependency(t, job, dependency)
    case Claim(target, owner, token, ok) => Claimed(t, target, owner, token, ok, now)
    case ClaimCapability(target, owner, token, jobType) => ClaimedCapability(t, target, owner, token, jobType, now)
    case Heartbeat(id, attempt, token, progress) => HeartbeatDone(t, id, attempt, token, progress, now)
    case Finish(id, attempt, token, success, code, retry) => Finished(t, id, attempt, token, success, code, retry, now)
    case Cancel(id, code) => CanceledTable(t, id, code, now)
    case CancelOwner(ownerType, ownerId, jobType, code) => OwnerCanceled(t, ownerType, ownerId, jobType, code, now)
    case RecoverExpired(failing) => Recovered(t, failing, now)
    case RecoverExpiredJob(id, callbackFails) => RecoveredJob(t, id, callbackFails, now)
    case Revoke(owner) => Revoked(t, owner, now)
    case RequeueSpeech(key, audioGone) => SpeechRequeued(t, key, audioGone, now)
    case RequeueArticle(key, payload, inputHash) => ArticleRequeued(t, key, payload, inputHash, now)
  }
}
