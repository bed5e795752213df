/** Job rows and what one operation does to one row (internal/jobs/jobs.go). */
module JobModel {
  import opened Wrappers

  /** ULIDs, ordered as their text orders; 0 is the zero ULID and the blank id. */
  type Id = nat
  /** Milliseconds, ordered as the fixed-width timestamps order. */
  type Time = nat

  const ZERO_ID: Id := 0

  // Fixed texts are constructors; any other text is carried by the last one.

  datatype JobType =
    | Analysis
    | AVSpeech
    | Chatterbox
    | LLMRelay
    | Dictionary
    | SentenceTranslation
    | UnknownType(name: string)
  datatype Target = Server | MacOS | UnknownTarget(name: string)
  datatype OwnerType = DictionaryEntry | RelayRequest | OtherOwner(name: string)
  datatype ErrorCode = NoCode | Code(text: string) | LeaseExpiredCode | DependencyFailedCode | WorkerRevokedCode

  const LEASE_DURATION: Time := 90000
  const RETRY_BACKOFF: seq<Time> := [5000, 30000, 120000]

  datatype State = Queued | Leased | Running | Succeeded | Failed | Canceled {
    predicate Active() { Leased? || Running? }
    predicate Terminal() { Succeeded? || Failed? || Canceled? }
    /** A dependency in this state can never be met. */
    predicate Dead() { Failed? || Canceled? }
  }

  /** The stored hash of a lease token; the hash is taken as collision-free. */
  datatype TokenHash = NoToken | HashOf(token: string)

  datatype Job = Job(
    id: Id, jobType: JobType, target: Target, ownerType: OwnerType, ownerId: Id,
    key: string, inputHash: string, payload: string,
    state: State, priority: int, attempts: nat, maxAttempts: nat, availableAt: Time,
    leaseOwner: string, token: TokenHash, leaseExpires: Option<Time>,
    progress: nat, errorCode: ErrorCode,
    createdAt: Time, updatedAt: Time, startedAt: Option<Time>, completedAt: Option<Time>)

  /** Nothing but its life has changed. */
  predicate SameJob(j: Job, k: Job) {
    && k.id == j.id && k.jobType == j.jobType && k.target == j.target && k.ownerType == j.ownerType
    && k.ownerId == j.ownerId && k.key == j.key && k.priority == j.priority && k.maxAttempts == j.maxAttempts
    && k.createdAt == j.createdAt
  }

  predicate SameWork(j: Job, k: Job) {
    SameJob(j, k) && k.inputHash == j.inputHash && k.payload == j.payload
  }

  /** A request for work. `payloadParses` is the JSON decoder's answer. */
  datatype Spec = Spec(
    id: Id, jobType: JobType, target: Target, ownerType: OwnerType, ownerId: Id,
    key: string, inputHash: string, payload: string, payloadParses: bool,
    priority: int, maxAttempts: int, availableAt: Option<Time>)

  datatype Error = Validation | NotFound | Conflict | Cycle | LeaseLost | LeaseRanOut | NoWork | Recovery

  predicate IsSpace(c: char) {
    '\t' <= c <= '\r'
      || c in {' ', '\U{85}', '\U{A0}', '\U{1680}', '\U{2028}', '\U{2029}', '\U{202F}', '\U{205F}', '\U{3000}'}
    || '\U{2000}' <= c <= '\U{200A}'
  }

  predicate Blank(s: string) {
    forall c :: c in s ==> IsSpace(c)
  }

  predicate BlankOwner(o: OwnerType) { o.OtherOwner? && Blank(o.name) }

  predicate BlankType(t: JobType) { t.UnknownType? && Blank(t.name) }

  predicate ValidSpec(spec: Spec) {
    && !spec.jobType.UnknownType? && !spec.target.UnknownTarget?
    && !BlankOwner(spec.ownerType) && spec.ownerId != ZERO_ID && !Blank(spec.key)
    && !Blank(spec.inputHash) && !Blank(spec.payload) && spec.payloadParses
    && 0 <= spec.maxAttempts <= 3
  }

  predicate ValidErrorCode(code: string) {
    && 0 < |code| <= 120 && "v1." <= code
    && forall c :: c in code ==> c in {'.', '_', '-'} || 'a' <= c <= 'z' || '0' <= c <= '9'
  }

  function Backoff(attempt: nat): Time {
    if attempt == 0 then RETRY_BACKOFF[0]
    else if attempt > |RETRY_BACKOFF| then RETRY_BACKOFF[|RETRY_BACKOFF| - 1]
    else RETRY_BACKOFF[attempt - 1]
  }

  predicate TokenMatches(token: string, stored: TokenHash) {
    token != "" && stored == HashOf(token)
  }

  predicate LeaseLive(j: Job, now: Time) {
    j.leaseExpires.Some? && now < j.leaseExpires.value
  }

  predicate LeaseExpiredAt(j: Job, now: Time) {
    j.state.Active() && j.leaseExpires.Some? && j.leaseExpires.value <= now
  }

  function NewRow(spec: Spec, freshId: Id, now: Time): Job
    requires ValidSpec(spec)
  {
    Job(if spec.id == ZERO_ID then freshId else spec.id, spec.jobType, spec.target,
        spec.ownerType, spec.ownerId, spec.key, spec.inputHash, spec.payload,
        Queued, spec.priority, 0, if spec.maxAttempts == 0 then 3 else spec.maxAttempts,
        if spec.availableAt.Some? then spec.availableAt.value else now,
        "", NoToken, None, 0, NoCode, now, now, None, None)
  }

  function LeaseRow(j: Job, owner: string, token: string, now: Time): Job {
    j.(state := Leased, attempts := j.attempts + 1, leaseOwner := owner, token := HashOf(token),
       leaseExpires := Some(now + LEASE_DURATION), progress := 0,
       startedAt := if j.startedAt.None? then Some(now) else j.startedAt, updatedAt := now)
  }

  function HeartbeatRow(j: Job, progress: nat, now: Time): Job {
    j.(state := Running, leaseExpires := Some(now + LEASE_DURATION), progress := progress, updatedAt := now)
  }

  function SucceedRow(j: Job, now: Time): Job {
    j.(state := Succeeded, progress := 100, errorCode := NoCode, leaseExpires := None,
       completedAt := Some(now), updatedAt := now)
  }

  /** A worker-reported failure keeps the owner and the token hash. */
  function FailRow(j: Job, code: string, retry: bool, now: Time): Job {
    if retry && j.attempts < j.maxAttempts
    then j.(state := Queued, availableAt := now + Backoff(j.attempts), errorCode := Code(code),
            leaseExpires := None, updatedAt := now)
    else j.(state := Failed, availableAt := now, errorCode := Code(code),
            leaseExpires := None, updatedAt := now, completedAt := Some(now))
  }

  /** Canceling keeps an active attempt's credentials so its worker can see it. */
  function CancelRow(j: Job, code: string, now: Time): Job {
    if j.state.Queued?
    then j.(state := Canceled, errorCode := Code(code), leaseOwner := "", token := NoToken,
            leaseExpires := None, updatedAt := now, completedAt := Some(now))
    else j.(state := Canceled, errorCode := Code(code), updatedAt := now, completedAt := Some(now))
  }

  function ExpireRow(j: Job, now: Time): Job {
    var cleared := j.(errorCode := LeaseExpiredCode, leaseOwner := "", token := NoToken,
                      leaseExpires := None, updatedAt := now);
    if j.attempts < j.maxAttempts
    then cleared.(state := Queued, availableAt := now + Backoff(j.attempts))
    else cleared.(state := Failed, availableAt := now, completedAt := Some(now))
  }

  function DependencyFailRow(j: Job, now: Time): Job {
    j.(state := Failed, errorCode := DependencyFailedCode, completedAt := Some(now), updatedAt := now)
  }

  /** Revoking a worker takes its job back, whatever attempts are left. */
  function RevokeRow(j: Job, now: Time): Job {
    j.(state := Queued, leaseOwner := "", token := NoToken, leaseExpires := None,
       errorCode := WorkerRevokedCode, updatedAt := now)
  }

  /** An owner asks for the work again: a new life under the same id. */
  function RequeueRow(j: Job, now: Time): Job {
    j.(state := Queued, attempts := 0, availableAt := now, leaseOwner := "", token := NoToken,
       leaseExpires := None, errorCode := NoCode, completedAt := None, updatedAt := now)
  }

  function ArticleRequeueRow(j: Job, payload: string, inputHash: string, now: Time): Job {
    RequeueRow(j, now).(progress := 0, payload := payload, inputHash := inputHash)
  }

  /** What a finishing worker is told, and the row it leaves. */
  datatype Verdict = Acknowledge | Replace(row: Job) | Refuse(error: Error)

  function FinishVerdict(j: Job, attempt: nat, token: string, success: bool, code: string, retry: bool,
                         now: Time): Verdict {
    if j.attempts != attempt || !TokenMatches(token, j.token) then Refuse(LeaseLost)
    else if success then
      if j.state.Succeeded? then Acknowledge
      else if !j.state.Active() then Refuse(LeaseLost)
      else if !LeaseLive(j, now) then Refuse(LeaseRanOut)
      else Replace(SucceedRow(j, now))
    else
      if j.state.Dead() || j.state.Queued? then Acknowledge
      else if j.state.Active() then Replace(FailRow(j, code, retry, now))
      else Acknowledge
  }

  function HeartbeatVerdict(j: Job, attempt: nat, token: string, progress: nat, now: Time): Verdict {
    if j.attempts != attempt || !TokenMatches(token, j.token) then Refuse(LeaseLost)
    else if j.state.Terminal() then Acknowledge
    else if !j.state.Active() then Refuse(LeaseLost)
    else if !LeaseLive(j, now) then Refuse(LeaseRanOut)
    else Replace(HeartbeatRow(j, progress, now))
  }
}
