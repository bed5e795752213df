/** Dictionary entries beside the job table: get-or-create, generation and
    publication as transactions on both (internal/dictionary). */
module DictionaryModel {
  import opened Wrappers
  import opened JobModel
  import opened JobTable
  import opened JobInvariants

  datatype Key = Key(sourceLanguage: string, targetLanguage: string, lookupKind: string, normalizedForm: string)

  datatype Entry = Entry(id: Id, key: Key, document: Option<string>, lastJob: Option<Id>)

  /** One run of the worker on one lease; it publishes at most once. */
  datatype Worker = Worker(attempt: nat, token: string)

  datatype World = World(table: Table, entries: map<Id, Entry>, workers: map<Id, Worker>)

  /** One explicit start request, as its transaction sees it. `previous` is
      the last job id read before the transaction began, at any earlier time. */
  datatype Request = Request(
    key: Key, retry: bool, regenerate: bool, previous: Option<Id>,
    entryId: Id, jobId: Id, idempotencyKey: string, inputHash: string, payload: string)

  datatype Action =
    | Start(request: Request)
    | Publish(job: Id, document: string, historyFails: bool)
    | Stop(job: Id)
    | Scheduler(event: JobTable.Event)

  function JobSpec(entry: Id, r: Request): Spec {
    Spec(ZERO_ID, Dictionary, Server, DictionaryEntry, entry, r.idempotencyKey,
         r.inputHash, r.payload, true, 0, 1, None)
  }

  predicate Ready(e: Entry) { e.document.Some? }

  /** The joined state of the entry's last job, if there is one. */
  function LastState(t: Table, e: Entry): Option<State> {
    if e.lastJob.Some? && e.lastJob.value in t.jobs then Some(t.jobs[e.lastJob.value].state) else None
  }

  /** The checks repeated inside the transaction: does this request start work? */
  predicate StartsWork(t: Table, e: Entry, r: Request) {
    && !(Ready(e) && !r.regenerate)
    && (match LastState(t, e)
        case None => true
        case Some(state) => state.Terminal() && (r.retry || r.regenerate))
  }

  ghost predicate EntryFor(entries: map<Id, Entry>, key: Key, id: Id) {
    id in entries && entries[id].key == key
  }

  ghost function EnsuredEntry(entries: map<Id, Entry>, r: Request): Option<Entry> {
    if id :| EntryFor(entries, r.key, id) then Some(entries[id])
    else if r.entryId in entries then None
    else Some(Entry(r.entryId, r.key, None, None))
  }

  /** What the request's compare-and-set expects the entry to point at. */
  function ExpectedLast(e: Entry, r: Request): Option<Id> {
    if e.lastJob.Some? then e.lastJob else r.previous
  }

  function WithNextJob(w: World, e: Entry, r: Request, row: Job): World {
    w.(table := w.table.(jobs := w.table.jobs[r.jobId := row]),
       entries := w.entries[e.id := e.(lastJob := Some(r.jobId))])
  }

  /** The transaction once its entry e was found or inserted. */
  function StartedOn(w: World, e: Entry, r: Request, now: Time): World {
    if !StartsWork(w.table, e, r) then w.(entries := w.entries[e.id := e])
    else if !ValidSpec(JobSpec(e.id, r)) || ExpectedLast(e, r) != e.lastJob then w
    else WithNextJob(w, e, r, NewRow(JobSpec(e.id, r), r.jobId, now))
  }

  ghost function Started(w: World, r: Request, now: Time): World {
    if (r.retry && r.regenerate) || EnsuredEntry(w.entries, r).None? then w
    else StartedOn(w, EnsuredEntry(w.entries, r).value, r, now)
  }

  /** The publishing transaction: document, job success and history together. */
  function Published(w: World, job: Id, document: string, historyFails: bool, now: Time): World {
    if job !in w.workers then w
    else
      var ended := w.(workers := w.workers - {job});
      if job !in w.table.jobs then ended
      else
        var j := w.table.jobs[job];
        var worker := w.workers[job];
        if j.ownerId !in w.entries || w.entries[j.ownerId].lastJob != Some(job) then ended
        else if historyFails || worker.token == "" then ended
        else if FinishVerdict(j, worker.attempt, worker.token, true, "", false, now).Refuse? then ended
        else ended.(table := Finished(w.table, job, worker.attempt, worker.token, true, "", false, now),
                    entries := w.entries[j.ownerId := w.entries[j.ownerId].(document := Some(document))])
  }

  /** A claim of a dictionary job starts a worker on its lease. */
  ghost function Hired(w: World, t: Table, e: JobTable.Event): map<Id, Worker> {
    map id | id in t.jobs && (id in w.workers || NewLease(w, t, e, id)) ::
      if NewLease(w, t, e, id) then Worker(t.jobs[id].attempts, e.token) else w.workers[id]
  }

  ghost predicate NewLease(w: World, t: Table, e: JobTable.Event, id: Id) {
    e.IsClaim() && id in w.table.jobs && id in t.jobs && t.jobs[id].jobType == Dictionary
    && ClaimedBy(w.table.jobs[id], t.jobs[id])
  }

  ghost function Next(w: World, e: Action, now: Time): World {
    match e
    case Start(r) => Started(w, r, now)
    case Publish(job, document, historyFails) => Published(w, job, document, historyFails, now)
    case Stop(job) => w.(workers := w.workers - {job})
    case Scheduler(se) =>
      var t := Step(w.table, se, now);
      w.(table := t, workers := Hired(w, t, se))
  }

  /** The idempotency keys of speech and article jobs are never a generation's. */
  ghost predicate GenerationKey(t: Table, key: string) {
    exists id :: id in t.jobs && t.jobs[id].key == key && t.jobs[id].jobType == Dictionary
  }

  /** Dictionary jobs are enqueued only by Start, completed only by Publish and
      never queued again; the ids and the idempotency key a start draws are fresh. */
  ghost predicate Allowed(w: World, e: Action) {
    match e
    case Start(r) =>
      r.jobId != ZERO_ID && r.jobId !in w.table.jobs && r.entryId != ZERO_ID && r.entryId !in w.entries
      && !KeyTaken(w.table, r.idempotencyKey)
    case Scheduler(Enqueue(spec, _)) => spec.jobType != Dictionary
    case Scheduler(RequeueSpeech(key, _)) => !GenerationKey(w.table, key)
    case Scheduler(RequeueArticle(key, _, _)) => !GenerationKey(w.table, key)
    case Scheduler(Finish(id, _, _, success, _, _)) =>
      success && id in w.table.jobs ==> w.table.jobs[id].jobType != Dictionary
    case _ => true
  }

  ghost predicate GenerationJob(w: World, id: Id, entry: Id) {
    id in w.table.jobs && w.table.jobs[id].jobType == Dictionary && w.table.jobs[id].ownerId == entry
  }

  ghost predicate SucceededFor(w: World, id: Id, entry: Id) {
    GenerationJob(w, id, entry) && w.table.jobs[id].state.Succeeded?
  }

  ghost predicate HasSucceeded(w: World, entry: Id) {
    exists id :: SucceededFor(w, id, entry)
  }

  ghost predicate ValidEntries(w: World) {
    && (forall x :: x in w.entries ==> w.entries[x].id == x)
    && (forall x, y :: x in w.entries && y in w.entries && w.entries[x].key == w.entries[y].key ==> x == y)
    && (forall x :: x in w.entries && w.entries[x].lastJob.Some? ==> GenerationJob(w, w.entries[x].lastJob.value, x))
  }

  /** Every generation job belongs to an entry, has one attempt, and is that
      entry's last job unless it is over. */
  ghost predicate ValidJobs(w: World) {
    forall id :: id in w.table.jobs && w.table.jobs[id].jobType == Dictionary ==>
      && w.table.jobs[id].ownerType == DictionaryEntry && w.table.jobs[id].ownerId in w.entries
      && w.table.jobs[id].maxAttempts == 1
      && (!w.table.jobs[id].state.Terminal() ==> w.entries[w.table.jobs[id].ownerId].lastJob == Some(id))
  }

  ghost predicate ValidWorkers(w: World) {
    forall id :: id in w.workers ==>
      id in w.table.jobs && w.table.jobs[id].jobType == Dictionary && !w.table.jobs[id].state.Succeeded?
  }

  ghost predicate ValidDocuments(w: World) {
    forall x :: x in w.entries ==> (Ready(w.entries[x]) <==> HasSucceeded(w, x))
  }

  ghost predicate ValidGeneration(w: World) {
    ValidEntries(w) && ValidJobs(w) && ValidWorkers(w) && ValidDocuments(w)
  }

  ghost predicate ValidWorld(w: World) {
    JobInvariants.Valid(w.table) && ValidGeneration(w)
  }

  // ----- preservation -----

  /** A dictionary row after a scheduler event: same identity, and neither
      revived nor made to succeed. */
  lemma SchedulerRow(w: World, se: JobTable.Event, now: Time, id: Id)
    requires ValidWorld(w) && Allowed(w, Scheduler(se)) && id in w.table.jobs
    ensures var t := Step(w.table, se, now);
      && id in t.jobs && t.jobs[id].jobType == w.table.jobs[id].jobType
      && t.jobs[id].ownerType == w.table.jobs[id].ownerType
      && t.jobs[id].ownerId == w.table.jobs[id].ownerId && t.jobs[id].maxAttempts == w.table.jobs[id].maxAttempts
      && (w.table.jobs[id].jobType == Dictionary && w.table.jobs[id].state.Terminal() ==>
            t.jobs[id] == w.table.jobs[id])
      && (w.table.jobs[id].jobType == Dictionary ==> t.jobs[id].state.Succeeded? == w.table.jobs[id].state.Succeeded?)
  {
    StepRows(w.table, se, now);
    RowChangeValid(w.table.jobs[id], Step(w.table, se, now).jobs[id], se, now);
    LifeShrinks(w.table.jobs[id], Step(w.table, se, now).jobs[id], se, now);
  }

  /** The rows a scheduler event leaves, as the dictionary sees them. */
  ghost predicate SameGenerations(t: Table, u: Table) {
    forall id :: id in t.jobs ==>
      && id in u.jobs && u.jobs[id].jobType == t.jobs[id].jobType && u.jobs[id].ownerType == t.jobs[id].ownerType
      && u.jobs[id].ownerId == t.jobs[id].ownerId && u.jobs[id].maxAttempts == t.jobs[id].maxAttempts
      && (t.jobs[id].jobType == Dictionary && t.jobs[id].state.Terminal() ==> u.jobs[id] == t.jobs[id])
      && (t.jobs[id].jobType == Dictionary ==> u.jobs[id].state.Succeeded? == t.jobs[id].state.Succeeded?)
  }

  ghost predicate NoNewGenerations(t: Table, u: Table) {
    forall id :: id in u.jobs && id !in t.jobs ==> u.jobs[id].jobType != Dictionary
  }

  lemma SchedulerRows(w: World, se: JobTable.Event, now: Time)
    requires ValidWorld(w) && Allowed(w, Scheduler(se))
    ensures SameGenerations(w.table, Step(w.table, se, now)) && NoNewGenerations(w.table, Step(w.table, se, now))
  {
    StepRows(w.table, se, now);
    forall id | id in w.table.jobs {
      SchedulerRow(w, se, now, id);
    }
  }

  lemma GenerationsCarry(w: World, n: World)
    requires n.entries == w.entries && SameGenerations(w.table, n.table) && NoNewGenerations(w.table, n.table)
    ensures ValidEntries(w) ==> ValidEntries(n)
    ensures ValidJobs(w) ==> ValidJobs(n)
    ensures forall id, x :: SucceededFor(w, id, x) <==> SucceededFor(n, id, x)
  {}

  lemma WorkersCarry(w: World, se: JobTable.Event, now: Time)
    requires JobInvariants.Valid(w.table) && ValidWorkers(w) && SameGenerations(w.table, Step(w.table, se, now))
    ensures ValidWorkers(Next(w, Scheduler(se), now))
  {}

  lemma SchedulerKeeps(w: World, se: JobTable.Event, now: Time)
    requires ValidWorld(w) && Allowed(w, Scheduler(se))
    ensures ValidWorld(Next(w, Scheduler(se), now))
    ensures Next(w, Scheduler(se), now).entries == w.entries
  {
    StepValid(w.table, se, now);
    SchedulerRows(w, se, now);
    GenerationsCarry(w, Next(w, Scheduler(se), now));
    WorkersCarry(w, se, now);
    DocumentsCarry(w, Next(w, Scheduler(se), now));
  }

  /** Documents stay right when neither they nor the successes change. */
  lemma DocumentsCarry(w: World, n: World)
    requires ValidDocuments(w) && forall id, x :: SucceededFor(w, id, x) <==> SucceededFor(n, id, x)
    requires forall x :: x in n.entries ==>
      if x in w.entries then n.entries[x].document == w.entries[x].document
      else n.entries[x].document.None? && forall id :: !GenerationJob(w, id, x)
    ensures ValidDocuments(n)
  {}

  lemma EntryOnlyKeeps(w: World, e: Entry)
    requires ValidGeneration(w) && EntryOrBlank(w.entries, e)
    ensures ValidGeneration(w.(entries := w.entries[e.id := e]))
  {
    var n := w.(entries := w.entries[e.id := e]);
    if e.id in w.entries {
      assert n == w;
    } else {
      NoJobsYet(w, e.id);
      SameTableEntries(w, n);
      DocumentsCarry(w, n);
    }
  }

  lemma SameTableEntries(w: World, n: World)
    requires n.table == w.table && ValidEntries(w)
    requires forall x :: x in n.entries ==>
      if x in w.entries then n.entries[x] == w.entries[x]
      else n.entries[x].id == x && n.entries[x].lastJob.None?
           && forall y :: y in n.entries && y != x ==> n.entries[y].key != n.entries[x].key
    ensures ValidEntries(n)
  {}

  lemma NextJobEntries(w: World, e: Entry, r: Request, row: Job)
    requires ValidEntries(w) && e.id in w.entries && w.entries[e.id] == e && r.jobId !in w.table.jobs
    requires row.jobType == Dictionary && row.ownerId == e.id
    ensures ValidEntries(WithNextJob(w, e, r, row))
  {}

  lemma NextJobJobs(w: World, e: Entry, r: Request, row: Job)
    requires ValidJobs(w) && e.id in w.entries && r.jobId !in w.table.jobs
    requires forall id :: GenerationJob(w, id, e.id) ==> w.table.jobs[id].state.Terminal()
    requires row.jobType == Dictionary && row.ownerId == e.id && row.ownerType == DictionaryEntry
             && row.maxAttempts == 1
    ensures ValidJobs(WithNextJob(w, e, r, row))
  {}

  lemma NextJobSuccesses(w: World, e: Entry, r: Request, row: Job)
    requires r.jobId !in w.table.jobs && row.state.Queued?
    ensures forall id, x :: SucceededFor(w, id, x) <==> SucceededFor(WithNextJob(w, e, r, row), id, x)
  {
  }

  lemma NextJobTable(t: Table, spec: Spec, jobId: Id, now: Time)
    requires JobInvariants.Valid(t) && ValidSpec(spec) && spec.id == ZERO_ID && jobId !in t.jobs
             && !KeyTaken(t, spec.key)
    ensures JobInvariants.Valid(t.(jobs := t.jobs[jobId := NewRow(spec, jobId, now)]))
  {}

  /** Enqueueing the entry's next job and pointing the entry at it. */
  lemma NextJobKeeps(w: World, e: Entry, r: Request, row: Job)
    requires ValidGeneration(w) && e.id in w.entries && w.entries[e.id] == e && StartsWork(w.table, e, r)
    requires r.jobId !in w.table.jobs && row.state.Queued?
    requires row.jobType == Dictionary && row.ownerId == e.id && row.ownerType == DictionaryEntry
             && row.maxAttempts == 1
    ensures ValidGeneration(WithNextJob(w, e, r, row))
  {
    LastJobIsOver(w, e, r);
    NextJobEntries(w, e, r, row);
    NextJobJobs(w, e, r, row);
    NextJobSuccesses(w, e, r, row);
    DocumentsCarry(w, WithNextJob(w, e, r, row));
  }

  /** The entry a start works on: the one with its key, or a new blank one. */
  lemma EnsuredShape(entries: map<Id, Entry>, r: Request)
    requires r.entryId !in entries && forall x :: x in entries ==> entries[x].id == x
    ensures EnsuredEntry(entries, r).Some?
    ensures var e := EnsuredEntry(entries, r).value;
            e.key == r.key && if e.id in entries then entries[e.id] == e
            else e == Entry(r.entryId, r.key, None, None) && forall x :: x in entries ==> entries[x].key != r.key
  {
    assert forall x :: x in entries && entries[x].key == r.key ==> EntryFor(entries, r.key, x);
  }

  ghost predicate EntryOrBlank(entries: map<Id, Entry>, e: Entry) {
    if e.id in entries then entries[e.id] == e
    else e.document.None? && e.lastJob.None? && forall x :: x in entries ==> entries[x].key != e.key
  }

  lemma NextJobFrom(w: World, e: Entry, r: Request, now: Time)
    requires ValidWorld(w) && EntryOrBlank(w.entries, e) && StartsWork(w.table, e, r)
    requires r.jobId != ZERO_ID && r.jobId !in w.table.jobs && !KeyTaken(w.table, r.idempotencyKey)
             && ValidSpec(JobSpec(e.id, r))
    ensures ValidWorld(WithNextJob(w, e, r, NewRow(JobSpec(e.id, r), r.jobId, now)))
  {
    var row := NewRow(JobSpec(e.id, r), r.jobId, now);
    var m := w.(entries := w.entries[e.id := e]);
    EntryOnlyKeeps(w, e);
    NextJobKeeps(m, e, r, row);
    NextJobTable(w.table, JobSpec(e.id, r), r.jobId, now);
    assert WithNextJob(m, e, r, row).entries == WithNextJob(w, e, r, row).entries;
  }

  lemma StartedOnKeeps(w: World, e: Entry, r: Request, now: Time)
    requires ValidWorld(w) && r.jobId != ZERO_ID && r.jobId !in w.table.jobs && !KeyTaken(w.table, r.idempotencyKey)
    requires EntryOrBlank(w.entries, e)
    ensures ValidWorld(StartedOn(w, e, r, now))
  {
    if !StartsWork(w.table, e, r) {
      EntryOnlyKeeps(w, e);
    } else if ValidSpec(JobSpec(e.id, r)) {
      NextJobFrom(w, e, r, now);
    }
  }

  lemma StartKeeps(w: World, r: Request, now: Time)
    requires ValidWorld(w) && Allowed(w, Start(r))
    ensures ValidWorld(Started(w, r, now))
  {
    EnsuredShape(w.entries, r);
    StartedOnKeeps(w, EnsuredEntry(w.entries, r).value, r, now);
  }

  lemma StartDocuments(w: World, r: Request, now: Time)
    requires ValidEntries(w) && Allowed(w, Start(r))
    ensures forall x :: x in w.entries ==>
              x in Started(w, r, now).entries && Started(w, r, now).entries[x].document == w.entries[x].document
    ensures forall x :: x in Started(w, r, now).entries && x !in w.entries ==>
              Started(w, r, now).entries[x].document.None?
  {
    EnsuredShape(w.entries, r);
  }

  lemma NoJobsYet(w: World, x: Id)
    requires ValidJobs(w) && x !in w.entries
    ensures forall id :: !GenerationJob(w, id, x)
  {
  }

  /** When a request starts work, no job of its entry is still active. */
  lemma LastJobIsOver(w: World, e: Entry, r: Request)
    requires ValidJobs(w) && StartsWork(w.table, e, r) && (e.id in w.entries ==> w.entries[e.id] == e)
    ensures forall id :: GenerationJob(w, id, e.id) ==> w.table.jobs[id].state.Terminal()
  {
  }

  ghost function WithDocument(w: World, job: Id, document: string, now: Time): World
    requires job in w.table.jobs && w.table.jobs[job].ownerId in w.entries
  {
    var x := w.table.jobs[job].ownerId;
    World(w.table.(jobs := w.table.jobs[job := SucceedRow(w.table.jobs[job], now)]),
          w.entries[x := w.entries[x].(document := Some(document))], w.workers - {job})
  }

  /** The document changes only when the entry's current last job goes, under
      its live lease, from in flight to succeeded. */
  lemma PublishNeedsLiveLease(w: World, job: Id, document: string, historyFails: bool, now: Time)
    requires ValidWorkers(w)
    ensures var n := Published(w, job, document, historyFails, now);
      || n == w.(workers := w.workers - {job})
      || (&& job in w.workers && job in w.table.jobs && w.table.jobs[job].ownerId in w.entries
          && w.table.jobs[job].jobType == Dictionary
          && w.table.jobs[job].state.Active() && LeaseLive(w.table.jobs[job], now)
          && w.entries[w.table.jobs[job].ownerId].lastJob == Some(job)
          && n == WithDocument(w, job, document, now)
          && n.table == Finished(w.table, job, w.workers[job].attempt, w.workers[job].token, true, "", false, now))
  {}

  lemma DocumentEntries(w: World, job: Id, document: string, now: Time)
    requires job in w.table.jobs && w.table.jobs[job].ownerId in w.entries && w.table.jobs[job].jobType == Dictionary
    requires ValidEntries(w) && ValidJobs(w) && ValidWorkers(w)
    ensures ValidEntries(WithDocument(w, job, document, now)) && ValidJobs(WithDocument(w, job, document, now))
    ensures ValidWorkers(WithDocument(w, job, document, now))
  {
    var n := WithDocument(w, job, document, now);
    forall x | x in n.entries && n.entries[x].lastJob.Some?
      ensures GenerationJob(n, n.entries[x].lastJob.value, x)
    {
      assert GenerationJob(w, w.entries[x].lastJob.value, x);
    }
  }

  lemma DocumentSuccesses(w: World, job: Id, document: string, now: Time)
    requires job in w.table.jobs && w.table.jobs[job].ownerId in w.entries && w.table.jobs[job].jobType == Dictionary
    requires ValidDocuments(w)
    ensures ValidDocuments(WithDocument(w, job, document, now))
  {
    var n, owner := WithDocument(w, job, document, now), w.table.jobs[job].ownerId;
    assert SucceededFor(n, job, owner);
    forall x | x in n.entries && x != owner
      ensures Ready(n.entries[x]) <==> HasSucceeded(n, x)
    {
      assert Ready(w.entries[x]) <==> HasSucceeded(w, x);
      if id :| SucceededFor(n, id, x) { assert SucceededFor(w, id, x); }
      if id :| SucceededFor(w, id, x) { assert SucceededFor(n, id, x); }
    }
  }

  lemma FewerWorkersKeep(w: World, job: Id)
    requires ValidGeneration(w)
    ensures ValidGeneration(w.(workers := w.workers - {job}))
  {
    var n := w.(workers := w.workers - {job});
    SameTableEntries(w, n);
    DocumentsCarry(w, n);
  }

  lemma WithDocumentKeeps(w: World, job: Id, document: string, now: Time)
    requires job in w.table.jobs && w.table.jobs[job].ownerId in w.entries && w.table.jobs[job].jobType == Dictionary
    requires ValidGeneration(w)
    ensures ValidGeneration(WithDocument(w, job, document, now))
  {
    DocumentEntries(w, job, document, now);
    DocumentSuccesses(w, job, document, now);
  }

  lemma FinishedValid(t: Table, id: Id, attempt: nat, token: string, now: Time)
    requires JobInvariants.Valid(t)
    ensures JobInvariants.Valid(Finished(t, id, attempt, token, true, "", false, now))
  {
    StepValid(t, Finish(id, attempt, token, true, "", false), now);
  }

  lemma PublishKeeps(w: World, job: Id, document: string, historyFails: bool, now: Time)
    requires ValidWorld(w)
    ensures ValidWorld(Published(w, job, document, historyFails, now))
  {
    PublishNeedsLiveLease(w, job, document, historyFails, now);
    var n := Published(w, job, document, historyFails, now);
    if n == w.(workers := w.workers - {job}) {
      FewerWorkersKeep(w, job);
    } else {
      FinishedValid(w.table, job, w.workers[job].attempt, w.workers[job].token, now);
      assert JobInvariants.Valid(n.table);
      WithDocumentKeeps(w, job, document, now);
    }
  }

  /** Every transaction keeps the world valid. */
  lemma NextKeeps(w: World, e: Action, now: Time)
    requires ValidWorld(w) && Allowed(w, e)
    ensures ValidWorld(Next(w, e, now))
  {
    match e
    case Start(r) => StartKeeps(w, r, now);
    case Publish(job, document, historyFails) => PublishKeeps(w, job, document, historyFails, now);
    case Stop(job) => FewerWorkersKeep(w, job);
    case Scheduler(se) => SchedulerKeeps(w, se, now);
  }

  /** What one transaction does to one entry's document. */
  lemma DocumentStep(w: World, e: Action, now: Time, x: Id)
    requires ValidWorld(w) && Allowed(w, e) && x in w.entries
    ensures x in Next(w, e, now).entries
    ensures Next(w, e, now).entries[x].document != w.entries[x].document ==>
      && e.Publish? && w.entries[x].lastJob == Some(e.job) && Next(w, e, now).entries[x].document == Some(e.document)
      && e.job in w.table.jobs && w.table.jobs[e.job].state.Active() && LeaseLive(w.table.jobs[e.job], now)
      && e.job in Next(w, e, now).table.jobs && Next(w, e, now).table.jobs[e.job].state.Succeeded?
  {
    match e
    case Start(r) => StartDocuments(w, r, now);
    case Publish(job, document, historyFails) => PublishNeedsLiveLease(w, job, document, historyFails, now);
    case Stop(job) =>
    case Scheduler(se) => SchedulerKeeps(w, se, now);
  }

  // ----- when a start starts, and when a publication publishes -----

  /** The request is not ambiguous and makes a valid job. */
  predicate Sensible(r: Request) {
    !(r.retry && r.regenerate) && !Blank(r.idempotencyKey) && !Blank(r.inputHash) && !Blank(r.payload)
  }

  /** The entry has no generation under way and wants the one requested: a
      document is replaced only on regenerate, a finished job followed only on
      retry or regenerate; a request that saw a job expects the entry to have one. */
  predicate Open(w: World, e: Entry, r: Request) {
    && (e.document.None? || r.regenerate)
    && match e.lastJob
       case None => r.previous.None?
       case Some(job) => job in w.table.jobs && w.table.jobs[job].state.Terminal() && (r.retry || r.regenerate)
  }

  /** A new queued job with one attempt for entry x, and nothing else but the
      entry that points at it. */
  ghost predicate StartedAt(w: World, n: World, x: Id, r: Request, now: Time) {
    && r.jobId in n.table.jobs && x in n.entries
    && n == w.(table := w.table.(jobs := w.table.jobs[r.jobId := n.table.jobs[r.jobId]]),
               entries := w.entries[x := n.entries[x]])
    && n.entries[x] == Entry(x, r.key, if x in w.entries then w.entries[x].document else None, Some(r.jobId))
    && var j := n.table.jobs[r.jobId];
       && j.id == r.jobId && j.jobType == Dictionary && j.target == Server && j.ownerType == DictionaryEntry
       && j.ownerId == x && j.key == r.idempotencyKey && j.inputHash == r.inputHash && j.payload == r.payload
       && j.state.Queued? && j.attempts == 0 && j.maxAttempts == 1 && j.availableAt == now
  }

  lemma StartedOnTold(w: World, e: Entry, r: Request, now: Time)
    requires EntryOrBlank(w.entries, e) && r.jobId !in w.table.jobs && r.jobId != ZERO_ID && e.key == r.key
    requires e.lastJob.Some? ==> e.lastJob.value in w.table.jobs
    requires !(r.retry && r.regenerate)
    ensures var n := StartedOn(w, e, r, now);
      && (r.jobId in n.table.jobs <==> Sensible(r) && e.id != ZERO_ID && Open(w, e, r))
      && (r.jobId in n.table.jobs ==> StartedAt(w, n, e.id, r, now))
      && (r.jobId !in n.table.jobs ==> n == w || (n == w.(entries := w.entries[e.id := e]) && Ready(e)))
  {}

  /** A start starts exactly when the request is sensible and the entry of its
      key, or the want of one, is open to it; otherwise nothing changes. */
  lemma StartTold(w: World, r: Request, now: Time)
    requires ValidEntries(w) && Allowed(w, Start(r))
    ensures var n := Started(w, r, now);
      && (forall x :: EntryFor(w.entries, r.key, x) ==>
            (r.jobId in n.table.jobs <==> Sensible(r) && x != ZERO_ID && Open(w, w.entries[x], r)))
      && ((forall x :: !EntryFor(w.entries, r.key, x)) ==>
            (r.jobId in n.table.jobs <==> Sensible(r) && r.previous.None?))
      && (r.jobId in n.table.jobs ==> exists x :: StartedAt(w, n, x, r, now))
      && (r.jobId !in n.table.jobs ==> n == w)
  {
    EnsuredShape(w.entries, r);
    var e := EnsuredEntry(w.entries, r).value;
    assert forall x :: EntryFor(w.entries, r.key, x) ==> x == e.id && w.entries[x] == e;
    if e.id in w.entries && e.lastJob.Some? { assert GenerationJob(w, e.lastJob.value, e.id); }
    if !(r.retry && r.regenerate) { StartedOnTold(w, e, r, now); }
  }

  /** A publication publishes exactly when its worker still runs, its entry still
      points at its job, the history can be written, and the job is the worker's:
      in flight under its live lease, or succeeded already. */
  predicate Publishes(w: World, job: Id, historyFails: bool, now: Time) {
    && job in w.workers && job in w.table.jobs && !historyFails
    && var j, worker := w.table.jobs[job], w.workers[job];
       && j.ownerId in w.entries && w.entries[j.ownerId].lastJob == Some(job)
       && j.attempts == worker.attempt && j.token == HashOf(worker.token) && worker.token != ""
       && (j.state.Succeeded? || (j.state.Active() && LeaseLive(j, now)))
  }

  lemma PublishTold(w: World, job: Id, document: string, historyFails: bool, now: Time)
    ensures var n := Published(w, job, document, historyFails, now);
      && n.workers == w.workers - {job}
      && if !Publishes(w, job, historyFails, now) then n.entries == w.entries && n.table == w.table
         else
           var x := w.table.jobs[job].ownerId;
           && n.entries == w.entries[x := w.entries[x].(document := Some(document))]
           && job in n.table.jobs && n.table.jobs[job].state.Succeeded?
           && n.table == w.table.(jobs := w.table.jobs[job := n.table.jobs[job]])
           && SameWork(w.table.jobs[job], n.table.jobs[job])
  {}

  /** Whoever claims a generation can publish it while the lease lasts. */
  lemma ClaimedJobPublishes(w: World, e: JobTable.Event, now: Time, job: Id, later: Time)
    requires ValidWorld(w) && Allowed(w, Scheduler(e)) && NewLease(w, Step(w.table, e, now), e, job) && e.token != ""
    requires later < now + 90000
    ensures Publishes(Next(w, Scheduler(e), now), job, false, later)
  {
    SchedulerKeeps(w, e, now);
    StepRows(w.table, e, now);
    LifeShrinks(w.table.jobs[job], Step(w.table, e, now).jobs[job], e, now);
  }

  // ----- what a reader sees -----

  datatype Status = Missing | StatusQueued | Generating | StatusReady | StatusFailed
  datatype Generation = Idle | GenerationQueued | GenerationRunning | GenerationFailed

  function StatusOf(document: bool, last: Option<State>): Status {
    if document then StatusReady
    else match last
      case Some(Queued) => StatusQueued
      case Some(Leased) => Generating
      case Some(Running) => Generating
      case Some(Failed) => StatusFailed
      case Some(Canceled) => StatusFailed
      case _ => Missing
  }

  /** The envelope's generation field, derived from the status first. */
  function GenerationOf(document: bool, last: Option<State>): Generation {
    var failed := last == Some(Failed) || last == Some(Canceled);
    match StatusOf(document, last)
    case StatusQueued => GenerationQueued
    case Generating => GenerationRunning
    case StatusFailed => GenerationFailed
    case Missing => Idle
    case StatusReady =>
      if last == Some(Queued) then GenerationQueued
      else if last == Some(Leased) || last == Some(Running) then GenerationRunning
      else if failed then GenerationFailed
      else Idle
  }

  /** In every valid world the envelope tells the truth: the status is missing
      only before any job was started, ready only when a job has succeeded, and
      the generation field is the last job's state whether or not an older
      document is still shown. */
  lemma EnvelopeTellsTheTruth(w: World, x: Id)
    requires ValidWorld(w) && x in w.entries
    ensures var e, last := w.entries[x], LastState(w.table, w.entries[x]);
      && (StatusOf(Ready(e), last).Missing? <==> e.lastJob.None? && e.document.None?)
      && (StatusOf(Ready(e), last).StatusReady? <==> HasSucceeded(w, x))
      && (StatusOf(Ready(e), last).StatusQueued? <==> e.document.None? && last == Some(Queued))
      && (StatusOf(Ready(e), last).Generating? <==> e.document.None? && last.Some? && last.value.Active())
      && (GenerationOf(Ready(e), last).GenerationRunning? <==>
            exists id :: GenerationJob(w, id, x) && w.table.jobs[id].state.Active())
      && (GenerationOf(Ready(e), last).GenerationQueued? <==>
            exists id :: GenerationJob(w, id, x) && w.table.jobs[id].state.Queued?)
      && (GenerationOf(Ready(e), last).GenerationFailed? <==> last.Some? && last.value.Dead())
  {
    var e := w.entries[x];
    assert Ready(e) <==> HasSucceeded(w, x);
    if e.lastJob.Some? {
      assert GenerationJob(w, e.lastJob.value, x);
      assert w.table.jobs[e.lastJob.value].state.Succeeded? ==> SucceededFor(w, e.lastJob.value, x);
    }
  }
}
