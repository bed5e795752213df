/** The service and the worker's publication as transactions in place
    (internal/dictionary/service.go, store.go, runner.go). */
module DictionaryService {
  import opened Wrappers
  import opened JobModel
  import opened JobTable
  import opened DictionaryModel
  import JobStore

  class Service {
    const store: JobStore.Store
    var entries: map<Id, Entry>
    var workers: map<Id, Worker>

    ghost function Contents(): World
      reads this, store
    {
      World(store.Contents(), entries, workers)
    }

    constructor (store: JobStore.Store)
      ensures this.store == store && entries == map[] && workers == map[]
    {
      this.store := store;
      entries := map[];
      workers := map[];
    }

    /** Finds the entry for the key or inserts a placeholder. */
    method EnsureEntry(r: Request) returns (e: Option<Entry>)
      requires ValidEntries(Contents())
      modifies this`entries
      ensures e == EnsuredEntry(old(entries), r)
      ensures forall x :: EntryFor(old(entries), r.key, x) ==> e == Some(old(entries)[x])
      ensures (forall x :: !EntryFor(old(entries), r.key, x)) ==>
                e == if r.entryId in old(entries) then None else Some(Entry(r.entryId, r.key, None, None))
      ensures entries == if e.Some? then old(entries)[e.value.id := e.value] else old(entries)
    {
      if id :| id in entries && entries[id].key == r.key {
        assert forall x :: EntryFor(entries, r.key, x) ==> x == id;
        assert EntryFor(entries, r.key, id);
        return Some(entries[id]);
      }
      assert forall x :: !EntryFor(entries, r.key, x);
      if r.entryId in entries {
        return None;
      }
      e := Some(Entry(r.entryId, r.key, None, None));
      entries := entries[r.entryId := e.value];
    }

    /** Points the entry at a new job; fails when someone else moved it. */
    method SetLastJob(entry: Id, previous: Option<Id>, job: Id) returns (ok: bool)
      requires entry in entries
      modifies this`entries
      ensures ok <==> old(entries)[entry].lastJob == previous
      ensures entries == if ok then old(entries)[entry := old(entries)[entry].(lastJob := Some(job))] else old(entries)
    {
      ok := entries[entry].lastJob == previous;
      if ok {
        entries := entries[entry := entries[entry].(lastJob := Some(job))];
      }
    }

    /** Enqueues the entry's next job and points the entry at it, or neither. */
    method EnqueueNext(entry: Entry, previous: Option<Id>, r: Request, now: Time) returns (moved: bool)
      requires entry.id in entries && entries[entry.id] == entry && KeyedById(store.jobs)
      requires r.jobId != ZERO_ID && r.jobId !in store.jobs && !KeyTaken(store.Contents(), r.idempotencyKey)
      modifies this`entries, store
      ensures moved <==> ValidSpec(JobSpec(entry.id, r)) && entry.lastJob == previous
      ensures !moved ==> Contents() == old(Contents())
      ensures moved ==> Contents() == WithNextJob(old(Contents()), entry, r, NewRow(JobSpec(entry.id, r), r.jobId, now))
    {
      var savedJobs := store.jobs;
      var job := store.Enqueue(JobSpec(entry.id, r), r.jobId, now);
      if job.Err? {
        return false;
      }
      moved := SetLastJob(entry.id, previous, job.value.id);
      if !moved {
        store.jobs := savedJobs;
      }
    }

    /** One explicit start: whether it starts, what it leaves, and that it leaves
        nothing behind when it does not. */
    method Start(r: Request, now: Time) returns (started: bool)
      requires ValidEntries(Contents()) && KeyedById(store.jobs) && Allowed(Contents(), Action.Start(r))
      modifies this`entries, store
      ensures Contents() == Started(old(Contents()), r, now)
      ensures started <==> r.jobId in store.jobs
      ensures forall x :: EntryFor(old(entries), r.key, x) ==>
                (started <==> Sensible(r) && x != ZERO_ID && Open(old(Contents()), old(entries)[x], r))
      ensures (forall x :: !EntryFor(old(entries), r.key, x)) ==> (started <==> Sensible(r) && r.previous.None?)
      ensures started ==> exists x :: StartedAt(old(Contents()), Contents(), x, r, now)
      ensures !started ==> Contents() == old(Contents())
    {
      started := StartTransaction(r, now);
      StartTold(old(Contents()), r, now);
    }

    method StartTransaction(r: Request, now: Time) returns (started: bool)
      requires ValidEntries(Contents()) && KeyedById(store.jobs) && Allowed(Contents(), Action.Start(r))
      modifies this`entries, store
      ensures Contents() == Started(old(Contents()), r, now)
      ensures started <==> r.jobId in store.jobs
    {
      if r.retry && r.regenerate {
        return false;
      }
      EnsuredShape(entries, r);
      var savedEntries, previous := entries, r.previous;
      var ensured := EnsureEntry(r);
      if ensured.None? {
        return false;
      }
      var entry := ensured.value;
      var last := LastState(Table(store.jobs, store.deps), entry);
      if entry.document.Some? && !r.regenerate {
        return false;
      }
      if last.Some? && (last.value.Queued? || last.value.Active()) {
        return false;
      }
      if last.Some? && !r.retry && !r.regenerate {
        return false;
      }
      if entry.lastJob.Some? {
        previous := entry.lastJob;
      }
      started := EnqueueNext(entry, previous, r, now);
      if !started {
        entries := savedEntries;
      }
    }

    /** The worker's publishing transaction. */
    method Publish(job: Id, document: string, historyFails: bool, now: Time) returns (published: bool)
      modifies this`entries, this`workers, store
      ensures Contents() == Published(old(Contents()), job, document, historyFails, now)
      ensures published <==> Publishes(old(Contents()), job, historyFails, now)
      ensures published ==>
                && job in store.jobs && store.jobs[job].state.Succeeded? && store.jobs[job].ownerId in entries
                && entries[store.jobs[job].ownerId].document == Some(document)
      ensures !published ==> entries == old(entries) && store.Contents() == old(store.Contents())
    {
      PublishTold(Contents(), job, document, historyFails, now);
      if job !in workers {
        return false;
      }
      var worker, savedEntries, savedJobs := workers[job], entries, store.jobs;
      workers := workers - {job};
      if job !in store.jobs {
        return false;
      }
      var x := store.jobs[job].ownerId;
      if x !in entries || entries[x].lastJob != Some(job) {
        return false;
      }
      entries := entries[x := entries[x].(document := Some(document))];
      var done := store.Finish(job, worker.attempt, worker.token, true, "", false, now);
      if done.Err? || historyFails {
        store.jobs := savedJobs;
        entries := savedEntries;
        return false;
      }
      published := true;
    }
  }
}
