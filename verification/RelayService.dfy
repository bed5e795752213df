/** The relay's transactions and its waiting loop (internal/llmrelay/service.go). */
module RelayService {
  import opened Wrappers
  import opened JobModel
  import opened JobTable
  import opened RelayModel
  import JobStore

  /** How a wait ends; StillWaiting only when the polls given it run out. */
  datatype Exit =
    | Delivered(result: string)
    | JobOver(code: ErrorCode)
    | Unavailable
    | ParentGone
    | Missing
    | ResultMissing
    | DatabaseError
    | StillWaiting

  /** Which database calls of one turn fail. */
  datatype Faults = Faults(read: bool, result: bool, recover: bool, cancel: bool)

  function ChildSpec(payload: string, inputHash: string, request: Id): Spec {
    Spec(ZERO_ID, LLMRelay, MacOS, RelayRequest, request, RequestKey(inputHash), inputHash, payload, true, 0, 3, None)
  }

  /** The result is the worker's for a relay job, within its bounds. */
  predicate Answerable(w: World, id: Id, canonical: Option<string>) {
    && canonical.Some? && id in w.table.jobs && w.table.jobs[id].jobType.LLMRelay?
    && w.table.jobs[id].ownerType.RelayRequest? && w.table.jobs[id].ownerId != ZERO_ID
  }

  /** The worker's attempt is in flight under its live lease, or succeeded. */
  predicate LeaseOrRepeat(j: Job, attempt: nat, token: string, now: Time) {
    && token != "" && j.attempts == attempt && j.token == HashOf(token)
    && (j.state.Succeeded? || (j.state.Active() && LeaseLive(j, now)))
  }

  /** How a turn ends that read the child in this state, its parent alive. */
  predicate TurnEnds(j: Job, available: bool, f: Faults, exit: Exit) {
    if f.read then exit.DatabaseError?
    else match j.state
      case Succeeded => if f.result then exit.DatabaseError? else exit.Delivered? || exit.ResultMissing?
      case Failed => exit == JobOver(j.errorCode)
      case Canceled => exit == JobOver(j.errorCode)
      case Queued => if available then exit.StillWaiting? else exit.Unavailable?
      case Leased => if f.recover then exit.DatabaseError? else exit.StillWaiting?
      case Running => if f.recover then exit.DatabaseError? else exit.StillWaiting?
  }

  /** A turn that saw the world w. */
  predicate Turn(w: World, id: Id, parentDone: bool, available: bool, f: Faults, exit: Exit) {
    id in w.table.jobs && if parentDone then exit.ParentGone? else TurnEnds(w.table.jobs[id], available, f, exit)
  }

  /** Every turn but the last waited on; the last one ended so. */
  ghost predicate Turns(seen: seq<World>, id: Id, parentDone: nat -> bool, available: nat -> bool,
                        faults: nat -> Faults, exit: Exit) {
    forall i :: 0 <= i < |seen| ==>
      Turn(seen[i], id, parentDone(i), available(i), faults(i), if i < |seen| - 1 then StillWaiting else exit)
  }

  lemma TurnsStep(seen: seq<World>, turn: World, id: Id, parentDone: nat -> bool, available: nat -> bool,
                  faults: nat -> Faults, exit: Exit)
    requires Turns(seen, id, parentDone, available, faults, StillWaiting)
    requires Turn(turn, id, parentDone(|seen|), available(|seen|), faults(|seen|), exit)
    ensures Turns(seen + [turn], id, parentDone, available, faults, exit)
  {}

  class Service {
    const store: JobStore.Store
    var results: map<Id, string>

    ghost function Contents(): World
      reads this, store
    {
      World(store.Contents(), results)
    }

    constructor (store: JobStore.Store)
      ensures this.store == store && results == map[]
    {
      this.store := store;
      results := map[];
    }

    /** Enqueues the child job of one request; the same input hash means the same
        job, and a new job is one that Complete will recognise. */
    method Enqueue(payload: string, inputHash: string, request: Id, freshId: Id, now: Time)
      returns (r: Result<Job, Error>)
      requires ValidWorld(Contents())
      modifies store
      ensures ValidWorld(Contents())
      ensures r.Err? ==> store.Contents() == old(store.Contents())
      ensures r.Ok? ==>
                store.Contents()
                == Enqueued(old(store.Contents()), ChildSpec(payload, inputHash, request), freshId, now)
      ensures r.Ok? ==>
                r.value.key == RequestKey(inputHash) && r.value.id in store.jobs && store.jobs[r.value.id] == r.value
      ensures r.Ok? && r.value.id !in old(store.jobs) ==>
                && RelayJob(r.value) && r.value.state.Queued? && r.value.inputHash == inputHash
                && r.value.maxAttempts == 3 && r.value.target.MacOS? && r.value.payload == payload
                && r.value.ownerId == request && r.value.key == "llm.relay:" + inputHash
      ensures r.Ok? && old(KeyTaken(store.Contents(), RequestKey(inputHash))) ==>
                store.Contents() == old(store.Contents())
      ensures |payload| == 0 || |payload| > 2 * 1024 * 1024 || request == ZERO_ID || inputHash == "" ==> r.Err?
      ensures r.Err? ==>
                || |payload| > 2 * 1024 * 1024 || request == ZERO_ID || Blank(payload) || Blank(inputHash)
                || (!old(KeyTaken(store.Contents(), RequestKey(inputHash))) && freshId in old(store.jobs))
    {
      if |payload| == 0 || |payload| > PAYLOAD_LIMIT_BYTES || request == ZERO_ID || inputHash == "" {
        return Err(Validation);
      }
      ghost var next := SchedulerEnqueue(Contents(), ChildSpec(payload, inputHash, request), freshId, now);
      r := store.Enqueue(ChildSpec(payload, inputHash, request), freshId, now);
      assert RequestKey(inputHash)[0] == 'l' && !IsSpace('l') && !Blank(RequestKey(inputHash));
      assert Contents() == next;
    }

    /** The completion transaction of one worker result. */
    method Complete(id: Id, attempt: nat, token: string, canonical: Option<string>, now: Time) returns (answer: Answer)
      modifies this`results, store
      ensures Contents() == Completed(old(Contents()), id, attempt, token, canonical, now)
      ensures answer == AnswerTo(old(Contents()), id, attempt, token, canonical, now)
      ensures answer.Nondeterministic? <==>
                Answerable(old(Contents()), id, canonical) && id in old(results) && old(results)[id] != canonical.value
      ensures answer.Accepted? <==>
                && Answerable(old(Contents()), id, canonical)
                && (id in old(results) ==> old(results)[id] == canonical.value)
                && LeaseOrRepeat(old(store.jobs)[id], attempt, token, now)
      ensures answer.Accepted? ==>
                && results == old(results)[id := canonical.value] && id in store.jobs
                && store.jobs[id].state.Succeeded? && store.jobs == old(store.jobs)[id := store.jobs[id]]
                && SameWork(old(store.jobs)[id], store.jobs[id])
      ensures !answer.Accepted? ==> Contents() == old(Contents())
    {
      if id !in store.jobs || !RelayJob(store.jobs[id]) || canonical.None? {
        return Rejected;
      }
      var saved := results;
      if id in results {
        if results[id] != canonical.value {
          return Nondeterministic;
        }
      } else {
        results := results[id := canonical.value];
      }
      var done := store.Finish(id, attempt, token, true, "", false, now);
      if done.Err? {
        results := saved;
        return Rejected;
      }
      answer := Accepted;
    }

    /** Anything other workers and requests may do between two steps of a wait. */
    method Interference()
      modifies this`results, store
      ensures exists steps :: Evolution(old(Contents()), steps, Contents())
    {
      assert Evolution(Contents(), [], Contents());
    }

    /** Interference, seen from one waiting request. */
    method OthersRun(id: Id)
      requires ValidWorld(Contents()) && id in store.jobs
      modifies this`results, store
      ensures ValidWorld(Contents()) && id in store.jobs && store.jobs[id].jobType == old(store.jobs[id].jobType)
      ensures old(RelayOver(store.Contents(), id)) ==> store.jobs[id] == old(store.jobs[id])
      ensures forall x :: x in old(results) ==> x in results && results[x] == old(results)[x]
      ensures exists steps :: Evolution(old(Contents()), steps, Contents())
    {
      ghost var before := Contents();
      Interference();
      ghost var steps :| Evolution(before, steps, Contents());
      ResultsOverRuns(before, steps, Contents());
      assert RelayOver(before.table, id) ==> store.jobs[id] == before.table.jobs[id];
    }

    /** Cancels the waited-for job, whatever became of it meanwhile; the error of
        a failing cancellation is dropped, and the job stays as it is. */
    method CancelChild(id: Id, now: Time, fails: bool)
      requires ValidWorld(Contents()) && id in store.jobs && id != ZERO_ID
      modifies store
      ensures ValidWorld(Contents()) && id in store.jobs
      ensures store.jobs[id].state.Terminal() <==> !fails || old(store.jobs[id].state).Terminal()
      ensures fails ==> Contents() == old(Contents())
      ensures !fails && !old(store.jobs[id].state).Terminal() ==>
                JobStore.CanceledFrom(old(store.jobs)[id], store.jobs[id], CODE_PARENT_CANCELED, now)
      ensures forall x :: x in store.jobs && x != id ==> x in old(store.jobs) && store.jobs[x] == old(store.jobs)[x]
    {
      if fails { return; }
      ParentCanceledIsValid();
      ghost var next := SchedulerResult(Contents(), Event.Cancel(id, CODE_PARENT_CANCELED), now, id);
      var ignored := store.Cancel(id, CODE_PARENT_CANCELED, now);
      assert Contents() == next;
    }

    /** Applies an expired lease of the waited-for job, and of no other job. */
    method RecoverChild(id: Id, now: Time)
      requires ValidWorld(Contents()) && id in store.jobs && id != ZERO_ID
      modifies store
      ensures ValidWorld(Contents()) && id in store.jobs
      ensures !LeaseExpiredAt(store.jobs[id], now)
    {
      ghost var next := SchedulerResult(Contents(), Event.RecoverExpiredJob(id, false), now, id);
      var recovered := store.RecoverExpiredJob(id, false, now);
      assert Contents() == next;
    }

    /** What an exit says about the child. Only a database error, or a failed
        cancellation whose error is dropped, can leave a relay job unfinished. */
    ghost predicate ExitOk(id: Id, exit: Exit, cancelFailed: bool)
      reads this, store
    {
      && ValidWorld(Contents()) && id in store.jobs && !exit.Missing?
      && (cancelFailed ==> exit.ParentGone? || exit.Unavailable?)
      && ((exit.ParentGone? || exit.Unavailable?) && !cancelFailed ==> store.jobs[id].state.Terminal())
      && (store.jobs[id].jobType.LLMRelay? ==>
            && (!exit.StillWaiting? && !exit.DatabaseError? && !cancelFailed ==> store.jobs[id].state.Terminal())
            && (exit.Delivered? ==> store.jobs[id].state.Succeeded? && id in results && results[id] == exit.result)
            && (exit.JobOver? ==> store.jobs[id].state.Dead() && store.jobs[id].errorCode == exit.code)
            && !exit.ResultMissing?)
    }

    /** One turn of the waiting loop; other parties run before it and again
        after it has read the job. */
    method Poll(id: Id, now: Time, parentDone: bool, available: bool, f: Faults)
      returns (exit: Exit, cancelFailed: bool, ghost seen: World)
      requires ValidWorld(Contents()) && id in store.jobs && id != ZERO_ID
      modifies this`results, store
      ensures ExitOk(id, exit, cancelFailed)
      ensures exit.DatabaseError? ==> f.read || f.result || f.recover
      ensures cancelFailed <==> f.cancel && (exit.ParentGone? || exit.Unavailable?)
      ensures exists steps :: Evolution(old(Contents()), steps, seen)
      ensures Turn(seen, id, parentDone, available, f, exit)
      ensures exit.ParentGone? <==> parentDone
      ensures exit.Unavailable? ==> !available
      ensures !parentDone && !f.read && seen.table.jobs[id].state.Queued? ==> (exit.Unavailable? <==> !available)
      ensures exit.StillWaiting? && seen.table.jobs[id].state.Active() ==> !LeaseExpiredAt(store.jobs[id], now)
    {
      cancelFailed := false;
      OthersRun(id);
      seen := Contents();
      if parentDone {
        CancelChild(id, now, f.cancel);
        return ParentGone, f.cancel, seen;
      }
      if f.read {
        return DatabaseError, false, seen;
      }
      if id !in store.jobs {
        return Missing, false, seen;
      }
      var job := store.jobs[id];
      OthersRun(id);
      if job.state.Succeeded? {
        assert job.jobType.LLMRelay? ==> SucceededRelay(store.Contents(), id);
        if f.result {
          return DatabaseError, false, seen;
        }
        exit := if id in results then Delivered(results[id]) else ResultMissing;
        return;
      }
      if job.state.Dead() {
        return JobOver(job.errorCode), false, seen;
      }
      if job.state.Queued? {
        if !available {
          CancelChild(id, now, f.cancel);
          return Unavailable, f.cancel, seen;
        }
      } else if f.recover {
        return DatabaseError, false, seen;
      } else {
        RecoverChild(id, now);
      }
      exit := StillWaiting;
    }

    /** Waits for one child job, for as many polls as it is given. The clock
        readings, the parent's cancellation, the workers' presence and the
        failures of the database are arbitrary. */
    method Wait(id: Id, clock: nat -> Time, parentDone: nat -> bool, available: nat -> bool, faults: nat -> Faults,
                polls: nat)
      returns (exit: Exit, cancelFailed: bool, ghost seen: seq<World>)
      requires ValidWorld(Contents()) && id in store.jobs && id != ZERO_ID
      modifies this`results, store
      ensures ExitOk(id, exit, cancelFailed)
      ensures |seen| <= polls && (exit.StillWaiting? ==> |seen| == polls) && (polls > 0 ==> seen != [])
      ensures Turns(seen, id, parentDone, available, faults, exit)
      ensures exit.ParentGone? <==> exists i :: 0 <= i < |seen| && parentDone(i)
      ensures exit.Unavailable? ==> exists i :: 0 <= i < |seen| && !available(i)
      ensures exit.DatabaseError? ==>
                exists i :: 0 <= i < |seen| && (faults(i).read || faults(i).result || faults(i).recover)
      ensures cancelFailed ==> seen != [] && faults(|seen| - 1).cancel
    {
      var poll := 0;
      exit, cancelFailed, seen := StillWaiting, false, [];
      while poll < polls && exit.StillWaiting?
        invariant ExitOk(id, exit, cancelFailed) && |seen| == poll <= polls && (!exit.StillWaiting? ==> poll > 0)
        invariant Turns(seen, id, parentDone, available, faults, exit)
        invariant cancelFailed ==> poll > 0 && faults(poll - 1).cancel
      {
        ghost var turn;
        exit, cancelFailed, turn := Poll(id, clock(poll), parentDone(poll), available(poll), faults(poll));
        TurnsStep(seen, turn, id, parentDone, available, faults, exit);
        seen := seen + [turn];
        poll := poll + 1;
      }
      WaitEnds(seen, id, parentDone, available, faults, exit);
    }
  }

  /** What an exit says about the polls before it. */
  lemma WaitEnds(seen: seq<World>, id: Id, parentDone: nat -> bool, available: nat -> bool, faults: nat -> Faults,
                 exit: Exit)
    requires Turns(seen, id, parentDone, available, faults, exit)
    requires seen == [] ==> exit.StillWaiting?
    ensures exit.ParentGone? <==> exists i :: 0 <= i < |seen| && parentDone(i)
    ensures exit.Unavailable? ==> exists i :: 0 <= i < |seen| && !available(i)
    ensures exit.DatabaseError? ==>
              exists i :: 0 <= i < |seen| && (faults(i).read || faults(i).result || faults(i).recover)
  {
    if i :| 0 <= i < |seen| && parentDone(i) {
      assert Turn(seen[i], id, parentDone(i), available(i), faults(i), if i < |seen| - 1 then StillWaiting else exit);
    }
    if seen != [] {
      var last := |seen| - 1;
      assert Turn(seen[last], id, parentDone(last), available(last), faults(last), exit);
    }
  }
}
