/** Relay results beside the job table (internal/llmrelay/service.go). */
module RelayModel {
  import opened Wrappers
  import opened JobModel
  import opened JobTable
  import opened JobInvariants

  const CODE_PARENT_CANCELED := "v1.relay_parent_canceled"

  const PAYLOAD_LIMIT_BYTES := 0x20_0000

  /** One idempotency key per request hash. */
  function RequestKey(inputHash: string): string { "llm.relay:" + inputHash }

  datatype World = World(table: Table, results: map<Id, string>)

  /** `canonical` is the decoded result's canonical form, None when the payload
      or the result does not decode within its bounds. */
  datatype Action =
    | Complete(job: Id, attempt: nat, token: string, canonical: Option<string>)
    | Scheduler(event: Event)

  datatype Answer = Accepted | Nondeterministic | Rejected

  predicate RelayJob(j: Job) {
    j.jobType.LLMRelay? && j.ownerType.RelayRequest? && j.ownerId != ZERO_ID
  }

  function AnswerTo(w: World, id: Id, attempt: nat, token: string, canonical: Option<string>, now: Time): Answer {
    if id !in w.table.jobs || !RelayJob(w.table.jobs[id]) || canonical.None? then Rejected
    else if id in w.results && w.results[id] != canonical.value then Nondeterministic
    else if token == "" || FinishVerdict(w.table.jobs[id], attempt, token, true, "", false, now).Refuse? then Rejected
    else Accepted
  }

  /** Result row and job success commit together or not at all. */
  function Completed(w: World, id: Id, attempt: nat, token: string, canonical: Option<string>, now: Time): World {
    if !AnswerTo(w, id, attempt, token, canonical, now).Accepted? then w
    else World(Finished(w.table, id, attempt, token, true, "", false, now),
               if id in w.results then w.results else w.results[id := canonical.value])
  }

  ghost function Next(w: World, a: Action, now: Time): World {
    match a
    case Complete(id, attempt, token, canonical) => Completed(w, id, attempt, token, canonical, now)
    case Scheduler(e) => w.(table := Step(w.table, e, now))
  }

  /** Relay jobs succeed only through Complete and are never queued again: the
      idempotency keys of speech and article jobs are never theirs. */
  predicate Allowed(w: World, a: Action) {
    && (a.Scheduler? && a.event.Finish? && a.event.success && a.event.id in w.table.jobs ==>
          !w.table.jobs[a.event.id].jobType.LLMRelay?)
    && (a.Scheduler? && a.event.IsRequeue() ==>
          forall id | id in w.table.jobs && w.table.jobs[id].key == a.event.key :: !w.table.jobs[id].jobType.LLMRelay?)
  }

  ghost predicate SucceededRelay(t: Table, id: Id) {
    id in t.jobs && t.jobs[id].jobType.LLMRelay? && t.jobs[id].state.Succeeded?
  }

  /** A result row exists exactly for the relay jobs that succeeded. */
  ghost predicate ValidResults(w: World) {
    forall id :: id in w.results <==> SucceededRelay(w.table, id)
  }

  ghost predicate ValidWorld(w: World) {
    JobInvariants.Valid(w.table) && ValidResults(w)
  }

  ghost predicate RelayOver(t: Table, id: Id) {
    id in t.jobs && t.jobs[id].jobType.LLMRelay? && t.jobs[id].state.Terminal()
  }

  lemma SchedulerSuccesses(w: World, e: Event, now: Time, id: Id)
    requires JobInvariants.Valid(w.table) && Allowed(w, Scheduler(e))
    ensures SucceededRelay(Step(w.table, e, now), id) <==> SucceededRelay(w.table, id)
  {
    StepRows(w.table, e, now);
    if id in w.table.jobs {
      RowChangeValid(w.table.jobs[id], Step(w.table, e, now).jobs[id], e, now);
      LifeShrinks(w.table.jobs[id], Step(w.table, e, now).jobs[id], e, now);
    }
  }

  lemma NextKeeps(w: World, a: Action, now: Time)
    requires ValidWorld(w) && Allowed(w, a)
    ensures ValidWorld(Next(w, a, now))
  {
    match a
    case Complete(id, attempt, token, canonical) =>
      if AnswerTo(w, id, attempt, token, canonical, now).Accepted? {
        StepValid(w.table, Finish(id, attempt, token, true, "", false), now);
        CompletedResults(w, id, attempt, token, canonical, now);
      }
    case Scheduler(e) =>
      StepValid(w.table, e, now);
      forall id {
        SchedulerSuccesses(w, e, now, id);
      }
  }

  lemma CompletedResults(w: World, id: Id, attempt: nat, token: string, canonical: Option<string>, now: Time)
    requires ValidResults(w)
    ensures ValidResults(Completed(w, id, attempt, token, canonical, now))
  {}

  /** Nothing that happens later touches an accepted result or a relay job that
      is over. */
  lemma NextPersists(w: World, a: Action, now: Time, id: Id)
    requires ValidWorld(w) && Allowed(w, a)
    ensures id in w.results ==> id in Next(w, a, now).results && Next(w, a, now).results[id] == w.results[id]
    ensures id in w.table.jobs ==>
              id in Next(w, a, now).table.jobs && Next(w, a, now).table.jobs[id].jobType == w.table.jobs[id].jobType
    ensures RelayOver(w.table, id) ==> Next(w, a, now).table.jobs[id] == w.table.jobs[id]
  {
    if a.Scheduler? && id in w.table.jobs {
      StepRows(w.table, a.event, now);
      RowChangeValid(w.table.jobs[id], Step(w.table, a.event, now).jobs[id], a.event, now);
    }
  }

  /** Once a result is accepted: an identical repeat under the same lease is
      accepted again, a different one is called nondeterministic whatever its
      lease, and neither changes anything. */
  lemma RepeatedCompletion(w: World, id: Id, attempt: nat, token: string, canonical: string, now: Time)
    requires ValidWorld(w) && id in w.results && RelayJob(w.table.jobs[id])
    ensures Completed(w, id, attempt, token, Some(canonical), now) == w
    ensures canonical != w.results[id] ==> AnswerTo(w, id, attempt, token, Some(canonical), now).Nondeterministic?
    ensures canonical == w.results[id] ==>
              (AnswerTo(w, id, attempt, token, Some(canonical), now).Accepted? <==>
               attempt == w.table.jobs[id].attempts && TokenMatches(token, w.table.jobs[id].token))
  {}

  lemma SchedulerResult(w: World, e: Event, now: Time, id: Id) returns (n: World)
    requires ValidWorld(w) && Allowed(w, Scheduler(e)) && id in w.table.jobs
    ensures n.table == Step(w.table, e, now) && n.results == w.results && ValidWorld(n)
    ensures id in n.table.jobs && n.table.jobs[id].jobType == w.table.jobs[id].jobType
  {
    n := Next(w, Scheduler(e), now);
    NextKeeps(w, Scheduler(e), now);
    NextPersists(w, Scheduler(e), now, id);
  }

  lemma SchedulerEnqueue(w: World, spec: Spec, freshId: Id, now: Time) returns (n: World)
    requires ValidWorld(w)
    ensures n.table == Enqueued(w.table, spec, freshId, now) && n.results == w.results && ValidWorld(n)
  {
    n := Next(w, Scheduler(Enqueue(spec, freshId)), now);
    NextKeeps(w, Scheduler(Enqueue(spec, freshId)), now);
  }

  // ----- whole runs -----

  /** What any number of other workers and requests may do. */
  ghost predicate Evolution(w: World, steps: seq<(Action, Time)>, n: World)
    decreases |steps|
  {
    if steps == [] then n == w
    else Allowed(w, steps[0].0) && Evolution(Next(w, steps[0].0, steps[0].1), steps[1..], n)
  }

  /** Over any run, a result row exists exactly when its job succeeded, the
      first accepted result never changes, and a relay job that is over stays so. */
  lemma {:induction false} ResultsOverRuns(w: World, steps: seq<(Action, Time)>, n: World)
    requires ValidWorld(w) && Evolution(w, steps, n)
    ensures ValidWorld(n)
    ensures forall id :: id in w.results ==> id in n.results && n.results[id] == w.results[id]
    ensures forall id :: id in w.table.jobs ==>
              id in n.table.jobs && n.table.jobs[id].jobType == w.table.jobs[id].jobType
    ensures forall id :: RelayOver(w.table, id) ==> n.table.jobs[id] == w.table.jobs[id]
    decreases |steps|
  {
    if steps != [] {
      var (a, now) := steps[0];
      var m := Next(w, a, now);
      NextKeeps(w, a, now);
      ResultsOverRuns(m, steps[1..], n);
      forall id | id in w.results
        ensures id in n.results && n.results[id] == w.results[id]
      {
        NextPersists(w, a, now, id);
      }
      forall id | id in w.table.jobs
        ensures id in n.table.jobs && n.table.jobs[id].jobType == w.table.jobs[id].jobType
        ensures RelayOver(w.table, id) ==> n.table.jobs[id] == w.table.jobs[id]
      {
        NextPersists(w, a, now, id);
      }
    }
  }

  lemma ParentCanceledIsValid()
    ensures ValidErrorCode(CODE_PARENT_CANCELED)
  {
  }
}
