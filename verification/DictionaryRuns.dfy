/** Whole runs of the dictionary beside the scheduler. */
module DictionaryRuns {
  import opened Wrappers
  import opened JobModel
  import opened JobTable
  import opened DictionaryModel
  import JobRuns

  const EMPTY_WORLD := World(EMPTY, map[], map[])

  datatype Run = Run(worlds: seq<World>, events: seq<Action>, times: seq<Time>) {
    ghost predicate Valid() {
      && |worlds| == |events| + 1 && |times| == |events|
      && worlds[0] == EMPTY_WORLD
      && (forall i :: 0 <= i < |events| ==>
            Allowed(worlds[i], events[i]) && worlds[i + 1] == Next(worlds[i], events[i], times[i]))
      && (forall i, k :: 0 <= i <= k < |times| ==> times[i] <= times[k])
    }

    ghost predicate Has(i: nat, x: Id) { i < |worlds| && x in worlds[i].entries }

    ghost function EntryAt(i: nat, x: Id): Entry
      requires Has(i, x)
    {
      worlds[i].entries[x]
    }

    /** Event i publishes a document for entry x. */
    ghost predicate PublishesAt(i: nat, x: Id) {
      && i < |events| && i < |times| && Has(i, x) && Has(i + 1, x) && events[i].Publish?
      && EntryAt(i, x).lastJob == Some(events[i].job)
      && GenerationJob(worlds[i], events[i].job, x) && GenerationJob(worlds[i + 1], events[i].job, x)
      && worlds[i].table.jobs[events[i].job].state.Active() && LeaseLive(worlds[i].table.jobs[events[i].job], times[i])
      && worlds[i + 1].table.jobs[events[i].job].state.Succeeded?
      && EntryAt(i + 1, x).document == Some(events[i].document)
    }
  }

  lemma {:induction false} RunWorldsValid(r: Run, n: nat)
    requires r.Valid() && n < |r.worlds|
    ensures ValidWorld(r.worlds[n])
    decreases n
  {
    if n == 0 {
      JobRuns.EmptyValid();
    } else {
      RunWorldsValid(r, n - 1);
      NextKeeps(r.worlds[n - 1], r.events[n - 1], r.times[n - 1]);
    }
  }

  ghost predicate ActiveFor(w: World, id: Id, x: Id) {
    GenerationJob(w, id, x) && !w.table.jobs[id].state.Terminal()
  }

  /** Concurrent starts converge: one entry per key, and at any time at most
      one job of an entry is not over, namely the one the entry points at. */
  lemma StartsConverge(r: Run, n: nat)
    requires r.Valid() && n < |r.worlds|
    ensures forall x, y :: r.Has(n, x) && r.Has(n, y) && r.EntryAt(n, x).key == r.EntryAt(n, y).key ==> x == y
    ensures forall id: Id, x: Id :: ActiveFor(r.worlds[n], id, x) ==> r.Has(n, x) && r.EntryAt(n, x).lastJob == Some(id)
    ensures forall a: Id, b: Id, x: Id :: ActiveFor(r.worlds[n], a, x) && ActiveFor(r.worlds[n], b, x) ==> a == b
  {
    RunWorldsValid(r, n);
  }

  lemma RunDocumentStep(r: Run, i: nat, x: Id)
    requires r.Valid() && i < |r.events| && r.Has(i, x)
    ensures r.Has(i + 1, x)
    ensures r.EntryAt(i + 1, x).document == r.EntryAt(i, x).document || r.PublishesAt(i, x)
  {
    RunWorldsValid(r, i);
    RunWorldsValid(r, i + 1);
    DocumentStep(r.worlds[i], r.events[i], r.times[i], x);
    if r.EntryAt(i + 1, x).document != r.EntryAt(i, x).document {
      var job := r.events[i].job;
      assert GenerationJob(r.worlds[i], job, x);
      PublishNeedsLiveLease(r.worlds[i], job, r.events[i].document, r.events[i].historyFails, r.times[i]);
    }
  }

  /** Event m published what the entry shows at n, and nothing was published since. */
  ghost predicate LatestPublication(r: Run, m: nat, n: nat, x: Id)
    requires r.Has(n, x)
  {
    m < n && r.PublishesAt(m, x) && r.EntryAt(n, x).document == Some(r.events[m].document)
    && forall l: nat :: m < l < n ==> !r.PublishesAt(l, x)
  }

  ghost predicate NeverPublished(r: Run, n: nat, x: Id) {
    forall l: nat :: l < n ==> !r.PublishesAt(l, x)
  }

  lemma PublicationStep(r: Run, i: nat, x: Id)
    requires r.Valid() && i < |r.events| && r.Has(i, x)
    ensures r.Has(i + 1, x)
    ensures r.PublishesAt(i, x) ==> LatestPublication(r, i, i + 1, x)
    ensures forall m: nat :: !r.PublishesAt(i, x) && LatestPublication(r, m, i, x) ==> LatestPublication(r, m, i + 1, x)
    ensures !r.PublishesAt(i, x) && NeverPublished(r, i, x) ==> NeverPublished(r, i + 1, x)
    ensures !r.PublishesAt(i, x) ==> r.EntryAt(i + 1, x).document == r.EntryAt(i, x).document
  {
    RunDocumentStep(r, i, x);
  }

  /** Ready exactly when some job of the entry succeeded; the document is the
      one of the latest publication and is kept through everything else,
      including failed, canceled and expired regenerations. */
  lemma {:induction false} DocumentIsLatestPublication(r: Run, n: nat, x: Id)
    requires r.Valid() && r.Has(n, x)
    ensures Ready(r.EntryAt(n, x)) <==> HasSucceeded(r.worlds[n], x)
    ensures Ready(r.EntryAt(n, x)) ==> exists m: nat :: LatestPublication(r, m, n, x)
    ensures !Ready(r.EntryAt(n, x)) ==> NeverPublished(r, n, x)
    decreases n
  {
    ReadyMeansSucceeded(r, n, x);
    if n > 0 {
      var i := n - 1;
      if r.Has(i, x) {
        DocumentIsLatestPublication(r, i, x);
        PublicationStep(r, i, x);
      } else {
        NewEntryBlank(r, i, x);
        forall l: nat | l < n
          ensures !r.PublishesAt(l, x)
        {
          if r.PublishesAt(l, x) { EntriesPersist(r, l, i, x); }
        }
      }
    }
  }

  lemma ReadyMeansSucceeded(r: Run, n: nat, x: Id)
    requires r.Valid() && r.Has(n, x)
    ensures Ready(r.EntryAt(n, x)) <==> HasSucceeded(r.worlds[n], x)
  {
    RunWorldsValid(r, n);
  }

  lemma NewEntryBlank(r: Run, i: nat, x: Id)
    requires r.Valid() && i < |r.events| && !r.Has(i, x) && r.Has(i + 1, x)
    ensures !Ready(r.EntryAt(i + 1, x))
  {
    RunWorldsValid(r, i);
    var w, now := r.worlds[i], r.times[i];
    match r.events[i]
    case Start(q) => StartDocuments(w, q, now);
    case Publish(job, document, fails) => PublishNeedsLiveLease(w, job, document, fails, now);
    case Stop(job) =>
    case Scheduler(se) => SchedulerKeeps(w, se, now);
  }

  lemma {:induction false} EntriesPersist(r: Run, i: nat, n: nat, x: Id)
    requires r.Valid() && r.Has(i, x) && i <= n < |r.worlds|
    ensures r.Has(n, x)
    ensures Ready(r.EntryAt(i, x)) ==> Ready(r.EntryAt(n, x))
    decreases n
  {
    if i < n {
      EntriesPersist(r, i, n - 1, x);
      RunDocumentStep(r, n - 1, x);
    }
  }
}
