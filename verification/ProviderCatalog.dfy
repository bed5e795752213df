/** The coalescing last-good model catalog (internal/httpapi/provider_catalog.go).
    Every event is one critical section under the catalog's mutex; provider
    calls and waits happen between events. */
module ProviderCatalog {
  import opened Wrappers

  type Provider = string
  type Model = string
  type Time = int
  type WaiterId = nat

  /** `message` is the sanitized error text; the source uses "" for no error. */
  datatype Outcome = Listed(models: seq<Model>, at: Time) | Failed(message: string, at: Time)

  datatype Entry = Entry(models: seq<Model>, retrievedAt: Time, lastErr: string, attemptedAt: Time)

  /** One ListModels call, numbered by its start; running until it is done. */
  datatype Refresh = Refresh(provider: Provider, done: Option<Outcome>)

  datatype Waiter = Waiting(refresh: nat) | Woken(provider: Provider)

  /** One finished refresh, in the order they were committed. */
  datatype Finished = Finished(provider: Provider, refresh: nat, outcome: Outcome)

  datatype Catalog = Catalog(entries: map<Provider, Entry>, inflight: map<Provider, nat>, refreshes: seq<Refresh>,
                             waiters: map<WaiterId, Waiter>, log: seq<Finished>)

  datatype Event =
    | Join(waiter: WaiterId, provider: Provider)
    | Complete(refresh: nat, outcome: Outcome)
    | Wake(waiter: WaiterId)
    | Cancel(waiter: WaiterId)

  const ZERO_TIME := 0

  function Stored(entries: map<Provider, Entry>, p: Provider, o: Outcome): map<Provider, Entry> {
    match o
    case Listed(models, at) => entries[p := Entry(models, at, "", at)]
    case Failed(message, at) =>
      if p in entries && |entries[p].models| > 0 then entries[p := entries[p].(lastErr := message, attemptedAt := at)]
      else entries[p := Entry([], ZERO_TIME, message, at)]
  }

  predicate Running(c: Catalog, r: nat) {
    r < |c.refreshes| && c.refreshes[r].done.None?
  }

  function Next(c: Catalog, e: Event): Catalog {
    match e
    case Join(w, p) =>
      if w in c.waiters then c
      else if p in c.inflight then c.(waiters := c.waiters[w := Waiting(c.inflight[p])])
      else c.(inflight := c.inflight[p := |c.refreshes|], refreshes := c.refreshes + [Refresh(p, None)],
              waiters := c.waiters[w := Waiting(|c.refreshes|)])
    case Complete(r, o) =>
      if !Running(c, r) then c
      else
        var p := c.refreshes[r].provider;
        c.(entries := Stored(c.entries, p, o), inflight := c.inflight - {p},
           refreshes := c.refreshes[r := Refresh(p, Some(o))], log := c.log + [Finished(p, r, o)])
    case Wake(w) =>
      if w in c.waiters && c.waiters[w].Waiting? && c.waiters[w].refresh < |c.refreshes|
         && c.refreshes[c.waiters[w].refresh].done.Some?
      then c.(waiters := c.waiters[w := Woken(c.refreshes[c.waiters[w].refresh].provider)])
      else c
    case Cancel(w) => c.(waiters := c.waiters - {w})
  }

  const EMPTY := Catalog(map[], map[], [], map[], [])

  // ----- what callers see -----

  datatype Snapshot = Snapshot(models: seq<Model>, retrievedAt: Time, stale: bool, lastError: string)

  datatype CatalogError = NoState | RefreshError(message: string)

  function SnapshotOf(e: Entry): Snapshot {
    Snapshot(e.models, e.retrievedAt, e.lastErr != "", e.lastErr)
  }

  function ResultOf(entries: map<Provider, Entry>, p: Provider): Result<Snapshot, CatalogError> {
    if p !in entries then Err(NoState)
    else if entries[p].lastErr == "" || |entries[p].models| > 0 then Ok(SnapshotOf(entries[p]))
    else Err(RefreshError(entries[p].lastErr))
  }

  // ----- the history a reader would expect to see -----

  /** The models of p's latest successful refresh; none without one. */
  function LatestGood(log: seq<Finished>, p: Provider): Option<Outcome> {
    if log == [] then None
    else
      var last := log[|log| - 1];
      if last.provider == p && last.outcome.Listed? then Some(last.outcome) else LatestGood(log[..|log| - 1], p)
  }

  function Latest(log: seq<Finished>, p: Provider): Option<Outcome> {
    if log == [] then None
    else if log[|log| - 1].provider == p then Some(log[|log| - 1].outcome)
    else Latest(log[..|log| - 1], p)
  }

  function GoodModels(log: seq<Finished>, p: Provider): seq<Model> {
    match LatestGood(log, p)
    case None => []
    case Some(o) => if o.Listed? then o.models else []
  }

  function GoodTime(log: seq<Finished>, p: Provider): Time {
    match LatestGood(log, p) case None => ZERO_TIME case Some(o) => o.at
  }

  function ErrorOf(o: Outcome): string {
    if o.Failed? then o.message else ""
  }

  /** The entry says what the history says. */
  ghost predicate TellsHistory(c: Catalog, p: Provider) {
    match Latest(c.log, p)
    case None => p !in c.entries && LatestGood(c.log, p).None?
    case Some(o) =>
      && p in c.entries
      && c.entries[p].models == GoodModels(c.log, p)
      && c.entries[p].lastErr == ErrorOf(o)
      && c.entries[p].attemptedAt == o.at
      && (c.entries[p].models != [] ==> c.entries[p].retrievedAt == GoodTime(c.log, p))
  }

  // ----- the invariant -----

  ghost predicate OneRunningPerProvider(c: Catalog) {
    && (forall p :: p in c.inflight ==> Running(c, c.inflight[p]) && c.refreshes[c.inflight[p]].provider == p)
    && (forall r: nat :: Running(c, r) ==>
          c.refreshes[r].provider in c.inflight && c.inflight[c.refreshes[r].provider] == r)
  }

  ghost predicate DoneIsStored(c: Catalog) {
    && (forall r :: 0 <= r < |c.refreshes| && c.refreshes[r].done.Some? ==> c.refreshes[r].provider in c.entries)
    && (forall w :: w in c.waiters ==>
          match c.waiters[w]
          case Waiting(r) => r < |c.refreshes|
          case Woken(p) => p in c.entries)
  }

  ghost predicate LogFollowsStarts(c: Catalog) {
    && (forall i :: 0 <= i < |c.log| ==> c.log[i].refresh < |c.refreshes| && c.refreshes[c.log[i].refresh].done.Some?)
    && (forall i, r: nat :: 0 <= i < |c.log| && Running(c, r) && c.refreshes[r].provider == c.log[i].provider ==>
          c.log[i].refresh < r)
    && (forall i, j :: 0 <= i < j < |c.log| && c.log[i].provider == c.log[j].provider ==>
          c.log[i].refresh < c.log[j].refresh)
  }

  ghost predicate Valid(c: Catalog) {
    OneRunningPerProvider(c) && DoneIsStored(c) && LogFollowsStarts(c) && forall p :: TellsHistory(c, p)
  }

  lemma CompleteTells(c: Catalog, r: nat, o: Outcome, p: Provider)
    requires TellsHistory(c, p) && Running(c, r)
    ensures TellsHistory(Next(c, Complete(r, o)), p)
  {}

  lemma TellsKept(c: Catalog, e: Event, p: Provider)
    requires TellsHistory(c, p)
    ensures TellsHistory(Next(c, e), p)
  {
    if e.Complete? && Running(c, e.refresh) {
      CompleteTells(c, e.refresh, e.outcome, p);
    } else {
      assert Next(c, e).entries == c.entries && Next(c, e).log == c.log;
    }
  }

  lemma RunningKept(c: Catalog, e: Event)
    requires OneRunningPerProvider(c)
    ensures OneRunningPerProvider(Next(c, e))
  {
    var n := Next(c, e);
    forall r: nat | Running(n, r)
      ensures n.refreshes[r].provider in n.inflight && n.inflight[n.refreshes[r].provider] == r
    {
      if r < |c.refreshes| { assert Running(c, r); }
    }
  }

  lemma StoredKept(c: Catalog, e: Event)
    requires OneRunningPerProvider(c) && DoneIsStored(c)
    ensures DoneIsStored(Next(c, e))
  {}

  lemma LogKept(c: Catalog, e: Event)
    requires OneRunningPerProvider(c) && LogFollowsStarts(c)
    ensures LogFollowsStarts(Next(c, e))
  {
    var n := Next(c, e);
    assert forall r: nat :: Running(n, r) && r < |c.refreshes| ==> Running(c, r);
  }

  lemma NextKeeps(c: Catalog, e: Event)
    requires Valid(c)
    ensures Valid(Next(c, e))
  {
    RunningKept(c, e);
    StoredKept(c, e);
    LogKept(c, e);
    forall p ensures TellsHistory(Next(c, e), p) { TellsKept(c, e, p); }
  }

  // ----- whole runs -----

  function After(events: seq<Event>, n: nat): Catalog
    requires n <= |events|
  {
    if n == 0 then EMPTY else Next(After(events, n - 1), events[n - 1])
  }

  lemma {:induction false} RunValid(events: seq<Event>, n: nat)
    requires n <= |events|
    ensures Valid(After(events, n))
  {
    if n > 0 {
      RunValid(events, n - 1);
      NextKeeps(After(events, n - 1), events[n - 1]);
    }
  }

  /** However many callers refresh and give up, at most one ListModels call of a
      provider runs at a time. */
  lemma OneCallPerProvider(events: seq<Event>, q: nat, r: nat)
    requires Running(After(events, |events|), q) && Running(After(events, |events|), r)
    requires var c := After(events, |events|);
             c.refreshes[q].provider == c.refreshes[r].provider
    ensures q == r
  {
    RunValid(events, |events|);
  }

  /** A waiter whose refresh completed always finds its provider's entry. */
  lemma WokenWaiterFindsEntry(events: seq<Event>, w: WaiterId)
    requires var c := After(events, |events|); w in c.waiters && c.waiters[w].Woken?
    ensures var c := After(events, |events|); ResultOf(c.entries, c.waiters[w].provider) != Err(NoState)
  {
    RunValid(events, |events|);
  }

  /** The refresh a caller joined releases it: it wakes exactly when that refresh
      is done, and what it then finds is that outcome. */
  lemma CompletionWakes(c: Catalog, w: WaiterId, o: Outcome)
    requires w in c.waiters && c.waiters[w].Waiting? && Running(c, c.waiters[w].refresh)
    ensures var r := c.waiters[w].refresh;
      var p, n := c.refreshes[r].provider, Next(c, Complete(r, o));
      && Next(c, Wake(w)) == c
      && p !in n.inflight && Next(n, Wake(w)).waiters == n.waiters[w := Woken(p)]
      && Latest(n.log, p) == Some(o) && p in n.entries
  {}

  /** What a caller reads: the models of the latest successful refresh, and the
      error of the latest refresh of all. */
  lemma ResultTellsHistory(events: seq<Event>, p: Provider)
    ensures var c := After(events, |events|);
      match Latest(c.log, p)
      case None => ResultOf(c.entries, p) == Err(NoState)
      case Some(o) =>
        match ResultOf(c.entries, p)
        case Ok(s) => s.models == GoodModels(c.log, p) && s.lastError == ErrorOf(o)
        case Err(e) => o.Failed? && e == RefreshError(o.message) && GoodModels(c.log, p) == []
  {
    RunValid(events, |events|);
    assert TellsHistory(After(events, |events|), p);
  }

  /** A snapshot is marked stale exactly when the latest refresh failed with a
      message: a failure whose text is empty reads like a success. */
  lemma StaleIffFailedWithMessage(events: seq<Event>, p: Provider)
    requires ResultOf(After(events, |events|).entries, p).Ok?
    ensures var c := After(events, |events|);
      && Latest(c.log, p).Some?
      && (ResultOf(c.entries, p).value.stale <==>
            Latest(c.log, p).value.Failed? && Latest(c.log, p).value.message != "")
  {
    RunValid(events, |events|);
    assert TellsHistory(After(events, |events|), p);
  }

  /** Such a failure, which the provider interface does not rule out: the first
      refresh fails with an empty text, and a reader is told of a fresh catalog
      without models. */
  lemma EmptyMessageReadsFresh(p: Provider, at: Time)
    ensures var c := After([Join(0, p), Complete(0, Failed("", at))], 2);
      Latest(c.log, p) == Some(Failed("", at)) && ResultOf(c.entries, p) == Ok(Snapshot([], ZERO_TIME, false, ""))
  {
    var events := [Join(0, p), Complete(0, Failed("", at))];
    assert After(events, 1) == Next(EMPTY, Join(0, p));
    assert Running(After(events, 1), 0);
    assert After(events, 2).log == [Finished(p, 0, Failed("", at))];
  }

  /** Of one provider, refreshes commit in the order they started, so an older
      refresh never overwrites a newer one. */
  lemma CommitsFollowStarts(events: seq<Event>, i: nat, j: nat)
    requires var c := After(events, |events|); i < j < |c.log| && c.log[i].provider == c.log[j].provider
    ensures After(events, |events|).log[i].refresh < After(events, |events|).log[j].refresh
  {
    RunValid(events, |events|);
  }

  // ----- the service -----

  class Service {
    const ttl: Time
    var entries: map<Provider, Entry>
    var inflight: map<Provider, nat>
    var refreshes: seq<Refresh>
    var waiters: map<WaiterId, Waiter>
    ghost var log: seq<Finished>

    constructor (ttl: Time)
      ensures State() == EMPTY && this.ttl == ttl
    {
      this.ttl := ttl;
      entries, inflight, refreshes, waiters, log := map[], map[], [], map[], [];
    }

    ghost function State(): Catalog
      reads this
    {
      Catalog(entries, inflight, refreshes, waiters, log)
    }

    /** None means the caller must refresh; a hit is what the entry says, and
        only an attempt inside the window can hit. */
    method Cached(p: Provider, refresh: bool, now: Time) returns (r: Option<Result<Snapshot, CatalogError>>)
      ensures r.Some? <==> !refresh && p in entries && now - entries[p].attemptedAt < ttl
      ensures r.Some? ==> r.value == ResultOf(entries, p)
    {
      if refresh || p !in entries || now - entries[p].attemptedAt >= ttl {
        return None;
      }
      var entry := entries[p];
      if entry.lastErr == "" {
        return Some(Ok(SnapshotOf(entry)));
      }
      if |entry.models| > 0 {
        return Some(Ok(SnapshotOf(entry)));
      }
      r := Some(Err(RefreshError(entry.lastErr)));
    }

    /** The caller joins the running refresh of its provider or starts one. */
    method JoinRefresh(w: WaiterId, p: Provider) returns (started: bool)
      requires w !in waiters
      modifies this`inflight, this`refreshes, this`waiters
      ensures State() == Next(old(State()), Join(w, p)) && started == (p !in old(inflight))
      ensures p in inflight && waiters == old(waiters)[w := Waiting(inflight[p])]
      ensures !started ==> inflight == old(inflight) && refreshes == old(refreshes)
      ensures started ==>
                inflight == old(inflight)[p := |old(refreshes)|] && refreshes == old(refreshes) + [Refresh(p, None)]
    {
      started := p !in inflight;
      if started {
        inflight, refreshes := inflight[p := |refreshes|], refreshes + [Refresh(p, None)];
      }
      waiters := waiters[w := Waiting(inflight[p])];
    }

    method StoreRefresh(p: Provider, o: Outcome)
      modifies this`entries
      ensures entries == Stored(old(entries), p, o)
      ensures p in entries && entries == old(entries)[p := entries[p]] && entries[p].attemptedAt == o.at
      ensures o.Listed? ==>
                entries[p].models == o.models && entries[p].retrievedAt == o.at && entries[p].lastErr == ""
      ensures o.Failed? && p in old(entries) && old(entries)[p].models != [] ==>
                && entries[p].models == old(entries)[p].models && entries[p].retrievedAt == old(entries)[p].retrievedAt
                && entries[p].lastErr == o.message
      ensures o.Failed? && (p !in old(entries) || old(entries)[p].models == []) ==>
                entries[p].models == [] && entries[p].retrievedAt == ZERO_TIME && entries[p].lastErr == o.message
    {
      if o.Listed? {
        entries := entries[p := Entry(o.models, o.at, "", o.at)];
        return;
      }
      if p in entries && |entries[p].models| > 0 {
        entries := entries[p := entries[p].(lastErr := o.message)];
        entries := entries[p := entries[p].(attemptedAt := o.at)];
        return;
      }
      entries := entries[p := Entry([], ZERO_TIME, o.message, o.at)];
    }

    /** Store the outcome, then clear the marker and publish. */
    method FinishRefresh(r: nat, o: Outcome)
      requires Running(State(), r)
      modifies this`entries, this`inflight, this`refreshes, this`log
      ensures State() == Next(old(State()), Complete(r, o))
      ensures refreshes == old(refreshes)[r := Refresh(old(refreshes)[r].provider, Some(o))]
      ensures inflight == old(inflight) - {old(refreshes)[r].provider}
      ensures log == old(log) + [Finished(old(refreshes)[r].provider, r, o)]
    {
      var p := refreshes[r].provider;
      StoreRefresh(p, o);
      inflight := inflight - {p};
      refreshes := refreshes[r := Refresh(p, Some(o))];
      log := log + [Finished(p, r, o)];
    }
  }
}
