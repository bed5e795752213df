/** The ref-counted lock of each digest and the one-shot writes that hold it
    (internal/media/media.go). Every event is one critical section, so leases
    interleave freely between looking a lock up, acquiring it, unlocking it and
    giving the count back. */
module DigestLocks {
  import opened Wrappers
  import MediaMachine

  type Digest = MediaMachine.Digest
  type LeaseId = nat
  type LockId = nat
  type WriteId = nat

  /** Waiting: counted, not yet through the mutex. Unlocked: the mutex is given
      back, the count is not. */
  datatype Stage = Waiting | Holding | Unlocked | Released

  datatype Lease = Lease(digest: Digest, lock: LockId, stage: Stage)

  datatype Mutex = Mutex(count: int, owner: Option<LeaseId>)

  datatype Status = Prepared | Finalizing | Finalized

  datatype Write = Write(lease: LeaseId, status: Status)

  /** `mutexes` holds every lock ever allocated; `locks` is the store's map. */
  datatype Table = Table(locks: map<Digest, LockId>, mutexes: map<LockId, Mutex>,
                         leases: map<LeaseId, Lease>, writes: map<WriteId, Write>)

  datatype Event =
    | Lookup(id: LeaseId, digest: Digest, spare: LockId)
    | Acquire(id: LeaseId)
    | Prepare(id: LeaseId, write: WriteId)
    | Begin(write: WriteId)
    | Finish(write: WriteId)
    | Unlock(id: LeaseId)
    | Unregister(id: LeaseId)

  predicate Bound(t: Table, id: LeaseId) {
    exists w | w in t.writes :: t.writes[w].lease == id
  }

  /** A lease is given back by its operation; that of a write, by its finish. */
  predicate MayRelease(t: Table, id: LeaseId) {
    forall w | w in t.writes :: t.writes[w].lease == id ==> t.writes[w].status == Finalized
  }

  predicate Applies(t: Table, e: Event) {
    match e
    case Lookup(id, d, spare) => id !in t.leases && (d in t.locks || spare !in t.mutexes)
    case Acquire(id) => id in t.leases && t.leases[id].stage == Waiting
                        && t.leases[id].lock in t.mutexes && t.mutexes[t.leases[id].lock].owner.None?
    case Prepare(id, w) => id in t.leases && t.leases[id].stage == Holding && w !in t.writes && !Bound(t, id)
    case Begin(w) => w in t.writes && t.writes[w].status == Prepared
    case Finish(w) => w in t.writes && t.writes[w].status == Finalizing
    case Unlock(id) => id in t.leases && t.leases[id].stage == Holding && MayRelease(t, id)
                       && t.leases[id].lock in t.mutexes
    case Unregister(id) => id in t.leases && t.leases[id].stage == Unlocked && t.leases[id].lock in t.mutexes
  }

  function WithStage(t: Table, id: LeaseId, stage: Stage): Table
    requires id in t.leases
  {
    t.(leases := t.leases[id := t.leases[id].(stage := stage)])
  }

  function WithStatus(t: Table, w: WriteId, status: Status): Table
    requires w in t.writes
  {
    t.(writes := t.writes[w := t.writes[w].(status := status)])
  }

  function Next(t: Table, e: Event): Table {
    if !Applies(t, e) then t
    else
      match e
      case Lookup(id, d, spare) =>
        var l := if d in t.locks then t.locks[d] else spare;
        var count := if l in t.mutexes then t.mutexes[l].count else 0;
        var owner := if l in t.mutexes then t.mutexes[l].owner else None;
        t.(locks := t.locks[d := l], mutexes := t.mutexes[l := Mutex(count + 1, owner)],
           leases := t.leases[id := Lease(d, l, Waiting)])
      case Acquire(id) =>
        var l := t.leases[id].lock;
        WithStage(t, id, Holding).(mutexes := t.mutexes[l := t.mutexes[l].(owner := Some(id))])
      case Prepare(id, w) => t.(writes := t.writes[w := Write(id, Prepared)])
      case Begin(w) => WithStatus(t, w, Finalizing)
      case Finish(w) => WithStatus(t, w, Finalized)
      case Unlock(id) =>
        var l := t.leases[id].lock;
        WithStage(t, id, Unlocked).(mutexes := t.mutexes[l := t.mutexes[l].(owner := None)])
      case Unregister(id) =>
        var l := t.leases[id].lock;
        var count := t.mutexes[l].count - 1;
        WithStage(t, id, Released).(mutexes := t.mutexes[l := t.mutexes[l].(count := count)],
          locks := if count == 0 then t.locks - {t.leases[id].digest} else t.locks)
  }

  const EMPTY := Table(map[], map[], map[], map[])

  // ----- what every critical section keeps -----

  predicate Active(t: Table, id: LeaseId) {
    id in t.leases && t.leases[id].stage != Released
  }

  /** The leases counted on one lock. */
  function Registered(t: Table, l: LockId): set<LeaseId> {
    set id | id in t.leases && t.leases[id].stage != Released && t.leases[id].lock == l
  }

  ghost predicate LeasesPointAtTheirEntry(t: Table) {
    && (forall id :: Active(t, id) ==>
          t.leases[id].digest in t.locks && t.locks[t.leases[id].digest] == t.leases[id].lock)
    && (forall id :: id in t.leases ==> t.leases[id].lock in t.mutexes)
  }

  ghost predicate CountsAreExact(t: Table) {
    forall d :: d in t.locks ==>
      t.locks[d] in t.mutexes && t.mutexes[t.locks[d]].count == |Registered(t, t.locks[d])| > 0
  }

  ghost predicate OneLockPerDigest(t: Table) {
    forall d, e :: d in t.locks && e in t.locks && t.locks[d] == t.locks[e] ==> d == e
  }

  ghost predicate OwnersHold(t: Table) {
    && (forall id :: id in t.leases && t.leases[id].stage == Holding ==>
          t.leases[id].lock in t.mutexes && t.mutexes[t.leases[id].lock].owner == Some(id))
    && (forall l :: l in t.mutexes && t.mutexes[l].owner.Some? ==>
          var id := t.mutexes[l].owner.value;
          id in t.leases && t.leases[id].lock == l && t.leases[id].stage == Holding)
  }

  ghost predicate OpenWritesHold(t: Table) {
    && (forall w :: w in t.writes ==> t.writes[w].lease in t.leases)
    && (forall w :: w in t.writes && t.writes[w].status != Finalized ==> t.leases[t.writes[w].lease].stage == Holding)
    && (forall v, w :: v in t.writes && w in t.writes && t.writes[v].lease == t.writes[w].lease ==> v == w)
  }

  ghost predicate Valid(t: Table) {
    LeasesPointAtTheirEntry(t) && CountsAreExact(t) && OneLockPerDigest(t) && OwnersHold(t) && OpenWritesHold(t)
  }

  /** An event leaves the leases counted on the locks of other digests alone. */
  lemma SameRegistered(t: Table, e: Event, d: Digest)
    requires LeasesPointAtTheirEntry(t) && CountsAreExact(t) && OneLockPerDigest(t) && d in t.locks
    requires e.Lookup? || e.Unregister? ==> Applies(t, e) && d != DigestOf(t, e)
    ensures |Registered(Next(t, e), t.locks[d])| == |Registered(t, t.locks[d])|
  {
    if e.Unregister? { assert Active(t, e.id); }
    assert Registered(Next(t, e), t.locks[d]) == Registered(t, t.locks[d]);
  }

  function DigestOf(t: Table, e: Event): Digest
    requires (e.Lookup? || e.Unregister?) && Applies(t, e)
  {
    if e.Lookup? then e.digest else t.leases[e.id].digest
  }

  lemma OneMore(t: Table, n: Table, id: LeaseId, lease: Lease)
    requires id !in t.leases && lease.stage == Waiting && n.leases == t.leases[id := lease]
    ensures |Registered(n, lease.lock)| == |Registered(t, lease.lock)| + 1
  {
    assert Registered(n, lease.lock) == Registered(t, lease.lock) + {id};
  }

  lemma LookupRegisters(t: Table, e: Event)
    requires LeasesPointAtTheirEntry(t) && CountsAreExact(t) && e.Lookup? && Applies(t, e)
    ensures var n := Next(t, e); var l := n.locks[e.digest];
      l in n.mutexes && n.mutexes[l].count == |Registered(n, l)| > 0
  {
    var n := Next(t, e);
    OneMore(t, n, e.id, n.leases[e.id]);
    if e.digest !in t.locks {
      assert Registered(t, e.spare) == {};
    }
  }

  lemma LookupCounts(t: Table, e: Event)
    requires Valid(t) && e.Lookup? && Applies(t, e)
    ensures CountsAreExact(Next(t, e))
  {
    LookupRegisters(t, e);
    forall d | d in t.locks && d != e.digest
      ensures |Registered(Next(t, e), t.locks[d])| == |Registered(t, t.locks[d])|
    {
      SameRegistered(t, e, d);
    }
  }

  lemma UnregisterDeregisters(t: Table, e: Event)
    requires Valid(t) && e.Unregister? && Applies(t, e)
    ensures var n := Next(t, e); var l := t.leases[e.id].lock;
      l in n.mutexes && n.mutexes[l].count == |Registered(n, l)| && t.leases[e.id].digest in t.locks
      && t.locks[t.leases[e.id].digest] == l
  {
    var l := t.leases[e.id].lock;
    assert Active(t, e.id);
    assert Registered(Next(t, e), l) == Registered(t, l) - {e.id};
  }

  lemma UnregisterCounts(t: Table, e: Event)
    requires Valid(t) && e.Unregister? && Applies(t, e)
    ensures CountsAreExact(Next(t, e))
  {
    UnregisterDeregisters(t, e);
    forall d | d in t.locks && d != t.leases[e.id].digest
      ensures |Registered(Next(t, e), t.locks[d])| == |Registered(t, t.locks[d])|
    {
      SameRegistered(t, e, d);
    }
  }

  /** Somebody else registered on the same lock keeps its count positive. */
  lemma LastOneOut(t: Table, id: LeaseId, other: LeaseId)
    requires Valid(t) && Active(t, id) && Active(t, other) && id != other
             && t.leases[id].digest == t.leases[other].digest
    ensures t.leases[id].lock in t.mutexes && t.mutexes[t.leases[id].lock].count > 1
  {
    var r := Registered(t, t.leases[id].lock);
    assert {id, other} <= r;
    assert |r - {id, other}| == |r| - 2;
  }

  lemma UnregisterKeepsEntries(t: Table, e: Event)
    requires Valid(t) && e.Unregister? && Applies(t, e)
    ensures LeasesPointAtTheirEntry(Next(t, e))
  {
    var n := Next(t, e);
    forall id | Active(n, id)
      ensures n.leases[id].digest in n.locks && n.locks[n.leases[id].digest] == n.leases[id].lock
    {
      assert Active(t, id);
      if n.leases[id].digest == t.leases[e.id].digest {
        LastOneOut(t, e.id, id);
      }
    }
  }

  lemma StageCounts(t: Table, e: Event)
    requires Valid(t) && !e.Lookup? && !e.Unregister?
    ensures CountsAreExact(Next(t, e))
  {
    forall d | d in t.locks
      ensures |Registered(Next(t, e), t.locks[d])| == |Registered(t, t.locks[d])|
    {
      SameRegistered(t, e, d);
    }
  }

  lemma MutexKeepsOwners(t: Table, e: Event)
    requires Valid(t) && (e.Acquire? || e.Unlock?)
    ensures OwnersHold(Next(t, e))
  {}

  lemma MapKeepsOwners(t: Table, e: Event)
    requires Valid(t) && (e.Lookup? || e.Unregister?)
    ensures OwnersHold(Next(t, e))
  {}

  lemma OwnersKept(t: Table, e: Event)
    requires Valid(t)
    ensures OwnersHold(Next(t, e))
  {
    if e.Acquire? || e.Unlock? {
      MutexKeepsOwners(t, e);
    } else if e.Lookup? || e.Unregister? {
      MapKeepsOwners(t, e);
    }
  }

  lemma UnlockKeepsWrites(t: Table, id: LeaseId)
    requires Valid(t)
    ensures OpenWritesHold(Next(t, Unlock(id)))
  {}

  lemma PrepareKeepsWrites(t: Table, id: LeaseId, w: WriteId)
    requires Valid(t)
    ensures OpenWritesHold(Next(t, Prepare(id, w)))
  {}

  lemma StatusKeepsWrites(t: Table, e: Event)
    requires Valid(t) && (e.Begin? || e.Finish?)
    ensures OpenWritesHold(Next(t, e))
  {}

  lemma LeaseKeepsWrites(t: Table, e: Event)
    requires Valid(t) && (e.Lookup? || e.Acquire? || e.Unregister?)
    ensures OpenWritesHold(Next(t, e))
  {}

  lemma WritesKept(t: Table, e: Event)
    requires Valid(t)
    ensures OpenWritesHold(Next(t, e))
  {
    match e {
      case Unlock(id) => UnlockKeepsWrites(t, id);
      case Prepare(id, w) => PrepareKeepsWrites(t, id, w);
      case Begin(_) => StatusKeepsWrites(t, e);
      case Finish(_) => StatusKeepsWrites(t, e);
      case _ => LeaseKeepsWrites(t, e);
    }
  }

  lemma LookupKeepsEntries(t: Table, e: Event)
    requires Valid(t) && e.Lookup?
    ensures OneLockPerDigest(Next(t, e)) && LeasesPointAtTheirEntry(Next(t, e))
  {}

  lemma StageKeepsEntries(t: Table, e: Event)
    requires Valid(t) && !e.Lookup? && !e.Unregister?
    ensures OneLockPerDigest(Next(t, e)) && LeasesPointAtTheirEntry(Next(t, e))
  {}

  lemma EntriesKept(t: Table, e: Event)
    requires Valid(t)
    ensures OneLockPerDigest(Next(t, e)) && (!e.Unregister? ==> LeasesPointAtTheirEntry(Next(t, e)))
  {
    if e.Lookup? {
      LookupKeepsEntries(t, e);
    } else if !e.Unregister? {
      StageKeepsEntries(t, e);
    }
  }

  lemma CountsKept(t: Table, e: Event)
    requires Valid(t)
    ensures CountsAreExact(Next(t, e)) && (e.Unregister? ==> LeasesPointAtTheirEntry(Next(t, e)))
  {
    if !Applies(t, e) {
      assert Next(t, e) == t;
    } else if e.Lookup? {
      LookupCounts(t, e);
    } else if e.Unregister? {
      UnregisterCounts(t, e);
      UnregisterKeepsEntries(t, e);
    } else {
      StageCounts(t, e);
    }
  }

  lemma NextKeeps(t: Table, e: Event) returns (n: Table)
    requires Valid(t)
    ensures n == Next(t, e) && Valid(n)
  {
    OwnersKept(t, e);
    WritesKept(t, e);
    EntriesKept(t, e);
    CountsKept(t, e);
    n := Next(t, e);
  }

  // ----- whole runs -----

  function After(events: seq<Event>): Table {
    if events == [] then EMPTY else Next(After(events[..|events| - 1]), events[|events| - 1])
  }

  lemma {:induction false} RunValid(events: seq<Event>)
    ensures Valid(After(events))
  {
    if events != [] {
      RunValid(events[..|events| - 1]);
      var n := NextKeeps(After(events[..|events| - 1]), events[|events| - 1]);
    }
  }

  /** No two leases of one digest are held at once, although entries come and go. */
  lemma MutualExclusion(events: seq<Event>, a: LeaseId, b: LeaseId)
    requires var t := After(events);
      a in t.leases && b in t.leases && t.leases[a].stage == Holding && t.leases[b].stage == Holding
      && t.leases[a].digest == t.leases[b].digest
    ensures a == b
  {
    RunValid(events);
    var t := After(events);
    assert Active(t, a) && Active(t, b);
  }

  /** A waiter is let through exactly when nobody holds its digest, */
  lemma WaiterProceeds(events: seq<Event>, id: LeaseId)
    requires var t := After(events); id in t.leases && t.leases[id].stage == Waiting
    ensures var t := After(events);
      Applies(t, Acquire(id))
      <==> forall a :: a in t.leases && t.leases[a].stage == Holding ==> t.leases[a].digest != t.leases[id].digest
  {
    RunValid(events);
    var t := After(events);
    assert Active(t, id);
    var l := t.leases[id].lock;
    if t.mutexes[l].owner.Some? {
      assert Active(t, t.mutexes[l].owner.value);
    }
    forall a | a in t.leases && t.leases[a].stage == Holding ensures Active(t, a) {}
  }

  /** and whoever holds it can give it back: at once, or after finishing its write. */
  lemma HolderReleases(t: Table, id: LeaseId)
    requires LeasesPointAtTheirEntry(t) && id in t.leases && t.leases[id].stage == Holding
    ensures Applies(t, Unlock(id)) <==>
              forall w :: w in t.writes && t.writes[w].lease == id ==> t.writes[w].status == Finalized
    ensures forall w :: w in t.writes && t.writes[w].lease == id && t.writes[w].status != Finalized ==>
              Applies(t, if t.writes[w].status == Prepared then Begin(w) else Event.Finish(w))
  {}

  /** Giving back takes two critical sections. */
  lemma UnlockThenUnregister(t: Table, id: LeaseId)
    requires Applies(t, Unlock(id))
    ensures var u := Next(t, Unlock(id));
      && Applies(u, Unregister(id)) && u.mutexes[t.leases[id].lock].owner.None?
      && Next(u, Unregister(id)).leases == t.leases[id := t.leases[id].(stage := Released)]
  {}

  function RegisteredOn(t: Table, d: Digest): set<LeaseId> {
    set id | id in t.leases && Active(t, id) && t.leases[id].digest == d
  }

  /** An entry is there exactly while a lease is registered on its digest, and
      its count is the number of those leases. */
  lemma EntryIffRegistered(events: seq<Event>, d: Digest)
    ensures var t := After(events);
      && (d in t.locks <==> exists id :: Active(t, id) && t.leases[id].digest == d)
      && (d in t.locks ==> t.locks[d] in t.mutexes && t.mutexes[t.locks[d]].count == |RegisteredOn(t, d)|)
  {
    RunValid(events);
    var t := After(events);
    if d in t.locks {
      var r := Registered(t, t.locks[d]);
      assert r != {};
      var id :| id in r;
      assert Active(t, id) && t.leases[id].digest == d;
      assert r == RegisteredOn(t, d);
    }
  }

  /** The map is empty at rest. */
  lemma EmptyAtRest(events: seq<Event>)
    requires forall id :: id in After(events).leases ==> After(events).leases[id].stage == Released
    ensures After(events).locks == map[]
  {
    forall d ensures d !in After(events).locks {
      EntryIffRegistered(events, d);
    }
  }

  /** A write that is not finalized holds its digest's lease, so no two such
      writes share a digest. */
  lemma OpenWriteExcludesOthers(events: seq<Event>, v: WriteId, w: WriteId)
    requires var t := After(events);
      v in t.writes && w in t.writes && t.writes[v].status != Finalized && t.writes[w].status != Finalized
    ensures var t := After(events);
      t.writes[v].lease in t.leases && t.writes[w].lease in t.leases
      && t.leases[t.writes[v].lease].stage == Holding
      && (t.leases[t.writes[v].lease].digest == t.leases[t.writes[w].lease].digest ==> v == w)
  {
    RunValid(events);
    var t := After(events);
    if t.leases[t.writes[v].lease].digest == t.leases[t.writes[w].lease].digest {
      MutualExclusion(events, t.writes[v].lease, t.writes[w].lease);
    }
  }

  /** The event at i of a run took effect. */
  predicate Took(events: seq<Event>, i: nat)
    requires i < |events|
  {
    Applies(After(events[..i]), events[i])
  }

  function Age(stage: Stage): nat {
    match stage case Waiting => 0 case Holding => 1 case Unlocked => 2 case Released => 3
  }

  /** What e does has been done already. */
  predicate Spent(t: Table, e: Event) {
    match e
    case Lookup(id, _, _) => id in t.leases
    case Acquire(id) => id in t.leases && Age(t.leases[id].stage) >= 1
    case Unlock(id) => id in t.leases && Age(t.leases[id].stage) >= 2
    case Unregister(id) => id in t.leases && Age(t.leases[id].stage) >= 3
    case Prepare(_, w) => w in t.writes
    case Begin(w) => w in t.writes && t.writes[w].status != Prepared
    case Finish(w) => w in t.writes && t.writes[w].status == Finalized
  }

  lemma SpentStays(t: Table, e: Event, f: Event)
    requires Spent(t, e)
    ensures Spent(Next(t, f), e)
  {}

  lemma {:induction false} SpentForever(events: seq<Event>, e: Event, i: nat, j: nat)
    requires i <= j <= |events| && Spent(After(events[..i]), e)
    ensures Spent(After(events[..j]), e)
    decreases j
  {
    if i < j {
      SpentForever(events, e, i, j - 1);
      assert events[..j][..j - 1] == events[..j - 1];
      SpentStays(After(events[..j - 1]), e, events[j - 1]);
    }
  }

  /** Every event takes effect once only: a write is begun once and finished
      once; a lease is acquired, unlocked and given back once. */
  lemma OneShot(events: seq<Event>, i: nat, j: nat)
    requires i < j < |events| && events[i] == events[j]
    requires Took(events, i)
    ensures !Took(events, j)
  {
    assert events[..i + 1][..i] == events[..i];
    assert Spent(After(events[..i + 1]), events[i]);
    SpentForever(events, events[i], i + 1, j);
  }

  // ----- the critical sections themselves -----

  datatype BeginError = InvalidPreparedWrite | FinalizedPreparedWrite

  class Locks {
    var locks: map<Digest, LockId>
    var mutexes: map<LockId, Mutex>
    var leases: map<LeaseId, Lease>
    var writes: map<WriteId, Write>

    constructor ()
      ensures State() == EMPTY
    {
      locks, mutexes, leases, writes := map[], map[], map[], map[];
    }

    function State(): Table
      reads this
    {
      Table(locks, mutexes, leases, writes)
    }

    /** The first critical section of lockDigest: find or make the lock, count. */
    method Register(id: LeaseId, d: Digest, spare: LockId)
      requires Valid(State()) && id !in leases && spare !in mutexes
      modifies this`locks, this`mutexes, this`leases
      ensures State() == Next(old(State()), Lookup(id, d, spare))
      ensures d in locks && leases == old(leases)[id := Lease(d, locks[d], Waiting)]
      ensures locks == if d in old(locks) then old(locks) else old(locks)[d := spare]
      ensures mutexes[locks[d]].count == 1 + if d in old(locks) then old(mutexes)[old(locks)[d]].count else 0
    {
      var l := spare;
      if d in locks {
        l := locks[d];
      } else {
        locks, mutexes := locks[d := spare], mutexes[spare := Mutex(0, None)];
      }
      mutexes := mutexes[l := mutexes[l].(count := mutexes[l].count + 1)];
      leases := leases[id := Lease(d, l, Waiting)];
    }

    /** The mutex lets one waiter through; a taken mutex leaves it waiting. */
    method TryAcquire(id: LeaseId) returns (ok: bool)
      requires Valid(State()) && id in leases && leases[id].stage == Waiting
      modifies this`mutexes, this`leases
      ensures ok == old(mutexes[leases[id].lock].owner.None?)
      ensures State() == Next(old(State()), Acquire(id))
      ensures leases == if ok then old(leases)[id := old(leases)[id].(stage := Holding)] else old(leases)
    {
      var l := leases[id].lock;
      ok := mutexes[l].owner.None?;
      if ok {
        mutexes := mutexes[l := mutexes[l].(owner := Some(id))];
        leases := leases[id := leases[id].(stage := Holding)];
      }
    }

    /** The last critical section of release. */
    method GiveBack(id: LeaseId)
      requires Valid(State()) && id in leases && leases[id].stage == Unlocked
      modifies this`locks, this`mutexes, this`leases
      ensures State() == Next(old(State()), Unregister(id))
      ensures var l, d := old(leases)[id].lock, old(leases)[id].digest;
              && leases == old(leases)[id := Lease(d, l, Released)]
              && locks == (if old(mutexes)[l].count == 1 then old(locks) - {d} else old(locks))
              && mutexes == old(mutexes)[l := Mutex(old(mutexes)[l].count - 1, old(mutexes)[l].owner)]
    {
      var l, d := leases[id].lock, leases[id].digest;
      mutexes := mutexes[l := mutexes[l].(count := mutexes[l].count - 1)];
      if mutexes[l].count == 0 {
        locks := locks - {d};
      }
      leases := leases[id := leases[id].(stage := Released)];
    }

    /** A second finalization, and a foreign capability, are refused and change
        nothing. */
    method BeginWrite(w: WriteId) returns (r: Result<(), BeginError>)
      modifies this`writes
      ensures r.Ok? <==> w in old(writes) && old(writes)[w].status == Prepared
      ensures r.Ok? ==> writes == old(writes)[w := Write(old(writes)[w].lease, Finalizing)]
      ensures r.Err? ==> writes == old(writes)
      ensures r.Err? ==> r.error == if w in old(writes) then FinalizedPreparedWrite else InvalidPreparedWrite
      ensures State() == Next(old(State()), Begin(w))
    {
      if w !in writes { return Err(InvalidPreparedWrite); }
      if writes[w].status != Prepared { return Err(FinalizedPreparedWrite); }
      writes := writes[w := writes[w].(status := Finalizing)];
      r := Ok(());
    }
  }
}
