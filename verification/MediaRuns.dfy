/** Whole runs of the media machine: any interleaving, any failing call, any
    crashes, any number of attempts at recovery. */
module MediaRuns {
  import opened Wrappers
  import opened MediaMachine
  import opened MediaSafety

  // ----- what holds in every reachable world -----

  ghost predicate PhaseOk(w: World) {
    match w.phase
    case Up => true
    case Down => w.actors == map[]
    case Temps(left, problems) =>
      w.actors == map[] && (problems || forall p :: p in w.store.disk && p.InTemp() ==> p in left)
    case Blobs(pending, problems) =>
      w.actors == map[] && (problems || (NoArtifacts(w.store)
        && forall d :: Blob(d) in w.store.disk ==> d in pending || d in w.store.rows))
  }

  ghost predicate OneHolderPerDigest(w: World) {
    forall a, b :: a in w.actors && b in w.actors && w.actors[a].d == w.actors[b].d ==> a == b
  }

  ghost predicate Valid(w: World) {
    && OneHolderPerDigest(w)
    && (forall d :: Safe(w.store, d))
    && (forall a :: a in w.actors ==> SafeAt(w.store, w.actors[a]))
    && PhaseOk(w)
  }

  lemma Framed(w: World, n: World, d: Digest)
    requires Valid(w) && OnlyTouches(w.store, n.store, d)
    ensures forall e :: e != d ==> Safe(n.store, e)
    ensures forall a :: a in w.actors && w.actors[a].d != d ==> SafeAt(n.store, w.actors[a])
  {
    forall e | e != d ensures Safe(n.store, e) {
      UntouchedSafe(w.store, n.store, d, e);
    }
    forall a | a in w.actors && w.actors[a].d != d ensures SafeAt(n.store, w.actors[a]) {
      UntouchedSafeAt(w.store, n.store, d, w.actors[a]);
    }
  }

  /** The holder of a digest's lease, old or new, moves. */
  ghost predicate HolderMove(w: World, a: nat, d: Digest, r: (Store, Option<Pc>)) {
    && w.phase.Up? && OnlyTouches(w.store, r.0, d)
    && (forall b :: b in w.actors && w.actors[b].d == d ==> b == a)
    && (a in w.actors ==> w.actors[a].d == d)
    && (r.1.Some? ==> r.1.value.d == d)
  }

  lemma HolderMoves(w: World, a: nat, d: Digest, r: (Store, Option<Pc>))
    requires Valid(w) && HolderMove(w, a, d, r) && KeptSafe(r, d)
    ensures Valid(WithActor(w, a, r))
  {
    Framed(w, WithActor(w, a, r), d);
  }

  predicate Prepares(w: World, a: nat, d: Digest, n: nat) {
    w.phase.Up? && a !in w.actors && LeaseFree(w, d) && Temp(d, n) !in w.store.disk
  }

  function Created(s: Store, d: Digest, n: nat): (Store, Option<Pc>) {
    (s.(disk := s.disk[Temp(d, n) := []]), Some(Creating(d, n)))
  }

  lemma CreatedMove(w: World, a: nat, d: Digest, n: nat)
    requires Prepares(w, a, d, n)
    ensures HolderMove(w, a, d, Created(w.store, d, n))
  {}

  lemma AdvanceMove(w: World, a: nat, c: Choice)
    requires Valid(w) && w.phase.Up? && a in w.actors
    ensures HolderMove(w, a, w.actors[a].d, Advance(w.store, w.actors[a], c))
  {
    AdvanceTouches(w.store, w.actors[a], c);
  }

  lemma PrepareKeeps(w: World, a: nat, data: Bytes, n: nat)
    requires Valid(w)
    ensures Valid(Next(w, Prepare(a, data, n)))
  {
    var d := Sha256(data);
    if Prepares(w, a, d, n) {
      CreatedMove(w, a, d, n);
      assert Safe(w.store, d);
      assert forall m :: Cleanup(d, m) in w.store.disk <==> Cleanup(d, m) in Created(w.store, d, n).0.disk;
      HolderMoves(w, a, d, Created(w.store, d, n));
    }
  }

  lemma MoveKeeps(w: World, a: nat, c: Choice)
    requires Valid(w)
    ensures Valid(Next(w, Move(a, c)))
  {
    if w.phase.Up? && a in w.actors {
      AdvanceMove(w, a, c);
      AdvanceSafe(w.store, w.actors[a], c);
      HolderMoves(w, a, w.actors[a].d, Advance(w.store, w.actors[a], c));
    }
  }

  lemma RemoveReferenceKeeps(w: World, key: RefKey)
    requires Valid(w)
    ensures Valid(Next(w, RemoveReference(key)))
  {
    var s := w.store;
    var t := s.(refs := s.refs - {key});
    assert forall d :: Referenced(t.refs, d) ==> Referenced(s.refs, d);
    forall d ensures Safe(t, d) { assert Safe(s, d); }
    forall a | a in w.actors ensures SafeAt(t, w.actors[a]) { assert SafeAt(s, w.actors[a]); }
  }

  lemma RecoverTempKeeps(s: Store, p: Path, fails: bool)
    requires Safe(s, p.digest)
    ensures OnlyTouches(s, RecoverTemp(s, p, fails).0, p.digest)
    ensures Safe(RecoverTemp(s, p, fails).0, p.digest)
    ensures TrueFiles(s, p.digest) ==> TrueFiles(RecoverTemp(s, p, fails).0, p.digest)
    ensures RecoverTemp(s, p, fails).1 ==> p !in RecoverTemp(s, p, fails).0.disk
    ensures forall q: Path :: q.InTemp() && q in RecoverTemp(s, p, fails).0.disk ==> q in s.disk
  {
    var t := RecoverTemp(s, p, fails).0;
    if p.Temp? { assert forall m :: Cleanup(p.digest, m) in s.disk <==> Cleanup(p.digest, m) in t.disk; }
  }

  lemma RecoverOneTempKeeps(w: World, p: Path, fails: bool)
    requires Valid(w)
    ensures Valid(Next(w, RecoverOneTemp(p, fails)))
  {
    RecoverTempKeeps(w.store, p, fails);
    Framed(w, Next(w, RecoverOneTemp(p, fails)), p.digest);
  }

  lemma RecoverOneBlobKeeps(w: World, d: Digest, fails: bool)
    requires Valid(w)
    ensures Valid(Next(w, RecoverOneBlob(d, fails)))
  {
    assert Safe(w.store, d);
    assert Safe(RecoverBlob(w.store, d, fails).0, d);
    Framed(w, Next(w, RecoverOneBlob(d, fails)), d);
  }

  lemma ListBlobsKeeps(w: World)
    requires Valid(w)
    ensures Valid(Next(w, ListBlobs))
  {
    forall d | Blob(d) in w.store.disk ensures d in BlobEntries(w.store) {
      assert Blob(d).digest == d;
    }
  }

  lemma NextKeeps(w: World, e: Event)
    requires Valid(w)
    ensures Valid(Next(w, e))
  {
    match e
    case Prepare(a, data, n) => PrepareKeeps(w, a, data, n);
    case StartCleanup(a, d) =>
      if w.phase.Up? && a !in w.actors && LeaseFree(w, d) {
        HolderMoves(w, a, d, (w.store, Some(Orphan(d))));
      }
    case Move(a, c) => MoveKeeps(w, a, c);
    case RemoveReference(key) => RemoveReferenceKeeps(w, key);
    case RecoverOneTemp(p, fails) => RecoverOneTempKeeps(w, p, fails);
    case ListBlobs => ListBlobsKeeps(w);
    case RecoverOneBlob(d, fails) => RecoverOneBlobKeeps(w, d, fails);
    case _ =>
  }

  // ----- what holds of a digest without leftovers -----

  /** Every file of the digest is true, as far as its operation is. */
  ghost predicate TrueFor(w: World, d: Digest) {
    && TrueFiles(w.store, d)
    && (forall a :: a in w.actors && w.actors[a].d == d ==> TrueAt(w.store, w.actors[a]))
    && (w.phase.Up? && LeaseFree(w, d) ==> AllArtifactsTrue(w.store, d))
  }

  /** The event leaves a placeholder of d behind. */
  predicate LeavesFor(w: World, e: Event, d: Digest) {
    e.Move? && w.phase.Up? && e.actor in w.actors && w.actors[e.actor].d == d
    && LeavesPlaceholder(w.store, w.actors[e.actor], e.choice)
  }

  lemma HolderMoveTrue(w: World, a: nat, d: Digest, r: (Store, Option<Pc>), e: Digest)
    requires HolderMove(w, a, d, r) && TrueFor(w, e) && (e == d ==> KeptTrue(r, d))
    ensures TrueFor(WithActor(w, a, r), e)
  {
    var n := WithActor(w, a, r);
    assert r.1.Some? ==> a in n.actors && n.actors[a].d == d;
    if e != d {
      UntouchedTrue(w.store, r.0, d, e);
      assert forall b :: b in w.actors && b != a ==> b in n.actors && n.actors[b] == w.actors[b];
      assert LeaseFree(n, e) ==> LeaseFree(w, e);
    }
  }

  lemma CreatedTrue(w: World, a: nat, d: Digest, n: nat, e: Digest)
    requires Prepares(w, a, d, n) && TrueFor(w, e)
    ensures TrueFor(WithActor(w, a, Created(w.store, d, n)), e)
  {
    CreatedMove(w, a, d, n);
    if e == d {
      var t := Created(w.store, d, n).0;
      assert forall m :: Cleanup(d, m) in w.store.disk <==> Cleanup(d, m) in t.disk;
      assert AllArtifactsTrue(t, d) && TrueFiles(t, d);
    }
    HolderMoveTrue(w, a, d, Created(w.store, d, n), e);
  }

  lemma MoveTrue(w: World, a: nat, c: Choice, e: Digest)
    requires Valid(w) && TrueFor(w, e) && !LeavesFor(w, Move(a, c), e)
    ensures TrueFor(Next(w, Move(a, c)), e)
  {
    if w.phase.Up? && a in w.actors {
      AdvanceMove(w, a, c);
      if w.actors[a].d == e { AdvanceTrue(w.store, w.actors[a], c); }
      HolderMoveTrue(w, a, w.actors[a].d, Advance(w.store, w.actors[a], c), e);
    }
  }

  lemma RecoveryTrue(w: World, n: World, d: Digest, e: Digest)
    requires OnlyTouches(w.store, n.store, d) && n.actors == map[] && !n.phase.Up? && TrueFiles(w.store, e)
    requires e == d ==> TrueFiles(n.store, e)
    ensures TrueFor(n, e)
  {
    if e != d { UntouchedTrue(w.store, n.store, d, e); }
  }

  /** Only leaving a placeholder behind can make a file of the digest false. */
  lemma NextTrue(w: World, e: Event, d: Digest) returns (n: World)
    requires Valid(w) && TrueFor(w, d) && !LeavesFor(w, e, d)
    ensures n == Next(w, e) && TrueFor(n, d)
  {
    n := Next(w, e);
    match e
    case Prepare(a, data, n) =>
      if Prepares(w, a, Sha256(data), n) { CreatedTrue(w, a, Sha256(data), n, d); }
    case StartCleanup(a, x) =>
      if w.phase.Up? && a !in w.actors && LeaseFree(w, x) {
        HolderMoveTrue(w, a, x, (w.store, Some(Orphan(x))), d);
      }
    case Move(a, c) => MoveTrue(w, a, c, d);
    case RecoverOneTemp(p, fails) =>
      if w.phase.Temps? && p in w.phase.left {
        RecoverTempKeeps(w.store, p, fails);
        RecoveryTrue(w, Next(w, e), p.digest, d);
      }
    case RecoverOneBlob(x, fails) =>
      if w.phase.Blobs? && x in w.phase.pending { RecoveryTrue(w, Next(w, e), x, d); }
    case FinishRecovery => FinishTrue(w, d);
    case _ =>
  }

  lemma FinishTrue(w: World, d: Digest)
    requires Valid(w) && TrueFor(w, d)
    ensures TrueFor(Next(w, FinishRecovery), d)
  {
    assert NoArtifacts(w.store) ==> forall n :: Cleanup(d, n).InTemp() && Cleanup(d, n) !in w.store.disk;
  }

  // ----- runs -----

  /** The world after the first n events. */
  function Ran(w: World, events: seq<Event>, n: nat): World
    requires n <= |events|
  {
    if n == 0 then w else Next(Ran(w, events, n - 1), events[n - 1])
  }

  function After(events: seq<Event>, n: nat): World
    requires n <= |events|
  {
    Ran(FRESH, events, n)
  }

  /** No event before the n-th left a placeholder of d behind. */
  predicate Clean(w: World, events: seq<Event>, n: nat, d: Digest)
    requires n <= |events|
  {
    n > 0 ==> Clean(w, events, n - 1, d) && !LeavesFor(Ran(w, events, n - 1), events[n - 1], d)
  }

  lemma {:induction false} RanValid(w: World, events: seq<Event>, n: nat)
    requires Valid(w) && n <= |events|
    ensures Valid(Ran(w, events, n))
  {
    if n > 0 {
      RanValid(w, events, n - 1);
      NextKeeps(Ran(w, events, n - 1), events[n - 1]);
    }
  }

  lemma {:induction false} RanTrue(w: World, events: seq<Event>, n: nat, d: Digest)
    requires Valid(w) && TrueFor(w, d) && n <= |events| && Clean(w, events, n, d)
    ensures TrueFor(Ran(w, events, n), d)
  {
    if n > 0 {
      RanTrue(w, events, n - 1, d);
      RanValid(w, events, n - 1);
      var next := NextTrue(Ran(w, events, n - 1), events[n - 1], d);
    }
  }

  lemma RunValid(events: seq<Event>, n: nat)
    requires n <= |events|
    ensures Valid(After(events, n))
  {
    RanValid(FRESH, events, n);
  }

  /** At every instant of every run, mid-operation and mid-recovery included and
      whatever fails, a committed reference has its row and its exact bytes. */
  lemma ReferencedBytesNeverLost(events: seq<Event>, n: nat, key: RefKey)
    requires n <= |events| && key in After(events, n).store.refs
    ensures var s := After(events, n).store; var d := s.refs[key];
      d in s.rows && Blob(d) in s.disk && s.disk[Blob(d)] == d.data
  {
    RunValid(events, n);
    var s := After(events, n).store;
    assert Safe(s, s.refs[key]);
  }

  /** Of a digest no placeholder was left behind for: its file never holds other
      bytes than its name says, and while a row's file is away every cleanup
      artifact, and at least one, holds them. */
  lemma BytesOfARowSurvive(events: seq<Event>, n: nat, d: Digest)
    requires n <= |events| && Clean(FRESH, events, n, d)
    ensures var s := After(events, n).store;
      && (Blob(d) in s.disk ==> s.disk[Blob(d)] == d.data)
      && (d in s.rows && Blob(d) !in s.disk ==> AllArtifactsTrue(s, d) && exists m :: Cleanup(d, m) in s.disk)
  {
    RunValid(events, n);
    RanTrue(FRESH, events, n, d);
    assert Safe(After(events, n).store, d);
  }

  ghost predicate ExactlyTheRows(s: Store) {
    && NoArtifacts(s)
    && forall d :: (Blob(d) in s.disk <==> d in s.rows) && (Blob(d) in s.disk ==> TrueBytes(s, Blob(d)))
  }

  lemma NothingMissing(s: Store, d: Digest)
    requires NoArtifacts(s) && Safe(s, d) && (Blob(d) in s.disk ==> d in s.rows)
    ensures Blob(d) in s.disk <==> d in s.rows
  {
    assert forall m :: Cleanup(d, m).InTemp() && Cleanup(d, m) !in s.disk;
  }

  predicate Recovers(w: World) {
    !w.phase.Up? && Next(w, FinishRecovery).phase.Up?
  }

  /** Whenever recovery reports success, whatever failed before, there is a file
      among the blobs exactly for each committed row and nothing under temp; and
      the bytes are those of its name wherever no placeholder was left behind. */
  lemma RecoveryRestoresFiles(events: seq<Event>, n: nat)
    requires n <= |events| && Recovers(After(events, n))
    ensures var s := After(events, n).store;
      NoArtifacts(s) && forall d :: Blob(d) in s.disk <==> d in s.rows
    ensures forall d :: Clean(FRESH, events, n, d) && d in After(events, n).store.rows ==>
      TrueBytes(After(events, n).store, Blob(d))
  {
    RunValid(events, n);
    var s := After(events, n).store;
    forall d ensures Blob(d) in s.disk <==> d in s.rows { NothingMissing(s, d); }
    forall d | Clean(FRESH, events, n, d) && d in s.rows ensures TrueBytes(s, Blob(d)) {
      RanTrue(FRESH, events, n, d);
    }
  }

  /** So a run that left no placeholder behind recovers exactly its rows. */
  lemma RecoveryRestoresExactly(events: seq<Event>, n: nat)
    requires n <= |events| && Recovers(After(events, n)) && forall d :: Clean(FRESH, events, n, d)
    ensures ExactlyTheRows(After(events, n).store)
  {
    RecoveryRestoresFiles(events, n);
  }
}
