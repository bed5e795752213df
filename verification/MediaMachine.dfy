/** The content-addressed store as a machine over its single disk and database
    steps: any number of operations interleave, any step may be the last before
    a crash, a failing commit may still have taken effect, and any removal may
    fail and leave its file (internal/media/media.go). */
module MediaMachine {
  import opened Wrappers

  type Byte = x: int | 0 <= x < 256
  type Bytes = seq<Byte>

  /** The content address; the hash is taken as collision-free. */
  datatype Digest = Sha256(data: Bytes)

  /** blobs/DIGEST, temp/DIGEST.write-N.tmp and temp/DIGEST.cleanup-N.tmp. */
  datatype Path = Blob(digest: Digest) | Temp(digest: Digest, name: nat) | Cleanup(digest: Digest, name: nat) {
    predicate InTemp() { !Blob? }
  }

  /** One row of blob_reference or of audio_blob_reference. */
  datatype RefKey = Asset(id: nat) | Render(id: nat)

  /** The disk and the committed database rows. */
  datatype Store = Store(disk: map<Path, Bytes>, rows: set<Digest>, refs: map<RefKey, Digest>)

  predicate Referenced(refs: map<RefKey, Digest>, d: Digest) {
    exists k | k in refs :: refs[k] == d
  }

  function Removed(s: Store, p: Path): Store {
    s.(disk := s.disk - {p})
  }

  /** An attempted removal; a failing one keeps the file. */
  function Dropped(s: Store, p: Path, kept: bool): Store {
    if kept then s else Removed(s, p)
  }

  function Renamed(s: Store, from: Path, to: Path): Store
    requires from in s.disk
  {
    s.(disk := (s.disk - {from})[to := s.disk[from]])
  }

  /** Where an operation stands; each holds the lease of its digest. `n` names
      its own file under temp. */
  datatype Pc =
    | Creating(d: Digest, n: nat)
    | Written(d: Digest, n: nat)
    | Prepared(d: Digest, n: nat)
    | Began(d: Digest, n: nat, key: RefKey)
    | Recorded(d: Digest, n: nat, key: RefKey, winner: bool)
    | Promoted(d: Digest, n: nat, key: RefKey, published: bool)
    | CommitLost(d: Digest, n: nat, published: bool)
    | Dropping(d: Digest, n: nat)
    | Orphan(d: Digest)
    | Unreferenced(d: Digest)
    | Placeholder(d: Digest, n: nat)
    | Aside(d: Digest, moved: Option<nat>)
    | Deleted(d: Digest, moved: Option<nat>)
    | DeleteLost(d: Digest, moved: Option<nat>)
    | Discarding(d: Digest, n: nat)
    | Restoring(d: Digest, n: nat)

  /** What the outside world decides in one step: whether the attempted call
      reports an error, whether a failing call took effect all the same, whether
      an attempted removal keeps its file, the temp name drawn, the bytes a
      failing write leaves, the row referenced. */
  datatype Choice = Choice(fails: bool, applied: bool, kept: bool, name: nat, bytes: Bytes, key: RefKey)

  function Restore(d: Digest, moved: Option<nat>): Option<Pc> {
    if moved.Some? then Some(Restoring(d, moved.value)) else None
  }

  function Discard(d: Digest, moved: Option<nat>): Option<Pc> {
    if moved.Some? then Some(Discarding(d, moved.value)) else None
  }

  /** The step leaves an empty cleanup artifact behind: the artifact was created,
      closing it or renaming the blob onto it failed, and so did its removal. */
  predicate LeavesPlaceholder(s: Store, pc: Pc, c: Choice) {
    && c.kept && Blob(pc.d) in s.disk && c.fails
    && (pc.Placeholder? || (pc.Unreferenced? && c.applied && Cleanup(pc.d, c.name) !in s.disk))
  }

  /** One step of one operation; None means it is over and its lease released. */
  function Advance(s: Store, pc: Pc, c: Choice): (Store, Option<Pc>) {
    match pc
    case Creating(d, n) =>
      if c.fails then (s.(disk := s.disk[Temp(d, n) := c.bytes]), Some(Dropping(d, n)))
      else (s.(disk := s.disk[Temp(d, n) := d.data]), Some(Written(d, n)))
    case Written(d, n) =>
      if c.fails || Temp(d, n) !in s.disk || s.disk[Temp(d, n)] != d.data then (s, Some(Dropping(d, n)))
      else (s, Some(Prepared(d, n)))
    case Prepared(d, n) =>
      if c.fails then (s, Some(Dropping(d, n))) else (s, Some(Began(d, n, c.key)))
    case Began(d, n, key) =>
      if c.fails || (Blob(d) in s.disk && s.disk[Blob(d)] != d.data) then (s, Some(Dropping(d, n)))
      else (s, Some(Recorded(d, n, key, Blob(d) in s.disk)))
    case Recorded(d, n, key, winner) =>
      if winner then (s, Some(Promoted(d, n, key, false)))
      else if c.fails || Temp(d, n) !in s.disk then (s, Some(Dropping(d, n)))
      else (Renamed(s, Temp(d, n), Blob(d)), Some(Promoted(d, n, key, true)))
    case Promoted(d, n, key, published) =>
      var t := if !c.fails || c.applied then s.(rows := s.rows + {d}, refs := s.refs[key := d]) else s;
      if c.fails then (t, Some(CommitLost(d, n, published)))
      else if published then (t, None)
      else (t, Some(Dropping(d, n)))
    case CommitLost(d, n, published) =>
      if !published then (s, Some(Dropping(d, n)))
      else if c.fails || d in s.rows then (s, None)
      else (Dropped(s, Blob(d), c.kept), None)
    case Dropping(d, n) => (Dropped(s, Temp(d, n), c.kept), None)
    case Orphan(d) =>
      if c.fails || Referenced(s.refs, d) then (s, None) else (s, Some(Unreferenced(d)))
    case Unreferenced(d) =>
      if Blob(d) !in s.disk then (s, if c.fails then None else Some(Aside(d, None)))
      else if Cleanup(d, c.name) in s.disk then (s, if c.fails then None else Some(pc))
      else if c.fails then
        (if LeavesPlaceholder(s, pc, c) then s.(disk := s.disk[Cleanup(d, c.name) := []]) else s, None)
      else (s.(disk := s.disk[Cleanup(d, c.name) := []]), Some(Placeholder(d, c.name)))
    case Placeholder(d, n) =>
      if c.fails || Blob(d) !in s.disk then (Dropped(s, Cleanup(d, n), c.kept), None)
      else (Renamed(s, Blob(d), Cleanup(d, n)), Some(Aside(d, Some(n))))
    case Aside(d, moved) =>
      if c.fails || d !in s.rows then (s, Restore(d, moved)) else (s, Some(Deleted(d, moved)))
    case Deleted(d, moved) =>
      var t := if !c.fails || c.applied then s.(rows := s.rows - {d}) else s;
      (t, if c.fails then Some(DeleteLost(d, moved)) else Discard(d, moved))
    case DeleteLost(d, moved) =>
      if c.fails then (s, None)
      else if d !in s.rows then (s, Discard(d, moved))
      else (s, Restore(d, moved))
    case Discarding(d, n) => (Dropped(s, Cleanup(d, n), c.kept), None)
    case Restoring(d, n) =>
      if c.fails || Cleanup(d, n) !in s.disk then (s, None)
      else (Renamed(s, Cleanup(d, n), Blob(d)), None)
  }

  // ----- recovery, one file at a time -----

  /** The temp directory's entry p: false when a problem is reported. */
  function RecoverTemp(s: Store, p: Path, fails: bool): (Store, bool) {
    if p !in s.disk then (s, true)
    else if p.Blob? || fails then (s, false)
    else if p.Temp? then (Removed(s, p), true)
    else if p.digest !in s.rows || Blob(p.digest) in s.disk then (Removed(s, p), true)
    else (Renamed(s, p, Blob(p.digest)), true)
  }

  function RecoverBlob(s: Store, d: Digest, fails: bool): (Store, bool) {
    if fails then (s, false)
    else if d in s.rows then (s, true)
    else (Removed(s, Blob(d)), true)
  }

  // ----- the machine -----

  /** Up: serving. Down: crashed. After a restart only recovery runs, first
      over the temp directory's listing, then over that of the blobs. */
  datatype Phase = Up | Down | Temps(left: set<Path>, problems: bool) | Blobs(pending: set<Digest>, problems: bool)

  datatype World = World(store: Store, actors: map<nat, Pc>, phase: Phase)

  datatype Event =
    | Prepare(actor: nat, data: Bytes, name: nat)
    | StartCleanup(actor: nat, digest: Digest)
    | Move(actor: nat, choice: Choice)
    | RemoveReference(key: RefKey)
    | Crash
    | Restart
    | RecoverOneTemp(path: Path, fails: bool)
    | ListBlobs
    | RecoverOneBlob(digest: Digest, fails: bool)
    | FinishRecovery

  predicate LeaseFree(w: World, d: Digest) {
    forall a | a in w.actors :: w.actors[a].d != d
  }

  function TempEntries(s: Store): set<Path> {
    set p | p in s.disk && p.InTemp()
  }

  function BlobEntries(s: Store): set<Digest> {
    set p | p in s.disk && p.Blob? :: p.digest
  }

  function WithActor(w: World, a: nat, r: (Store, Option<Pc>)): World {
    w.(store := r.0, actors := if r.1.Some? then w.actors[a := r.1.value] else w.actors - {a})
  }

  function Next(w: World, e: Event): World {
    match e
    case Prepare(a, data, n) =>
      var d := Sha256(data);
      if !w.phase.Up? || a in w.actors || !LeaseFree(w, d) || Temp(d, n) in w.store.disk then w
      else WithActor(w, a, (w.store.(disk := w.store.disk[Temp(d, n) := []]), Some(Creating(d, n))))
    case StartCleanup(a, d) =>
      if !w.phase.Up? || a in w.actors || !LeaseFree(w, d) then w
      else WithActor(w, a, (w.store, Some(Orphan(d))))
    case Move(a, c) =>
      if !w.phase.Up? || a !in w.actors then w else WithActor(w, a, Advance(w.store, w.actors[a], c))
    case RemoveReference(key) =>
      if !w.phase.Up? then w else w.(store := w.store.(refs := w.store.refs - {key}))
    case Crash => World(w.store, map[], Down)
    case Restart =>
      if !w.phase.Down? then w else w.(phase := Temps(TempEntries(w.store), false))
    case RecoverOneTemp(p, fails) =>
      if !w.phase.Temps? || p !in w.phase.left then w
      else
        var (s, ok) := RecoverTemp(w.store, p, fails);
        w.(store := s, phase := Temps(w.phase.left - {p}, w.phase.problems || !ok))
    case ListBlobs =>
      if !w.phase.Temps? || w.phase.left != {} then w
      else w.(phase := Blobs(BlobEntries(w.store), w.phase.problems))
    case RecoverOneBlob(d, fails) =>
      if !w.phase.Blobs? || d !in w.phase.pending then w
      else
        var (s, ok) := RecoverBlob(w.store, d, fails);
        w.(store := s, phase := Blobs(w.phase.pending - {d}, w.phase.problems || !ok))
    case FinishRecovery =>
      if !w.phase.Blobs? || w.phase.pending != {} then w
      else w.(phase := if w.phase.problems then Down else Up)
  }

  const FRESH := World(Store(map[], {}, map[]), map[], Up)
}
