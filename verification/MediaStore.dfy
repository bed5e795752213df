/** The store's operations as the service performs them: files and rows change
    in place, and every outcome the outside world decides is a parameter. */
module MediaStore {
  import opened Wrappers
  import opened MediaMachine
  import opened MediaSafety
  import opened MediaRuns

  type Progress = (Store, Option<Pc>)

  /** What the calls of one operation come back with. */
  datatype Weather = Weather(write: Choice, verify: Choice,
                             begin: Choice, insert: Choice, promote: Choice, commit: Choice, parity: Choice,
                             count: Choice, create: Choice, move: Choice, delete: Choice, restore: Choice, drop: Choice)
  {
    function At(pc: Pc): Choice {
      match pc
      case Creating(_, _) => write
      case Written(_, _) => verify
      case Prepared(_, _) => begin
      case Began(_, _, _) => insert
      case Recorded(_, _, _, _) => promote
      case Promoted(_, _, _, _) => commit
      case Deleted(_, _) => commit
      case CommitLost(_, _, _) => parity
      case DeleteLost(_, _) => parity
      case Orphan(_) => count
      case Unreferenced(_) => create
      case Placeholder(_, _) => move
      case Aside(_, _) => delete
      case Restoring(_, _) => restore
      case Dropping(_, _) => drop
      case Discarding(_, _) => drop
    }
  }

  function Then(r: Progress, w: Weather): Progress {
    if r.1.None? then r else Advance(r.0, r.1.value, w.At(r.1.value))
  }

  /** The machine's run of one operation: none takes more than seven steps. */
  function Complete(s: Store, pc: Pc, w: Weather): Progress {
    FourMore(Then(Then(Then((s, Some(pc)), w), w), w), w)
  }

  function FourMore(r: Progress, w: Weather): Progress {
    Then(Then(Then(Then(r, w), w), w), w)
  }

  /** The machine's run of a prepare: it ends prepared, or dropped. */
  function PrepareRun(s: Store, d: Digest, n: nat, w: Weather): Progress {
    var r := Then(Then(Created(s, d, n), w), w);
    if r.1.Some? && r.1.value.Dropping? then Then(r, w) else r
  }

  ghost predicate AllSafe(s: Store) {
    forall d :: Safe(s, d)
  }

  /** The commit is attempted: its earlier calls succeed, and a blob that is
      already there verifies. */
  predicate ReachesCommit(s: Store, d: Digest, w: Weather) {
    !w.begin.fails && !w.insert.fails && (if Blob(d) in s.disk then s.disk[Blob(d)] == d.data else !w.promote.fails)
  }

  /** The commit took effect, reported or not. */
  predicate Commits(s: Store, d: Digest, w: Weather) {
    ReachesCommit(s, d, w) && (!w.commit.fails || w.commit.applied)
  }

  /** The files a commit leaves: its temp file has become the blob when there was
      none, unless the commit is known to be lost and the blob could be removed;
      otherwise the temp file goes if it can be removed. */
  function FilesAfterCommit(s: Store, d: Digest, n: nat, w: Weather): map<Path, Bytes> {
    if ReachesCommit(s, d, w) && Blob(d) !in s.disk then
      var known := w.commit.fails && !w.commit.applied && !w.parity.fails && d !in s.rows;
      if known && !w.parity.kept then s.disk - {Temp(d, n)} else (s.disk - {Temp(d, n)})[Blob(d) := d.data]
    else if w.drop.kept then s.disk
    else s.disk - {Temp(d, n)}
  }

  /** A cleanup that leaves the row leaves its file away exactly when it moved
      the file aside and could not put it back. */
  predicate Unrestored(s: Store, d: Digest, w: Weather) {
    && !w.count.fails && !Referenced(s.refs, d) && !w.create.fails && !w.move.fails
    && (if w.delete.fails then w.restore.fails else w.commit.fails && (w.parity.fails || w.restore.fails))
  }

  /** A cleanup that finds nothing in its way, up to the removal of the artifact. */
  predicate Removes(s: Store, d: Digest, w: Weather) {
    && !w.count.fails && !Referenced(s.refs, d) && !w.create.fails && !w.delete.fails && !w.commit.fails && d in s.rows
    && (Blob(d) in s.disk ==> !w.move.fails && !w.drop.kept)
  }

  predicate MovesAside(s: Store, d: Digest, w: Weather) {
    Blob(d) in s.disk && !w.count.fails && !Referenced(s.refs, d) && !w.create.fails && !w.move.fails
  }

  /** The placeholder was made, could not be used and could not be removed. */
  predicate LeavesEmpty(s: Store, d: Digest, w: Weather) {
    && Blob(d) in s.disk && !w.count.fails && !Referenced(s.refs, d)
    && (if w.create.fails then w.create.applied && w.create.kept else w.move.fails && w.move.kept)
  }

  /** What becomes of bytes that were moved aside. */
  datatype Fate = StayAside | GoBack | Vanish

  /** They vanish once the row is known to be gone, go back when it is known to
      stay, and stay aside when nothing is known or the call for it fails. */
  function FateOf(d: Digest, rows: set<Digest>, w: Weather): Fate {
    if d in rows && !w.delete.fails && !w.commit.fails then (if w.drop.kept then StayAside else Vanish)
    else if d !in rows || w.delete.fails then (if w.restore.fails then StayAside else GoBack)
    else if w.parity.fails then StayAside
    else if w.commit.applied then (if w.drop.kept then StayAside else Vanish)
    else if w.restore.fails then StayAside
    else GoBack
  }

  function FilesAfterCleanup(s: Store, d: Digest, w: Weather): map<Path, Bytes> {
    var artifact := Cleanup(d, w.create.name);
    if LeavesEmpty(s, d, w) then s.disk[artifact := []]
    else if !MovesAside(s, d, w) then s.disk
    else match FateOf(d, s.rows, w)
      case StayAside => (s.disk - {Blob(d)})[artifact := s.disk[Blob(d)]]
      case GoBack => s.disk
      case Vanish => s.disk - {Blob(d)}
  }

  /** The row's deletion took effect, reported or not. */
  predicate DeletesRow(s: Store, d: Digest, w: Weather) {
    && !w.count.fails && !Referenced(s.refs, d) && !w.create.fails && (Blob(d) in s.disk ==> !w.move.fails)
    && !w.delete.fails && (!w.commit.fails || w.commit.applied)
  }

  class Media {
    var disk: map<Path, Bytes>
    var rows: set<Digest>
    var refs: map<RefKey, Digest>

    constructor ()
      ensures State() == FRESH.store
    {
      disk, rows, refs := map[], {}, map[];
    }

    function State(): Store
      reads this
    {
      Store(disk, rows, refs)
    }

    /** A file that is missing counts as removed. */
    method RemoveFile(p: Path, kept: bool) returns (ok: bool)
      modifies this`disk
      ensures State() == Dropped(old(State()), p, kept)
      ensures ok <==> !kept || p !in old(disk)
    {
      ok := !kept || p !in disk;
      if !kept {
        disk := disk - {p};
      }
    }

    method RenameFile(from: Path, to: Path) returns (ok: bool)
      modifies this`disk
      ensures ok == (from in old(disk))
      ensures State() == if ok then Renamed(old(State()), from, to) else old(State())
    {
      ok := from in disk;
      if ok {
        disk := (disk - {from})[to := disk[from]];
      }
    }

    /** One prepare is one run of the machine; a failing write leaves the bytes
        it got to, if its temp file cannot be removed either. */
    method PrepareWrite(data: Bytes, n: nat, w: Weather) returns (ok: bool)
      requires Temp(Sha256(data), n) !in disk
      modifies this`disk
      ensures (State(), if ok then Some(Prepared(Sha256(data), n)) else None)
              == PrepareRun(old(State()), Sha256(data), n, w)
      ensures ok == (!w.write.fails && !w.verify.fails)
      ensures ok ==> disk == old(disk)[Temp(Sha256(data), n) := data]
      ensures !ok && !w.drop.kept ==> disk == old(disk)
      ensures !ok && w.drop.kept ==>
                disk == old(disk)[Temp(Sha256(data), n) := if w.write.fails then w.write.bytes else data]
    {
      var d, temp := Sha256(data), Temp(Sha256(data), n);
      disk := disk[temp := []];
      disk := disk[temp := if w.write.fails then w.write.bytes else data];
      ok := !w.write.fails && !w.verify.fails && disk[temp] == data;
      if !ok {
        var removed := RemoveFile(temp, w.drop.kept);
      }
    }

    /** One commit is one run of the machine. Success means reference, row and
        bytes are in place; an error does not mean the reference is not. */
    method CommitPrepared(d: Digest, n: nat, w: Weather) returns (ok: bool)
      requires Safe(State(), d) && SafeAt(State(), Prepared(d, n))
      modifies this
      ensures (State(), None) == Complete(old(State()), Prepared(d, n), w)
      ensures ok <==> ReachesCommit(old(State()), d, w) && !w.commit.fails && (Blob(d) in old(disk) ==> !w.drop.kept)
      ensures ok ==> d in rows && TrueBytes(State(), Blob(d))
      ensures refs == if Commits(old(State()), d, w) then old(refs)[w.begin.key := d] else old(refs)
      ensures rows == if Commits(old(State()), d, w) then old(rows) + {d} else old(rows)
      ensures disk == FilesAfterCommit(old(State()), d, n, w)
    {
      var temp, blob, dropped := Temp(d, n), Blob(d), true;
      ok := false;
      if w.begin.fails { dropped := RemoveFile(temp, w.drop.kept); return; }
      var winner := blob in disk;
      if w.insert.fails || (winner && disk[blob] != d.data) { dropped := RemoveFile(temp, w.drop.kept); return; }
      ghost var r := Then(Then((State(), Some(Prepared(d, n))), w), w);
      assert r == (State(), Some(Recorded(d, n, w.begin.key, winner)));
      if !winner {
        var renamed := false;
        if !w.promote.fails { renamed := RenameFile(temp, blob); }
        if !renamed { dropped := RemoveFile(temp, w.drop.kept); return; }
      }
      r := Then(r, w);
      assert r == (State(), Some(Promoted(d, n, w.begin.key, !winner)));
      if !w.commit.fails || w.commit.applied {
        rows, refs := rows + {d}, refs[w.begin.key := d];
      }
      r := Then(r, w);
      assert w.commit.fails ==> r == (State(), Some(CommitLost(d, n, !winner)));
      if w.commit.fails {
        RestoreAfterGenericCommitFailure(d, n, !winner, w);
        return;
      }
      if winner { dropped := RemoveFile(temp, w.drop.kept); }
      ok := dropped;
    }

    /** After a failed commit the file just published goes exactly when the row is
        known not to be there. */
    method RestoreAfterGenericCommitFailure(d: Digest, n: nat, published: bool, w: Weather)
      modifies this`disk
      ensures (State(), None) == Then(Then((old(State()), Some(CommitLost(d, n, published))), w), w)
      ensures disk == if !published then (if w.drop.kept then old(disk) else old(disk) - {Temp(d, n)})
                      else if w.parity.fails || d in rows || w.parity.kept then old(disk)
                      else old(disk) - {Blob(d)}
    {
      if !published {
        var dropped := RemoveFile(Temp(d, n), w.drop.kept);
      } else if !w.parity.fails && d !in rows {
        var dropped := RemoveFile(Blob(d), w.parity.kept);
      }
    }

    method AbandonWrite(d: Digest, n: nat, w: Weather) returns (ok: bool)
      requires w.begin.fails
      modifies this`disk
      ensures (State(), None) == Complete(old(State()), Prepared(d, n), w)
      ensures disk == if w.drop.kept then old(disk) else old(disk) - {Temp(d, n)}
      ensures ok <==> Temp(d, n) !in disk
    {
      ok := RemoveFile(Temp(d, n), w.drop.kept);
    }

    /** One cleanup is one run of the machine. It reports success exactly when no
        call was in its way, and then the row of a digest no reference names and
        its file are gone; when it leaves the row the last clause says exactly
        when the file is not put back. */
    method CleanupOrphan(d: Digest, w: Weather) returns (removed: bool)
      requires Safe(State(), d) && Cleanup(d, w.create.name) !in disk
      modifies this
      ensures (State(), None) == Complete(old(State()), Orphan(d), w)
      ensures refs == old(refs)
      ensures removed <==> Removes(old(State()), d, w)
      ensures removed ==> rows == old(rows) - {d} && disk == old(disk) - {Blob(d)}
      ensures rows == if DeletesRow(old(State()), d, w) then old(rows) - {d} else old(rows)
      ensures disk == FilesAfterCleanup(old(State()), d, w)
      ensures d in rows && Blob(d) in old(disk) ==> (Blob(d) !in disk <==> Unrestored(old(State()), d, w))
    {
      removed := false;
      if w.count.fails || Referenced(refs, d) { return; }
      ghost var start := State();
      var moved, ok := SetAside(d, w);
      OrphanRun(start, State(), d, moved, ok, w);
      if !ok { return; }
      if moved.Some? { AsideAndBack(start, d, w.create.name); }
      removed := DeleteAside(d, moved, w);
    }

    /** The first half: the file, if there is one, becomes a cleanup artifact. */
    method SetAside(d: Digest, w: Weather) returns (moved: Option<nat>, ok: bool)
      requires Cleanup(d, w.create.name) !in disk
      modifies this`disk
      ensures ok <==> !w.create.fails && (Blob(d) in old(disk) ==> !w.move.fails)
      ensures ok ==> moved == if Blob(d) in old(disk) then Some(w.create.name) else None
      ensures (State(), if ok then Some(Aside(d, moved)) else None)
              == if Blob(d) in old(disk) then Then(Then((old(State()), Some(Unreferenced(d))), w), w)
                 else Then((old(State()), Some(Unreferenced(d))), w)
      ensures ok && Blob(d) in old(disk) ==>
                disk == (old(disk) - {Blob(d)})[Cleanup(d, w.create.name) := old(disk)[Blob(d)]]
      ensures ok && Blob(d) !in old(disk) ==> disk == old(disk)
      ensures !ok ==>
                disk == if Blob(d) in old(disk)
                           && (if w.create.fails then w.create.applied && w.create.kept else w.move.kept)
                        then old(disk)[Cleanup(d, w.create.name) := []] else old(disk)
    {
      var n, blob := w.create.name, Blob(d);
      var artifact := Cleanup(d, n);
      var present := blob in disk;
      moved, ok := if present then Some(n) else None, false;
      if w.create.fails {
        if present && w.create.applied {
          disk := disk[artifact := []];
          var dropped := RemoveFile(artifact, w.create.kept);
          assert !w.create.kept ==> disk == old(disk);
        }
        return;
      }
      ok := true;
      if present {
        disk := disk[artifact := []];
        if w.move.fails {
          var dropped := RemoveFile(artifact, w.move.kept);
          return moved, false;
        }
        var renamed := RenameFile(blob, artifact);
      }
    }

    /** The second half of a cleanup: the bytes are aside, the row goes. */
    method DeleteAside(d: Digest, moved: Option<nat>, w: Weather) returns (removed: bool)
      modifies this`disk, this`rows
      ensures (State(), None) == FourMore((old(State()), Some(Aside(d, moved))), w)
      ensures rows == if !w.delete.fails && (!w.commit.fails || w.commit.applied) then old(rows) - {d} else old(rows)
      ensures moved.None? ==> disk == old(disk)
      ensures moved.Some? && Cleanup(d, moved.value) in old(disk) ==>
                match FateOf(d, old(rows), w)
                case StayAside => disk == old(disk)
                case GoBack => State().disk == Renamed(old(State()), Cleanup(d, moved.value), Blob(d)).disk
                case Vanish => disk == old(disk) - {Cleanup(d, moved.value)}
      ensures removed && moved.Some? ==> Cleanup(d, moved.value) !in disk
      ensures removed <==> !w.delete.fails && !w.commit.fails && d in old(rows)
                           && (moved.Some? && w.drop.kept ==> Cleanup(d, moved.value) !in old(disk))
      ensures Blob(d) in disk <==> (Blob(d) in old(disk) || (moved.Some? && Cleanup(d, moved.value) in old(disk)
                                    && !w.restore.fails && (w.delete.fails || d !in old(rows)
                                                            || (w.commit.fails && !w.parity.fails && d in rows))))
    {
      removed := false;
      if w.delete.fails || d !in rows {
        RestoreCleanupPath(d, moved, w.restore.fails);
        return;
      }
      ghost var r := Then((State(), Some(Aside(d, moved))), w);
      assert r == (State(), Some(Deleted(d, moved)));
      if !w.commit.fails || w.commit.applied { rows := rows - {d}; }
      r := Then(r, w);
      assert r == (State(), if w.commit.fails then Some(DeleteLost(d, moved)) else Discard(d, moved));
      var dropped := true;
      if w.commit.fails {
        ResolveCommit(d, moved, w);
        return;
      }
      if moved.Some? { dropped := RemoveFile(Cleanup(d, moved.value), w.drop.kept); }
      removed := dropped;
    }

    /** After a failed commit the rows decide what becomes of the bytes. */
    method ResolveCommit(d: Digest, moved: Option<nat>, w: Weather)
      modifies this`disk
      ensures (State(), None) == Then(Then((old(State()), Some(DeleteLost(d, moved))), w), w)
      ensures Blob(d) in disk <==> (Blob(d) in old(disk) || (moved.Some? && Cleanup(d, moved.value) in old(disk)
                                    && !w.restore.fails && !w.parity.fails && d in rows))
      ensures w.parity.fails || moved.None? ==> disk == old(disk)
      ensures moved.Some? && !w.parity.fails && d !in rows ==>
                disk == if w.drop.kept then old(disk) else old(disk) - {Cleanup(d, moved.value)}
      ensures moved.Some? && !w.parity.fails && d in rows && Cleanup(d, moved.value) in old(disk) ==>
                disk == if w.restore.fails then old(disk)
                        else Renamed(old(State()), Cleanup(d, moved.value), Blob(d)).disk
    {
      if w.parity.fails { return; }
      if d in rows {
        RestoreCleanupPath(d, moved, w.restore.fails);
      } else if moved.Some? {
        var dropped := RemoveFile(Cleanup(d, moved.value), w.drop.kept);
      }
    }

    method RestoreCleanupPath(d: Digest, moved: Option<nat>, fails: bool)
      modifies this`disk
      ensures State() == if moved.Some? && !fails && Cleanup(d, moved.value) in old(disk)
                         then Renamed(old(State()), Cleanup(d, moved.value), Blob(d)) else old(State())
    {
      if moved.Some? && !fails {
        var restored := RenameFile(Cleanup(d, moved.value), Blob(d));
      }
    }

    /** Every temp artifact, then every blob file; one run of the machine's
        recovery. Success means a file for exactly each row and nothing under
        temp, and without a failing call it does succeed. */
    method Recover(tempsUnread: bool, blobsUnread: bool, badTemps: set<Path>, badBlobs: set<Digest>)
      returns (ok: bool, ghost events: seq<Event>)
      requires AllSafe(State())
      modifies this`disk
      ensures Ran(World(old(State()), map[], Down), events, |events|) == World(State(), map[], if ok then Up else Down)
      ensures AllSafe(State())
      ensures ok ==> NoArtifacts(State()) && forall d :: Blob(d) in disk <==> d in rows
      ensures forall d :: TrueFiles(old(State()), d) ==> TrueFiles(State(), d)
      ensures !tempsUnread && !blobsUnread && badTemps == {} && badBlobs == {} ==> ok
    {
      ghost var start := World(State(), map[], Down);
      events := Extended(start, [], Restart);
      if tempsUnread {
        events := Extended(start, events, Crash);
        RecoveryKeeps(start, events);
        return false, events;
      }
      ok, events := RecoverTemps(badTemps, start, events);
      if blobsUnread {
        events := Extended(start, events, Crash);
        RecoveryKeeps(start, events);
        return false, events;
      }
      events := Extended(start, events, ListBlobs);
      ok, events := RecoverBlobs(badBlobs, ok, start, events);
      if ok { RecoveryEnds(start, events); }
      events := Extended(start, events, FinishRecovery);
      RecoveryKeeps(start, events);
    }

    /** The first loop, over the listing of the temp directory. */
    method RecoverTemps(bad: set<Path>, ghost start: World, ghost before: seq<Event>)
      returns (ok: bool, ghost events: seq<Event>)
      requires Recovering(start, before, State(), Temps(TempEntries(State()), false))
      modifies this`disk
      ensures Recovering(start, events, State(), Temps({}, !ok))
      ensures bad == {} ==> ok
    {
      var left := TempEntries(State());
      ok, events := true, before;
      while left != {}
        invariant Recovering(start, events, State(), Temps(left, !ok))
        invariant bad == {} ==> ok
      {
        var p :| p in left;
        left := left - {p};
        events := Extended(start, events, RecoverOneTemp(p, p in bad));
        var fine := RecoverArtifact(p, p in bad);
        ok := ok && fine;
      }
    }

    /** The second loop, over the listing of the blobs. */
    method RecoverBlobs(bad: set<Digest>, fine: bool, ghost start: World, ghost before: seq<Event>)
      returns (ok: bool, ghost events: seq<Event>)
      requires Recovering(start, before, State(), Blobs(BlobEntries(State()), !fine))
      modifies this`disk
      ensures Recovering(start, events, State(), Blobs({}, !ok))
      ensures bad == {} ==> ok == fine
    {
      var pending := BlobEntries(State());
      ok, events := fine, before;
      while pending != {}
        invariant Recovering(start, events, State(), Blobs(pending, !ok))
        invariant bad == {} ==> ok == fine
      {
        var d :| d in pending;
        pending := pending - {d};
        events := Extended(start, events, RecoverOneBlob(d, d in bad));
        if d in bad {
          ok := false;
        } else if d !in rows {
          var gone := RemoveFile(Blob(d), false);
        }
      }
    }

    method RecoverArtifact(p: Path, fails: bool) returns (fine: bool)
      modifies this`disk
      ensures (State(), fine) == RecoverTemp(old(State()), p, fails)
    {
      fine := true;
      if p !in disk {
      } else if p.Blob? || fails {
        fine := false;
      } else if p.Temp? || p.digest !in rows || Blob(p.digest) in disk {
        var gone := RemoveFile(p, false);
      } else {
        fine := RenameFile(p, Blob(p.digest));
      }
    }
  }

  /** A cleanup's run, by its two halves. */
  lemma OrphanRun(s: Store, t: Store, d: Digest, moved: Option<nat>, ok: bool, w: Weather)
    requires !w.count.fails && !Referenced(s.refs, d) && (ok ==> (moved.Some? <==> Blob(d) in s.disk))
    requires (t, if ok then Some(Aside(d, moved)) else None)
             == if Blob(d) in s.disk then Then(Then((s, Some(Unreferenced(d))), w), w)
                else Then((s, Some(Unreferenced(d))), w)
    ensures Complete(s, Orphan(d), w) == if ok then FourMore((t, Some(Aside(d, moved))), w) else (t, None)
  {
    assert Then((s, Some(Orphan(d))), w) == (s, Some(Unreferenced(d)));
  }

  lemma AsideAndBack(s: Store, d: Digest, n: nat)
    requires Blob(d) in s.disk && Cleanup(d, n) !in s.disk
    ensures var aside := s.(disk := (s.disk - {Blob(d)})[Cleanup(d, n) := s.disk[Blob(d)]]);
      && Renamed(aside, Cleanup(d, n), Blob(d)).disk == s.disk
      && aside.disk - {Cleanup(d, n)} == s.disk - {Blob(d)}
  {}

  // ----- recovery as a run -----

  ghost predicate NoMoves(events: seq<Event>) {
    forall i :: 0 <= i < |events| ==> !events[i].Move?
  }

  /** The recovery so far is the machine's, and has come to this phase. */
  ghost predicate Recovering(start: World, events: seq<Event>, s: Store, phase: Phase) {
    NoMoves(events) && Ran(start, events, |events|) == World(s, map[], phase)
  }

  lemma {:induction false} RanPrefix(w: World, a: seq<Event>, e: Event, n: nat)
    requires n <= |a|
    ensures Ran(w, a + [e], n) == Ran(w, a, n)
  {
    if n > 0 { RanPrefix(w, a, e, n - 1); }
  }

  lemma Extended(start: World, events: seq<Event>, e: Event) returns (more: seq<Event>)
    requires NoMoves(events) && !e.Move?
    ensures more == events + [e] && NoMoves(more)
    ensures Ran(start, more, |more|) == Next(Ran(start, events, |events|), e)
  {
    more := events + [e];
    RanPrefix(start, events, e, |events|);
  }

  lemma {:induction false} NoMovesClean(w: World, events: seq<Event>, n: nat, d: Digest)
    requires NoMoves(events) && n <= |events|
    ensures Clean(w, events, n, d)
  {
    if n > 0 { NoMovesClean(w, events, n - 1, d); }
  }

  lemma RecoveryKeeps(start: World, events: seq<Event>)
    requires start.actors == map[] && start.phase.Down? && AllSafe(start.store) && NoMoves(events)
    ensures Valid(Ran(start, events, |events|))
    ensures forall d :: TrueFiles(start.store, d) ==> TrueFiles(Ran(start, events, |events|).store, d)
  {
    RanValid(start, events, |events|);
    forall d | TrueFiles(start.store, d) ensures TrueFiles(Ran(start, events, |events|).store, d) {
      NoMovesClean(start, events, |events|, d);
      RanTrue(start, events, |events|, d);
    }
  }

  lemma RecoveryEnds(start: World, events: seq<Event>)
    requires start.actors == map[] && start.phase.Down? && AllSafe(start.store) && NoMoves(events)
    requires Recovers(Ran(start, events, |events|))
    ensures var s := Ran(start, events, |events|).store;
      NoArtifacts(s) && forall d :: Blob(d) in s.disk <==> d in s.rows
  {
    RanValid(start, events, |events|);
    var s := Ran(start, events, |events|).store;
    forall d ensures Blob(d) in s.disk <==> d in s.rows { NothingMissing(s, d); }
  }

  // ----- operations as runs -----

  lemma ThenKeeps(r: Progress, w: Weather, d: Digest)
    requires AllSafe(r.0) && KeptSafe(r, d) && (r.1.Some? ==> r.1.value.d == d)
    ensures AllSafe(Then(r, w).0) && KeptSafe(Then(r, w), d) && (Then(r, w).1.Some? ==> Then(r, w).1.value.d == d)
  {
    if r.1.Some? {
      var n := Then(r, w);
      AdvanceSafe(r.0, r.1.value, w.At(r.1.value));
      AdvanceTouches(r.0, r.1.value, w.At(r.1.value));
      forall e | e != d ensures Safe(n.0, e) { UntouchedSafe(r.0, n.0, d, e); }
    }
  }

  /** Whatever its calls come back with, an operation that ran to its end leaves
      every digest safe. */
  lemma OperationKeeps(s: Store, pc: Pc, w: Weather)
    requires AllSafe(s) && SafeAt(s, pc)
    ensures AllSafe(Complete(s, pc, w).0) && KeptSafe(Complete(s, pc, w), pc.d)
  {
    var r := (s, Some(pc));
    ThenKeeps(r, w, pc.d);
    ThenKeeps(Then(r, w), w, pc.d);
    ThenKeeps(Then(Then(r, w), w), w, pc.d);
    FourMoreKeep(Then(Then(Then(r, w), w), w), w, pc.d);
  }

  lemma FourMoreKeep(r: Progress, w: Weather, d: Digest)
    requires AllSafe(r.0) && KeptSafe(r, d) && (r.1.Some? ==> r.1.value.d == d)
    ensures AllSafe(FourMore(r, w).0) && KeptSafe(FourMore(r, w), d)
  {
    ThenKeeps(r, w, d);
    ThenKeeps(Then(r, w), w, d);
    ThenKeeps(Then(Then(r, w), w), w, d);
    ThenKeeps(Then(Then(Then(r, w), w), w), w, d);
  }

  /** `events` are `first` and then moves of one operation. */
  ghost predicate MovesAfter(first: seq<Event>, events: seq<Event>, a: nat) {
    && |first| <= |events| && events[..|first|] == first
    && forall i :: |first| <= i < |events| ==> events[i].Move? && events[i].actor == a
  }

  lemma MoveIs(w: World, a: nat, r: Progress, c: Choice)
    requires w.phase.Up? && r.1.Some?
    ensures Next(WithActor(w, a, r), Move(a, c)) == WithActor(w, a, Advance(r.0, r.1.value, c))
  {}

  lemma OneMove(w: World, a: nat, first: seq<Event>, before: seq<Event>, c: Choice) returns (events: seq<Event>)
    requires MovesAfter(first, before, a)
    ensures MovesAfter(first, events, a) && |events| == |before| + 1
    ensures Ran(w, events, |events|) == Next(Ran(w, before, |before|), Move(a, c))
  {
    events := before + [Move(a, c)];
    RanPrefix(w, before, Move(a, c), |before|);
  }

  /** A step of an operation is a move of the machine. */
  lemma ThenRan(w: World, a: nat, first: seq<Event>, before: seq<Event>, r: Progress, weather: Weather)
    returns (events: seq<Event>)
    requires w.phase.Up? && MovesAfter(first, before, a) && Ran(w, before, |before|) == WithActor(w, a, r)
    ensures MovesAfter(first, events, a) && Ran(w, events, |events|) == WithActor(w, a, Then(r, weather))
    ensures |before| <= |events| <= |before| + 1
  {
    events := before;
    if r.1.Some? {
      events := OneMove(w, a, first, before, weather.At(r.1.value));
      MoveIs(w, a, r, weather.At(r.1.value));
    }
  }

  lemma FourMoreRan(w: World, a: nat, first: seq<Event>, before: seq<Event>, r: Progress, weather: Weather)
    returns (events: seq<Event>)
    requires w.phase.Up? && MovesAfter(first, before, a) && Ran(w, before, |before|) == WithActor(w, a, r)
    ensures MovesAfter(first, events, a) && Ran(w, events, |events|) == WithActor(w, a, FourMore(r, weather))
    ensures |events| <= |before| + 4
  {
    events := ThenRan(w, a, first, before, r, weather);
    events := ThenRan(w, a, first, events, Then(r, weather), weather);
    events := ThenRan(w, a, first, events, Then(Then(r, weather), weather), weather);
    events := ThenRan(w, a, first, events, Then(Then(Then(r, weather), weather), weather), weather);
  }

  lemma CompleteRan(w: World, a: nat, first: seq<Event>, pc: Pc, weather: Weather) returns (events: seq<Event>)
    requires w.phase.Up? && Ran(w, first, |first|) == WithActor(w, a, (w.store, Some(pc)))
    ensures MovesAfter(first, events, a) && |events| <= |first| + 7
    ensures Ran(w, events, |events|) == WithActor(w, a, Complete(w.store, pc, weather))
  {
    var r := (w.store, Some(pc));
    events := ThenRan(w, a, first, first, r, weather);
    events := ThenRan(w, a, first, events, Then(r, weather), weather);
    events := ThenRan(w, a, first, events, Then(Then(r, weather), weather), weather);
    events := FourMoreRan(w, a, first, events, Then(Then(Then(r, weather), weather), weather), weather);
  }

  /** In any serving world, what CommitPrepared and AbandonWrite do is a run of
      the machine: moves of one operation, */
  lemma CommitRan(w: World, a: nat, weather: Weather) returns (events: seq<Event>)
    requires w.phase.Up? && a in w.actors
    ensures MovesAfter([], events, a) && |events| <= 7
    ensures Ran(w, events, |events|) == WithActor(w, a, Complete(w.store, w.actors[a], weather))
  {
    assert WithActor(w, a, (w.store, Some(w.actors[a]))) == w;
    events := CompleteRan(w, a, [], w.actors[a], weather);
  }

  /** what CleanupOrphan does is its start and then moves, */
  lemma CleanupRan(w: World, a: nat, d: Digest, weather: Weather) returns (events: seq<Event>)
    requires w.phase.Up? && a !in w.actors && LeaseFree(w, d)
    ensures MovesAfter([StartCleanup(a, d)], events, a) && |events| <= 8
    ensures Ran(w, events, |events|) == WithActor(w, a, Complete(w.store, Orphan(d), weather))
  {
    var first := [StartCleanup(a, d)];
    assert Ran(w, first, 0) == w && Ran(w, first, 1) == WithActor(w, a, (w.store, Some(Orphan(d))));
    events := CompleteRan(w, a, first, Orphan(d), weather);
  }

  /** and what PrepareWrite does is its start and then moves. */
  lemma PrepareRan(w: World, a: nat, data: Bytes, n: nat, weather: Weather) returns (events: seq<Event>)
    requires Prepares(w, a, Sha256(data), n)
    ensures MovesAfter([Prepare(a, data, n)], events, a) && |events| <= 4
    ensures Ran(w, events, |events|) == WithActor(w, a, PrepareRun(w.store, Sha256(data), n, weather))
  {
    var first, r := [Prepare(a, data, n)], Created(w.store, Sha256(data), n);
    assert Ran(w, first, 0) == w && Ran(w, first, 1) == WithActor(w, a, r);
    events := ThenRan(w, a, first, first, r, weather);
    events := ThenRan(w, a, first, events, Then(r, weather), weather);
    r := Then(Then(r, weather), weather);
    if r.1.Some? && r.1.value.Dropping? { events := ThenRan(w, a, first, events, r, weather); }
  }

  /** A cleanup whose commit fails without effect and whose parity query fails
      too gives its lease back with the row there and the file away. */
  lemma ParityFailureLeavesBlobAway(data: Bytes, w: Weather)
    requires !w.count.fails && !w.create.fails && w.create.name == 0 && !w.move.fails && !w.delete.fails
    requires w.commit.fails && !w.commit.applied && w.parity.fails
    ensures var d := Sha256(data);
      Complete(Store(map[Blob(d) := data], {d}, map[]), Orphan(d), w)
        == (Store(map[Cleanup(d, 0) := data], {d}, map[]), None)
  {
    var d := Sha256(data);
    var s := Store(map[Blob(d) := data], {d}, map[]);
    assert Then(Then((s, Some(Orphan(d))), w), w)
      == (s.(disk := map[Blob(d) := data, Cleanup(d, 0) := []]), Some(Placeholder(d, 0)));
    var made := s.(disk := map[Blob(d) := data, Cleanup(d, 0) := []]);
    assert Renamed(made, Blob(d), Cleanup(d, 0)).disk == map[Cleanup(d, 0) := data];
    var aside := (Store(map[Cleanup(d, 0) := data], {d}, map[]), Some(Aside(d, Some(0))));
    assert Then(Then(Then((s, Some(Orphan(d))), w), w), w) == aside;
    assert Then(Then(aside, w), w) == (aside.0, Some(DeleteLost(d, Some(0))));
  }
}
