/** The one failure the media store does not survive: a cleanup placeholder that
    could be neither renamed onto nor removed. */
module MediaLoss {
  import opened Wrappers
  import opened MediaMachine
  import opened MediaSafety
  import opened MediaRuns

  const OK := Choice(false, false, false, 0, [], Asset(0))

  // ----- a leftover loses the bytes of an unreferenced row -----

  /** The digest is stored, unreferenced, and nobody is working on it. */
  ghost predicate Idle(w: World, d: Digest) {
    && w.phase.Up? && LeaseFree(w, d) && d in w.store.rows && TrueBytes(w.store, Blob(d))
    && !Referenced(w.store.refs, d)
  }

  /** A cleanup moves the blob to artifact m, the service crashes, and recovery
      happens to meet artifact n first. */
  function CleanupAndCrash(d: Digest, a: nat, n: nat, m: nat): seq<Event> {
    [StartCleanup(a, d), Move(a, OK), Move(a, OK.(name := m)), Move(a, OK), Crash, Restart,
     RecoverOneTemp(Cleanup(d, n), false)]
  }

  /** One more event of a run whose world is known. */
  lemma Tracked(w: World, es: seq<Event>, n: nat, u: World, d: Digest)
    requires n < |es| && Ran(w, es, n) == u && Clean(w, es, n, d) && !LeavesFor(u, es[n], d)
    ensures Ran(w, es, n + 1) == Next(u, es[n]) && Clean(w, es, n + 1, d)
  {}

  function Moving(w: World, a: nat, disk: map<Path, Bytes>, pc: Pc): World {
    w.(store := w.store.(disk := disk), actors := w.actors[a := pc])
  }

  lemma CleanupStarts(w: World, d: Digest, a: nat)
    requires Idle(w, d) && a !in w.actors
    ensures Next(w, StartCleanup(a, d)) == Moving(w, a, w.store.disk, Orphan(d))
    ensures Next(Moving(w, a, w.store.disk, Orphan(d)), Move(a, OK)) == Moving(w, a, w.store.disk, Unreferenced(d))
  {}

  lemma CleanupMoves(w: World, d: Digest, a: nat, m: nat)
    requires Idle(w, d) && a !in w.actors && Cleanup(d, m) !in w.store.disk
    ensures var made := w.store.disk[Cleanup(d, m) := []];
      && Next(Moving(w, a, w.store.disk, Unreferenced(d)), Move(a, OK.(name := m)))
        == Moving(w, a, made, Placeholder(d, m))
      && var moved := Next(Moving(w, a, made, Placeholder(d, m)), Move(a, OK));
         moved.phase.Up? && moved.store.rows == w.store.rows
         && moved.store.disk == (w.store.disk - {Blob(d)})[Cleanup(d, m) := w.store.disk[Blob(d)]]
  {
    var made := w.store.disk[Cleanup(d, m) := []];
    assert (made - {Blob(d)})[Cleanup(d, m) := made[Blob(d)]]
        == (w.store.disk - {Blob(d)})[Cleanup(d, m) := w.store.disk[Blob(d)]];
  }

  lemma MovedAsideWorld(w: World, d: Digest, a: nat, n: nat, m: nat)
    requires Idle(w, d) && a !in w.actors && Cleanup(d, m) !in w.store.disk
    ensures var es := CleanupAndCrash(d, a, n, m);
      && Clean(w, es, 4, d) && Ran(w, es, 4).phase.Up?
      && Ran(w, es, 4).store.rows == w.store.rows
      && Ran(w, es, 4).store.disk == (w.store.disk - {Blob(d)})[Cleanup(d, m) := w.store.disk[Blob(d)]]
  {
    var es, disk := CleanupAndCrash(d, a, n, m), w.store.disk;
    CleanupStarts(w, d, a);
    CleanupMoves(w, d, a, m);
    Tracked(w, es, 0, w, d);
    Tracked(w, es, 1, Moving(w, a, disk, Orphan(d)), d);
    Tracked(w, es, 2, Moving(w, a, disk, Unreferenced(d)), d);
    Tracked(w, es, 3, Moving(w, a, disk[Cleanup(d, m) := []], Placeholder(d, m)), d);
  }

  lemma LeftoverIsRecovered(w: World, d: Digest, a: nat, n: nat, m: nat)
    requires Idle(w, d) && a !in w.actors && Cleanup(d, m) !in w.store.disk && Cleanup(d, n) in w.store.disk
    ensures var es := CleanupAndCrash(d, a, n, m);
      && Clean(w, es, 7, d) && d in Ran(w, es, 7).store.rows && Blob(d) in Ran(w, es, 7).store.disk
      && Ran(w, es, 7).store.disk[Blob(d)] == w.store.disk[Cleanup(d, n)]
  {
    var es := CleanupAndCrash(d, a, n, m);
    MovedAsideWorld(w, d, a, n, m);
    var aside := Ran(w, es, 4).store;
    assert Ran(w, es, 5) == World(aside, map[], Down);
    assert Ran(w, es, 6) == World(aside, map[], Temps(TempEntries(aside), false));
    assert Cleanup(d, n).InTemp() && Cleanup(d, n) in TempEntries(aside);
    assert Ran(w, es, 7).store == Renamed(aside, Cleanup(d, n), Blob(d));
  }

  /** Some future without another leftover leaves the row with other bytes. */
  ghost predicate CanLose(w: World, d: Digest) {
    exists es: seq<Event>, n: nat :: n <= |es| && LosesBy(w, d, es, n)
  }

  ghost predicate LosesBy(w: World, d: Digest, es: seq<Event>, n: nat)
    requires n <= |es|
  {
    && Clean(w, es, n, d)
    && d in Ran(w, es, n).store.rows && Blob(d) in Ran(w, es, n).store.disk && !TrueBytes(Ran(w, es, n).store, Blob(d))
  }

  lemma {:induction false} UnusedName(used: set<nat>) returns (n: nat)
    ensures forall m :: m in used ==> m < n
    decreases used
  {
    n := 0;
    if used != {} {
      var m :| m in used;
      var rest := used - {m};
      n := UnusedName(rest);
      assert used == rest + {m};
      n := if n > m then n else m + 1;
    }
  }

  function CleanupNames(s: Store): set<nat> {
    set p | p in s.disk && p.Cleanup? :: p.name
  }

  /** The bytes of an idle row can be lost if and only if a false artifact of it
      is still there. */
  lemma LostIffLeftover(w: World, d: Digest)
    requires Valid(w) && Idle(w, d)
    ensures CanLose(w, d) <==> !AllArtifactsTrue(w.store, d)
  {
    if AllArtifactsTrue(w.store, d) {
      forall es: seq<Event>, n: nat | n <= |es| && Clean(w, es, n, d) ensures !LosesBy(w, d, es, n) {
        RanTrue(w, es, n, d);
      }
    } else {
      var n: nat :| Cleanup(d, n) in w.store.disk && !TrueBytes(w.store, Cleanup(d, n));
      var a := UnusedName(w.actors.Keys);
      var m := UnusedName(CleanupNames(w.store));
      assert forall p: Path :: p in w.store.disk && p.Cleanup? ==> p.name in CleanupNames(w.store);
      LeftoverIsRecovered(w, d, a, n, m);
      assert LosesBy(w, d, CleanupAndCrash(d, a, n, m), 7);
    }
  }

  // ----- from the empty store -----

  /** Store the data under a reference (0 to 6) and drop the reference (7); a
      cleanup cannot rename the blob onto its placeholder 0 nor remove it (8 to
      11); a second one moves the blob to artifact 1 (12 to 15); a crash, and a
      recovery without a single failure (16 to 22). */
  function LossEvent(data: Bytes, i: nat): Event {
    var d := Sha256(data);
    if i == 0 then Prepare(0, data, 0)
    else if i == 7 then RemoveReference(Asset(0))
    else if i == 8 || i == 12 then StartCleanup(0, d)
    else if i == 11 then Move(0, OK.(fails := true, kept := true))
    else if i == 14 then Move(0, OK.(name := 1))
    else if i < 16 then Move(0, OK)
    else if i == 16 then Crash
    else if i == 17 then Restart
    else if i == 18 then RecoverOneTemp(Cleanup(d, 0), false)
    else if i == 19 then RecoverOneTemp(Cleanup(d, 1), false)
    else if i == 20 then ListBlobs
    else if i == 21 then RecoverOneBlob(d, false)
    else FinishRecovery
  }

  function LossEvents(data: Bytes): seq<Event> {
    seq(23, i requires 0 <= i < 23 => LossEvent(data, i))
  }

  function Disk(disk: map<Path, Bytes>, rows: set<Digest>): Store {
    Store(disk, rows, map[])
  }

  /** The worlds that run goes through. */
  function LossWorld(data: Bytes, i: nat): World {
    var d := Sha256(data);
    var temp := Disk(map[Temp(d, 0) := data], {});
    var blob := Disk(map[Blob(d) := data], {d});
    var leftover := Disk(map[Blob(d) := data, Cleanup(d, 0) := []], {d});
    var made := Disk(map[Blob(d) := data, Cleanup(d, 0) := [], Cleanup(d, 1) := []], {d});
    var aside := Disk(map[Cleanup(d, 0) := [], Cleanup(d, 1) := data], {d});
    var swapped := Disk(map[Blob(d) := [], Cleanup(d, 1) := data], {d});
    var lost := Disk(map[Blob(d) := []], {d});
    if i == 0 then FRESH
    else if i == 1 then World(Disk(map[Temp(d, 0) := []], {}), map[0 := Creating(d, 0)], Up)
    else if i == 2 then World(temp, map[0 := Written(d, 0)], Up)
    else if i == 3 then World(temp, map[0 := Prepared(d, 0)], Up)
    else if i == 4 then World(temp, map[0 := Began(d, 0, Asset(0))], Up)
    else if i == 5 then World(temp, map[0 := Recorded(d, 0, Asset(0), false)], Up)
    else if i == 6 then World(Disk(map[Blob(d) := data], {}), map[0 := Promoted(d, 0, Asset(0), true)], Up)
    else if i == 7 then World(blob.(refs := map[Asset(0) := d]), map[], Up)
    else if i == 8 then World(blob, map[], Up)
    else if i == 9 then World(blob, map[0 := Orphan(d)], Up)
    else if i == 10 then World(blob, map[0 := Unreferenced(d)], Up)
    else if i == 11 then World(leftover, map[0 := Placeholder(d, 0)], Up)
    else if i == 12 then World(leftover, map[], Up)
    else if i == 13 then World(leftover, map[0 := Orphan(d)], Up)
    else if i == 14 then World(leftover, map[0 := Unreferenced(d)], Up)
    else if i == 15 then World(made, map[0 := Placeholder(d, 1)], Up)
    else if i == 16 then World(aside, map[0 := Aside(d, Some(1))], Up)
    else if i == 17 then World(aside, map[], Down)
    else if i == 18 then World(aside, map[], Temps({Cleanup(d, 0), Cleanup(d, 1)}, false))
    else if i == 19 then World(swapped, map[], Temps({Cleanup(d, 1)}, false))
    else if i == 20 then World(lost, map[], Temps({}, false))
    else if i == 21 then World(lost, map[], Blobs({d}, false))
    else if i == 22 then World(lost, map[], Blobs({}, false))
    else World(lost, map[], Up)
  }

  ghost predicate LossStep(data: Bytes, i: nat) {
    && Next(LossWorld(data, i), LossEvent(data, i)) == LossWorld(data, i + 1)
    && (LeavesFor(LossWorld(data, i), LossEvent(data, i), Sha256(data)) <==> i == 11)
  }

  lemma UploadStep(data: Bytes, i: nat)
    requires i < 8
    ensures LossStep(data, i)
  {}

  lemma FailedCleanupStep(data: Bytes, i: nat)
    requires 8 <= i < 12
    ensures LossStep(data, i)
  {}

  lemma CleanupStep(data: Bytes, i: nat)
    requires 12 <= i < 16
    ensures LossStep(data, i)
  {
    var d := Sha256(data);
    if i == 15 {
      assert Renamed(LossWorld(data, 15).store, Blob(d), Cleanup(d, 1)) == LossWorld(data, 16).store;
    }
  }

  lemma RecoveryStep(data: Bytes, i: nat)
    requires 16 <= i < 23
    ensures LossStep(data, i)
  {
    var d := Sha256(data);
    if i == 17 { assert TempEntries(LossWorld(data, 17).store) == {Cleanup(d, 0), Cleanup(d, 1)}; }
    if i == 18 {
      var aside := LossWorld(data, 18).store;
      assert Renamed(aside, Cleanup(d, 0), Blob(d)).disk == map[Blob(d) := [], Cleanup(d, 1) := data];
      assert {Cleanup(d, 0), Cleanup(d, 1)} - {Cleanup(d, 0)} == {Cleanup(d, 1)};
    }
    if i == 19 {
      assert Removed(LossWorld(data, 19).store, Cleanup(d, 1)).disk == map[Blob(d) := []];
      assert {Cleanup(d, 1)} - {Cleanup(d, 1)} == {};
    }
    if i == 21 { assert {d} - {d} == {}; }
    if i == 20 {
      assert Blob(d).digest in BlobEntries(LossWorld(data, 20).store);
      assert BlobEntries(LossWorld(data, 20).store) == {d};
    }
  }

  lemma EveryLossStep(data: Bytes, i: nat)
    requires i < 23
    ensures LossStep(data, i)
  {
    if i < 8 {
      UploadStep(data, i);
    } else if i < 12 {
      FailedCleanupStep(data, i);
    } else if i < 16 {
      CleanupStep(data, i);
    } else {
      RecoveryStep(data, i);
    }
  }

  lemma LossNext(data: Bytes, i: nat) returns (w: World, e: Event, n: World)
    requires i < 23
    ensures w == LossWorld(data, i) && e == LossEvents(data)[i] && n == LossWorld(data, i + 1)
    ensures n == Next(w, e) && (LeavesFor(w, e, Sha256(data)) <==> i == 11)
  {
    EveryLossStep(data, i);
    w, e, n := LossWorld(data, i), LossEvent(data, i), LossWorld(data, i + 1);
  }

  lemma {:induction false} LossRan(data: Bytes, n: nat) returns (w: World)
    requires n <= 23
    ensures w == LossWorld(data, n) && After(LossEvents(data), n) == w
  {
    w := LossWorld(data, n);
    if n > 0 {
      var before := LossRan(data, n - 1);
      var u, e, v := LossNext(data, n - 1);
    }
  }

  lemma LossLeaves(data: Bytes, i: nat)
    requires i < 23
    ensures LeavesFor(After(LossEvents(data), i), LossEvents(data)[i], Sha256(data)) <==> i == 11
  {
    var before := LossRan(data, i);
    var u, e, v := LossNext(data, i);
  }

  lemma LossEnds(data: Bytes)
    ensures Recovers(After(LossEvents(data), 22))
    ensures After(LossEvents(data), 23) == World(Store(map[Blob(Sha256(data)) := []], {Sha256(data)}, map[]), map[], Up)
  {
    var before := LossRan(data, 22);
    var after := LossRan(data, 23);
  }

  /** A run of the empty store that fails one removal of a placeholder, and none
      besides: recovery reports success, and nothing is left of the bytes of a
      committed row. */
  lemma LeftoverPlaceholderLosesBytes(data: Bytes) returns (events: seq<Event>)
    requires data != []
    ensures |events| == 23 && Recovers(After(events, 22))
    ensures After(events, 23) == World(Store(map[Blob(Sha256(data)) := []], {Sha256(data)}, map[]), map[], Up)
    ensures forall i :: 0 <= i < 23 ==> (LeavesFor(After(events, i), events[i], Sha256(data)) <==> i == 11)
  {
    events := LossEvents(data);
    LossEnds(data);
    forall i | 0 <= i < 23 ensures LeavesFor(After(events, i), events[i], Sha256(data)) <==> i == 11 {
      LossLeaves(data, i);
    }
  }
}
