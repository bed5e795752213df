/** What every step of the media machine keeps: of any run (Safe), and of a
    digest no placeholder was left behind for (TrueFiles). */
module MediaSafety {
  import opened Wrappers
  import opened MediaMachine

  ghost predicate TrueBytes(s: Store, p: Path) {
    p in s.disk && s.disk[p] == p.digest.data
  }

  ghost predicate AllArtifactsTrue(s: Store, d: Digest) {
    forall n :: Cleanup(d, n) in s.disk ==> TrueBytes(s, Cleanup(d, n))
  }

  // ----- what always holds -----

  /** At every instant: a referenced digest has its row and its bytes, and a row
      without its file has some cleanup artifact. */
  ghost predicate Safe(s: Store, d: Digest) {
    && (Referenced(s.refs, d) ==> d in s.rows && TrueBytes(s, Blob(d)))
    && (d in s.rows && Blob(d) !in s.disk ==> exists n :: Cleanup(d, n) in s.disk)
  }

  /** What holds of the digest of an operation at its current step. */
  ghost predicate SafeAt(s: Store, pc: Pc) {
    match pc
    case Prepared(d, n) => TrueBytes(s, Temp(d, n))
    case Began(d, n, key) => TrueBytes(s, Temp(d, n))
    case Recorded(d, n, key, winner) => TrueBytes(s, if winner then Blob(d) else Temp(d, n))
    case Promoted(d, n, key, published) => TrueBytes(s, Blob(d))
    case Unreferenced(d) => !Referenced(s.refs, d)
    case Placeholder(d, n) =>
      !Referenced(s.refs, d) && Blob(d) in s.disk && Cleanup(d, n) in s.disk && s.disk[Cleanup(d, n)] == []
    case Aside(d, moved) => !Referenced(s.refs, d) && Blob(d) !in s.disk
    case Deleted(d, moved) => !Referenced(s.refs, d) && Blob(d) !in s.disk
    case DeleteLost(d, moved) => !Referenced(s.refs, d)
    case Discarding(d, n) => d !in s.rows
    case Restoring(d, n) => !Referenced(s.refs, d)
    case _ => true
  }

  // ----- what holds of a digest without leftovers -----

  /** The blob holds its bytes; while it is away every artifact does. */
  ghost predicate TrueFiles(s: Store, d: Digest) {
    && (Blob(d) in s.disk ==> TrueBytes(s, Blob(d)))
    && (d in s.rows && Blob(d) !in s.disk ==> AllArtifactsTrue(s, d))
  }

  ghost predicate TrueAt(s: Store, pc: Pc) {
    match pc
    case Placeholder(d, n) => forall m :: m != n && Cleanup(d, m) in s.disk ==> TrueBytes(s, Cleanup(d, m))
    case _ => AllArtifactsTrue(s, pc.d)
  }

  ghost predicate NoArtifacts(s: Store) {
    forall p :: p in s.disk ==> !p.InTemp()
  }

  // ----- one step touches one digest -----

  ghost predicate OnlyTouches(s: Store, t: Store, d: Digest) {
    && (forall p: Path :: p.digest != d ==> (p in s.disk <==> p in t.disk))
    && (forall p: Path :: p.digest != d && p in s.disk && p in t.disk ==> s.disk[p] == t.disk[p])
    && (forall e :: e != d ==> (e in s.rows <==> e in t.rows))
    && (forall e :: e != d && Referenced(t.refs, e) ==> Referenced(s.refs, e))
  }

  lemma AdvanceTouchesRefs(s: Store, pc: Pc, c: Choice, e: Digest)
    requires e != pc.d && Referenced(Advance(s, pc, c).0.refs, e)
    ensures Referenced(s.refs, e)
  {}

  lemma AdvanceStays(s: Store, pc: Pc, c: Choice)
    ensures Advance(s, pc, c).1.Some? ==> Advance(s, pc, c).1.value.d == pc.d
  {}

  lemma AdvanceTouchesDisk(s: Store, pc: Pc, c: Choice, p: Path)
    requires p.digest != pc.d
    ensures var t := Advance(s, pc, c).0;
      (p in s.disk <==> p in t.disk) && (p in s.disk && p in t.disk ==> s.disk[p] == t.disk[p])
  {}

  lemma AdvanceTouches(s: Store, pc: Pc, c: Choice)
    ensures OnlyTouches(s, Advance(s, pc, c).0, pc.d)
    ensures Advance(s, pc, c).1.Some? ==> Advance(s, pc, c).1.value.d == pc.d
  {
    AdvanceStays(s, pc, c);
    var t := Advance(s, pc, c).0;
    forall p: Path | p.digest != pc.d
      ensures (p in s.disk <==> p in t.disk) && (p in s.disk && p in t.disk ==> s.disk[p] == t.disk[p])
    {
      AdvanceTouchesDisk(s, pc, c, p);
    }
    forall e | e != pc.d && Referenced(t.refs, e)
      ensures Referenced(s.refs, e)
    {
      AdvanceTouchesRefs(s, pc, c, e);
    }
  }

  lemma UntouchedSafe(s: Store, t: Store, d: Digest, e: Digest)
    requires OnlyTouches(s, t, d) && e != d && Safe(s, e)
    ensures Safe(t, e)
  {
    if e in t.rows && Blob(e) !in t.disk {
      var n :| Cleanup(e, n) in s.disk;
      assert Cleanup(e, n).digest == e;
    }
  }

  lemma UntouchedSafeAt(s: Store, t: Store, d: Digest, pc: Pc)
    requires OnlyTouches(s, t, d) && pc.d != d && SafeAt(s, pc)
    ensures SafeAt(t, pc)
  {
    assert forall p: Path :: p.digest == pc.d ==> (p in s.disk <==> p in t.disk);
  }

  lemma UntouchedTrue(s: Store, t: Store, d: Digest, e: Digest)
    requires OnlyTouches(s, t, d) && e != d
    ensures TrueFiles(s, e) ==> TrueFiles(t, e)
    ensures AllArtifactsTrue(s, e) ==> AllArtifactsTrue(t, e)
    ensures forall pc: Pc :: pc.d == e && TrueAt(s, pc) ==> TrueAt(t, pc)
  {
    assert forall p: Path :: p.digest == e ==> (p in s.disk <==> p in t.disk);
  }

  // ----- one step of an operation, seen from its own digest -----

  ghost predicate KeptSafe(r: (Store, Option<Pc>), d: Digest) {
    Safe(r.0, d) && (r.1.Some? ==> SafeAt(r.0, r.1.value))
  }

  ghost predicate KeptTrue(r: (Store, Option<Pc>), d: Digest) {
    && TrueFiles(r.0, d)
    && match r.1 {
         case Some(pc) => TrueAt(r.0, pc)
         case None => AllArtifactsTrue(r.0, d)
       }
  }

  predicate Writing(pc: Pc) {
    pc.Creating? || pc.Written? || pc.Prepared? || pc.Began? || pc.Recorded? || pc.Dropping?
  }

  predicate Committing(pc: Pc) { pc.Promoted? || pc.CommitLost? }

  predicate MovingAside(pc: Pc) { pc.Orphan? || pc.Unreferenced? || pc.Placeholder? }

  lemma WriteStepSafe(s: Store, pc: Pc, c: Choice)
    requires Writing(pc) && Safe(s, pc.d) && SafeAt(s, pc)
    ensures KeptSafe(Advance(s, pc, c), pc.d)
  {}

  lemma CommitStepSafe(s: Store, pc: Pc, c: Choice)
    requires Committing(pc) && Safe(s, pc.d) && SafeAt(s, pc)
    ensures KeptSafe(Advance(s, pc, c), pc.d)
  {}

  lemma MoveAsideStepSafe(s: Store, pc: Pc, c: Choice)
    requires MovingAside(pc) && Safe(s, pc.d) && SafeAt(s, pc)
    ensures KeptSafe(Advance(s, pc, c), pc.d)
  {
    var t := Advance(s, pc, c).0;
    if pc.Placeholder? && Blob(pc.d) !in t.disk { assert Cleanup(pc.d, pc.n) in t.disk; }
  }

  lemma DeleteStepSafe(s: Store, pc: Pc, c: Choice)
    requires !Writing(pc) && !Committing(pc) && !MovingAside(pc) && Safe(s, pc.d) && SafeAt(s, pc)
    ensures KeptSafe(Advance(s, pc, c), pc.d)
  {}

  /** Every step of every operation keeps its digest safe, whatever fails. */
  lemma AdvanceSafe(s: Store, pc: Pc, c: Choice)
    requires Safe(s, pc.d) && SafeAt(s, pc)
    ensures KeptSafe(Advance(s, pc, c), pc.d)
  {
    if Writing(pc) {
      WriteStepSafe(s, pc, c);
    } else if Committing(pc) {
      CommitStepSafe(s, pc, c);
    } else if MovingAside(pc) {
      MoveAsideStepSafe(s, pc, c);
    } else {
      DeleteStepSafe(s, pc, c);
    }
  }

  lemma WriteStepTrue(s: Store, pc: Pc, c: Choice)
    requires Writing(pc) && SafeAt(s, pc) && TrueFiles(s, pc.d) && TrueAt(s, pc)
    ensures KeptTrue(Advance(s, pc, c), pc.d)
  {}

  lemma CommitStepTrue(s: Store, pc: Pc, c: Choice)
    requires Committing(pc) && TrueFiles(s, pc.d) && TrueAt(s, pc)
    ensures KeptTrue(Advance(s, pc, c), pc.d)
  {}

  /** Exactly the steps that leave a placeholder behind leave a false artifact;
      the one digest whose bytes are empty cannot tell. */
  lemma MoveAsideStepTrue(s: Store, pc: Pc, c: Choice)
    requires MovingAside(pc) && SafeAt(s, pc) && TrueFiles(s, pc.d) && TrueAt(s, pc)
    ensures KeptTrue(Advance(s, pc, c), pc.d) <==> !LeavesPlaceholder(s, pc, c) || pc.d == Sha256([])
  {
    var d, t := pc.d, Advance(s, pc, c).0;
    if LeavesPlaceholder(s, pc, c) {
      var n := if pc.Placeholder? then pc.n else c.name;
      assert Cleanup(d, n) in t.disk && t.disk[Cleanup(d, n)] == [];
    }
  }

  lemma DeleteStepTrue(s: Store, pc: Pc, c: Choice)
    requires !Writing(pc) && !Committing(pc) && !MovingAside(pc) && TrueFiles(s, pc.d) && TrueAt(s, pc)
    ensures KeptTrue(Advance(s, pc, c), pc.d)
  {}

  /** Every step keeps the files of its digest true, unless it leaves a
      placeholder behind. */
  lemma AdvanceTrue(s: Store, pc: Pc, c: Choice)
    requires SafeAt(s, pc) && TrueFiles(s, pc.d) && TrueAt(s, pc) && !LeavesPlaceholder(s, pc, c)
    ensures KeptTrue(Advance(s, pc, c), pc.d)
  {
    if Writing(pc) {
      WriteStepTrue(s, pc, c);
    } else if Committing(pc) {
      CommitStepTrue(s, pc, c);
    } else if MovingAside(pc) {
      MoveAsideStepTrue(s, pc, c);
    } else {
      DeleteStepTrue(s, pc, c);
    }
  }
}
