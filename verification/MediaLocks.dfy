/** The digest locks and the media machine together: what the machine takes for
    granted, one operation per digest, is what the locks enforce. */
module MediaLocks {
  import M = MediaMachine
  import L = DigestLocks
  import opened MediaSafety

  /** An operation runs under the lease of its own number. */
  datatype Service = Service(world: M.World, table: L.Table)

  datatype Action = Lock(section: L.Event) | Work(step: M.Event)

  ghost predicate Holds(s: Service, a: nat, d: M.Digest) {
    a in s.table.leases && s.table.leases[a].stage.Holding? && s.table.leases[a].digest == d
  }

  /** An operation starts under a lease it holds, and gives it back at its end. */
  ghost predicate Permitted(s: Service, action: Action) {
    match action
    case Work(Prepare(a, data, _)) => Holds(s, a, M.Sha256(data))
    case Work(StartCleanup(a, d)) => Holds(s, a, d)
    case Lock(Unlock(id)) => id !in s.world.actors
    case _ => true
  }

  /** A crash takes the locks with it. */
  ghost function Next(s: Service, action: Action): Service {
    if !Permitted(s, action) then s
    else
      match action
      case Lock(e) => s.(table := L.Next(s.table, e))
      case Work(e) => Service(M.Next(s.world, e), if e.Crash? then L.EMPTY else s.table)
  }

  ghost predicate Covered(s: Service) {
    && L.Valid(s.table)
    && forall a :: a in s.world.actors ==> Holds(s, a, s.world.actors[a].d)
  }

  lemma LockKeepsHolders(t: L.Table, e: L.Event, a: nat)
    requires a in t.leases && t.leases[a].stage.Holding? && e != L.Unlock(a)
    ensures a in L.Next(t, e).leases && L.Next(t, e).leases[a] == t.leases[a]
  {}

  lemma WorkKeepsDigests(w: M.World, e: M.Event, a: nat)
    requires a in M.Next(w, e).actors
    ensures a in w.actors ==> M.Next(w, e).actors[a].d == w.actors[a].d
    ensures a !in w.actors ==>
              (e.Prepare? && e.actor == a && M.Next(w, e).actors[a].d == M.Sha256(e.data))
              || (e.StartCleanup? && e.actor == a && M.Next(w, e).actors[a].d == e.digest)
  {
    if e.Move? && e.actor in w.actors { AdvanceStays(w.store, w.actors[e.actor], e.choice); }
  }

  lemma NextCovered(s: Service, action: Action)
    requires Covered(s)
    ensures Covered(Next(s, action))
  {
    var n := Next(s, action);
    if action.Lock? {
      var t := L.NextKeeps(s.table, action.section);
      forall a | a in s.world.actors && Permitted(s, action) ensures Holds(n, a, s.world.actors[a].d) {
        LockKeepsHolders(s.table, action.section, a);
      }
    } else {
      NothingHeld();
      forall a | a in n.world.actors && Permitted(s, action) ensures Holds(n, a, n.world.actors[a].d) {
        WorkKeepsDigests(s.world, action.step, a);
      }
    }
  }

  lemma NothingHeld()
    ensures L.Valid(L.EMPTY)
  {}

  function Start(): Service {
    Service(M.FRESH, L.EMPTY)
  }

  ghost function After(actions: seq<Action>, n: nat): Service
    requires n <= |actions|
  {
    if n == 0 then Start() else Next(After(actions, n - 1), actions[n - 1])
  }

  lemma {:induction false} RunCovered(actions: seq<Action>, n: nat)
    requires n <= |actions|
    ensures Covered(After(actions, n))
  {
    if n == 0 {
      NothingHeld();
    } else {
      RunCovered(actions, n - 1);
      NextCovered(After(actions, n - 1), actions[n - 1]);
    }
  }

  /** Whoever holds a digest's lease finds no operation on it: the machine's
      guard never stops what the locks let through. */
  lemma HoldingMeansFree(actions: seq<Action>, n: nat, a: nat, d: M.Digest)
    requires n <= |actions| && Holds(After(actions, n), a, d) && a !in After(actions, n).world.actors
    ensures M.LeaseFree(After(actions, n).world, d)
  {
    RunCovered(actions, n);
    var s := After(actions, n);
    forall b | b in s.world.actors ensures s.world.actors[b].d != d {
      assert Holds(s, b, s.world.actors[b].d);
      assert L.Active(s.table, a) && L.Active(s.table, b);
    }
  }

  /** And the other way round: while an operation runs, nobody else holds its
      digest's lease. */
  lemma RunningMeansHeld(actions: seq<Action>, n: nat, a: nat, b: nat)
    requires n <= |actions| && a in After(actions, n).world.actors
    requires Holds(After(actions, n), b, After(actions, n).world.actors[a].d)
    ensures a == b
  {
    RunCovered(actions, n);
    var s := After(actions, n);
    assert Holds(s, a, s.world.actors[a].d);
    assert L.Active(s.table, a) && L.Active(s.table, b);
  }
}
