/** Finite directed graphs as edge sets: paths, reachability, acyclicity. */
module Digraph {
  type Node = nat
  type Edges = set<(Node, Node)>

  ghost predicate IsPath(edges: Edges, p: seq<Node>) {
    forall i :: 0 <= i < |p| - 1 ==> (p[i], p[i + 1]) in edges
  }

  ghost predicate PathBetween(edges: Edges, p: seq<Node>, a: Node, b: Node) {
    |p| >= 2 && p[0] == a && p[|p| - 1] == b && IsPath(edges, p)
  }

  /** b is reached from a along one or more edges. */
  ghost predicate Reaches(edges: Edges, a: Node, b: Node) {
    exists p :: PathBetween(edges, p, a, b)
  }

  ghost predicate Acyclic(edges: Edges) {
    forall a :: !Reaches(edges, a, a)
  }

  lemma ReachesEdge(edges: Edges, a: Node, b: Node)
    requires (a, b) in edges
    ensures Reaches(edges, a, b)
  {
    assert PathBetween(edges, [a, b], a, b);
  }

  lemma ReachesTransitive(edges: Edges, a: Node, b: Node, c: Node)
    requires Reaches(edges, a, b) && Reaches(edges, b, c)
    ensures Reaches(edges, a, c)
  {
    var p :| PathBetween(edges, p, a, b);
    var q :| PathBetween(edges, q, b, c);
    var r := p + q[1..];
    forall i | 0 <= i < |r| - 1
      ensures (r[i], r[i + 1]) in edges
    {
      if i >= |p| - 1 {
        assert r[i] == q[i - (|p| - 1)] && r[i + 1] == q[i + 1 - (|p| - 1)];
      }
    }
    assert PathBetween(edges, r, a, c);
  }

  lemma ReachesMonotone(edges: Edges, more: Edges, a: Node, b: Node)
    requires edges <= more && Reaches(edges, a, b)
    ensures Reaches(more, a, b)
  {
    var p :| PathBetween(edges, p, a, b);
    assert PathBetween(more, p, a, b);
  }

  /** What one new edge (u, v) can add: whatever it joins up. */
  lemma {:induction false} PathWithNewEdge(edges: Edges, u: Node, v: Node, p: seq<Node>, a: Node, b: Node)
    requires PathBetween(edges + {(u, v)}, p, a, b)
    ensures Reaches(edges, a, b)
         || ((a == u || Reaches(edges, a, u)) && (v == b || Reaches(edges, v, b)))
    decreases |p|
  {
    assert (p[0], p[1]) in edges + {(u, v)};
    if |p| == 2 {
      if (a, b) in edges { ReachesEdge(edges, a, b); }
    } else {
      var next := p[1];
      assert PathBetween(edges + {(u, v)}, p[1..], next, b);
      PathWithNewEdge(edges, u, v, p[1..], next, b);
      if (a, next) in edges {
        ReachesEdge(edges, a, next);
        if Reaches(edges, next, b) {
          ReachesTransitive(edges, a, next, b);
        } else if next != u {
          ReachesTransitive(edges, a, next, u);
        }
      }
    }
  }

  /** Adding an edge keeps an acyclic graph acyclic exactly when its head does
      not already reach its tail. */
  lemma AcyclicAfterEdge(edges: Edges, u: Node, v: Node)
    requires Acyclic(edges)
    ensures Acyclic(edges + {(u, v)}) <==> u != v && !Reaches(edges, v, u)
  {
    var more := edges + {(u, v)};
    if u == v || Reaches(edges, v, u) {
      ReachesEdge(more, u, v);
      if u != v {
        ReachesMonotone(edges, more, v, u);
        ReachesTransitive(more, u, v, u);
      }
      assert Reaches(more, u, u);
    } else {
      forall a
        ensures !Reaches(more, a, a)
      {
        if Reaches(more, a, a) {
          var p :| PathBetween(more, p, a, a);
          PathWithNewEdge(edges, u, v, p, a, a);
          if v != a && a != u {
            ReachesTransitive(edges, v, a, u);
          }
        }
      }
    }
  }

  ghost function ReachedWithin(edges: Edges, nodes: set<Node>, from: Node): set<Node> {
    set n | n in nodes && Reaches(edges, from, n)
  }

  /** In an acyclic graph every nonempty finite set of nodes has a member with
      no edge into the set. */
  lemma {:induction false} SinkWithin(edges: Edges, nodes: set<Node>, start: Node) returns (sink: Node)
    requires Acyclic(edges) && start in nodes
    ensures sink in nodes && forall n :: n in nodes ==> (sink, n) !in edges
    decreases ReachedWithin(edges, nodes, start)
  {
    if next :| next in nodes && (start, next) in edges {
      ReachesEdge(edges, start, next);
      forall n | n in ReachedWithin(edges, nodes, next)
        ensures n in ReachedWithin(edges, nodes, start)
      {
        ReachesTransitive(edges, start, next, n);
      }
      assert next in ReachedWithin(edges, nodes, start) - ReachedWithin(edges, nodes, next);
      sink := SinkWithin(edges, nodes, next);
    } else {
      sink := start;
    }
  }
}
