/**
 * The dependency graph the executor builds with jgrapht's DirectedAcyclicGraph, as a map
 * from a deployment's name to the names of the deployments it depends on: an edge v -> w
 * means "v depends on w". Reachability is the computable fixpoint `Close`, characterised by
 * three lemmas (it contains its seeds, it is closed under one step, it is the least such
 * set); every other fact about reachability below is derived from those three.
 */
module Graphs {

  /** ResourceActionDirection: CREATE walks dependencies first, DELETE dependents first. */
  datatype Direction = Create | Delete

  type Graph = map<string, set<string>>

  /** Every dependency names a vertex of the graph. */
  predicate Closed(g: Graph) {
    forall v, w :: v in g && w in g[v] ==> w in g
  }

  /** Every vertex and every edge of g1 is also in g2. */
  predicate SubGraph(g1: Graph, g2: Graph) {
    forall v :: v in g1 ==> v in g2 && g1[v] <= g2[v]
  }

  /** The vertices one edge away from some vertex of s. */
  function Succ(g: Graph, s: set<string>): set<string> {
    set v, w | v in s && v in g && w in g[v] :: w
  }

  /** Every name the graph mentions. */
  function Universe(g: Graph): set<string> {
    g.Keys + Succ(g, g.Keys)
  }

  lemma CloseStep(g: Graph, seen: set<string>)
    requires seen + Succ(g, seen) != seen
    ensures |Universe(g) - (seen + Succ(g, seen))| < |Universe(g) - seen|
  {
    var next := seen + Succ(g, seen);
    var x :| x in next && x !in seen;
    assert x in Universe(g);
    ProperSubsetSmaller(Universe(g) - next, Universe(g) - seen);
  }

  lemma ProperSubsetSmaller(a: set<string>, b: set<string>)
    requires a < b
    ensures |a| < |b|
  {
    var x :| x in b && x !in a;
    assert b == a + (b - a);
    assert x in b - a;
  }

  /** Everything reachable from `seen` in zero or more steps. */
  function Close(g: Graph, seen: set<string>): set<string>
    decreases |Universe(g) - seen|
  {
    var next := seen + Succ(g, seen);
    if next == seen then seen
    else
      CloseStep(g, seen);
      Close(g, next)
  }

  lemma {:induction false} SeedsInClose(g: Graph, s: set<string>)
    ensures s <= Close(g, s)
    decreases |Universe(g) - s|
  {
    var next := s + Succ(g, s);
    if next != s {
      CloseStep(g, s);
      SeedsInClose(g, next);
    }
  }

  lemma {:induction false} CloseIsClosed(g: Graph, s: set<string>)
    ensures Succ(g, Close(g, s)) <= Close(g, s)
    decreases |Universe(g) - s|
  {
    var next := s + Succ(g, s);
    if next != s {
      CloseStep(g, s);
      CloseIsClosed(g, next);
    }
  }

  lemma {:induction false} CloseIsLeast(g: Graph, s: set<string>, t: set<string>)
    requires s <= t && Succ(g, t) <= t
    ensures Close(g, s) <= t
    decreases |Universe(g) - s|
  {
    var next := s + Succ(g, s);
    if next != s {
      assert Succ(g, s) <= Succ(g, t);
      CloseStep(g, s);
      CloseIsLeast(g, next, t);
    }
  }

  /** Reachability is transitive: whatever x reaches, the seeds that reach x reach too. */
  lemma CloseTrans(g: Graph, s: set<string>, x: string)
    requires x in Close(g, s)
    ensures Close(g, {x}) <= Close(g, s)
  {
    CloseIsClosed(g, s);
    CloseIsLeast(g, {x}, Close(g, s));
  }

  lemma CloseMono(g: Graph, s: set<string>, t: set<string>)
    requires s <= t
    ensures Close(g, s) <= Close(g, t)
  {
    SeedsInClose(g, t);
    CloseIsClosed(g, t);
    CloseIsLeast(g, s, Close(g, t));
  }

  /** Following one edge v -> w: whatever w reaches, v reaches. */
  lemma CloseEdge(g: Graph, v: string, w: string)
    requires v in g && w in g[v]
    ensures w in Close(g, {v}) && Close(g, {w}) <= Close(g, {v})
  {
    SeedsInClose(g, {v});
    CloseIsClosed(g, {v});
    assert w in Succ(g, {v});
    assert w in Succ(g, Close(g, {v}));
    CloseTrans(g, {v}, w);
  }

  /** Adding vertices and edges can only add reachable vertices. */
  lemma CloseSubGraph(g1: Graph, g2: Graph, s: set<string>)
    requires SubGraph(g1, g2)
    ensures Close(g1, s) <= Close(g2, s)
  {
    SeedsInClose(g2, s);
    CloseIsClosed(g2, s);
    assert Succ(g1, Close(g2, s)) <= Succ(g2, Close(g2, s));
    CloseIsLeast(g1, s, Close(g2, s));
  }

  /**
   * No edge v -> w closes a cycle: v is not reachable from w. This is the check jgrapht's
   * DirectedAcyclicGraph.addEdge makes before it accepts an edge, applied to every edge.
   */
  predicate Acyclic(g: Graph) {
    forall v, w :: v in g && w in g[v] ==> v !in Close(g, {w})
  }

  lemma SubGraphAcyclic(g1: Graph, g2: Graph)
    requires SubGraph(g1, g2) && Acyclic(g2)
    ensures Acyclic(g1)
  {
    forall v, w | v in g1 && w in g1[v] ensures v !in Close(g1, {w}) {
      CloseSubGraph(g1, g2, {w});
    }
  }

  // ----- the reversed graph: edges from a dependency to its dependents -----

  /** The vertices whose dependencies include v (jgrapht's incoming edges of v). */
  function Dependents(g: Graph, v: string): set<string> {
    set w | w in g && v in g[w]
  }

  function Reverse(g: Graph): (r: Graph)
    ensures r.Keys == g.Keys
  {
    map v | v in g :: Dependents(g, v)
  }

  /** The vertices of g from which a is reachable (jgrapht's getAncestors). */
  function Ancestors(g: Graph, a: string): (t: set<string>)
    ensures forall x :: x in t <==> x in g && a in Close(g, {x})
  {
    set x | x in g && a in Close(g, {x})
  }

  /** Reaching b from a along edges each of which reverses an edge of g: g reaches a from b. */
  lemma BackwardReach(g: Graph, r: Graph, a: string, b: string)
    requires forall x, y :: x in r && y in r[x] ==> y in g && x in g[y]
    requires a in g && b in Close(r, {a})
    ensures a in Close(g, {b})
  {
    var t := set x | x in g && a in Close(g, {x});
    SeedsInClose(g, {a});
    assert a in t;
    forall y | y in Succ(r, t) ensures y in t {
      var x :| x in t && x in r && y in r[x];
      CloseEdge(g, y, x);
    }
    CloseIsLeast(r, {a}, t);
  }

  /** What the reversed graph reaches from a, the original graph reaches a from. */
  lemma ReverseReach(g: Graph, a: string, b: string)
    requires a in g && b in Close(Reverse(g), {a})
    ensures a in Close(g, {b})
  {
    var r := Reverse(g);
    forall x, y | x in r && y in r[x] ensures y in g && x in g[y] {
      assert y in Dependents(g, x);
    }
    BackwardReach(g, r, a, b);
  }

  /** What the original graph reaches from a, the reversed graph reaches a from. */
  lemma ReverseReachConverse(g: Graph, a: string, b: string)
    requires Closed(g) && a in g && b in Close(g, {a})
    ensures a in Close(Reverse(g), {b})
  {
    var r := Reverse(g);
    var t := set x | x in g && a in Close(r, {x});
    SeedsInClose(r, {a});
    assert a in t;
    forall y | y in Succ(g, t) ensures y in t {
      var x :| x in t && x in g && y in g[x];
      assert y in g && x in Dependents(g, y);
      CloseEdge(r, y, x);
    }
    CloseIsLeast(g, {a}, t);
  }

  /** Reachability from two sets of seeds is the union of their reachabilities. */
  lemma CloseSplit(g: Graph, a: set<string>, b: set<string>)
    ensures Close(g, a + b) == Close(g, a) + Close(g, b)
  {
    var t := Close(g, a) + Close(g, b);
    CloseMono(g, a, a + b);
    CloseMono(g, b, a + b);
    SeedsInClose(g, a);
    SeedsInClose(g, b);
    CloseIsClosed(g, a);
    CloseIsClosed(g, b);
    forall y | y in Succ(g, t) ensures y in t {
      var z :| z in t && z in g && y in g[z];
      if z in Close(g, a) {
        assert y in Succ(g, Close(g, a));
      } else {
        assert y in Succ(g, Close(g, b));
      }
    }
    CloseIsLeast(g, a + b, t);
  }

  /** Reachability from a set of seeds is reachability from one of them. */
  lemma {:induction false} CloseUnion(g: Graph, s: set<string>, v: string)
    ensures v in Close(g, s) <==> exists x :: x in s && v in Close(g, {x})
    decreases |s|
  {
    if s == {} {
      SeedsInClose(g, s);
      assert Succ(g, {}) == {};
      CloseIsLeast(g, {}, {});
    } else {
      var x :| x in s;
      var rest := s - {x};
      assert s == {x} + rest;
      CloseSplit(g, {x}, rest);
      CloseUnion(g, rest, v);
    }
  }

  /** In a closed graph, what is reachable from vertices is a vertex. */
  lemma CloseWithinKeys(g: Graph, s: set<string>)
    requires Closed(g) && s <= g.Keys
    ensures Close(g, s) <= g.Keys
  {
    CloseIsLeast(g, s, g.Keys);
  }

  lemma ReverseAcyclic(g: Graph)
    requires Closed(g) && Acyclic(g)
    ensures Closed(Reverse(g)) && Acyclic(Reverse(g))
  {
    var r := Reverse(g);
    forall v, w | v in r && w in r[v] ensures v !in Close(r, {w}) {
      if v in Close(r, {w}) {
        ReverseReach(g, w, v);
        assert false;
      }
    }
  }

  // ----- adding one edge, as the executor's constructor does for every dependency -----

  function AddEdge(g: Graph, a: string, b: string): Graph
    requires a in g
  {
    g[a := g[a] + {b}]
  }

  lemma CloseAfterAddEdge(g: Graph, a: string, b: string, s: set<string>)
    requires a in g
    ensures Close(AddEdge(g, a, b), s) <= Close(g, s) + (if a in Close(g, s) then Close(g, {b}) else {})
  {
    var g' := AddEdge(g, a, b);
    var t := Close(g, s) + (if a in Close(g, s) then Close(g, {b}) else {});
    SeedsInClose(g, s);
    CloseIsClosed(g, s);
    SeedsInClose(g, {b});
    CloseIsClosed(g, {b});
    forall y | y in Succ(g', t) ensures y in t {
      var x :| x in t && x in g' && y in g'[x];
      if x == a && y == b {
      } else if x in Close(g, s) {
        assert y in Succ(g, Close(g, s));
      } else {
        assert y in Succ(g, Close(g, {b}));
      }
    }
    CloseIsLeast(g', s, t);
  }

  /** jgrapht accepts the edge a -> b only when b does not reach a; then no cycle appears. */
  lemma AddEdgeAcyclic(g: Graph, a: string, b: string)
    requires Closed(g) && Acyclic(g) && a in g && b in g && a !in Close(g, {b})
    ensures Closed(AddEdge(g, a, b)) && Acyclic(AddEdge(g, a, b))
  {
    var g' := AddEdge(g, a, b);
    forall v, w | v in g' && w in g'[v] ensures v !in Close(g', {w}) {
      CloseAfterAddEdge(g, a, b, {w});
      if v == a && w == b {
        SeedsInClose(g, {b});
      } else {
        assert w in g[v];
        if a in Close(g, {w}) && v in Close(g, {b}) {
          CloseEdge(g, v, w);
          CloseTrans(g, {b}, v);
          CloseTrans(g, {v}, w);
          assert false;
        }
      }
    }
  }

  // ----- the blocking relation of a run -----

  /** The graph whose edge v -> u says "v may start only once u is done" in direction dir. */
  function WaitGraph(g: Graph, dir: Direction): (r: Graph)
    ensures r.Keys == g.Keys
  {
    if dir == Create then g else Reverse(g)
  }

  lemma WaitGraphAcyclic(g: Graph, dir: Direction)
    requires Closed(g) && Acyclic(g)
    ensures Closed(WaitGraph(g, dir)) && Acyclic(WaitGraph(g, dir))
  {
    if dir == Delete {
      ReverseAcyclic(g);
    }
  }

  /**
   * jgrapht's outgoingEdgesOf(v) (CREATE) or incomingEdgesOf(v) (DELETE) is non-empty:
   * v still has a dependency (CREATE) or a dependent (DELETE) in the graph.
   */
  predicate Blocked(g: Graph, dir: Direction, v: string)
    requires v in g
  {
    if dir == Create then g[v] != {} else exists w :: w in g && v in g[w]
  }

  /** The vertices of g with no blocking edge in direction dir. */
  function Frontier(g: Graph, dir: Direction): set<string> {
    set v | v in g && !Blocked(g, dir, v)
  }

  /** What is left of g once every vertex outside s is removed (jgrapht's removeVertex). */
  function Restrict(g: Graph, s: set<string>): (r: Graph)
    ensures r.Keys == g.Keys * s
  {
    map v | v in g && v in s :: g[v] * s
  }

  function RemoveVertex(g: Graph, v: string): (r: Graph)
    ensures r.Keys == g.Keys - {v}
  {
    map w | w in g && w != v :: g[w] - {v}
  }

  lemma RestrictSubGraph(g: Graph, s: set<string>)
    ensures SubGraph(Restrict(g, s), g)
  {
  }

  lemma RestrictClosed(g: Graph, s: set<string>)
    requires Closed(g)
    ensures Closed(Restrict(g, s))
  {
  }

  lemma RestrictAll(g: Graph)
    requires Closed(g)
    ensures Restrict(g, g.Keys) == g
  {
    var r := Restrict(g, g.Keys);
    forall v | v in g ensures r[v] == g[v] {
    }
  }

  lemma RemoveVertexRestrict(g: Graph, s: set<string>, v: string)
    ensures RemoveVertex(Restrict(g, s), v) == Restrict(g, s - {v})
  {
    var a := RemoveVertex(Restrict(g, s), v);
    var b := Restrict(g, s - {v});
    assert a.Keys == b.Keys;
    forall w | w in a ensures a[w] == b[w] {
      assert a[w] == g[w] * s - {v};
    }
  }

  /**
   * Once the vertices in `done` are removed, a remaining vertex v is blocked exactly when
   * something it waits on in the full graph has not been removed.
   */
  lemma BlockedAfterRemoval(g: Graph, dir: Direction, done: set<string>, v: string)
    requires Closed(g) && v in g && v !in done
    ensures v in Restrict(g, g.Keys - done)
    ensures Blocked(Restrict(g, g.Keys - done), dir, v) <==> !(WaitGraph(g, dir)[v] <= done)
  {
    var live := Restrict(g, g.Keys - done);
    if dir == Create {
      assert live[v] == g[v] * (g.Keys - done);
      if !(g[v] <= done) {
        var w :| w in g[v] && w !in done;
        assert w in live[v];
      }
    } else {
      if Blocked(live, dir, v) {
        var w :| w in live && v in live[w];
        assert w in Dependents(g, v) && w !in done;
      }
      if !(WaitGraph(g, dir)[v] <= done) {
        var w :| w in Dependents(g, v) && w !in done;
        assert w in live && v in live[w];
      }
    }
  }

  /**
   * A non-empty acyclic graph always has an unblocked vertex: from any vertex x not yet
   * done, follow a not-yet-done edge; the set reached shrinks strictly at every step, so
   * the walk ends at a vertex whose every successor is done.
   */
  lemma {:induction false} FindUnblocked(g: Graph, done: set<string>, x: string) returns (y: string)
    requires Closed(g) && Acyclic(g) && x in g && x !in done
    ensures y in g && y !in done && g[y] <= done && y in Close(g, {x})
    decreases |Close(g, {x})|
  {
    SeedsInClose(g, {x});
    if g[x] <= done {
      y := x;
    } else {
      var u :| u in g[x] && u !in done;
      CloseEdge(g, x, u);
      assert x !in Close(g, {u});
      ProperSubsetSmaller(Close(g, {u}), Close(g, {x}));
      y := FindUnblocked(g, done, u);
    }
  }
}
