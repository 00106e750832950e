/**
 * The part of ResourceActionGraphExecutor's constructor that can fail: turning every manifest
 * entry into an action (deploymentToAction), keying them by name (Collectors.toMap), adding
 * one edge per declared dependency to the DirectedAcyclicGraph, and choosing which vertices a
 * run keeps.
 */
module Build {
  import opened Wrappers
  import opened Graphs
  import opened Kinds
  import opened Lifecycle
  import opened Manifest

  /** The `kind` node of a parsed resource file: absent, not text, or a string. */
  datatype KindField = Missing | NotText | Text(value: string)

  /** What the executor and the actions read from a resource file. */
  datatype ResourceFile = ResourceFile(kind: KindField, name: string, namespace: Option<string>)

  /** A manifest entry together with the parsed resource file its location names. */
  datatype Entry = Entry(deployment: Deployment, file: ResourceFile)

  /** DeploymentAction: a vertex of the graph, a manifest entry with its action. */
  datatype Vertex = Vertex(deployment: Deployment, action: Resource)

  /** The exceptions the constructor can end with. */
  datatype BuildError =
    | IllegalParallelism(parallelism: int)
    | NoKind(location: string)
    | UnsupportedKind(kind: string)
    | DuplicateName(name: string)
    | UnresolvedDependency(name: string, dependency: string)
    | CycleEdge(name: string, dependency: string)
    | UnknownResource(name: string)

  /** The largest parallelism Executors.newWorkStealingPool accepts (ForkJoinPool's limit). */
  const MaxParallelism: int := 0x7fff

  /**
   * deploymentToAction: a missing or non-text kind fails with "No kind defined in <location>",
   * a kind outside the eight supported ones with "Unsupported deployment kind: <kind>".
   * `scope` is the namespace handed to the Pod and Service actions.
   */
  function ToAction(e: Entry, scope: string): Result<Vertex, BuildError>
  {
    match e.file.kind
    case Missing => Failure(NoKind(e.deployment.location))
    case NotText => Failure(NoKind(e.deployment.location))
    case Text(k) =>
      match ParseKind(k)
      case None => Failure(UnsupportedKind(k))
      case Some(kind) =>
        var namespace := ResourceNamespace(kind, e.file.namespace, scope);
        Success(Vertex(e.deployment, Resource(kind, e.file.name, namespace, e.deployment.maxWaitSeconds)))
  }

  /**
   * deploymentToAction succeeds exactly on the eight supported kind strings, and then builds
   * the action of that kind for the entry's resource, with the entry's wait.
   */
  lemma ToActionSpec(e: Entry, scope: string)
    ensures var r := ToAction(e, scope);
      && (r.Success? <==> e.file.kind.Text? && ParseKind(e.file.kind.value).Some?)
      && (!e.file.kind.Text? ==> r == Failure(NoKind(e.deployment.location)))
      && (e.file.kind.Text? && ParseKind(e.file.kind.value).None? ==>
            r == Failure(UnsupportedKind(e.file.kind.value)))
      && (r.Success? ==>
            && r.value.deployment == e.deployment
            && Label(r.value.action.kind) == e.file.kind.value
            && r.value.action.name == e.file.name
            && r.value.action.maxWaitSeconds == e.deployment.maxWaitSeconds
            && r.value.action.namespace == ResourceNamespace(r.value.action.kind, e.file.namespace, scope))
  {
  }

  /**
   * The stream of entries mapped to actions and collected by name, one entry at a time in
   * manifest order: the first entry that fails to map, or that repeats a name, ends it.
   */
  function Collect(entries: seq<Entry>, scope: string): Result<map<string, Vertex>, BuildError>
  {
    if entries == [] then Success(map[])
    else
      var before :- Collect(entries[..|entries| - 1], scope);
      Insert(before, entries[|entries| - 1], scope)
  }

  /** One step of the collector: map the entry, then refuse a name already collected. */
  function Insert(before: map<string, Vertex>, e: Entry, scope: string): (r: Result<map<string, Vertex>, BuildError>)
    ensures r.Success? <==> ToAction(e, scope).Success? && e.deployment.name !in before
    ensures r.Success? ==> r.value == before[e.deployment.name := ToAction(e, scope).value]
    ensures r.Failure? && ToAction(e, scope).Success? ==> r.error == DuplicateName(e.deployment.name)
    ensures r.Failure? && ToAction(e, scope).Failure? ==> r.error == ToAction(e, scope).error
  {
    var v :- ToAction(e, scope);
    if e.deployment.name in before then Failure(DuplicateName(e.deployment.name))
    else Success(before[e.deployment.name := v])
  }

  function Names(entries: seq<Entry>): set<string> {
    set i | 0 <= i < |entries| :: entries[i].deployment.name
  }

  predicate DistinctNames(entries: seq<Entry>) {
    forall i, j :: 0 <= i < j < |entries| ==> entries[i].deployment.name != entries[j].deployment.name
  }

  predicate AllKindsSupported(entries: seq<Entry>, scope: string) {
    forall i :: 0 <= i < |entries| ==> ToAction(entries[i], scope).Success?
  }

  /** Every kind supported in a longer stream: in its prefix and in its last entry. */
  lemma SupportedSplit(entries: seq<Entry>, scope: string)
    requires entries != []
    ensures AllKindsSupported(entries, scope) <==>
      AllKindsSupported(entries[..|entries| - 1], scope) && ToAction(entries[|entries| - 1], scope).Success?
  {
    var n := |entries| - 1;
    assert forall i :: 0 <= i < n ==> entries[..n][i] == entries[i];
  }

  /** Distinct names in a longer stream: in its prefix, and the last name is new. */
  lemma DistinctSplit(entries: seq<Entry>)
    requires entries != []
    ensures DistinctNames(entries) <==>
      DistinctNames(entries[..|entries| - 1]) && entries[|entries| - 1].deployment.name !in Names(entries[..|entries| - 1])
  {
    var n := |entries| - 1;
    var prefix := entries[..n];
    assert forall i :: 0 <= i < n ==> prefix[i] == entries[i];
    if DistinctNames(prefix) && entries[n].deployment.name !in Names(prefix) {
      forall i, j | 0 <= i < j < |entries| ensures entries[i].deployment.name != entries[j].deployment.name {
        if j == n {
          assert prefix[i].deployment.name in Names(prefix);
        }
      }
    }
  }

  /** Collecting succeeds exactly when every entry has a supported kind and no two entries share a name. */
  lemma {:induction false} CollectSucceeds(entries: seq<Entry>, scope: string)
    ensures Collect(entries, scope).Success? <==> AllKindsSupported(entries, scope) && DistinctNames(entries)
    decreases |entries|
  {
    if entries != [] {
      var prefix := entries[..|entries| - 1];
      CollectSucceeds(prefix, scope);
      SupportedSplit(entries, scope);
      DistinctSplit(entries);
      if Collect(prefix, scope).Success? {
        CollectKeys(prefix, scope);
      }
    }
  }

  /** A successful collection holds exactly the entries' names. */
  lemma {:induction false} CollectKeys(entries: seq<Entry>, scope: string)
    requires Collect(entries, scope).Success?
    ensures Collect(entries, scope).value.Keys == Names(entries)
    decreases |entries|
  {
    if entries != [] {
      var n := |entries| - 1;
      CollectKeys(entries[..n], scope);
      assert Names(entries) == Names(entries[..n]) + {entries[n].deployment.name} by {
        forall x | x in Names(entries) ensures x in Names(entries[..n]) + {entries[n].deployment.name} {
          var i :| 0 <= i < |entries| && entries[i].deployment.name == x;
          if i < n {
            assert entries[..n][i].deployment.name == x;
          }
        }
        forall x | x in Names(entries[..n]) ensures x in Names(entries) {
          var i :| 0 <= i < n && entries[..n][i].deployment.name == x;
          assert entries[i].deployment.name == x;
        }
      }
    }
  }

  /** A successful collection keeps, under each entry's name, the action that entry maps to. */
  lemma {:induction false} CollectHolds(entries: seq<Entry>, scope: string, i: nat)
    requires Collect(entries, scope).Success? && i < |entries|
    ensures entries[i].deployment.name in Collect(entries, scope).value
    ensures ToAction(entries[i], scope) == Success(Collect(entries, scope).value[entries[i].deployment.name])
    decreases |entries|
  {
    var n := |entries| - 1;
    var prefix := entries[..n];
    var before := Collect(prefix, scope).value;
    if i < n {
      CollectHolds(prefix, scope, i);
      assert prefix[i] == entries[i];
      assert entries[i].deployment.name in before;
    }
  }

  /** Collecting fails only in deploymentToAction or on a repeated name. */
  lemma {:induction false} CollectErrors(entries: seq<Entry>, scope: string)
    requires Collect(entries, scope).Failure?
    ensures var e := Collect(entries, scope).error;
      e.NoKind? || e.UnsupportedKind? || e.DuplicateName?
    decreases |entries|
  {
    if entries != [] && Collect(entries[..|entries| - 1], scope).Failure? {
      CollectErrors(entries[..|entries| - 1], scope);
    }
  }

  /** The declared dependency graph: each vertex's name mapped to its entry's dependencies. */
  function Declared(vertices: map<string, Vertex>): (g: Graph)
    ensures g.Keys == vertices.Keys
  {
    map n | n in vertices :: vertices[n].deployment.dependencies
  }

  /** Collectors.toMap over deploymentToAction, one entry at a time. */
  method CollectVertices(entries: seq<Entry>, scope: string) returns (r: Result<map<string, Vertex>, BuildError>)
    ensures r == Collect(entries, scope)
  {
    var vertices: map<string, Vertex> := map[];
    var i := 0;
    while i < |entries|
      invariant 0 <= i <= |entries|
      invariant Collect(entries[..i], scope) == Success(vertices)
    {
      assert entries[..i + 1][..i] == entries[..i];
      var e := entries[i];
      var v := ToAction(e, scope);
      if v.Failure? {
        assert Collect(entries[..i + 1], scope) == Failure(v.error);
        CollectStopsAtFailure(entries, scope, i + 1);
        return Failure(v.error);
      }
      if e.deployment.name in vertices {
        CollectStopsAtFailure(entries, scope, i + 1);
        return Failure(DuplicateName(e.deployment.name));
      }
      vertices := vertices[e.deployment.name := v.value];
      i := i + 1;
    }
    assert entries[..i] == entries;
    return Success(vertices);
  }

  /** Once a prefix of the entries fails, the whole stream fails the same way. */
  lemma {:induction false} CollectStopsAtFailure(entries: seq<Entry>, scope: string, k: nat)
    requires k <= |entries| && Collect(entries[..k], scope).Failure?
    ensures Collect(entries, scope) == Collect(entries[..k], scope)
    decreases |entries| - k
  {
    if k < |entries| {
      assert entries[..k + 1][..k] == entries[..k];
      CollectStopsAtFailure(entries, scope, k + 1);
    } else {
      assert entries[..k] == entries;
    }
  }

  /** The bad edge an addEdge call refuses: an undeclared dependency, or one closing a cycle. */
  predicate Refused(declared: Graph, e: BuildError) {
    match e
    case UnresolvedDependency(a, b) => a in declared && b in declared[a] && b !in declared
    case CycleEdge(a, b) => a in declared && b in declared[a] && a in Close(declared, {b})
    case _ => false
  }

  /**
   * The addEdge calls for the dependencies of one vertex `a`, in an order the model leaves
   * open, on a graph that holds every declared vertex and part of the declared edges.
   */
  method LinkVertex(g0: Graph, declared: Graph, a: string) returns (r: Result<Graph, BuildError>)
    requires g0.Keys == declared.Keys && a in g0 && g0[a] == {}
    requires Closed(g0) && Acyclic(g0) && SubGraph(g0, declared)
    ensures r.Success? ==> r.value == g0[a := declared[a]] && Closed(r.value) && Acyclic(r.value)
    ensures r.Failure? ==> Refused(declared, r.error)
  {
    var g := g0;
    var deps := declared[a];
    assert declared[a] - deps == {} == g0[a];
    assert g0[a := g0[a]] == g0;
    while deps != {}
      invariant deps <= declared[a]
      invariant g == g0[a := declared[a] - deps]
      invariant Closed(g) && Acyclic(g)
    {
      var b :| b in deps;
      if b !in g {
        return Failure(UnresolvedDependency(a, b));
      }
      if a in Close(g, {b}) {
        assert SubGraph(g, declared);
        CloseSubGraph(g, declared, {b});
        return Failure(CycleEdge(a, b));
      }
      AddEdgeAcyclic(g, a, b);
      assert (declared[a] - deps) + {b} == declared[a] - (deps - {b});
      g := AddEdge(g, a, b);
      deps := deps - {b};
    }
    assert declared[a] - deps == declared[a];
    return Success(g);
  }

  /**
   * The two forEach loops of the constructor over the declared graph: every vertex first,
   * then one addEdge per declared dependency, in an order the model leaves open. An edge to an
   * undeclared name fails; so does an edge a -> b when b already reaches a (jgrapht's cycle
   * check). The build succeeds exactly when every dependency resolves and the declared graph
   * is acyclic, and then the graph built is the declared one.
   */
  method BuildGraph(declared: Graph) returns (r: Result<Graph, BuildError>)
    ensures r.Success? <==> Closed(declared) && Acyclic(declared)
    ensures r.Success? ==> r.value == declared
    ensures r.Failure? ==> r.error.UnresolvedDependency? || r.error.CycleEdge?
    ensures r.Failure? && r.error.UnresolvedDependency? ==>
      var a, b := r.error.name, r.error.dependency;
      a in declared && b in declared[a] && b !in declared
    ensures r.Failure? && r.error.CycleEdge? ==>
      var a, b := r.error.name, r.error.dependency;
      a in declared && b in declared[a] && a in Close(declared, {b})
  {
    var g: Graph := map[];
    var pending := declared.Keys;
    while pending != {}
      invariant pending <= declared.Keys
      invariant g.Keys == declared.Keys - pending
      invariant forall v :: v in g ==> g[v] == {}
    {
      var v :| v in pending;
      g := g[v := {}];
      pending := pending - {v};
    }
    pending := declared.Keys;
    while pending != {}
      invariant pending <= declared.Keys && g.Keys == declared.Keys
      invariant forall v :: v in g ==> g[v] == (if v in pending then {} else declared[v])
      invariant Closed(g) && Acyclic(g)
    {
      var a :| a in pending;
      var linked := LinkVertex(g, declared, a);
      if linked.Failure? {
        assert Refused(declared, linked.error);
        return Failure(linked.error);
      }
      g := linked.value;
      pending := pending - {a};
    }
    assert g == declared;
    return Success(g);
  }

  /** The first requested name the graph does not know, in request order. */
  function FirstUnknown(resources: seq<string>, g: Graph): (r: Option<string>)
    ensures r.None? <==> forall i :: 0 <= i < |resources| ==> resources[i] in g
    ensures r.Some? ==> r.value !in g && exists i :: 0 <= i < |resources| && resources[i] == r.value
  {
    if resources == [] then None
    else if resources[0] !in g then Some(resources[0])
    else
      var rest := FirstUnknown(resources[1..], g);
      if rest.Some? then
        assert exists i :: 0 <= i < |resources| - 1 && resources[1..][i] == rest.value;
        rest
      else
        assert forall i :: 1 <= i < |resources| ==> resources[i] == resources[1..][i - 1];
        rest
  }

  function Requested(resources: seq<string>): set<string> {
    set i | 0 <= i < |resources| :: resources[i]
  }

  /**
   * The vertices a run keeps: all of them when no resource is named; otherwise the named ones
   * together with their descendants (CREATE: what they depend on) or their ancestors (DELETE:
   * what depends on them). Naming an unknown resource fails.
   */
  function SelectKept(g: Graph, dir: Direction, resources: seq<string>): (r: Result<set<string>, BuildError>)
    ensures resources == [] ==> r == Success(g.Keys)
    ensures r.Failure? <==> FirstUnknown(resources, g).Some?
    ensures r.Failure? ==> r.error == UnknownResource(FirstUnknown(resources, g).value)
  {
    if resources == [] then Success(g.Keys)
    else
      match FirstUnknown(resources, g)
      case Some(n) => Failure(UnknownResource(n))
      case None => Success(Close(WaitGraph(g, dir), Requested(resources)))
  }

  /**
   * CREATE keeps exactly the requested vertices and every vertex one of them reaches by
   * following dependencies; and nothing but vertices of the graph.
   */
  lemma SelectKeptCreate(g: Graph, resources: seq<string>, v: string)
    requires Closed(g) && resources != [] && SelectKept(g, Create, resources).Success?
    ensures SelectKept(g, Create, resources).value <= g.Keys
    ensures v in SelectKept(g, Create, resources).value <==>
      exists i :: 0 <= i < |resources| && v in Close(g, {resources[i]})
  {
    var s := Requested(resources);
    CloseWithinKeys(g, s);
    CloseUnion(g, s, v);
    if exists x :: x in s && v in Close(g, {x}) {
      var x :| x in s && v in Close(g, {x});
      var i :| 0 <= i < |resources| && resources[i] == x;
    }
  }

  /**
   * DELETE keeps exactly the vertices of the graph from which some requested vertex is
   * reachable: the requested ones and everything that depends on them, directly or not
   * (getAncestors of each requested vertex, together with the requested vertices).
   */
  lemma SelectKeptDelete(g: Graph, resources: seq<string>, v: string)
    requires Closed(g) && resources != [] && SelectKept(g, Delete, resources).Success?
    ensures SelectKept(g, Delete, resources).value <= g.Keys
    ensures v in SelectKept(g, Delete, resources).value <==>
      v in g && exists i :: 0 <= i < |resources| && resources[i] in Close(g, {v})
    ensures v in SelectKept(g, Delete, resources).value <==>
      exists i :: 0 <= i < |resources| && (v == resources[i] || v in Ancestors(g, resources[i]))
  {
    SelectKeptReach(g, resources, v);
    if exists i :: 0 <= i < |resources| && (v == resources[i] || v in Ancestors(g, resources[i])) {
      var i :| 0 <= i < |resources| && (v == resources[i] || v in Ancestors(g, resources[i]));
      if v == resources[i] {
        assert resources[i] in g by { assert FirstUnknown(resources, g).None?; }
        SeedsInClose(g, {v});
      }
    }
  }

  /** The first form of SelectKeptDelete: reachability in the reversed graph is ancestry. */
  lemma SelectKeptReach(g: Graph, resources: seq<string>, v: string)
    requires Closed(g) && resources != [] && SelectKept(g, Delete, resources).Success?
    ensures SelectKept(g, Delete, resources).value <= g.Keys
    ensures v in SelectKept(g, Delete, resources).value <==>
      v in g && exists i :: 0 <= i < |resources| && resources[i] in Close(g, {v})
  {
    var s := Requested(resources);
    var r := Reverse(g);
    ReverseAcyclicClosed(g);
    CloseWithinKeys(r, s);
    CloseUnion(r, s, v);
    if v in Close(r, s) {
      var x :| x in s && v in Close(r, {x});
      var i :| 0 <= i < |resources| && resources[i] == x;
      ReverseReach(g, x, v);
    }
    if v in g && exists i :: 0 <= i < |resources| && resources[i] in Close(g, {v}) {
      var i :| 0 <= i < |resources| && resources[i] in Close(g, {v});
      ReverseReachConverse(g, v, resources[i]);
      assert resources[i] in s;
    }
  }

  lemma ReverseAcyclicClosed(g: Graph)
    requires Closed(g)
    ensures Closed(Reverse(g))
  {
  }

  /** A kept vertex's waits are kept too, so pruning never cuts an edge a kept vertex waits on. */
  lemma SelectKeptClosed(g: Graph, dir: Direction, resources: seq<string>)
    requires Closed(g) && SelectKept(g, dir, resources).Success?
    ensures var kept := SelectKept(g, dir, resources).value;
      forall v :: v in kept && v in WaitGraph(g, dir) ==> WaitGraph(g, dir)[v] <= kept
  {
    var kept := SelectKept(g, dir, resources).value;
    var w := WaitGraph(g, dir);
    if resources != [] {
      CloseIsClosed(w, Requested(resources));
      forall v | v in kept && v in w ensures w[v] <= kept {
        forall u | u in w[v] ensures u in kept {
          assert u in Succ(w, kept);
        }
      }
    } else {
      WaitGraphAcyclicClosed(g, dir);
    }
  }

  lemma WaitGraphAcyclicClosed(g: Graph, dir: Direction)
    requires Closed(g)
    ensures Closed(WaitGraph(g, dir))
  {
  }

  /** Whatever a run keeps is a set of vertices of the graph. */
  lemma SelectKeptInGraph(g: Graph, dir: Direction, resources: seq<string>)
    requires Closed(g) && SelectKept(g, dir, resources).Success?
    ensures SelectKept(g, dir, resources).value <= g.Keys
  {
    if resources != [] {
      WaitGraphAcyclicClosed(g, dir);
      CloseWithinKeys(WaitGraph(g, dir), Requested(resources));
    }
  }
}
