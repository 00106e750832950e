/**
 * ResourceActionGraphExecutor once built: the pruned graph, the set of vertices already
 * submitted (`processing`), the tasks the pool still holds, one future per kept vertex, the
 * last exception and the `all` future that execute() joins.
 *
 * The pool's threads are not modelled. A run is the sequence of doNext calls in the order
 * they happen, recorded as a ghost log of events; every field of the executor is then a
 * function of that log, and the order in which the pool picks its tasks is left open.
 */
module Executor {
  import opened Wrappers
  import opened Graphs
  import opened Lifecycle
  import opened Build

  /** One doNext call: the vertex, what its action ended with, and whether `exception` was already set. */
  datatype Event = Event(name: string, result: Outcome<ActionError>, late: bool)

  /** The state of a CompletableFuture: not done, completed normally, completed exceptionally. */
  datatype FutureState = Pending | Completed | Failed

  /** The state of `all`: not done, completed normally, or completed exceptionally with an error. */
  datatype Aggregate = Waiting | Done | Aborted(error: ActionError)

  /** The vertices whose doNext has run. */
  function Ran(events: seq<Event>): set<string> {
    if events == [] then {}
    else Ran(events[..|events| - 1]) + {events[|events| - 1].name}
  }

  /** The vertices whose action succeeded, and which were therefore removed from the graph. */
  function Succeeded(events: seq<Event>): set<string> {
    if events == [] then {}
    else
      var e := events[|events| - 1];
      Succeeded(events[..|events| - 1]) + (if e.result.Pass? then {e.name} else {})
  }

  /** The error of the first failed action: the one `all` is completed exceptionally with. */
  function FirstFailure(events: seq<Event>): Option<ActionError> {
    if events == [] then None
    else
      var e := events[|events| - 1];
      var before := FirstFailure(events[..|events| - 1]);
      if before.Some? then before
      else if e.result.Fail? then Some(e.result.error)
      else None
  }

  /** The error of the last failed action: the value of the `exception` field. */
  function LastFailure(events: seq<Event>): Option<ActionError> {
    if events == [] then None
    else
      var e := events[|events| - 1];
      if e.result.Fail? then Some(e.result.error) else LastFailure(events[..|events| - 1])
  }

  /**
   * The future of vertex v: completed normally only when its action succeeded and no
   * exception had been recorded when it started; completed exceptionally once it ran otherwise.
   */
  function FutureOf(events: seq<Event>, v: string): FutureState {
    if events == [] then Pending
    else
      var e := events[|events| - 1];
      if e.name == v then (if e.result.Pass? && !e.late then Completed else Failed)
      else FutureOf(events[..|events| - 1], v)
  }

  /**
   * CompletableFuture.allOf over the kept futures, completed exceptionally by the first
   * failing doNext: aborted with the first failure, done once every kept vertex succeeded.
   */
  function AggregateOf(kept: set<string>, events: seq<Event>): Aggregate {
    if FirstFailure(events).Some? then Aborted(FirstFailure(events).value)
    else if kept <= Succeeded(events) then Done
    else Waiting
  }

  predicate NoneLate(events: seq<Event>) {
    forall i :: 0 <= i < |events| ==> !events[i].late
  }

  /** Every vertex runs at most once: no event names a vertex that ran before it. */
  predicate Distinct(events: seq<Event>) {
    events == [] ||
      (Distinct(events[..|events| - 1]) && events[|events| - 1].name !in Ran(events[..|events| - 1]))
  }

  /**
   * Every vertex runs only after every vertex it waits on (in the wait graph w) has
   * succeeded: each event names a vertex of w whose waits all succeeded earlier in the log.
   */
  predicate Ordered(w: Graph, events: seq<Event>) {
    events == [] ||
      var n := |events| - 1;
      Ordered(w, events[..n]) && events[n].name in w && w[events[n].name] <= Succeeded(events[..n])
  }

  /** The vertices all of whose waits are among `done`: those the executor has submitted. */
  function Released(w: Graph, done: set<string>): set<string> {
    set v | v in w && w[v] <= done
  }

  /** What one more doNext call adds to the log's summaries. */
  lemma LogAppend(events: seq<Event>, e: Event)
    ensures (events + [e])[..|events|] == events
    ensures Ran(events + [e]) == Ran(events) + {e.name}
    ensures Succeeded(events + [e]) == Succeeded(events) + (if e.result.Pass? then {e.name} else {})
    ensures FirstFailure(events + [e]) ==
      (if FirstFailure(events).Some? then FirstFailure(events)
       else if e.result.Fail? then Some(e.result.error) else None)
    ensures LastFailure(events + [e]) == (if e.result.Fail? then Some(e.result.error) else LastFailure(events))
    ensures forall v :: (FutureOf(events + [e], v) ==
      (if e.name == v then (if e.result.Pass? && !e.late then Completed else Failed) else FutureOf(events, v)))
  {
    assert (events + [e])[..|events|] == events;
  }

  lemma {:induction false} RanHas(events: seq<Event>, i: nat)
    requires i < |events|
    ensures events[i].name in Ran(events)
    decreases |events|
  {
    var n := |events| - 1;
    if i < n {
      RanHas(events[..n], i);
    }
  }

  lemma {:induction false} RanWitness(events: seq<Event>, v: string) returns (i: nat)
    requires v in Ran(events)
    ensures i < |events| && events[i].name == v
    decreases |events|
  {
    var n := |events| - 1;
    if events[n].name == v {
      i := n;
    } else {
      i := RanWitness(events[..n], v);
    }
  }

  lemma {:induction false} SucceededWitness(events: seq<Event>, v: string) returns (i: nat)
    requires v in Succeeded(events)
    ensures i < |events| && events[i].name == v && events[i].result.Pass?
    decreases |events|
  {
    var n := |events| - 1;
    if events[n].name == v && events[n].result.Pass? {
      i := n;
    } else {
      i := SucceededWitness(events[..n], v);
    }
  }

  lemma {:induction false} SucceededRan(events: seq<Event>)
    ensures Succeeded(events) <= Ran(events)
    decreases |events|
  {
    if events != [] {
      SucceededRan(events[..|events| - 1]);
    }
  }

  lemma {:induction false} FailureWitness(events: seq<Event>) returns (i: nat)
    requires FirstFailure(events).Some?
    ensures i < |events| && events[i].result == Fail(FirstFailure(events).value)
    decreases |events|
  {
    var n := |events| - 1;
    if FirstFailure(events[..n]).Some? {
      i := FailureWitness(events[..n]);
    } else {
      i := n;
    }
  }

  /** Without a failure every action in the log succeeded. */
  lemma {:induction false} NoFailureAllSucceeded(events: seq<Event>)
    requires FirstFailure(events).None?
    ensures Succeeded(events) == Ran(events)
    decreases |events|
  {
    if events != [] {
      NoFailureAllSucceeded(events[..|events| - 1]);
    }
  }

  /** `exception` is set exactly when some action has failed. */
  lemma {:induction false} LastFailureIff(events: seq<Event>)
    ensures LastFailure(events).Some? <==> FirstFailure(events).Some?
    decreases |events|
  {
    if events != [] {
      LastFailureIff(events[..|events| - 1]);
    }
  }

  /** A vertex that has not run still has a pending future. */
  lemma {:induction false} FuturePending(events: seq<Event>, v: string)
    requires v !in Ran(events)
    ensures FutureOf(events, v) == Pending
    decreases |events|
  {
    if events != [] {
      FuturePending(events[..|events| - 1], v);
    }
  }

  /** While nothing has failed, a future is completed exactly when its vertex has run. */
  lemma {:induction false} FutureWithoutFailure(events: seq<Event>, v: string)
    requires FirstFailure(events).None? && NoneLate(events)
    ensures FutureOf(events, v) == Completed <==> v in Ran(events)
    decreases |events|
  {
    if events != [] {
      var n := |events| - 1;
      assert NoneLate(events[..n]) by {
        forall i | 0 <= i < n ensures !events[..n][i].late {
          assert events[..n][i] == events[i];
        }
      }
      assert !events[n].late;
      FutureWithoutFailure(events[..n], v);
    }
  }

  lemma OrderedAppend(w: Graph, events: seq<Event>, e: Event)
    requires Ordered(w, events) && e.name in w && w[e.name] <= Succeeded(events)
    ensures Ordered(w, events + [e])
  {
    LogAppend(events, e);
  }

  lemma DistinctAppend(events: seq<Event>, e: Event)
    requires Distinct(events) && e.name !in Ran(events)
    ensures Distinct(events + [e])
  {
    LogAppend(events, e);
  }

  lemma {:induction false} OrderedPrefix(w: Graph, events: seq<Event>, k: nat)
    requires Ordered(w, events) && k <= |events|
    ensures Ordered(w, events[..k])
    decreases |events|
  {
    if k < |events| {
      var n := |events| - 1;
      OrderedPrefix(w, events[..n], k);
      assert events[..n][..k] == events[..k];
    } else {
      assert events[..k] == events;
    }
  }

  /** The i-th event of an ordered log names a vertex whose waits all succeeded before it. */
  lemma {:induction false} OrderedAt(w: Graph, events: seq<Event>, i: nat)
    requires Ordered(w, events) && i < |events|
    ensures events[i].name in w && w[events[i].name] <= Succeeded(events[..i])
    decreases |events|
  {
    var n := |events| - 1;
    if i < n {
      OrderedAt(w, events[..n], i);
      assert events[..n][..i] == events[..i];
    }
  }

  /** Two events of a distinct log name different vertices. */
  lemma {:induction false} DistinctAt(events: seq<Event>, i: nat, j: nat)
    requires Distinct(events) && i < j < |events|
    ensures events[i].name != events[j].name
    decreases |events|
  {
    var n := |events| - 1;
    if j < n {
      DistinctAt(events[..n], i, j);
    } else {
      RanHas(events[..n], i);
    }
  }

  /** What has succeeded is closed under waiting: each of its waits has succeeded too. */
  lemma {:induction false} SucceededClosed(w: Graph, events: seq<Event>)
    requires Ordered(w, events)
    ensures Succ(w, Succeeded(events)) <= Succeeded(events)
    decreases |events|
  {
    if events != [] {
      var n := |events| - 1;
      SucceededClosed(w, events[..n]);
      forall x | x in Succ(w, Succeeded(events)) ensures x in Succeeded(events) {
        var v :| v in Succeeded(events) && v in w && x in w[v];
        if v !in Succeeded(events[..n]) {
          assert v == events[n].name;
        }
      }
    }
  }

  /**
   * Every action starts only after everything it waits on, directly or through other vertices,
   * has succeeded: CREATE runs a vertex after all its dependencies, DELETE after all its dependents.
   */
  lemma RunsAfterAllWaits(w: Graph, events: seq<Event>, i: nat)
    requires Ordered(w, events) && i < |events|
    ensures events[i].name in w && Close(w, w[events[i].name]) <= Succeeded(events[..i])
  {
    OrderedPrefix(w, events, i);
    OrderedAt(w, events, i);
    SucceededClosed(w, events[..i]);
    CloseIsLeast(w, w[events[i].name], Succeeded(events[..i]));
  }

  /** Under DELETE a resource is deleted only after every resource that depends on it is gone. */
  lemma DeleteAfterDependents(g: Graph, events: seq<Event>, i: nat, u: string)
    requires Ordered(WaitGraph(g, Delete), events) && i < |events|
    requires u in g && events[i].name in g[u]
    ensures u in Succeeded(events[..i])
  {
    OrderedAt(WaitGraph(g, Delete), events, i);
    assert u in WaitGraph(g, Delete)[events[i].name];
  }

  /**
   * A failed action is never removed from the graph, so nothing that waits on it, directly
   * or not, is ever started.
   */
  lemma FailureStrands(w: Graph, events: seq<Event>, i: nat, v: string)
    requires Ordered(w, events) && Distinct(events)
    requires i < |events| && events[i].result.Fail?
    requires v in w && events[i].name in Close(w, w[v])
    ensures v !in Ran(events)
  {
    if v in Ran(events) {
      var j := RanWitness(events, v);
      RunsAfterAllWaits(w, events, j);
      var k := SucceededWitness(events[..j], events[i].name);
      assert events[k] == events[..j][k];
      if k < i {
        DistinctAt(events, k, i);
      } else if i < k {
        DistinctAt(events, i, k);
      }
    }
  }

  lemma {:induction false} DistinctRanSize(events: seq<Event>)
    requires Distinct(events)
    ensures |Ran(events)| == |events|
    decreases |events|
  {
    if events != [] {
      DistinctRanSize(events[..|events| - 1]);
    }
  }

  /**
   * When the pool has nothing left to run and no action failed, every kept vertex has run
   * exactly once and succeeded: the join on `all` cannot hang.
   */
  lemma AllSucceed(w: Graph, events: seq<Event>)
    requires Closed(w) && Acyclic(w)
    requires Ordered(w, events) && Distinct(events)
    requires Released(w, Succeeded(events)) <= Ran(events)
    requires FirstFailure(events).None?
    ensures Succeeded(events) == Ran(events) == w.Keys
    ensures |events| == |w.Keys|
  {
    NoFailureAllSucceeded(events);
    var done := Succeeded(events);
    forall x | x in w ensures x in done {
      if x !in done {
        var y := FindUnblocked(w, done, x);
      }
    }
    forall x | x in Ran(events) ensures x in w {
      var j := RanWitness(events, x);
      OrderedAt(w, events, j);
    }
    DistinctRanSize(events);
  }

  /** The vertices a fresh executor submits first are those that wait on nothing. */
  lemma FrontierReleased(g: Graph, dir: Direction)
    requires Closed(g)
    ensures Frontier(g, dir) == Released(WaitGraph(g, dir), {})
  {
    RestrictAll(g);
    assert g.Keys - {} == g.Keys;
    forall v | v in g ensures !Blocked(g, dir, v) <==> WaitGraph(g, dir)[v] <= {} {
      BlockedAfterRemoval(g, dir, {}, v);
    }
  }

  /**
   * Pruning keeps every wait of a kept vertex when the kept set is closed under waiting, as the
   * selection of SelectKept is: a kept vertex waits on the same vertices as in the full graph.
   */
  lemma PrunedWaits(g: Graph, dir: Direction, kept: set<string>, v: string)
    requires Closed(g) && kept <= g.Keys && v in kept
    requires forall u :: u in kept ==> WaitGraph(g, dir)[u] <= kept
    ensures WaitGraph(Restrict(g, kept), dir)[v] == WaitGraph(g, dir)[v]
  {
    if dir == Delete {
      var p := Restrict(g, kept);
      assert WaitGraph(g, dir)[v] <= kept;
      forall w | w in Reverse(g)[v] ensures w in Reverse(p)[v] {
        assert w in kept;
      }
    } else {
      assert WaitGraph(g, dir)[v] <= kept;
    }
  }

  /** After a success, the vertices submitted are those all of whose waits have now succeeded. */
  lemma Rescanned(work: Graph, dir: Direction, done: set<string>, v: string, before: set<string>, after: set<string>)
    requires Closed(work) && v in work && v !in done
    requires before == Released(WaitGraph(work, dir), done) && done <= before && v in before
    requires after == before + Frontier(Restrict(work, work.Keys - (done + {v})), dir)
    ensures after == Released(WaitGraph(work, dir), done + {v})
  {
    var w := WaitGraph(work, dir);
    var dag := Restrict(work, work.Keys - (done + {v}));
    forall n | n in Released(w, done + {v}) ensures n in after {
      if n !in done + {v} {
        BlockedAfterRemoval(work, dir, done + {v}, n);
      }
    }
    forall n | n in after ensures n in Released(w, done + {v}) {
      if n !in before {
        BlockedAfterRemoval(work, dir, done + {v}, n);
      }
    }
  }

  /** The executor's fields besides its constants. */
  datatype Snapshot = Snapshot(
    dag: Graph,
    processing: set<string>,
    queued: set<string>,
    futures: map<string, FutureState>,
    exception: Option<ActionError>,
    all: Option<Aggregate>)

  /**
   * The fields after the doNext calls of `events`, in an executor over the pruned graph
   * `work`; `launched` tells whether execute() has submitted the initial tasks and built `all`.
   * The graph has lost every vertex that succeeded, `processing` holds every vertex whose waits
   * have all succeeded, the pool holds those of them that have not run yet.
   */
  function After(work: Graph, dir: Direction, events: seq<Event>, launched: bool): (s: Snapshot)
    ensures s.futures.Keys == work.Keys
  {
    var done := Succeeded(events);
    var released := Released(WaitGraph(work, dir), done);
    Snapshot(
      Restrict(work, work.Keys - done),
      released,
      if launched then released - Ran(events) else {},
      map v | v in work :: FutureOf(events, v),
      LastFailure(events),
      if launched then Some(AggregateOf(work.Keys, events)) else None)
  }

  /** A log the executor can produce over the wait graph w. */
  ghost predicate LogOk(w: Graph, events: seq<Event>) {
    && Ordered(w, events) && Distinct(events)
    && Ran(events) <= Released(w, Succeeded(events))
    && (FirstFailure(events).None? ==> NoneLate(events))
  }

  /** Running a submitted vertex that has not run yet keeps the log one the executor can produce. */
  lemma LogStep(w: Graph, events: seq<Event>, v: string, outcome: Outcome<ActionError>, late: bool)
    requires LogOk(w, events) && v in Released(w, Succeeded(events)) && v !in Ran(events)
    requires late == LastFailure(events).Some?
    ensures LogOk(w, events + [Event(v, outcome, late)])
  {
    var e := Event(v, outcome, late);
    LogAppend(events, e);
    OrderedAppend(w, events, e);
    DistinctAppend(events, e);
    LastFailureIff(events);
    if FirstFailure(events + [e]).None? {
      assert !late;
    }
  }

  /** Every future `all` waits on has completed normally. */
  predicate AllCompleted(futures: map<string, FutureState>) {
    forall k :: k in futures ==> futures[k] == Completed
  }

  /** How one doNext call moves the futures, `exception` and `all`. */
  lemma FuturesStep(work: Graph, dir: Direction, events: seq<Event>, v: string, outcome: Outcome<ActionError>, late: bool)
    requires LogOk(WaitGraph(work, dir), events) && v in work && v !in Ran(events)
    requires late == LastFailure(events).Some?
    ensures var e := Event(v, outcome, late);
      var s := After(work, dir, events, true);
      var t := After(work, dir, events + [e], true);
      var futures := s.futures[v := if outcome.Pass? && !late then Completed else Failed];
      && s.futures[v] == Pending
      && t.futures == futures
      && t.exception == (if outcome.Fail? then Some(outcome.error) else s.exception)
      && t.all == (if s.all != Some(Waiting) then s.all
                   else if outcome.Fail? then Some(Aborted(outcome.error))
                   else if AllCompleted(futures) then Some(Done)
                   else s.all)
  {
    var e := Event(v, outcome, late);
    var events' := events + [e];
    LogAppend(events, e);
    FuturePending(events, v);
    LastFailureIff(events);
    SucceededRan(events);
    var t := After(work, dir, events', true);
    if FirstFailure(events').None? {
      assert NoneLate(events') by {
        forall i | 0 <= i < |events'| ensures !events'[i].late {
          if i < |events| {
            assert events'[i] == events[i];
          }
        }
      }
      NoFailureAllSucceeded(events');
      forall k | k in work ensures t.futures[k] == Completed <==> k in Succeeded(events') {
        FutureWithoutFailure(events', k);
      }
    }
  }

  /** doNext on a failing action: the graph and `processing` stay, the rest moves as FuturesStep says. */
  lemma StepFail(work: Graph, dir: Direction, events: seq<Event>, s: Snapshot, v: string, error: ActionError, late: bool)
    requires LogOk(WaitGraph(work, dir), events) && s == After(work, dir, events, true)
    requires v in s.queued && late == LastFailure(events).Some?
    ensures var e := Event(v, Fail(error), late);
      var futures := s.futures[v := Failed];
      && LogOk(WaitGraph(work, dir), events + [e])
      && s.futures[v] == Pending
      && After(work, dir, events + [e], true) ==
         Snapshot(s.dag, s.processing, s.queued - {v}, futures, Some(error),
                  if s.all == Some(Waiting) then Some(Aborted(error)) else s.all)
  {
    var e := Event(v, Fail(error), late);
    LogStep(WaitGraph(work, dir), events, v, Fail(error), late);
    FuturesStep(work, dir, events, v, Fail(error), late);
    LogAppend(events, e);
    assert Succeeded(events + [e]) == Succeeded(events);
  }

  /**
   * doNext on a succeeding action: the vertex leaves the graph and `added`, what the rescan
   * submits, completes `processing` to exactly the vertices whose waits have all succeeded.
   */
  lemma StepPass(work: Graph, dir: Direction, events: seq<Event>, s: Snapshot, v: string, late: bool, added: set<string>)
    requires Closed(work) && LogOk(WaitGraph(work, dir), events) && s == After(work, dir, events, true)
    requires v in s.queued && late == LastFailure(events).Some?
    requires added == Frontier(RemoveVertex(s.dag, v), dir) - s.processing
    ensures var e := Event(v, Pass, late);
      var futures := s.futures[v := if late then Failed else Completed];
      && LogOk(WaitGraph(work, dir), events + [e])
      && s.futures[v] == Pending
      && After(work, dir, events + [e], true) ==
         Snapshot(RemoveVertex(s.dag, v), s.processing + added, (s.queued - {v}) + added, futures, s.exception,
                  if s.all == Some(Waiting) && AllCompleted(futures) then Some(Done) else s.all)
  {
    var w := WaitGraph(work, dir);
    var e := Event(v, Pass, late);
    var done := Succeeded(events);
    LogStep(w, events, v, Pass, late);
    FuturesStep(work, dir, events, v, Pass, late);
    LogAppend(events, e);
    SucceededRan(events);
    RemoveVertexRestrict(work, work.Keys - done, v);
    assert (work.Keys - done) - {v} == work.Keys - (done + {v});
    Rescanned(work, dir, done, v, Released(w, done), s.processing + added);
  }

  /**
   * What one doNext call does to v's future: with an exception already recorded it is failed
   * first; then the action's outcome completes it, normally or exceptionally, if it is still
   * pending (a completed future ignores a second completion).
   */
  function NextFuture(f: FutureState, late: bool, outcome: Outcome<ActionError>): FutureState {
    var f' := if late && f == Pending then Failed else f;
    if f' != Pending then f' else if outcome.Pass? then Completed else Failed
  }

  /**
   * The fields after doNext(e.name) on fields `s`, step by step as the method takes them; the
   * vertices the rescan submits are the unblocked vertices of the new graph not yet processing.
   */
  function Step(s: Snapshot, dir: Direction, e: Event): Snapshot {
    var v := e.name;
    var futures := if v in s.futures then s.futures[v := NextFuture(s.futures[v], s.exception.Some?, e.result)] else s.futures;
    match e.result
    case Pass =>
      var dag := RemoveVertex(s.dag, v);
      var added := Frontier(dag, dir) - s.processing;
      Snapshot(dag, s.processing + added, (s.queued - {v}) + added, futures, s.exception,
               if s.all == Some(Waiting) && AllCompleted(futures) then Some(Done) else s.all)
    case Fail(error) =>
      Snapshot(s.dag, s.processing, s.queued - {v}, futures, Some(error),
               if s.all == Some(Waiting) then Some(Aborted(error)) else s.all)
  }

  /**
   * The fields after execute() has submitted the initial tasks and the doNext calls of
   * `events` have run in order, or None when the log is not one the pool can produce: some
   * doNext runs a vertex the pool does not hold at that moment, or its `late` flag does not
   * record whether `exception` was set when it started.
   */
  function Replay(work: Graph, dir: Direction, events: seq<Event>): Option<Snapshot> {
    if events == [] then Some(After(work, dir, [], true))
    else
      var e := events[|events| - 1];
      match Replay(work, dir, events[..|events| - 1])
      case None => None
      case Some(s) => if e.name in s.queued && e.late == s.exception.Some? then Some(Step(s, dir, e)) else None
  }

  /**
   * Replaying doNext step by step leaves exactly the fields the log determines, and every log
   * the pool can produce runs each vertex once, after all its waits succeeded.
   */
  lemma {:induction false} ReplayMatches(work: Graph, dir: Direction, events: seq<Event>)
    requires Closed(work) && Replay(work, dir, events).Some?
    ensures LogOk(WaitGraph(work, dir), events)
    ensures Replay(work, dir, events) == Some(After(work, dir, events, true))
    decreases |events|
  {
    if events != [] {
      var init := events[..|events| - 1];
      var e := events[|events| - 1];
      assert events == init + [e];
      ReplayMatches(work, dir, init);
      var s := Replay(work, dir, init).value;
      if e.result.Pass? {
        var added := Frontier(RemoveVertex(s.dag, e.name), dir) - s.processing;
        StepPass(work, dir, init, s, e.name, e.late, added);
      } else {
        StepFail(work, dir, init, s, e.name, e.result.error, e.late);
      }
    }
  }

  /**
   * The rescan after a removal, under the lock on the graph: every vertex of the graph that
   * is unblocked and not yet processing is submitted.
   */
  method Rescan(dag: Graph, dir: Direction, processing: set<string>) returns (added: set<string>)
    ensures added == Frontier(dag, dir) - processing
  {
    added := {};
    var rest := dag.Keys;
    while rest != {}
      invariant rest <= dag.Keys
      invariant added == Frontier(dag, dir) - processing - rest
    {
      var n :| n in rest;
      if n !in processing && !Blocked(dag, dir, n) {
        added := added + {n};
      }
      rest := rest - {n};
    }
  }

  /** A task the pool holds runs a kept vertex that has not run yet. */
  lemma QueuedFresh(work: Graph, dir: Direction, events: seq<Event>, v: string)
    requires Closed(work) && Replay(work, dir, events).Some? && v in Replay(work, dir, events).value.queued
    ensures v in work && v !in Ran(events)
  {
    ReplayMatches(work, dir, events);
  }

  /**
   * When execute()'s join returns: the pool is empty or `all` has completed. `all` then has
   * completed, normally exactly when every kept action succeeded, in which case each kept
   * vertex ran exactly once, and otherwise exceptionally with the first failure.
   */
  lemma JoinOutcome(work: Graph, dir: Direction, events: seq<Event>, results: string -> Outcome<ActionError>)
    requires Closed(work) && Acyclic(work) && Replay(work, dir, events).Some?
    requires var s := Replay(work, dir, events).value; s.queued == {} || s.all != Some(Waiting)
    requires forall i :: 0 <= i < |events| ==> events[i].result == results(events[i].name)
    ensures var s := Replay(work, dir, events).value;
      && (s.all == Some(Done) <==> forall v :: v in work ==> results(v).Pass?)
      && (s.all == Some(Done) ==> Ran(events) == work.Keys && |events| == |work.Keys|)
      && (s.all != Some(Done) ==> FirstFailure(events).Some? && s.all == Some(Aborted(FirstFailure(events).value)))
  {
    ReplayMatches(work, dir, events);
    var w := WaitGraph(work, dir);
    WaitGraphAcyclic(work, dir);
    var s := Replay(work, dir, events).value;
    assert Ran(events) <= work.Keys;
    if FirstFailure(events).None? {
      NoFailureAllSucceeded(events);
      if s.all == Some(Waiting) {
        AllSucceed(w, events);
      }
      assert s.all == Some(Done);
      AllSucceed(w, events);
      forall v | v in work ensures results(v).Pass? {
        var i := SucceededWitness(events, v);
      }
    } else {
      var i := FailureWitness(events);
      RanHas(events, i);
    }
  }

  /** Step keeps the graph, the pool and the futures within the kept vertices. */
  lemma StepShape(s: Snapshot, dir: Direction, e: Event, kept: set<string>)
    requires s.dag.Keys <= kept && s.queued <= kept && s.futures.Keys == kept
    ensures var t := Step(s, dir, e);
      t.dag.Keys <= kept && t.queued <= kept && t.futures.Keys == kept
  {
  }

  /**
   * The body of doNext(v) on the executor's fields, once v's action has ended with
   * `outcome`. With an exception already recorded, v's future is failed first but the action
   * still runs. On success v's future completes, the vertex leaves the graph and every vertex
   * it unblocks is submitted; on failure the exception is recorded and v's future and `all`
   * fail with it.
   */
  method DoNextStep(dag: Graph, processing: set<string>, queued: set<string>, futures: map<string, FutureState>,
                    exception: Option<ActionError>, all: Option<Aggregate>, dir: Direction,
                    v: string, outcome: Outcome<ActionError>) returns (t: Snapshot)
    requires v in futures
    ensures t == Step(Snapshot(dag, processing, queued, futures, exception, all), dir, Event(v, outcome, exception.Some?))
  {
    var d, p, q, fs, ex, a := dag, processing, queued - {v}, futures, exception, all;
    var f := fs[v];
    if ex.Some? && f == Pending {
      f := Failed;
    }
    if outcome.Pass? {
      if f == Pending {
        f := Completed;
      }
      fs := fs[v := f];
      if a == Some(Waiting) && AllCompleted(fs) {
        a := Some(Done);
      }
      d := RemoveVertex(d, v);
      var added := Rescan(d, dir, p);
      p := p + added;
      q := q + added;
    } else {
      ex := Some(outcome.error);
      if f == Pending {
        f := Failed;
      }
      fs := fs[v := f];
      if a == Some(Waiting) {
        a := Some(Aborted(outcome.error));
      }
    }
    t := Snapshot(d, p, q, fs, ex, a);
  }

  /** Every replayed state keeps the graph, the pool and the futures within the pruned graph's vertices. */
  lemma {:induction false} ReplayShape(work: Graph, dir: Direction, events: seq<Event>)
    requires Replay(work, dir, events).Some?
    ensures var s := Replay(work, dir, events).value;
      s.dag.Keys <= work.Keys && s.queued <= work.Keys && s.futures.Keys == work.Keys
    decreases |events|
  {
    if events != [] {
      var init := events[..|events| - 1];
      ReplayShape(work, dir, init);
      StepShape(Replay(work, dir, init).value, dir, events[|events| - 1], work.Keys);
    }
  }

  /** toRemove.forEach(dag::removeVertex): remove every vertex outside `kept`, with its edges. */
  method Prune(declared: Graph, kept: set<string>) returns (d: Graph)
    requires Closed(declared) && kept <= declared.Keys
    ensures d == Restrict(declared, kept)
  {
    d := declared;
    var drop := declared.Keys - kept;
    RestrictAll(declared);
    assert kept + drop == declared.Keys;
    while drop != {}
      invariant drop <= declared.Keys - kept
      invariant d == Restrict(declared, kept + drop)
    {
      var x :| x in drop;
      RemoveVertexRestrict(declared, kept + drop, x);
      assert (kept + drop) - {x} == kept + (drop - {x});
      d := RemoveVertex(d, x);
      drop := drop - {x};
    }
    assert kept + drop == kept;
  }

  class GraphExecutor {
    const dir: Direction
    /** deploymentActions: every vertex of the manifest by name. */
    const actions: map<string, Vertex>
    /** The vertices a run keeps, whose futures `all` waits on. */
    const kept: set<string>
    /** The pruned graph as the constructor leaves it. */
    ghost const work: Graph
    /** The vertices submitted by the constructor's scan. */
    const initial: set<string>
    var dag: Graph
    var processing: set<string>
    /** The doNext tasks submitted to the pool and not yet started. */
    var queued: set<string>
    var futures: map<string, FutureState>
    var exception: Option<ActionError>
    /** None until execute() assigns it. */
    var all: Option<Aggregate>
    ghost var events: seq<Event>

    /**
     * Before execute() the fields are those the constructor leaves; after it they are those
     * the doNext calls of `events`, a log the pool can produce, leave.
     */
    ghost predicate Valid()
      reads this
    {
      && Closed(work) && Acyclic(work) && work.Keys == kept
      && initial == Released(WaitGraph(work, dir), {})
      && (all.None? ==> events == [] && Snapshot(dag, processing, queued, futures, exception, all) == After(work, dir, [], false))
      && (all.Some? ==> Replay(work, dir, events) == Some(Snapshot(dag, processing, queued, futures, exception, all)))
    }

    /**
     * The end of the constructor: remove every vertex outside `kept` from the graph, then
     * mark as processing (and initial) every vertex without an outgoing edge (CREATE) or an
     * incoming edge (DELETE).
     */
    constructor (dir: Direction, declared: Graph, kept: set<string>, actions: map<string, Vertex>)
      requires Closed(declared) && Acyclic(declared) && kept <= declared.Keys
      ensures Valid() && all.None? && events == []
      ensures this.dir == dir && this.kept == kept && this.actions == actions
      ensures work == Restrict(declared, kept) && dag == work
      ensures initial == processing == Frontier(work, dir)
    {
      var d := Prune(declared, kept);
      RestrictClosed(declared, kept);
      RestrictSubGraph(declared, kept);
      SubGraphAcyclic(d, declared);
      var found := Rescan(d, dir, {});
      FrontierReleased(d, dir);
      RestrictAll(d);
      assert d.Keys - {} == d.Keys;
      this.dir := dir;
      this.kept := kept;
      this.actions := actions;
      work := d;
      initial := found;
      dag := d;
      processing := found;
      queued := {};
      futures := map v | v in kept :: Pending;
      exception := None;
      all := None;
      events := [];
    }

    /** The first half of execute(): submit the initial vertices, then build `all` over the kept futures. */
    method Launch()
      requires Valid() && all.None?
      modifies this
      ensures Valid()
      ensures queued == initial && all == Some(if kept == {} then Done else Waiting)
      ensures events == [] && dag == old(dag) && processing == old(processing)
    {
      ghost var next := After(work, dir, [], true);
      assert next.queued == initial;
      assert next.all == Some(if kept == {} then Done else Waiting);
      assert next == Snapshot(dag, processing, initial, futures, exception, next.all);
      queued, all := initial, Some(if kept == {} then Done else Waiting);
    }

    /**
     * doNext(v): a task of the pool runs v's action, whose outcome is `outcome`, and the
     * fields move as DoNextStep computes.
     */
    method DoNext(v: string, outcome: Outcome<ActionError>)
      requires Valid() && all.Some? && v in queued
      modifies this
      ensures Valid() && all.Some?
      ensures events == old(events) + [Event(v, outcome, old(exception).Some?)]
    {
      ghost var s := Snapshot(dag, processing, queued, futures, exception, all);
      ghost var e := Event(v, outcome, exception.Some?);
      ghost var log := events + [e];
      ReplayShape(work, dir, events);
      var t := DoNextStep(dag, processing, queued, futures, exception, all, dir, v, outcome);
      assert log[..|log| - 1] == events;
      dag, processing, queued, futures, exception, all, events := t.dag, t.processing, t.queued, t.futures, t.exception, t.all, log;
    }

    /**
     * execute(): submit the initial vertices, then let the pool run tasks, in any order,
     * until `all` completes; the action of vertex v ends with results(v). It returns normally
     * exactly when every kept action succeeds, and then each kept vertex ran exactly once;
     * otherwise join throws the first failure.
     */
    method Execute(results: string -> Outcome<ActionError>) returns (ok: bool)
      requires Valid() && all.None?
      modifies this
      ensures Valid()
      ensures ok <==> forall v :: v in kept ==> results(v).Pass?
      ensures ok ==> all == Some(Done) && Ran(events) == kept && |events| == |kept|
      ensures !ok ==> FirstFailure(events).Some? && all == Some(Aborted(FirstFailure(events).value))
      ensures forall i :: 0 <= i < |events| ==> events[i].result == results(events[i].name)
    {
      Launch();
      while queued != {} && all == Some(Waiting)
        invariant Valid() && all.Some?
        invariant forall i :: 0 <= i < |events| ==> events[i].result == results(events[i].name)
        decreases kept - Ran(events)
      {
        var v :| v in queued;
        ghost var before := events;
        assert v in kept && v !in Ran(before) by {
          QueuedFresh(work, dir, events, v);
        }
        DoNext(v, results(v));
        assert Ran(events) == Ran(before) + {v} by {
          LogAppend(before, events[|before|]);
        }
      }
      JoinOutcome(work, dir, events, results);
      ok := all == Some(Done);
    }
  }

  /**
   * Pruning to a kept set closed under the wait graph lets nothing start early: the vertices
   * the constructor submits are exactly the kept ones whose declared wait list is empty.
   */
  lemma InitialUnblocked(g: Graph, dir: Direction, resources: seq<string>)
    requires Closed(g) && SelectKept(g, dir, resources).Success?
    ensures var kept := SelectKept(g, dir, resources).value;
      Released(WaitGraph(Restrict(g, kept), dir), {}) ==
        set v | v in kept && v in g && WaitGraph(g, dir)[v] == {}
  {
    var kept := SelectKept(g, dir, resources).value;
    SelectKeptInGraph(g, dir, resources);
    SelectKeptClosed(g, dir, resources);
    forall v | v in kept ensures WaitGraph(Restrict(g, kept), dir)[v] == WaitGraph(g, dir)[v] {
      PrunedWaits(g, dir, kept, v);
    }
  }

  /**
   * The constructor of ResourceActionGraphExecutor, step by step: the work-stealing pool
   * refuses a parallelism outside 1..32767, then the manifest's entries are collected by
   * name, the dependency graph is built, and the kept vertices are selected; the executor
   * is then pruned to them. The first failing step's exception is the result.
   */
  method Open(dir: Direction, parallelism: int, entries: seq<Entry>, scope: string, resources: seq<string>)
    returns (r: Result<GraphExecutor, BuildError>)
    ensures parallelism < 1 || parallelism > MaxParallelism ==> r == Failure(IllegalParallelism(parallelism))
    ensures 1 <= parallelism <= MaxParallelism && Collect(entries, scope).Failure? ==>
      r == Failure(Collect(entries, scope).error)
    ensures 1 <= parallelism <= MaxParallelism && Collect(entries, scope).Success? ==>
      var vertices := Collect(entries, scope).value;
      var g := Declared(vertices);
      && (!(Closed(g) && Acyclic(g)) ==> r.Failure? && (r.error.UnresolvedDependency? || r.error.CycleEdge?))
      && (Closed(g) && Acyclic(g) && SelectKept(g, dir, resources).Failure? ==>
            r == Failure(SelectKept(g, dir, resources).error))
      && (Closed(g) && Acyclic(g) && SelectKept(g, dir, resources).Success? ==>
            var kept := SelectKept(g, dir, resources).value;
            && r.Success? && fresh(r.value) && r.value.Valid() && r.value.all.None?
            && r.value.dir == dir && r.value.actions == vertices && r.value.kept == kept
            && r.value.work == Restrict(g, kept)
            && r.value.initial == set v | v in kept && v in g && WaitGraph(g, dir)[v] == {})
  {
    if parallelism < 1 || parallelism > MaxParallelism {
      return Failure(IllegalParallelism(parallelism));
    }
    var collected := CollectVertices(entries, scope);
    if collected.Failure? {
      return Failure(collected.error);
    }
    var vertices := collected.value;
    var built := BuildGraph(Declared(vertices));
    if built.Failure? {
      return Failure(built.error);
    }
    var g := built.value;
    var selected := SelectKept(g, dir, resources);
    if selected.Failure? {
      return Failure(selected.error);
    }
    SelectKeptInGraph(g, dir, resources);
    InitialUnblocked(g, dir, resources);
    var ex := new GraphExecutor(dir, g, selected.value, vertices);
    FrontierReleased(Restrict(g, selected.value), dir);
    r := Success(ex);
  }
}
