/**
 * Tug: the action asked for on the command line becomes one or two runs of a graph
 * executor, a DELETE run, a CREATE run, or a DELETE run followed by a CREATE run. Each run
 * builds a fresh executor from the same parallelism, manifest and resource list; a failed
 * run is rethrown, so nothing after it is attempted.
 */
module Tug {
  import opened Wrappers
  import opened Graphs
  import opened Lifecycle
  import opened Build
  import opened Executor

  /** The action to perform on the cluster. */
  datatype TugAction = Pull | Push | Repush

  /** Why a run failed: the executor's constructor threw, or join threw an action's failure. */
  datatype RunError = Setup(fault: BuildError) | Action(failure: ActionError)

  /** One doAction call: its direction and how it ended. */
  datatype Attempt = Attempt(dir: Direction, outcome: Outcome<RunError>)

  /** The directions each action is made of, in order. */
  function Plan(action: TugAction): (p: seq<Direction>)
    ensures 1 <= |p| <= 2
    ensures |p| == 2 <==> action == Repush
  {
    match action
    case Push => [Create]
    case Pull => [Delete]
    case Repush => [Delete, Create]
  }

  /** The directions of a sequence of runs. */
  function Directions(runs: seq<Attempt>): (d: seq<Direction>)
    ensures |d| == |runs|
    ensures forall i :: 0 <= i < |runs| ==> d[i] == runs[i].dir
  {
    if runs == [] then [] else Directions(runs[..|runs| - 1]) + [runs[|runs| - 1].dir]
  }

  /**
   * Tug.execute: the switch over the action, given how a run in each direction ends. The
   * runs made follow the plan of the action; every run before the last passed, and the
   * runs stop short of the plan only after a failure. Every run's outcome is that of its direction.
   */
  function Execute(action: TugAction, outcomeOf: Direction -> Outcome<RunError>): (runs: seq<Attempt>)
    ensures 1 <= |runs| <= |Plan(action)| && Directions(runs) == Plan(action)[..|runs|]
    ensures forall i :: 0 <= i < |runs| ==> runs[i].outcome == outcomeOf(runs[i].dir)
    ensures forall i :: 0 <= i < |runs| - 1 ==> runs[i].outcome.Pass?
    ensures |runs| < |Plan(action)| ==> runs[|runs| - 1].outcome.Fail?
  {
    match action
    case Push => [Attempt(Create, outcomeOf(Create))]
    case Pull => [Attempt(Delete, outcomeOf(Delete))]
    case Repush =>
      var pulled := outcomeOf(Delete);
      if pulled.Fail? then [Attempt(Delete, pulled)]
      else [Attempt(Delete, pulled), Attempt(Create, outcomeOf(Create))]
  }

  /** Tug.execute returns normally exactly when every run of the action's plan passes. */
  lemma ExecuteSucceeds(action: TugAction, outcomeOf: Direction -> Outcome<RunError>)
    ensures var runs := Execute(action, outcomeOf);
      runs[|runs| - 1].outcome.Pass? <==> forall i :: 0 <= i < |Plan(action)| ==> outcomeOf(Plan(action)[i]).Pass?
  {
    var runs := Execute(action, outcomeOf);
    var plan := Plan(action);
    if runs[|runs| - 1].outcome.Pass? {
      assert |runs| == |plan|;
      forall i | 0 <= i < |plan| ensures outcomeOf(plan[i]).Pass? {
        assert Directions(runs)[i] == plan[i];
      }
    } else {
      assert Directions(runs)[|runs| - 1] == plan[|runs| - 1];
    }
  }

  /** PUSH is exactly one CREATE run; PULL exactly one DELETE run. */
  lemma SingleRun(outcomeOf: Direction -> Outcome<RunError>)
    ensures Directions(Execute(Push, outcomeOf)) == [Create]
    ensures Directions(Execute(Pull, outcomeOf)) == [Delete]
  {
  }

  /**
   * REPUSH deletes, then creates; when the DELETE run fails its failure is rethrown and the
   * CREATE run is never attempted.
   */
  lemma RepushOrder(outcomeOf: Direction -> Outcome<RunError>)
    ensures outcomeOf(Delete).Pass? ==> Directions(Execute(Repush, outcomeOf)) == [Delete, Create]
    ensures outcomeOf(Delete).Fail? ==> Execute(Repush, outcomeOf) == [Attempt(Delete, outcomeOf(Delete))]
  {
  }

  /**
   * What a run of the executor needs to pass: the constructor's every step succeeds and
   * every action of the kept vertices succeeds.
   */
  predicate RunPasses(dir: Direction, parallelism: int, entries: seq<Entry>, scope: string, resources: seq<string>,
                      results: string -> Outcome<ActionError>)
  {
    && 1 <= parallelism <= MaxParallelism
    && Collect(entries, scope).Success?
    && var g := Declared(Collect(entries, scope).value);
    && Closed(g) && Acyclic(g)
    && SelectKept(g, dir, resources).Success?
    && forall v :: v in SelectKept(g, dir, resources).value ==> results(v).Pass?
  }

  /**
   * doAction: build a fresh executor and execute it; an exception from either is rethrown.
   * A run passes exactly when RunPasses holds; a failed action's error is one that a kept
   * action really ended with.
   */
  method DoAction(dir: Direction, parallelism: int, entries: seq<Entry>, scope: string, resources: seq<string>,
                  results: string -> Outcome<ActionError>)
    returns (o: Outcome<RunError>)
    ensures o.Pass? <==> RunPasses(dir, parallelism, entries, scope, resources, results)
    ensures o.Fail? && o.error.Setup? ==>
      || !(1 <= parallelism <= MaxParallelism)
      || Collect(entries, scope).Failure?
      || var g := Declared(Collect(entries, scope).value);
         !(Closed(g) && Acyclic(g)) || SelectKept(g, dir, resources).Failure?
    ensures o.Fail? && o.error.Action? ==>
      && 1 <= parallelism <= MaxParallelism && Collect(entries, scope).Success?
      && var g := Declared(Collect(entries, scope).value);
      && Closed(g) && Acyclic(g) && SelectKept(g, dir, resources).Success?
      && exists v :: v in SelectKept(g, dir, resources).value && results(v) == Fail(o.error.failure)
  {
    var made := Open(dir, parallelism, entries, scope, resources);
    if made.Failure? {
      return Fail(Setup(made.error));
    }
    var ex := made.value;
    var ok := ex.Execute(results);
    if ok {
      return Pass;
    }
    ghost var i := FailureWitness(ex.events);
    assert ex.events[i].name in ex.kept by {
      ReplayMatches(ex.work, dir, ex.events);
      RanHas(ex.events, i);
    }
    o := Fail(Action(ex.all.value.error));
  }
}
