# tug, modelled in Dafny

tug is a command-line tool that pushes a set of Kubernetes resources into a cluster, or pulls
them out again. The resources are listed in a manifest. Each entry in the manifest has a name, the
location of a resource file, a wait budget in seconds and the names it depends on. A run turns
the manifest into a dependency graph and performs one action per vertex on a bounded worker pool.
A CREATE run (push) starts a resource only after everything it depends on is ready. A DELETE run
(pull) removes a resource only after everything that depends on it is gone. Repush is a pull
followed by a push. The first failure ends the run: it is rethrown from `join`.

The model is split along the source's files:

- `wrappers.dfy`: `Option`, `Result` and `Outcome`.
- `numbers.dfy`: the decimal `Integer.parseInt` that the command line relies on, with a 32-bit
  range and an optional sign.
- `kinds.dfy`: the eight resource kinds, the `kind` switch of `deploymentToAction` and the
  per-kind differences. The differences are: which namespace an action uses, which kinds wait for
  readiness and what "ready" means, and Service's extra second after creation. They also cover
  which delete calls ignore a `JsonSyntaxException` and which ask for foreground propagation.
- `manifest.dfy`: the manifest entries, their defaults and their bean-validation constraints
  (`@NotBlank`, `@Min(1)`).
- `lifecycle.dfy`: one resource action (`makeReady`, `delete`, their polling loops, `create`,
  `executeDelete`) as imperative methods on a `class Api`. The class holds the cluster's
  answers and a clock in seconds. Each method is proved equal to a function of the starting
  clock (`MakeReadyRun`, `DeleteRun`, `PollRun`, ...). `lifecycle_props.dfy` proves what those
  functions promise.
- `graphs.dfy`: dependency graphs as `map<string, set<string>>`, with reachability as a
  least fixpoint (`Close`) and acyclicity in jgrapht's `addEdge` sense. It also has the graph
  reversal used for DELETE runs and vertex removal.
- `build.dfy`: the constructor of `ResourceActionGraphExecutor` up to the executor's state. This
  covers the map of actions (`Collectors.toMap`), the edges (`addEdge`, which rejects unknown
  dependencies and cycles) and the kept vertices when resources are named.
- `executor.dfy`: the scheduler. `After` states the executor's fields as a function of a log
  of finished actions. `Step`/`Replay` state what one `doNext` does. `ReplayMatches` proves that
  the two agree. The class `GraphExecutor` holds the fields (`dag`, `processing`, futures,
  `exception`, `all`) and its methods `Launch`, `DoNext` and `Execute` keep `Valid`. `Open` is
  the whole constructor.
- `tug.dfy`: `Tug.execute` and `doAction`.
- `cli.dfy`: the options of `TugCli`, `validate` and the dispatch of `main`.

The Kubernetes API is replaced by an environment `Env`. It gives the answer to each list, read,
create and delete call at each second. `Thread.sleep(1000)` advances the clock by one. The
concurrent pool is replaced by a log of finished actions in an order the model leaves open. The
log can only be produced by picking, each time, a vertex the source would already have submitted.
An action's outcome is given as a function `results` from vertex name to `Outcome`.

## Model

| member | source | states |
|---|---|---|
| Numbers.ParseInt | src/main/java/cloud/nimburst/tug/TugCli.java:114-125 | a parsed value is a 32-bit int and the text starts with a sign or a digit; anything else is the NumberFormatException path |
| Numbers.ParseIntToString | src/main/java/cloud/nimburst/tug/TugCli.java:117-121 | every 32-bit int's decimal text parses back to that int |
| Numbers.ParseIntRejectsNonDigits | src/main/java/cloud/nimburst/tug/TugCli.java:117-121 | a non-digit after the first character makes parseInt fail |
| Kinds.ParseKind | src/main/java/cloud/nimburst/tug/ResourceActionGraphExecutor.java:108-138 | a kind is recognised only by its exact name |
| Kinds.ParseKindExact | src/main/java/cloud/nimburst/tug/ResourceActionGraphExecutor.java:111-137 | the switch maps a string to a kind if and only if the string is that kind's name; every other string is unsupported |
| Kinds.ResourceNamespace | src/main/java/cloud/nimburst/tug/actions/DeploymentResourceAction.java:34-39 | cluster-scoped kinds have no namespace; Pod and Service use the namespace they are given; the others use the resource's own namespace, or "default" when it has none |
| Kinds.AllContainersReady | src/main/java/cloud/nimburst/tug/actions/PodResourceAction.java:59-63 | true exactly when every container status is present and ready |
| Kinds.PodWithoutContainersIsReady | src/main/java/cloud/nimburst/tug/actions/PodResourceAction.java:59-63 | a pod with an empty list of container statuses counts as ready |
| Kinds.PodNotReadyCases | src/main/java/cloud/nimburst/tug/actions/PodResourceAction.java:59-63 | a pod with no status list, or with one missing or unready container, is not ready |
| Manifest.NewDeployment | src/main/java/cloud/nimburst/tug/TugManifest.java:28-35 | a new entry waits 300 seconds and has no dependencies; it is valid exactly when its name and location are not blank |
| Manifest.NotBlankHasVisibleChar | src/main/java/cloud/nimburst/tug/TugManifest.java:29-30 | @NotBlank holds exactly when some character is above the space character |
| Manifest.DefaultsAreValid | src/main/java/cloud/nimburst/tug/TugManifest.java:16-17 | the empty manifest is valid, and so is a one-entry manifest with default settings and visible name and location |
| Lifecycle.ResourceExists | src/main/java/cloud/nimburst/tug/actions/DeploymentResourceAction.java:41-51 | fails exactly when the list call fails; otherwise says whether the list has any item |
| Lifecycle.ResourceReady | src/main/java/cloud/nimburst/tug/actions/DeploymentResourceAction.java:53-63 | a failed read call fails with its body; a read object whose status is null fails with the NullPointerException of the readiness test; otherwise it answers the kind's readiness condition on the status |
| Lifecycle.PollWait | src/main/java/cloud/nimburst/tug/actions/DeploymentResourceAction.java:82-89 | one sleep advances the clock by a second and calls nothing |
| Lifecycle.PollRun | src/main/java/cloud/nimburst/tug/actions/DeploymentResourceAction.java:117-122 | the loop ends at the first second whose check does not say "not yet"; it passes only if that check says yes; a failed check is rethrown; it times out only after the deadline |
| Lifecycle.PollUntil | src/main/java/cloud/nimburst/tug/actions/DeploymentResourceAction.java:117-122 | the polling loop ends with PollRun's outcome and clock and makes no create or delete call |
| Lifecycle.WaitRun | src/main/java/cloud/nimburst/tug/actions/DeploymentResourceAction.java:110-123 | the wait checks only after its first sleep; it passes exactly when the last check says yes; a timeout comes only after maxWaitSeconds |
| Lifecycle.WaitUntil | src/main/java/cloud/nimburst/tug/actions/DeploymentResourceAction.java:110-123 | waitUntilCreated and waitUntilDeleted end as WaitRun says |
| Lifecycle.ReadyRun | src/main/java/cloud/nimburst/tug/actions/DeploymentResourceAction.java:65-80 | a resource already ready passes at once without sleeping; otherwise it passes exactly when readiness is seen, and a timeout comes only after maxWaitSeconds |
| Lifecycle.WaitUntilReady | src/main/java/cloud/nimburst/tug/actions/DeploymentResourceAction.java:65-80 | waitUntilReady ends as ReadyRun says |
| Lifecycle.Create | src/main/java/cloud/nimburst/tug/actions/DeploymentResourceAction.java:101-108 | one create call at the current second; it fails exactly when the API refuses, with the response body |
| Lifecycle.ExecuteDelete | src/main/java/cloud/nimburst/tug/actions/DeploymentResourceAction.java:149-162 | one delete call, with foreground propagation except for Service; it passes on acceptance or on a JsonSyntaxException for kinds that catch it |
| Lifecycle.MakeReady | src/main/java/cloud/nimburst/tug/actions/DeploymentResourceAction.java:91-99 | ends with MakeReadyRun's outcome, clock and calls |
| Lifecycle.Delete | src/main/java/cloud/nimburst/tug/actions/DeploymentResourceAction.java:125-132 | ends with DeleteRun's outcome, clock and calls |
| LifecycleProps.MakeReadyCreatesOnlyWhenAbsent | src/main/java/cloud/nimburst/tug/actions/DeploymentResourceAction.java:94-97 | makeReady issues a create call exactly when the first list says the resource is absent |
| LifecycleProps.MakeReadyOnExisting | src/main/java/cloud/nimburst/tug/actions/DeploymentResourceAction.java:92-99 | on an existing resource, makeReady is the readiness wait for kinds that have one and an immediate pass for the others |
| LifecycleProps.MakeReadyCreateRefused | src/main/java/cloud/nimburst/tug/actions/DeploymentResourceAction.java:101-108 | a refused create fails the action at once with the API's body |
| LifecycleProps.MakeReadyAfterCreated | src/main/java/cloud/nimburst/tug/actions/ServiceResourceAction.java:47-56 | after creation is seen, Service sleeps one more second; kinds with readiness then wait for it |
| LifecycleProps.MakeReadySucceeded | src/main/java/cloud/nimburst/tug/actions/DeploymentResourceAction.java:91-99 | a successful makeReady saw the resource exist, and for readiness kinds saw it ready at the end |
| LifecycleProps.MakeReadyTimeoutIsLate | src/main/java/cloud/nimburst/tug/actions/DeploymentResourceAction.java:74-76 | a makeReady timeout comes only after more than maxWaitSeconds, and never from a deletion wait |
| LifecycleProps.MakeReadyNullStatus | src/main/java/cloud/nimburst/tug/actions/JobResourceAction.java:53-64 | on an existing Deployment, Job or Pod, a read whose status is null ends makeReady at once with a NullPointerException |
| LifecycleProps.NullStatusOnlyWhileAwaitingReadiness | src/main/java/cloud/nimburst/tug/actions/PodResourceAction.java:51-64 | a null-status failure comes only from makeReady of a kind that waits for readiness, and never from delete |
| LifecycleProps.ListFailureStopsAction | src/main/java/cloud/nimburst/tug/actions/DeploymentResourceAction.java:41-51 | a failed first list call fails both makeReady and delete with no other call |
| LifecycleProps.DeleteOnAbsent | src/main/java/cloud/nimburst/tug/actions/DeploymentResourceAction.java:125-132 | deleting an absent resource passes at once with no call |
| LifecycleProps.DeleteCallsOnlyWhenPresent | src/main/java/cloud/nimburst/tug/actions/ServiceResourceAction.java:108-116 | delete issues one delete call exactly when the resource exists; only Service omits foreground propagation |
| LifecycleProps.DeleteJsonSyntax | src/main/java/cloud/nimburst/tug/actions/ConfigMapResourceAction.java:109-119 | a JsonSyntaxException from the delete call fails the action exactly for ConfigMap and Service; other kinds go on waiting for the deletion |
| LifecycleProps.DeleteRefused | src/main/java/cloud/nimburst/tug/actions/DeploymentResourceAction.java:159-161 | a refused delete fails at once with the API's body |
| LifecycleProps.DeleteSucceeded | src/main/java/cloud/nimburst/tug/actions/DeploymentResourceAction.java:134-147 | a successful delete ends at a second where the resource is seen absent |
| LifecycleProps.DeleteTimeoutIsLate | src/main/java/cloud/nimburst/tug/actions/DeploymentResourceAction.java:141-144 | a delete timeout is a deletion timeout and comes only after more than maxWaitSeconds |
| Build.ToActionSpec | src/main/java/cloud/nimburst/tug/ResourceActionGraphExecutor.java:96-140 | fails on a missing or non-text kind and on an unsupported kind; otherwise the action carries the entry, the kind named, the file's name, the wait budget and the kind's namespace |
| Build.Insert | src/main/java/cloud/nimburst/tug/ResourceActionGraphExecutor.java:60-62 | adds an entry's action under its name; a name seen before is a duplicate-key failure |
| Build.CollectSucceeds | src/main/java/cloud/nimburst/tug/ResourceActionGraphExecutor.java:60-62 | the map of actions is built exactly when every kind is supported and every name is distinct |
| Build.CollectKeys | src/main/java/cloud/nimburst/tug/ResourceActionGraphExecutor.java:60-62 | the map's keys are exactly the manifest's names |
| Build.CollectHolds | src/main/java/cloud/nimburst/tug/ResourceActionGraphExecutor.java:60-62 | every entry's action is stored under its name |
| Build.CollectErrors | src/main/java/cloud/nimburst/tug/ResourceActionGraphExecutor.java:60-62 | building the map fails only on a missing kind, an unsupported kind or a duplicate name |
| Build.CollectStopsAtFailure | src/main/java/cloud/nimburst/tug/ResourceActionGraphExecutor.java:60-62 | the first failing entry decides the error; later entries are never looked at |
| Build.CollectVertices | src/main/java/cloud/nimburst/tug/ResourceActionGraphExecutor.java:60-62 | the stream loop computes Collect |
| Build.LinkVertex | src/main/java/cloud/nimburst/tug/ResourceActionGraphExecutor.java:65-66 | adding one vertex's edges either yields an acyclic graph with exactly those edges added, or fails on an unknown dependency or an edge that closes a cycle |
| Build.BuildGraph | src/main/java/cloud/nimburst/tug/ResourceActionGraphExecutor.java:64-66 | the graph is built exactly when every dependency is declared and there is no cycle, and is then the declared graph; the error names a real offending edge |
| Build.FirstUnknown | src/main/java/cloud/nimburst/tug/ResourceActionGraphExecutor.java:69-70 | none exactly when every named resource is in the graph; otherwise a named resource that is not |
| Build.SelectKept | src/main/java/cloud/nimburst/tug/ResourceActionGraphExecutor.java:68-85 | no named resources keeps every vertex; naming an unknown resource fails with its name |
| Build.SelectKeptCreate | src/main/java/cloud/nimburst/tug/ResourceActionGraphExecutor.java:69-75 | for CREATE a vertex is kept exactly when a named resource reaches it (getDescendants plus the named ones) |
| Build.SelectKeptDelete | src/main/java/cloud/nimburst/tug/ResourceActionGraphExecutor.java:69-75 | for DELETE a vertex is kept exactly when it reaches a named resource, that is, exactly when it is a named resource or one of its Ancestors (getAncestors plus the named ones) |
| Build.SelectKeptClosed | src/main/java/cloud/nimburst/tug/ResourceActionGraphExecutor.java:79-82 | whatever a kept vertex waits on is kept too, so removing the rest strands nothing |
| Graphs.CloseTrans | src/main/java/cloud/nimburst/tug/ResourceActionGraphExecutor.java:71 | whatever a reachable vertex reaches is reachable |
| Graphs.ReverseReach | src/main/java/cloud/nimburst/tug/ResourceActionGraphExecutor.java:71 | reaching b from a in the reversed graph means reaching a from b (ancestors) |
| Graphs.ReverseReachConverse | src/main/java/cloud/nimburst/tug/ResourceActionGraphExecutor.java:71 | and the converse, in a graph whose edges stay inside it |
| Graphs.AddEdgeAcyclic | src/main/java/cloud/nimburst/tug/ResourceActionGraphExecutor.java:66 | an edge whose target does not reach its source keeps the graph acyclic |
| Graphs.WaitGraphAcyclic | src/main/java/cloud/nimburst/tug/ResourceActionGraphExecutor.java:89 | what a vertex waits on, in either direction, forms an acyclic graph when the dependencies do |
| Graphs.RestrictClosed | src/main/java/cloud/nimburst/tug/ResourceActionGraphExecutor.java:82 | removing vertices leaves no dangling edge |
| Graphs.BlockedAfterRemoval | src/main/java/cloud/nimburst/tug/ResourceActionGraphExecutor.java:179-181 | once the finished vertices are removed, a vertex still has an edge in the waiting direction exactly when something it waits on is unfinished |
| Graphs.FindUnblocked | src/main/java/cloud/nimburst/tug/ResourceActionGraphExecutor.java:180-185 | every unfinished vertex of an acyclic graph reaches an unfinished vertex that waits on nothing unfinished |
| Executor.FrontierReleased | src/main/java/cloud/nimburst/tug/ResourceActionGraphExecutor.java:87-93 | the vertices with no edge in the waiting direction are exactly those that wait on nothing |
| Executor.InitialUnblocked | src/main/java/cloud/nimburst/tug/ResourceActionGraphExecutor.java:87-93 | after pruning, the initial set is exactly the kept vertices that wait on nothing in the full graph |
| Executor.Rescanned | src/main/java/cloud/nimburst/tug/ResourceActionGraphExecutor.java:178-185 | the rescan after a success submits exactly the vertices whose waits are now all finished |
| Executor.Rescan | src/main/java/cloud/nimburst/tug/ResourceActionGraphExecutor.java:180-185 | the forEach over the graph adds exactly the unprocessed vertices left without edges in the waiting direction |
| Executor.Prune | src/main/java/cloud/nimburst/tug/ResourceActionGraphExecutor.java:79-82 | removing every vertex not kept leaves the declared graph restricted to the kept set |
| Executor.RunsAfterAllWaits | src/main/java/cloud/nimburst/tug/ResourceActionGraphExecutor.java:180-185 | an action starts only after everything it transitively waits on has succeeded |
| Executor.DeleteAfterDependents | src/main/java/cloud/nimburst/tug/ResourceActionGraphExecutor.java:89 | in a DELETE run, a resource is deleted only after every resource that depends on it was deleted |
| Executor.FailureStrands | src/main/java/cloud/nimburst/tug/ResourceActionGraphExecutor.java:187-191 | nothing that waits, even transitively, on a failed action ever runs |
| Executor.AllSucceed | src/main/java/cloud/nimburst/tug/ResourceActionGraphExecutor.java:146-160 | with no failure, once nothing is left to run, every vertex ran exactly once and succeeded |
| Executor.FuturesStep | src/main/java/cloud/nimburst/tug/ResourceActionGraphExecutor.java:164-191 | one finished action completes its own pending future (exceptionally when it failed or an exception was already recorded), records its failure and settles `all` at the first failure or the last completion |
| Executor.StepFail | src/main/java/cloud/nimburst/tug/ResourceActionGraphExecutor.java:187-191 | a failed action leaves the graph unchanged, records the exception and fails `all` if it was still waiting |
| Executor.StepPass | src/main/java/cloud/nimburst/tug/ResourceActionGraphExecutor.java:177-186 | a successful action removes its vertex and submits exactly the newly unblocked vertices |
| Executor.ReplayMatches | src/main/java/cloud/nimburst/tug/ResourceActionGraphExecutor.java:162-193 | every log the pool can produce keeps the waiting order, runs each vertex once, and leaves the fields that After states |
| Executor.QueuedFresh | src/main/java/cloud/nimburst/tug/ResourceActionGraphExecutor.java:178-185 | a submitted vertex is kept and has not run yet |
| Executor.JoinOutcome | src/main/java/cloud/nimburst/tug/ResourceActionGraphExecutor.java:146-160 | once nothing is queued or `all` is settled, `all` is done exactly when every kept action succeeds (each ran once), and otherwise carries the first failure |
| Executor.DoNextStep | src/main/java/cloud/nimburst/tug/ResourceActionGraphExecutor.java:162-193 | doNext computes Step on the executor's fields |
| Executor.GraphExecutor.constructor | src/main/java/cloud/nimburst/tug/ResourceActionGraphExecutor.java:68-93 | the executor holds the pruned graph, and the initial vertices are those with no edge in the waiting direction |
| Executor.GraphExecutor.Launch | src/main/java/cloud/nimburst/tug/ResourceActionGraphExecutor.java:149-150 | submits the initial vertices; `all` is done at once only when nothing is kept |
| Executor.GraphExecutor.DoNext | src/main/java/cloud/nimburst/tug/ResourceActionGraphExecutor.java:162-193 | appends the finished action to the log, marked late when an exception was already recorded, and keeps Valid |
| Executor.GraphExecutor.Execute | src/main/java/cloud/nimburst/tug/ResourceActionGraphExecutor.java:146-160 | join returns normally exactly when every kept action succeeds, and then each ran once; otherwise it throws the first failure |
| Executor.Open | src/main/java/cloud/nimburst/tug/ResourceActionGraphExecutor.java:55-94 | the constructor throws on an illegal pool size, a bad entry, an unknown dependency, a cycle or an unknown resource; otherwise the executor is valid and unlaunched, with the declared actions and the kept vertices |
| Tug.Plan | src/main/java/cloud/nimburst/tug/Tug.java:51-61 | push and pull are one run, repush is two |
| Tug.Execute | src/main/java/cloud/nimburst/tug/Tug.java:49-65 | the runs follow the action's plan; every run before the last passed; stopping early means the last run failed |
| Tug.ExecuteSucceeds | src/main/java/cloud/nimburst/tug/Tug.java:49-65 | execute returns normally exactly when every run of the plan passes |
| Tug.SingleRun | src/main/java/cloud/nimburst/tug/Tug.java:52-57 | push is one CREATE run and pull one DELETE run |
| Tug.RepushOrder | src/main/java/cloud/nimburst/tug/Tug.java:58-61 | repush deletes before it creates, and a failed delete run ends it |
| Tug.DoAction | src/main/java/cloud/nimburst/tug/Tug.java:67-83 | a run passes exactly when the executor builds and every kept action succeeds; a setup error comes from a failed build step; an action error is one a kept action ended with |
| Cli.Resolve | src/main/java/cloud/nimburst/tug/TugCli.java:21-64 | an option name resolves only to an option with that short or long name; otherwise no option has it |
| Cli.ResolveNames | src/main/java/cloud/nimburst/tug/TugCli.java:21-64 | every option is found by its short name and by its long name |
| Cli.NoOptionH | src/main/java/cloud/nimburst/tug/TugCli.java:144 | no option is named "h", so hasOption("h") is false on every command line |
| Cli.FoundByName | src/main/java/cloud/nimburst/tug/TugCli.java:82-114 | each name validate and main ask for finds exactly its option |
| Cli.ValidateAccepts | src/main/java/cloud/nimburst/tug/TugCli.java:79-128 | validate returns "" exactly when one action, one of -a/-r, and no concurrency or a positive integer concurrency are given |
| Cli.ValidateActionsFirst | src/main/java/cloud/nimburst/tug/TugCli.java:81-97 | a wrong action count is reported before anything else, "only one" or "required" as appropriate |
| Cli.ValidateScopeNext | src/main/java/cloud/nimburst/tug/TugCli.java:99-112 | with one action, a wrong -a/-r count is reported next |
| Cli.ValidateConcurrencyLast | src/main/java/cloud/nimburst/tug/TugCli.java:114-125 | an unparsable concurrency is "must be an integer", a parsed one at most zero is "greater than zero" |
| Cli.LaunchChoices | src/main/java/cloud/nimburst/tug/TugCli.java:144-165 | main launches exactly when help is not asked for and validation passes; the action, the manifest (default tug-manifest.yaml), the resources and the parallelism (default 6, at least 1) follow the options |
| Cli.OversizedConcurrencyAccepted | src/main/java/cloud/nimburst/tug/TugCli.java:114-125 | a concurrency of 40000 passes validation and is launched, although it exceeds the largest pool size |
| Cli.HelpUnreachableAsWritten | src/main/java/cloud/nimburst/tug/TugCli.java:144-146 | as written, main never takes the help branch |
| Cli.HelpIgnoredExample | src/main/java/cloud/nimburst/tug/TugCli.java:144-166 | `-push -a -help` launches a push as written, but shows the help when the option is asked for by its name |
| Cli.HelpShown | src/main/java/cloud/nimburst/tug/TugCli.java:58-62 | with the option's own name, main shows the help exactly when -help is given |

## Left out

- Threads and the work-stealing pool: the model runs one action at a time, in any order the
  pool could choose. The bound of `parallelism` simultaneous actions is therefore not modelled.
  Only the range check that `newWorkStealingPool` performs (1 to 32767) is kept.
- `shutdownNow`, `awaitTermination` and interrupts. Actions still queued when `join` throws are
  not followed past that point. An interrupted `Thread.sleep` is not modelled.
- The race where a `doNext` fails before `execute` has assigned `all`: the model launches the
  initial vertices only after `all` exists.
- The Kubernetes client: every list, read, create and delete answer comes from `Env`, indexed by
  the second at which the call is made. The wall clock is the same counter, advanced only by
  the one-second sleeps; time spent inside API calls is not modelled.
- YAML parsing and the loading of resource files are left out. The model starts from parsed
  entries: the manifest entry, plus the resource file's kind field, name and namespace. Relative
  locations resolved against `configRoot` are not modelled.
- The bean-validation engine and the `UniqueNames`/`ValidDependencyReferences` validators are
  not part of this model. Duplicate names and unknown dependencies are caught where the executor
  catches them (`toMap` and `addEdge`).
- Executor.GraphExecutor.Execute: an action's outcome is given by `results`, a function of its
  vertex name. The outcome therefore does not depend on when or after which other actions it runs.
- Kinds.ResourceNamespace: `deploymentToAction` builds Pod and Service actions with
  `(resource, deployment)`, yet their constructors take a namespace, a config root and the
  deployment. The namespace those two kinds use is modelled as a parameter `scope` of the run.
- Build.BuildGraph: the order in which `HashSet`s of dependencies are visited is left open. On
  a manifest with several bad edges, the model says only that the reported edge is a real unknown
  dependency or a real cycle edge, not which one is reported.
- Tug.DoAction: its failure carries an error that some kept action ended with. That error is the
  first failure in the log; which action that is depends on scheduling.
- The `Tug` constructor (parsing the manifest, configuring the client), printing, the help text
  and `System.exit` are not modelled. `main`'s outcome is a `Command` value.
- Parsing of the command line by commons-cli is not modelled; the model starts from the options
  found and their values. `-r a,b` is one value, since no value separator is set.
- Numbers.ParseInt: only ASCII digits are accepted. `Integer.parseInt` also accepts other Unicode
  decimal digits.
- DoNext computes the new fields on values and writes them back in one assignment. The source
  updates them one after another under `synchronized (dag)`; no other thread observes the
  difference.

## Findings

| source | as written | input that shows it | evidently intended | confidence | as-written member | corrected member |
|---|---|---|---|---|---|---|
| src/main/java/cloud/nimburst/tug/TugCli.java:144 | `main` asks `cmd.hasOption("h")`, but the help option is named `help` both short and long, so the help branch is never taken | `-push -a -help` launches a push of every resource instead of printing the help | `cmd.hasOption("help")` | not executed | Cli.HelpIgnoredExample | Cli.HelpShown |

A first failure does not stop work that is already submitted. A `doNext` that starts after an
exception has been recorded still performs its action
(src/main/java/cloud/nimburst/tug/ResourceActionGraphExecutor.java:164-166); only its future is
completed exceptionally. The model marks such an event `late`, and its future is `Failed`.
