/**
 * The eight ResourceAction classes. They share one shape: makeReady checks that the resource
 * exists, creates it and polls until it exists if it does not, and (for Deployment, Job and
 * Pod) then polls until it is ready; delete checks that it exists and, if so, deletes it and
 * polls until it is gone. The classes differ only in the points `Kinds` names, so the shape is
 * written once here, parameterised by the kind.
 *
 * The Kubernetes API server and the wall clock are the environment: `Env` says what each call
 * answers at each second, and `Api` holds the clock. Calls take no time; `pollWait` (the
 * one-second Thread.sleep) advances the clock by one. Every method below is proved equal to a
 * function of the environment and the starting second (`PollRun`, `WaitRun`, `ReadyRun`,
 * `MakeReadyRun`, `DeleteRun`), and the lemmas state what those functions promise.
 */
module Lifecycle {
  import opened Wrappers
  import opened Numbers
  import opened Kinds

  /** A ResourceAction: the resource's kind, metadata name and namespace, and its manifest wait. */
  datatype Resource = Resource(kind: Kind, name: string, namespace: Option<string>, maxWaitSeconds: int)

  datatype DeleteReply = Accepted | JsonSyntax | Rejected(body: string)

  /**
   * The cluster as seen by one action: at second t, how many items a list-by-name call returns
   * (or the response body of its ApiException), what a read returns (None when the object read
   * has a null status), whether a create call is refused (with the response body) and how a
   * delete call ends.
   */
  datatype Env = Env(
    listing: nat -> Result<nat, string>,
    reading: nat -> Result<Option<Status>, string>,
    creating: nat -> Option<string>,
    deleting: nat -> DeleteReply)

  datatype ApiCall = ListCall | ReadCall | CreateRequest | DeleteRequest

  /** What a polling loop waits for: waitUntilCreated, waitUntilDeleted or waitUntilReady. */
  datatype Wait = UntilCreated | UntilDeleted | UntilReady

  /**
   * ResourceActionException, by cause, and two unchecked exceptions: JsonSyntaxException from
   * a delete call, and the NullPointerException of a readiness test on a null status.
   */
  datatype ActionError =
    | ApiFailure(kind: Kind, call: ApiCall, body: string)
    | TimedOut(kind: Kind, name: string, wait: Wait, seconds: int)
    | JsonSyntaxException
    | NullStatus(kind: Kind)

  function WaitWord(w: Wait): string {
    match w
    case UntilCreated => "created"
    case UntilDeleted => "deleted"
    case UntilReady => "ready"
  }

  /** The message of a ResourceActionException. */
  function Message(e: ActionError): string
    requires e.ApiFailure? || e.TimedOut?
  {
    match e
    case ApiFailure(k, call, body) =>
      (match call
       case ListCall => "Unable to get " + Label(k) + " info: "
       case ReadCall => "Unable to get " + Label(k) + " info: "
       case CreateRequest => "Unable to create " + Label(k) + ": "
       case DeleteRequest => "Unable to delete " + Label(k) + ": ") + body
    case TimedOut(k, name, w, n) =>
      Label(k) + " '" + name + "' was not " + WaitWord(w) + " in " + IntToString(n) + " seconds"
  }

  /** The calls that change the cluster, with the second at which they are made. */
  datatype Call = CreateCall(at: nat) | DeleteCall(at: nat, foreground: bool)

  /** How an action (or one stage of it) ends: its outcome, the second it ends at, the calls it made. */
  datatype Run = Run(outcome: Outcome<ActionError>, end: nat, calls: seq<Call>)

  predicate Checkable(r: Resource, w: Wait) {
    w == UntilReady ==> AwaitsReadiness(r.kind)
  }

  /**
   * One check of a polling loop at second t: resourceExists (UntilCreated), its negation
   * (UntilDeleted) or resourceReady (UntilReady). A failed list or read call is a failure, and
   * so is a read whose status is null: the readiness test dereferences it.
   */
  function Check(env: Env, r: Resource, w: Wait, t: nat): Result<bool, ActionError>
    requires Checkable(r, w)
  {
    match w
    case UntilCreated =>
      (match env.listing(t)
       case Failure(body) => Failure(ApiFailure(r.kind, ListCall, body))
       case Success(n) => Success(n > 0))
    case UntilDeleted =>
      (match env.listing(t)
       case Failure(body) => Failure(ApiFailure(r.kind, ListCall, body))
       case Success(n) => Success(n == 0))
    case UntilReady =>
      (match env.reading(t)
       case Failure(body) => Failure(ApiFailure(r.kind, ReadCall, body))
       case Success(st) => if st.None? then Failure(NullStatus(r.kind)) else Success(Ready(r.kind, st.value)))
  }

  /**
   * The `while (!check) { if (now > deadline) throw; pollWait(); }` loop started at second t:
   * it ends at the first check that succeeds or fails, and times out only at a negative check
   * made after the deadline.
   */
  function PollRun(env: Env, r: Resource, w: Wait, t: nat, deadline: int): (run: Run)
    requires Checkable(r, w)
    ensures run.calls == [] && t <= run.end
    ensures run.end <= t || run.end <= deadline + 1
    ensures forall u :: t <= u < run.end ==> Check(env, r, w, u) == Success(false)
    ensures run.outcome.Pass? <==> Check(env, r, w, run.end) == Success(true)
    ensures Check(env, r, w, run.end).Failure? ==> run.outcome == Fail(Check(env, r, w, run.end).error)
    ensures Check(env, r, w, run.end) == Success(false) ==>
      run.end > deadline && run.outcome == Fail(TimedOut(r.kind, r.name, w, r.maxWaitSeconds))
    decreases deadline + 1 - t
  {
    match Check(env, r, w, t)
    case Failure(e) => Run(Fail(e), t, [])
    case Success(done) =>
      if done then Run(Pass, t, [])
      else if t > deadline then Run(Fail(TimedOut(r.kind, r.name, w, r.maxWaitSeconds)), t, [])
      else PollRun(env, r, w, t + 1, deadline)
  }

  /**
   * waitUntilCreated / waitUntilDeleted started at t0: the deadline is t0 + maxWaitSeconds,
   * the loop sleeps once before its first check.
   */
  function WaitRun(env: Env, r: Resource, w: Wait, t0: nat): (run: Run)
    requires w != UntilReady
    ensures run.calls == [] && t0 < run.end
    ensures forall u :: t0 < u < run.end ==> Check(env, r, w, u) == Success(false)
    ensures run.outcome.Pass? <==> Check(env, r, w, run.end) == Success(true)
    ensures run.outcome.Fail? && run.outcome.error.TimedOut? ==> run.end > t0 + r.maxWaitSeconds
  {
    PollRun(env, r, w, t0 + 1, t0 + r.maxWaitSeconds)
  }

  /**
   * waitUntilReady started at t0: a resource already ready ends it at once with no sleep;
   * otherwise it polls like the other waits, with the deadline t0 + maxWaitSeconds.
   */
  function ReadyRun(env: Env, r: Resource, t0: nat): (run: Run)
    requires AwaitsReadiness(r.kind)
    ensures run.calls == [] && t0 <= run.end
    ensures forall u :: t0 <= u < run.end ==> Check(env, r, UntilReady, u) == Success(false)
    ensures run.outcome.Pass? <==> Check(env, r, UntilReady, run.end) == Success(true)
    ensures Check(env, r, UntilReady, t0) == Success(true) ==> run == Run(Pass, t0, [])
    ensures run.outcome.Fail? && run.outcome.error.TimedOut? ==> run.end > t0 + r.maxWaitSeconds
  {
    match Check(env, r, UntilReady, t0)
    case Failure(e) => Run(Fail(e), t0, [])
    case Success(ready) =>
      if ready then Run(Pass, t0, [])
      else PollRun(env, r, UntilReady, t0 + 1, t0 + r.maxWaitSeconds)
  }

  /** The readiness stage of makeReady, which only Deployment, Job and Pod have. */
  function ReadyStage(env: Env, r: Resource, t: nat, calls: seq<Call>): Run {
    if AwaitsReadiness(r.kind) then
      var ready := ReadyRun(env, r, t);
      Run(ready.outcome, ready.end, calls)
    else Run(Pass, t, calls)
  }

  /** makeReady started at t0. */
  function MakeReadyRun(env: Env, r: Resource, t0: nat): Run {
    match Check(env, r, UntilCreated, t0)
    case Failure(e) => Run(Fail(e), t0, [])
    case Success(exists_) =>
      if exists_ then ReadyStage(env, r, t0, [])
      else
        var calls := [CreateCall(t0)];
        match env.creating(t0)
        case Some(body) => Run(Fail(ApiFailure(r.kind, CreateRequest, body)), t0, calls)
        case None =>
          var created := WaitRun(env, r, UntilCreated, t0);
          if created.outcome.Fail? then Run(created.outcome, created.end, calls)
          else if SettlesAfterCreate(r.kind) then ReadyStage(env, r, created.end + 1, calls)
          else ReadyStage(env, r, created.end, calls)
  }

  /** delete started at t0. */
  function DeleteRun(env: Env, r: Resource, t0: nat): Run {
    match Check(env, r, UntilCreated, t0)
    case Failure(e) => Run(Fail(e), t0, [])
    case Success(exists_) =>
      if !exists_ then Run(Pass, t0, [])
      else
        var calls := [DeleteCall(t0, DeletesInForeground(r.kind))];
        match env.deleting(t0)
        case Rejected(body) => Run(Fail(ApiFailure(r.kind, DeleteRequest, body)), t0, calls)
        case JsonSyntax =>
          if !IgnoresJsonSyntaxOnDelete(r.kind) then Run(Fail(JsonSyntaxException), t0, calls)
          else
            var gone := WaitRun(env, r, UntilDeleted, t0);
            Run(gone.outcome, gone.end, calls)
        case Accepted =>
          var gone := WaitRun(env, r, UntilDeleted, t0);
          Run(gone.outcome, gone.end, calls)
  }

  /** The Kubernetes API client of one action, together with the clock it reads. */
  class Api {
    const env: Env
    var clock: nat
    ghost var calls: seq<Call>

    constructor (env: Env, start: nat)
      ensures this.env == env && clock == start && calls == []
    {
      this.env := env;
      clock := start;
      calls := [];
    }
  }

  /** resourceExists: a list call by name; the resource exists when the list is not empty. */
  method ResourceExists(api: Api, r: Resource) returns (res: Result<bool, ActionError>)
    ensures res.Success? <==> api.env.listing(api.clock).Success?
    ensures res.Success? ==> res.value == (api.env.listing(api.clock).value > 0)
    ensures res == Check(api.env, r, UntilCreated, api.clock)
  {
    var listed := api.env.listing(api.clock);
    if listed.Failure? {
      return Failure(ApiFailure(r.kind, ListCall, listed.error));
    }
    return Success(listed.value > 0);
  }

  /**
   * resourceReady: a read call, then the kind's readiness test on the returned status. A null
   * status throws a NullPointerException out of the test.
   */
  method ResourceReady(api: Api, r: Resource) returns (res: Result<bool, ActionError>)
    requires AwaitsReadiness(r.kind)
    ensures var read := api.env.reading(api.clock);
      && (res.Success? <==> read.Success? && read.value.Some?)
      && (read.Failure? ==> res == Failure(ApiFailure(r.kind, ReadCall, read.error)))
      && (read.Success? && read.value.None? ==> res == Failure(NullStatus(r.kind)))
      && (res.Success? ==> res.value == Ready(r.kind, read.value.value))
    ensures res == Check(api.env, r, UntilReady, api.clock)
  {
    var read := api.env.reading(api.clock);
    if read.Failure? {
      return Failure(ApiFailure(r.kind, ReadCall, read.error));
    }
    if read.value.None? {
      return Failure(NullStatus(r.kind));
    }
    return Success(Ready(r.kind, read.value.value));
  }

  /** The loop condition of each wait, evaluated now. */
  method CheckNow(api: Api, r: Resource, w: Wait) returns (res: Result<bool, ActionError>)
    requires Checkable(r, w)
    ensures res == Check(api.env, r, w, api.clock)
  {
    match w
    case UntilCreated =>
      res := ResourceExists(api, r);
    case UntilDeleted =>
      var exists_ := ResourceExists(api, r);
      res := if exists_.Failure? then exists_ else Success(!exists_.value);
    case UntilReady =>
      res := ResourceReady(api, r);
  }

  /** pollWait: sleep one second. */
  method PollWait(api: Api)
    modifies api
    ensures api.clock == old(api.clock) + 1 && api.calls == old(api.calls)
  {
    api.clock := api.clock + 1;
  }

  /** The polling loop shared by the three waits. */
  method PollUntil(api: Api, r: Resource, w: Wait, deadline: int) returns (outcome: Outcome<ActionError>)
    requires Checkable(r, w)
    modifies api
    ensures var run := PollRun(api.env, r, w, old(api.clock), deadline);
      outcome == run.outcome && api.clock == run.end && api.calls == old(api.calls)
  {
    ghost var run := PollRun(api.env, r, w, api.clock, deadline);
    var res := CheckNow(api, r, w);
    while res == Success(false)
      invariant PollRun(api.env, r, w, api.clock, deadline) == run
      invariant res == Check(api.env, r, w, api.clock)
      invariant api.calls == old(api.calls)
      decreases deadline + 1 - api.clock
    {
      if api.clock > deadline {
        return Fail(TimedOut(r.kind, r.name, w, r.maxWaitSeconds));
      }
      PollWait(api);
      res := CheckNow(api, r, w);
    }
    if res.Failure? {
      return Fail(res.error);
    }
    return Pass;
  }

  /** waitUntilCreated (UntilCreated) and waitUntilDeleted (UntilDeleted). */
  method WaitUntil(api: Api, r: Resource, w: Wait) returns (outcome: Outcome<ActionError>)
    requires w != UntilReady
    modifies api
    ensures var run := WaitRun(api.env, r, w, old(api.clock));
      outcome == run.outcome && api.clock == run.end && api.calls == old(api.calls)
  {
    var deadline := api.clock + r.maxWaitSeconds;
    PollWait(api);
    outcome := PollUntil(api, r, w, deadline);
  }

  method WaitUntilReady(api: Api, r: Resource) returns (outcome: Outcome<ActionError>)
    requires AwaitsReadiness(r.kind)
    modifies api
    ensures var run := ReadyRun(api.env, r, old(api.clock));
      outcome == run.outcome && api.clock == run.end && api.calls == old(api.calls)
  {
    var ready := ResourceReady(api, r);
    if ready.Failure? {
      return Fail(ready.error);
    }
    if !ready.value {
      var deadline := api.clock + r.maxWaitSeconds;
      PollWait(api);
      outcome := PollUntil(api, r, UntilReady, deadline);
    } else {
      outcome := Pass;
    }
  }

  /** create: one create call; a refusal becomes "Unable to create <Kind>: <body>". */
  method Create(api: Api, r: Resource) returns (outcome: Outcome<ActionError>)
    modifies api
    ensures api.clock == old(api.clock) && api.calls == old(api.calls) + [CreateCall(api.clock)]
    ensures outcome.Pass? <==> api.env.creating(api.clock).None?
    ensures outcome.Fail? ==> outcome.error == ApiFailure(r.kind, CreateRequest, api.env.creating(api.clock).value)
  {
    api.calls := api.calls + [CreateCall(api.clock)];
    var refused := api.env.creating(api.clock);
    if refused.Some? {
      return Fail(ApiFailure(r.kind, CreateRequest, refused.value));
    }
    return Pass;
  }

  /**
   * executeDelete: one delete call; a refusal becomes "Unable to delete <Kind>: <body>", and a
   * JsonSyntaxException is swallowed except by ConfigMap and Service.
   */
  method ExecuteDelete(api: Api, r: Resource) returns (outcome: Outcome<ActionError>)
    modifies api
    ensures api.clock == old(api.clock)
    ensures api.calls == old(api.calls) + [DeleteCall(api.clock, DeletesInForeground(r.kind))]
    ensures outcome.Pass? <==>
      api.env.deleting(api.clock).Accepted? || (api.env.deleting(api.clock).JsonSyntax? && IgnoresJsonSyntaxOnDelete(r.kind))
    ensures api.env.deleting(api.clock).Rejected? ==>
      outcome == Fail(ApiFailure(r.kind, DeleteRequest, api.env.deleting(api.clock).body))
    ensures api.env.deleting(api.clock).JsonSyntax? && !IgnoresJsonSyntaxOnDelete(r.kind) ==>
      outcome == Fail(JsonSyntaxException)
  {
    api.calls := api.calls + [DeleteCall(api.clock, DeletesInForeground(r.kind))];
    var reply := api.env.deleting(api.clock);
    match reply
    case Rejected(body) =>
      outcome := Fail(ApiFailure(r.kind, DeleteRequest, body));
    case JsonSyntax =>
      outcome := if IgnoresJsonSyntaxOnDelete(r.kind) then Pass else Fail(JsonSyntaxException);
    case Accepted =>
      outcome := Pass;
  }

  /** makeReady. */
  method MakeReady(api: Api, r: Resource) returns (outcome: Outcome<ActionError>)
    modifies api
    ensures var run := MakeReadyRun(api.env, r, old(api.clock));
      outcome == run.outcome && api.clock == run.end && api.calls == old(api.calls) + run.calls
  {
    var exists_ := ResourceExists(api, r);
    if exists_.Failure? {
      return Fail(exists_.error);
    }
    if !exists_.value {
      outcome := Create(api, r);
      if outcome.Fail? {
        return;
      }
      outcome := WaitUntil(api, r, UntilCreated);
      if outcome.Fail? {
        return;
      }
      if SettlesAfterCreate(r.kind) {
        PollWait(api);
      }
    }
    if AwaitsReadiness(r.kind) {
      outcome := WaitUntilReady(api, r);
    } else {
      outcome := Pass;
    }
  }

  /** delete. */
  method Delete(api: Api, r: Resource) returns (outcome: Outcome<ActionError>)
    modifies api
    ensures var run := DeleteRun(api.env, r, old(api.clock));
      outcome == run.outcome && api.clock == run.end && api.calls == old(api.calls) + run.calls
  {
    var exists_ := ResourceExists(api, r);
    if exists_.Failure? {
      return Fail(exists_.error);
    }
    outcome := Pass;
    if exists_.value {
      outcome := ExecuteDelete(api, r);
      if outcome.Fail? {
        return;
      }
      outcome := WaitUntil(api, r, UntilDeleted);
    }
  }
}
