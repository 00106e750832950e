/**
 * What makeReady and delete promise, for every kind, every cluster behaviour and every
 * starting second, stated about the functions the Lifecycle methods are proved equal to.
 */
module LifecycleProps {
  import opened Wrappers
  import opened Kinds
  import opened Lifecycle

  /**
   * makeReady issues one create call, at its start, exactly when the first existence check
   * finds no resource; it never creates anything else.
   */
  lemma MakeReadyCreatesOnlyWhenAbsent(env: Env, r: Resource, t0: nat)
    ensures MakeReadyRun(env, r, t0).calls ==
      (if Check(env, r, UntilCreated, t0) == Success(false) then [CreateCall(t0)] else [])
  {
  }

  /**
   * On a resource that already exists makeReady creates nothing: Deployment, Job and Pod still
   * wait for readiness from the same second, the other five kinds return at once.
   */
  lemma MakeReadyOnExisting(env: Env, r: Resource, t0: nat)
    requires Check(env, r, UntilCreated, t0) == Success(true)
    ensures AwaitsReadiness(r.kind) ==>
      var ready := ReadyRun(env, r, t0);
      MakeReadyRun(env, r, t0) == Run(ready.outcome, ready.end, [])
    ensures !AwaitsReadiness(r.kind) ==> MakeReadyRun(env, r, t0) == Run(Pass, t0, [])
  {
  }

  /** A refused create call fails makeReady at once with "Unable to create <Kind>: <body>", with no wait. */
  lemma MakeReadyCreateRefused(env: Env, r: Resource, t0: nat)
    requires Check(env, r, UntilCreated, t0) == Success(false) && env.creating(t0).Some?
    ensures MakeReadyRun(env, r, t0) ==
      Run(Fail(ApiFailure(r.kind, CreateRequest, env.creating(t0).value)), t0, [CreateCall(t0)])
  {
  }

  /**
   * Once a created resource has been seen at second `seen`, a kind without a readiness test
   * finishes at that second, except Service, which sleeps one poll more; the three other kinds
   * then wait for readiness from that second.
   */
  lemma MakeReadyAfterCreated(env: Env, r: Resource, t0: nat)
    requires Check(env, r, UntilCreated, t0) == Success(false) && env.creating(t0).None?
    requires WaitRun(env, r, UntilCreated, t0).outcome.Pass?
    ensures var seen := WaitRun(env, r, UntilCreated, t0).end;
      var settled := if SettlesAfterCreate(r.kind) then seen + 1 else seen;
      && (!AwaitsReadiness(r.kind) ==> MakeReadyRun(env, r, t0) == Run(Pass, settled, [CreateCall(t0)]))
      && (AwaitsReadiness(r.kind) ==>
            MakeReadyRun(env, r, t0).outcome == ReadyRun(env, r, settled).outcome
            && MakeReadyRun(env, r, t0).end == ReadyRun(env, r, settled).end)
  {
  }

  /**
   * When makeReady succeeds the resource has been seen: some existence check found it, and
   * for Deployment, Job and Pod the last check found it ready.
   */
  lemma MakeReadySucceeded(env: Env, r: Resource, t0: nat)
    requires MakeReadyRun(env, r, t0).outcome.Pass?
    ensures var run := MakeReadyRun(env, r, t0);
      (exists t :: t0 <= t <= run.end && Check(env, r, UntilCreated, t) == Success(true))
      && (AwaitsReadiness(r.kind) ==> Check(env, r, UntilReady, run.end) == Success(true))
  {
    var run := MakeReadyRun(env, r, t0);
    if Check(env, r, UntilCreated, t0) == Success(true) {
      if AwaitsReadiness(r.kind) {
        assert run.end == ReadyRun(env, r, t0).end;
      }
    } else {
      var created := WaitRun(env, r, UntilCreated, t0);
      assert created.outcome.Pass?;
      assert Check(env, r, UntilCreated, created.end) == Success(true);
      if AwaitsReadiness(r.kind) {
        var settled := if SettlesAfterCreate(r.kind) then created.end + 1 else created.end;
        assert run.end == ReadyRun(env, r, settled).end;
      }
    }
  }

  /**
   * A timeout never comes early: when makeReady fails with "... was not created/ready in N
   * seconds", more than N seconds have passed since it started.
   */
  lemma MakeReadyTimeoutIsLate(env: Env, r: Resource, t0: nat)
    requires MakeReadyRun(env, r, t0).outcome.Fail? && MakeReadyRun(env, r, t0).outcome.error.TimedOut?
    ensures MakeReadyRun(env, r, t0).end > t0 + r.maxWaitSeconds
    ensures MakeReadyRun(env, r, t0).outcome.error.wait != UntilDeleted
  {
    if Check(env, r, UntilCreated, t0) == Success(false) {
      var created := WaitRun(env, r, UntilCreated, t0);
      if created.outcome.Pass? && AwaitsReadiness(r.kind) {
        var settled := if SettlesAfterCreate(r.kind) then created.end + 1 else created.end;
        assert MakeReadyRun(env, r, t0).end == ReadyRun(env, r, settled).end;
      }
    } else {
      assert AwaitsReadiness(r.kind);
    }
  }

  /**
   * A readiness read that returns an object with a null status throws a NullPointerException
   * out of makeReady: on an existing Deployment, Job or Pod it ends makeReady at once.
   */
  lemma MakeReadyNullStatus(env: Env, r: Resource, t0: nat)
    requires AwaitsReadiness(r.kind) && Check(env, r, UntilCreated, t0) == Success(true)
    requires env.reading(t0) == Success(None)
    ensures MakeReadyRun(env, r, t0) == Run(Fail(NullStatus(r.kind)), t0, [])
  {
  }

  /**
   * Only a readiness test dereferences a status: a null-status failure comes only from
   * makeReady on Deployment, Job or Pod, and never from delete.
   */
  lemma NullStatusOnlyWhileAwaitingReadiness(env: Env, r: Resource, t0: nat)
    ensures MakeReadyRun(env, r, t0).outcome == Fail(NullStatus(r.kind)) ==> AwaitsReadiness(r.kind)
    ensures DeleteRun(env, r, t0).outcome != Fail(NullStatus(r.kind))
  {
  }

  /** A failed existence check fails makeReady and delete at once with "Unable to get <Kind> info", calling nothing. */
  lemma ListFailureStopsAction(env: Env, r: Resource, t0: nat)
    requires env.listing(t0).Failure?
    ensures MakeReadyRun(env, r, t0) == Run(Fail(ApiFailure(r.kind, ListCall, env.listing(t0).error)), t0, [])
    ensures DeleteRun(env, r, t0) == Run(Fail(ApiFailure(r.kind, ListCall, env.listing(t0).error)), t0, [])
  {
  }

  /** delete on a resource that does not exist does nothing and succeeds at once. */
  lemma DeleteOnAbsent(env: Env, r: Resource, t0: nat)
    requires Check(env, r, UntilCreated, t0) == Success(false)
    ensures DeleteRun(env, r, t0) == Run(Pass, t0, [])
  {
  }

  /**
   * delete issues one delete call, at its start, exactly when the resource exists; Service's
   * call carries no delete options, every other kind asks for foreground propagation.
   */
  lemma DeleteCallsOnlyWhenPresent(env: Env, r: Resource, t0: nat)
    ensures DeleteRun(env, r, t0).calls ==
      (if Check(env, r, UntilCreated, t0) == Success(true)
       then [DeleteCall(t0, r.kind != Service)] else [])
  {
  }

  /**
   * A JsonSyntaxException from the delete call fails delete exactly for ConfigMap and
   * Service; every other kind goes on to wait for the resource to disappear.
   */
  lemma DeleteJsonSyntax(env: Env, r: Resource, t0: nat)
    requires Check(env, r, UntilCreated, t0) == Success(true) && env.deleting(t0).JsonSyntax?
    ensures DeleteRun(env, r, t0).outcome == Fail(JsonSyntaxException) <==> (r.kind == ConfigMap || r.kind == Service)
    ensures r.kind != ConfigMap && r.kind != Service ==>
      DeleteRun(env, r, t0).outcome == WaitRun(env, r, UntilDeleted, t0).outcome
  {
    if r.kind != ConfigMap && r.kind != Service {
      var gone := WaitRun(env, r, UntilDeleted, t0);
      assert gone.outcome.Fail? ==> gone.outcome.error != JsonSyntaxException by {
        if gone.outcome.Fail? {
          var c := Check(env, r, UntilDeleted, gone.end);
          assert c.Failure? ==> c.error.ApiFailure?;
        }
      }
    }
  }

  /** A refused delete call fails delete at once with "Unable to delete <Kind>: <body>". */
  lemma DeleteRefused(env: Env, r: Resource, t0: nat)
    requires Check(env, r, UntilCreated, t0) == Success(true) && env.deleting(t0).Rejected?
    ensures DeleteRun(env, r, t0).outcome == Fail(ApiFailure(r.kind, DeleteRequest, env.deleting(t0).body))
    ensures DeleteRun(env, r, t0).end == t0
  {
  }

  /** When delete succeeds the last existence check found nothing. */
  lemma DeleteSucceeded(env: Env, r: Resource, t0: nat)
    requires DeleteRun(env, r, t0).outcome.Pass?
    ensures Check(env, r, UntilDeleted, DeleteRun(env, r, t0).end) == Success(true)
  {
  }

  /** A delete timeout ("... was not deleted in N seconds") comes only after N seconds. */
  lemma DeleteTimeoutIsLate(env: Env, r: Resource, t0: nat)
    requires DeleteRun(env, r, t0).outcome.Fail? && DeleteRun(env, r, t0).outcome.error.TimedOut?
    ensures DeleteRun(env, r, t0).end > t0 + r.maxWaitSeconds
    ensures DeleteRun(env, r, t0).outcome.error.wait == UntilDeleted
  {
  }
}
