/**
 * The eight resource kinds the executor dispatches on, the per-kind differences between the
 * eight ResourceAction classes, and the readiness tests of the three kinds that have one.
 */
module Kinds {
  import opened Wrappers

  datatype Kind = Pod | Service | ConfigMap | Job | Deployment | Ingress | Namespace | ClusterRoleBinding

  /** The `kind` string of the resource file; the messages of every action use it too. */
  function Label(k: Kind): string {
    match k
    case Pod => "Pod"
    case Service => "Service"
    case ConfigMap => "ConfigMap"
    case Job => "Job"
    case Deployment => "Deployment"
    case Ingress => "Ingress"
    case Namespace => "Namespace"
    case ClusterRoleBinding => "ClusterRoleBinding"
  }

  /** The switch of deploymentToAction: None is the "Unsupported deployment kind" branch. */
  function ParseKind(s: string): (r: Option<Kind>)
    ensures r.Some? ==> Label(r.value) == s
  {
    if s == "Pod" then Some(Pod)
    else if s == "Service" then Some(Service)
    else if s == "ConfigMap" then Some(ConfigMap)
    else if s == "Job" then Some(Job)
    else if s == "Deployment" then Some(Deployment)
    else if s == "Ingress" then Some(Ingress)
    else if s == "Namespace" then Some(Namespace)
    else if s == "ClusterRoleBinding" then Some(ClusterRoleBinding)
    else None
  }

  /** Every supported string selects exactly one kind, and every kind is selected by its own label. */
  lemma ParseKindExact(s: string, k: Kind)
    ensures ParseKind(s) == Some(k) <==> s == Label(k)
  {
  }

  /** Deployment, Job and Pod wait for readiness after makeReady; the other five do not. */
  predicate AwaitsReadiness(k: Kind) {
    k == Deployment || k == Job || k == Pod
  }

  /** Only Service sleeps one more poll after it has been seen created. */
  predicate SettlesAfterCreate(k: Kind) {
    k == Service
  }

  /** ConfigMap and Service have no JsonSyntaxException catch around their delete call. */
  predicate IgnoresJsonSyntaxOnDelete(k: Kind) {
    k != ConfigMap && k != Service
  }

  /** Service deletes with no V1DeleteOptions; the others ask for foreground propagation. */
  predicate DeletesInForeground(k: Kind) {
    k != Service
  }

  /** Namespace and ClusterRoleBinding are listed, created and deleted without a namespace. */
  predicate ClusterScoped(k: Kind) {
    k == Namespace || k == ClusterRoleBinding
  }

  /**
   * The namespace an action works in. Deployment, Job, ConfigMap and Ingress read it from the
   * resource's metadata and fall back to "default"; Pod and Service take it from their
   * constructor argument `given`; the two cluster-scoped kinds have none.
   */
  function ResourceNamespace(k: Kind, metadata: Option<string>, given: string): (r: Option<string>)
    ensures ClusterScoped(k) <==> r.None?
    ensures (k == Pod || k == Service) ==> r == Some(given)
    ensures !ClusterScoped(k) && k != Pod && k != Service ==>
      r == (if metadata.None? then Some("default") else metadata)
  {
    match k
    case Namespace | ClusterRoleBinding => None
    case Pod | Service => Some(given)
    case _ => Some(metadata.GetOr("default"))
  }

  /** The fields of a resource's status the readiness tests read; None stands for a Java null. */
  datatype Status = Status(
    availableReplicas: Option<int>,
    succeeded: Option<int>,
    containerStatuses: Option<seq<Option<bool>>>)

  /** A Deployment is ready once some replica is available. */
  predicate DeploymentReady(st: Status) {
    st.availableReplicas.Some? && st.availableReplicas.value > 0
  }

  /** A Job is ready once some pod of it has succeeded. */
  predicate JobReady(st: Status) {
    st.succeeded.Some? && st.succeeded.value > 0
  }

  /** Stream.allMatch over the container statuses: each is non-null and ready. */
  function AllContainersReady(statuses: seq<Option<bool>>): (r: bool)
    ensures r <==> forall i :: 0 <= i < |statuses| ==> statuses[i] == Some(true)
  {
    if statuses == [] then true
    else statuses[0] == Some(true) && AllContainersReady(statuses[1..])
  }

  /** A Pod with no status list is not ready; one with a list is ready when every container is. */
  predicate PodReady(st: Status) {
    st.containerStatuses.Some? && AllContainersReady(st.containerStatuses.value)
  }

  function Ready(k: Kind, st: Status): bool
    requires AwaitsReadiness(k)
  {
    match k
    case Deployment => DeploymentReady(st)
    case Job => JobReady(st)
    case Pod => PodReady(st)
  }

  /** allMatch on an empty stream is true: a Pod whose status lists no container is ready. */
  lemma PodWithoutContainersIsReady(st: Status)
    requires st.containerStatuses == Some([])
    ensures Ready(Pod, st)
  {
  }

  /** A Pod whose status list is null is never ready, and one null entry makes it not ready. */
  lemma PodNotReadyCases(st: Status, i: nat)
    ensures st.containerStatuses.None? ==> !Ready(Pod, st)
    ensures (st.containerStatuses.Some? && i < |st.containerStatuses.value|
             && st.containerStatuses.value[i] != Some(true)) ==> !Ready(Pod, st)
  {
  }
}
