/** Pods as the aggregation layer sees them, and the classifiers that decide
    which pods are pre-filtered by the caller and which pods occupy a node. */
module Pods {
  import opened Resources
  import opened Results

  datatype OwnerReference = OwnerReference(kind: string)

  datatype PodPhase = Pending | Running | Succeeded | Failed | Unknown

  datatype ConditionStatus = ConditionTrue | ConditionFalse | ConditionUnknown

  datatype PodCondition = PodCondition(conditionType: string, status: ConditionStatus)

  /** A pod snapshot. `request` stands for the scheduler's effective request of
      the pod (its init-container and container requests combined), which this
      layer only reads. */
  datatype Pod = Pod(
    ownerReferences: seq<OwnerReference>,
    annotations: map<string, string>,
    phase: PodPhase,
    conditions: seq<PodCondition>,
    nominatedNodeName: string,
    request: ResourceItem)

  const DaemonSetKind: string := "DaemonSet"
  const ConfigSourceAnnotation: string := "kubernetes.io/config.source"
  const FileConfigSource: string := "file"
  const PodScheduled: string := "PodScheduled"

  /** Scans owner references front to back, stopping at the first match. */
  function HasOwnerOfKind(refs: seq<OwnerReference>, kind: string): (b: bool)
    ensures b <==> exists i :: 0 <= i < |refs| && refs[i].kind == kind
  {
    if |refs| == 0 then false
    else if refs[0].kind == kind then true
    else
      assert forall i :: 0 < i < |refs| ==> refs[i] == refs[1..][i - 1];
      HasOwnerOfKind(refs[1..], kind)
  }

  /** A pod is managed by a DaemonSet when any owner reference has that kind. */
  function PodIsDaemonSet(pod: Pod): (b: bool)
    ensures b <==> exists i :: 0 <= i < |pod.ownerReferences| && pod.ownerReferences[i].kind == DaemonSetKind
  {
    HasOwnerOfKind(pod.ownerReferences, DaemonSetKind)
  }

  /** A pod is static when its config-source annotation is present and says "file". */
  function PodIsStatic(pod: Pod): (b: bool)
    ensures b <==> ConfigSourceAnnotation in pod.annotations && pod.annotations[ConfigSourceAnnotation] == FileConfigSource
  {
    match Lookup(pod.annotations, ConfigSourceAnnotation)
    case Some(configSource) => configSource == FileConfigSource
    case None => false
  }

  /** Index `i` holds the first condition of type `t`. */
  ghost predicate IsFirstOfType(conditions: seq<PodCondition>, i: int, t: string)
  {
    && 0 <= i < |conditions|
    && conditions[i].conditionType == t
    && forall j :: 0 <= j < i ==> conditions[j].conditionType != t
  }

  /** Scans conditions front to back; the first PodScheduled condition decides. */
  function ScheduledByConditions(conditions: seq<PodCondition>): (b: bool)
    ensures b <==> exists i :: IsFirstOfType(conditions, i, PodScheduled) && conditions[i].status == ConditionTrue
    ensures (forall i :: 0 <= i < |conditions| ==> conditions[i].conditionType != PodScheduled) ==> !b
  {
    if |conditions| == 0 then false
    else if conditions[0].conditionType == PodScheduled then
      assert IsFirstOfType(conditions, 0, PodScheduled);
      conditions[0].status == ConditionTrue
    else
      var rest := conditions[1..];
      assert forall i :: IsFirstOfType(rest, i, PodScheduled) <==> IsFirstOfType(conditions, i + 1, PodScheduled);
      assert forall i :: IsFirstOfType(conditions, i, PodScheduled) ==> 0 < i && IsFirstOfType(rest, i - 1, PodScheduled);
      ScheduledByConditions(rest)
  }

  /** The pod has been scheduled: its first PodScheduled condition has status True. */
  function IsPodScheduled(pod: Pod): (b: bool)
    ensures b <==> exists i :: IsFirstOfType(pod.conditions, i, PodScheduled) && pod.conditions[i].status == ConditionTrue
  {
    ScheduledByConditions(pod.conditions)
  }

  /** The gate for per-node accounting: a scheduled pod that is Pending or Running.
      Succeeded, Failed and Unknown pods never count, scheduled or not. */
  function IsPodUsingNodeResources(pod: Pod): (b: bool)
    ensures b <==> (exists i :: IsFirstOfType(pod.conditions, i, PodScheduled) && pod.conditions[i].status == ConditionTrue)
                   && (pod.phase == Pending || pod.phase == Running)
    ensures pod.phase == Succeeded || pod.phase == Failed || pod.phase == Unknown ==> !b
  {
    IsPodScheduled(pod) && (pod.phase == Pending || pod.phase == Running)
  }

  predicate IsPending(pod: Pod)
  {
    pod.phase == Pending
  }

  function RequestOf(pod: Pod): ResourceItem
  {
    pod.request
  }

  /** The summed requests of `pods`, whatever their phase or scheduling state. */
  function TotalRequests(pods: seq<Pod>): ResourceItem
  {
    Sum(pods, RequestOf)
  }

  predicate RequestsNonNegative(pods: seq<Pod>)
  {
    forall i :: 0 <= i < |pods| ==> NonNegative(pods[i].request)
  }

  /** The pods satisfying `keep`, in their original order. */
  function Filter(pods: seq<Pod>, keep: Pod -> bool): (r: seq<Pod>)
    ensures |r| <= |pods|
    ensures forall i :: 0 <= i < |r| ==> keep(r[i]) && r[i] in pods
    ensures forall i :: 0 <= i < |pods| && keep(pods[i]) ==> pods[i] in r
  {
    if |pods| == 0 then []
    else
      assert forall i :: 0 < i < |pods| ==> pods[i] == pods[1..][i - 1];
      (if keep(pods[0]) then [pods[0]] else []) + Filter(pods[1..], keep)
  }

  lemma {:induction false} FilterAppend(xs: seq<Pod>, ys: seq<Pod>, keep: Pod -> bool)
    ensures Filter(xs + ys, keep) == Filter(xs, keep) + Filter(ys, keep)
  {
    if |xs| == 0 {
      assert xs + ys == ys;
    } else {
      assert (xs + ys)[1..] == xs[1..] + ys;
      FilterAppend(xs[1..], ys, keep);
    }
  }

  lemma {:induction false} FilterNone(pods: seq<Pod>, keep: Pod -> bool)
    requires forall i :: 0 <= i < |pods| ==> !keep(pods[i])
    ensures Filter(pods, keep) == []
  {
    if |pods| != 0 {
      assert forall i :: 0 <= i < |pods[1..]| ==> pods[1..][i] == pods[i + 1];
      FilterNone(pods[1..], keep);
    }
  }

  lemma FilterSingleton(x: Pod, keep: Pod -> bool)
    ensures Filter([x], keep) == if keep(x) then [x] else []
  {
    assert [x][1..] == [];
  }

  /** The sum of `f` over the pods satisfying `keep`, front to back. */
  function SumWhere(pods: seq<Pod>, keep: Pod -> bool, f: Pod -> int): int
  {
    if |pods| == 0 then 0
    else (if keep(pods[0]) then f(pods[0]) else 0) + SumWhere(pods[1..], keep, f)
  }

  lemma {:induction false} SumWhereIsFilteredTotal(pods: seq<Pod>, keep: Pod -> bool, f: Pod -> int, d: Dimension)
    requires forall pod :: f(pod) == Measure(pod.request, d)
    ensures SumWhere(pods, keep, f) == Measure(TotalRequests(Filter(pods, keep)), d)
  {
    if |pods| != 0 {
      var head := if keep(pods[0]) then [pods[0]] else [];
      var rest := Filter(pods[1..], keep);
      SumWhereIsFilteredTotal(pods[1..], keep, f, d);
      assert Filter(pods, keep) == head + rest;
      SumAppend(head, rest, RequestOf);
      if keep(pods[0]) {
        SumSingleton(pods[0], RequestOf);
      }
    }
  }

  /** The pods that reduce the availability of the node they are attributed to. */
  function UsingNodeResources(pods: seq<Pod>): seq<Pod>
  {
    Filter(pods, IsPodUsingNodeResources)
  }
}
