# Cluster usage and capacity aggregation, modelled in Dafny

This project models the aggregation layer of a Kubernetes cluster autoscaler
(`pkg/k8s/util.go`). On each cycle the autoscaler hands it a snapshot of pods
and nodes. The layer answers three questions:

- how much CPU and memory all pods request, and which pending pod requests the
  most memory and the most CPU (`CalculatePodsRequestedUsage`);
- how much each node has left once the pods attributed to it are subtracted
  (`GetNodeAvailableResources`, over the grouping built by `mapPods`);
- how much allocatable capacity the nodes have in total, and which node leads
  on available CPU and on available memory (`CalculateNodesCapacity`).

Resource quantities are exact integers: CPU in milli-units, memory in bytes.
A pod's effective request is a field of the pod. The three accumulating loops
of the source (util.go:77, :99 and :122) are left folds over a sequence
(`FoldUsage`, `FoldCapacity`, `MapPods`). Lemmas connect each fold to a
reference definition: sums, maxima and filters. The sum `Resources.Sum` does
not depend on the order of its terms (`Resources.SumOrderIndependent`). The
scanning loops of `sumByFunc` (util.go:134-142), `PodIsDaemonSet` (util.go:12)
and `isPodScheduled` (util.go:145) accumulate nothing that depends on order, so
they are written as recursions from the head (`Pods.SumWhere`,
`Pods.HasOwnerOfKind`, `Pods.ScheduledByConditions`).

Modules, one per component of the source file:

- `Resources`: the (CPU, memory) pair, its arithmetic and the zero pair. The
  zero pair is `newEmptyResourceItem`; `newResourceItem` is the `ResourceItem`
  constructor itself.
- `Results`: `Option` for Go's comma-ok map lookup. `Result` for the Go
  `(value, error)` returns.
- `Pods`: the pod record, the pre-filters `PodIsDaemonSet` and `PodIsStatic`,
  and the gates `IsPodScheduled` and `IsPodUsingNodeResources`.
- `Usage`: `PodRequestedUsage`, `NewPodRequestedUsage` and
  `CalculatePodsRequestedUsage`.
- `Grouping`: `MapPods` and the missing-key lookup `GroupOf`.
- `Capacity`: `Node`, `NodeAvailableCapacity`, `NewNodeAvailableCapacity`,
  `SumByFunc`, `GetNodeAvailableResources` and `CalculateNodesCapacity`.
- `Scenarios`: worked cases on small concrete clusters.

Two behaviours of the code are modelled exactly as written:

- **Winner comparison (util.go:103 and :109).** A node's *available* value is
  compared with the stored pair. The stored pair is the *allocatable* pair of
  the previous winner. So a node can keep the lead even when a later node has
  more available (`Scenarios.WinnerComparedAgainstAllocatable`). What does hold
  is `Capacity.LargestAvailableBoundsAvailability`: with non-negative requests,
  the stored value is at least every node's availability.
- **Attribution by nomination (util.go:159).** Pods are attributed to a node
  through `Status.NominatedNodeName`. Pods with no nomination sit under the
  empty key. They count in the cluster-wide usage total but reduce the
  availability of no node with a non-empty name
  (`Capacity.UnnominatedPodNeverReducesAvailability`). A node whose name is
  empty would see them, as `Capacity.AvailabilityAfterAddingPod` states.

Two further points about what the code decides:

- A pod is scheduled according to the *first* condition of type PodScheduled
  only (util.go:145-148). A later PodScheduled condition with status True does
  not count (`Pods.IsPodScheduled`).
- The maximum pending request does not depend on the order of the pods
  (`Usage.MaxPendingOrderIndependent`), but the stored pair does: the strict
  comparison at util.go:82 and :85 keeps the first pod in input order among
  those that reach the maximum (`Usage.LargestPendingIsFirstMaximum`).

## Model

| member | source | states |
|---|---|---|
| `Pods.PodIsDaemonSet` | pkg/k8s/util.go:10-18 | true exactly when some owner reference has kind "DaemonSet" |
| `Pods.PodIsStatic` | pkg/k8s/util.go:20-24 | true exactly when the annotation "kubernetes.io/config.source" is present and equals "file"; an absent key gives false |
| `Pods.IsPodScheduled` | pkg/k8s/util.go:144-151 | true exactly when the first condition of type PodScheduled exists and has status True; later PodScheduled conditions are ignored, and no such condition gives false |
| `Pods.IsPodUsingNodeResources` | pkg/k8s/util.go:153-156 | true exactly when the pod is scheduled and its phase is Pending or Running; Succeeded, Failed and Unknown pods never pass |
| `Resources.SumOrderIndependent` | pkg/k8s/util.go:77-80 | two inputs with the same multiset of terms have the same sum, so the order in which the loop adds the requests does not change the total |
| `Usage.NewPodRequestedUsage` | pkg/k8s/util.go:43-63 | the total and both trackers start as the all-zero pair; `Resources.Empty` is that pair, the value of `newEmptyResourceItem` |
| `Usage.CalculatePodsRequestedUsage` | pkg/k8s/util.go:73-92 | never returns an error; the total is the sum of every pod's request, whatever its phase; each tracker's own dimension equals the maximum of 0 and the pending pods' requests |
| `Usage.UsageTotalIsSumOfRequests` | pkg/k8s/util.go:77-80 | the loop's running total equals the order-free sum of all requests |
| `Usage.InsertingPodAddsItsRequest` | pkg/k8s/util.go:77-80 | inserting a pod anywhere in the input adds exactly its request to the total, so a non-negative request never lowers it |
| `Usage.MaxPendingIsMaximum` | pkg/k8s/util.go:81-88 | the reference maximum is non-negative, bounds every pending pod's request, and is 0 or reached by some pending pod |
| `Usage.MaxPendingOrderIndependent` | pkg/k8s/util.go:81-88 | any reordering of the pods leaves the maximum pending request unchanged |
| `Usage.LargestPendingIsFirstMaximum` | pkg/k8s/util.go:81-88 | each tracker holds the maximum pending request in its dimension, as the full pair of the first pending pod that reaches it; it is the zero pair when that maximum is 0 |
| `Usage.TrackersIgnoreNonPendingPods` | pkg/k8s/util.go:81-88 | removing every non-pending pod leaves both trackers unchanged, so a running pod never becomes a tracker |
| `Usage.NoPendingPodsKeepTrackersZero` | pkg/k8s/util.go:57-88 | without pending pods, the empty input included, both trackers are the zero pair |
| `Usage.EmptyInputGivesZeroUsage` | pkg/k8s/util.go:57-63 | the empty pod list gives an all-zero usage and no error |
| `Grouping.MapPods` | pkg/k8s/util.go:120-132 | builds the grouping by nominated name; its contract is stated by `Grouping.MapPodsGroupsByNominatedName` and `Grouping.EveryPodInExactlyOneGroup` |
| `Grouping.MapPodsGroupsByNominatedName` | pkg/k8s/util.go:120-132 | the keys are exactly the nominated names that occur, the empty name included; each group is exactly the pods nominated to its key, in input order |
| `Grouping.GroupOfMapPods` | pkg/k8s/util.go:159 | looking up any name in the grouping, present or absent, gives exactly the pods nominated to it |
| `Grouping.EveryPodInExactlyOneGroup` | pkg/k8s/util.go:120-132 | every pod is in the group of its own nominated name, and every pod in a group carries that group's name |
| `Capacity.SumByFunc` | pkg/k8s/util.go:134-142 | sums `f` over the pods that pass the gate; its contract is stated by `Capacity.SumByFuncIsGatedTotal` |
| `Capacity.SumByFuncIsGatedTotal` | pkg/k8s/util.go:134-142 | summing one request dimension with the gate gives that dimension of the summed requests of the pods that pass the gate |
| `Capacity.GetNodeAvailableResources` | pkg/k8s/util.go:158-171 | allocatable minus the summed requests of the pods grouped under the node's name that pass the gate; not clamped |
| `Capacity.AvailableAtMostAllocatable` | pkg/k8s/util.go:158-169 | with non-negative requests a node's availability never exceeds its allocatable |
| `Capacity.AvailabilityAfterAddingPod` | pkg/k8s/util.go:158-169 | adding a pod lowers a node's availability by exactly its request when the pod is nominated to that node and passes the gate, and leaves it unchanged otherwise |
| `Capacity.UnnominatedPodNeverReducesAvailability` | pkg/k8s/util.go:158-169 | adding a pod with no nomination leaves the availability of every node with a non-empty name unchanged |
| `Capacity.NewNodeAvailableCapacity` | pkg/k8s/util.go:65-71 | the total and both trackers start as the all-zero pair |
| `Capacity.CalculateNodesCapacity` | pkg/k8s/util.go:94-118 | never returns an error; the total is the sum of every node's allocatable and does not depend on the pods |
| `Capacity.CapacityTotalIsSumOfAllocatable` | pkg/k8s/util.go:99-101 | the loop's running total equals the order-free sum of allocatable |
| `Capacity.EmptyNodesGiveZeroCapacity` | pkg/k8s/util.go:65-71 | with no nodes the capacity is all zero and there is no error, whatever the pods |
| `Capacity.LargestAvailableIsZeroOrInputNode` | pkg/k8s/util.go:103-114 | each tracker is the zero pair or the allocatable pair of some input node |
| `Capacity.LargestAvailableIsLastReplacement` | pkg/k8s/util.go:103-114 | a non-zero tracker is the allocatable pair of the node at some index i whose availability beat the tracker of the nodes before it, and every later node's availability is at most node i's allocatable |
| `Capacity.NoHeadroomKeepsZero` | pkg/k8s/util.go:103-114 | if no node has positive availability in a dimension, that tracker keeps the zero pair |
| `Capacity.LargestAvailableBoundsAvailability` | pkg/k8s/util.go:103-114 | with non-negative requests, each tracker's stored value is non-negative and at least every node's availability in its dimension |
| `Capacity.LargestAvailableZeroIffNoHeadroom` | pkg/k8s/util.go:103-114 | with non-negative requests, a tracker is the zero pair exactly when no node has positive availability in its dimension |
| `Scenarios.LargestMemoryAmongPending` | pkg/k8s/util.go:77-88 | pending memory requests 100, 500, 300 and a larger running pod: the memory tracker is the pair of the 500 pod, and the running pod counts only in the total |
| `Scenarios.TieKeepsFirstPending` | pkg/k8s/util.go:82-84 | two pending pods with equal memory: the first is kept |
| `Scenarios.AvailabilitySkipsCompletedPods` | pkg/k8s/util.go:134-169 | a node with 2000m and 4Gi and a running pod of 500m and 1Gi has 1500m and 3Gi left; a succeeded pod on the same node changes nothing |
| `Scenarios.OverCommitIsNegative` | pkg/k8s/util.go:168-169 | requests above allocatable give negative availability |
| `Scenarios.FirstOfTwoKeepsLead` | pkg/k8s/util.go:103-114 | of two nodes, the first keeps the lead when it has positive availability and the second's availability does not exceed the first's allocatable, even if it exceeds the first's availability |
| `Scenarios.WinnerComparedAgainstAllocatable` | pkg/k8s/util.go:102-108 | a node with 2000m available does not displace a winner with 1000m available but 4000m allocatable |

## Left out

- `scheduler.ComputePodResourceRequest`: the combination of init-container and container requests is outside this file. Each pod carries its effective request as the field `request`.
- `resource.Quantity`: quantities are exact integers. There is no int64 overflow in the `Add` calls or in `sumByFunc`'s `int64` accumulator, and no rounding in `Value()` or `MilliValue()`. Go's in-place `Quantity.Add` becomes a pure sum.
- Pod phase is a five-value datatype (Pending, Running, Succeeded, Failed, Unknown). Go's phase is a string, and other strings are not modelled. They would behave like Unknown in every comparison made here.
- API objects keep only the fields this file reads. Owner references keep only their kind, and condition types stay strings. Pointer aliasing between snapshots is not modelled.
- Condition status is a three-value datatype (True, False, Unknown). Go's status is a string, and other strings are not modelled. They would behave like False or Unknown, since only True passes the comparison at util.go:147.
- Go map iteration order: the grouping is a `map<string, seq<Pod>>`. The source only looks keys up in it.
- `Capacity.LargestAvailableBoundsAvailability`: assumes every pod request is non-negative. The external request computation guarantees this, but it is not part of this model.
- `Capacity.LargestAvailableZeroIffNoHeadroom`: needs the same non-negative-request assumption for the direction "zero pair implies no headroom".
- `Capacity.AvailableAtMostAllocatable`: needs the same non-negative-request assumption.
