/** The capacity aggregator: per-node availability (allocatable minus the
    requests of the pods attributed to the node that occupy it) and one pass
    over the nodes that sums allocatable capacity and tracks the nodes with the
    most available CPU and memory. */
module Capacity {
  import opened Resources
  import opened Results
  import opened Pods
  import opened Grouping

  datatype Node = Node(name: string, allocatable: ResourceItem)

  datatype NodeAvailableCapacity = NodeAvailableCapacity(
    total: ResourceItem,
    largestAvailableMemory: ResourceItem,
    largestAvailableCpu: ResourceItem)

  /** The all-zero accumulator a pass starts from. */
  function NewNodeAvailableCapacity(): (c: NodeAvailableCapacity)
    ensures c.total == Empty && LargestAvailable(c, Cpu) == Empty && LargestAvailable(c, Memory) == Empty
  {
    NodeAvailableCapacity(Empty, Empty, Empty)
  }

  /** The tracker for dimension `d`. */
  function LargestAvailable(c: NodeAvailableCapacity, d: Dimension): ResourceItem
  {
    match d
    case Cpu => c.largestAvailableCpu
    case Memory => c.largestAvailableMemory
  }

  function AllocatableOf(node: Node): ResourceItem
  {
    node.allocatable
  }

  function CpuRequest(pod: Pod): int
  {
    pod.request.cpu
  }

  function MemoryRequest(pod: Pod): int
  {
    pod.request.memory
  }

  /** Go's sumByFunc: the sum of `f` over the pods that use node resources. */
  function SumByFunc(pods: seq<Pod>, f: Pod -> int): int
  {
    SumWhere(pods, IsPodUsingNodeResources, f)
  }

  /** Summing one dimension through `f` is that dimension of the summed requests
      of the gated pods. */
  lemma SumByFuncIsGatedTotal(pods: seq<Pod>, f: Pod -> int, d: Dimension)
    requires forall pod :: f(pod) == Measure(pod.request, d)
    ensures SumByFunc(pods, f) == Measure(TotalRequests(UsingNodeResources(pods)), d)
  {
    SumWhereIsFilteredTotal(pods, IsPodUsingNodeResources, f, d);
  }

  /** A node's allocatable pair minus the requests of the pods grouped under its
      name that use node resources. The result is not clamped at zero. */
  function GetNodeAvailableResources(node: Node, groups: map<string, seq<Pod>>): (r: ResourceItem)
    ensures r == Sub(node.allocatable, TotalRequests(UsingNodeResources(GroupOf(groups, node.name))))
  {
    var filtered := GroupOf(groups, node.name);
    var usedCpu := SumByFunc(filtered, CpuRequest);
    var usedMemory := SumByFunc(filtered, MemoryRequest);
    SumByFuncIsGatedTotal(filtered, CpuRequest, Cpu);
    SumByFuncIsGatedTotal(filtered, MemoryRequest, Memory);
    ResourceItem(node.allocatable.cpu - usedCpu, node.allocatable.memory - usedMemory)
  }

  /** One iteration of the loop. The candidate's available value is compared with
      the stored pair, which is the allocatable pair of the previous winner; on
      replacement the node's allocatable pair is stored. */
  function CapacityStep(acc: NodeAvailableCapacity, node: Node, groups: map<string, seq<Pod>>): NodeAvailableCapacity
  {
    var available := GetNodeAvailableResources(node, groups);
    NodeAvailableCapacity(
      Add(acc.total, node.allocatable),
      if available.memory > acc.largestAvailableMemory.memory then node.allocatable else acc.largestAvailableMemory,
      if available.cpu > acc.largestAvailableCpu.cpu then node.allocatable else acc.largestAvailableCpu)
  }

  /** The loop over `nodes`, in input order. */
  function FoldCapacity(nodes: seq<Node>, groups: map<string, seq<Pod>>): NodeAvailableCapacity
  {
    if |nodes| == 0 then NewNodeAvailableCapacity()
    else CapacityStep(FoldCapacity(nodes[..|nodes| - 1], groups), nodes[|nodes| - 1], groups)
  }

  lemma FoldCapacitySnoc(nodes: seq<Node>, node: Node, groups: map<string, seq<Pod>>)
    ensures FoldCapacity(nodes + [node], groups) == CapacityStep(FoldCapacity(nodes, groups), node, groups)
  {
    assert (nodes + [node])[..|nodes|] == nodes;
  }

  lemma LargestAvailableAfterStep(acc: NodeAvailableCapacity, node: Node, groups: map<string, seq<Pod>>, d: Dimension)
    ensures LargestAvailable(CapacityStep(acc, node, groups), d)
         == if Measure(GetNodeAvailableResources(node, groups), d) > Measure(LargestAvailable(acc, d), d)
            then node.allocatable else LargestAvailable(acc, d)
  {
  }

  lemma {:induction false} CapacityTotalIsSumOfAllocatable(nodes: seq<Node>, groups: map<string, seq<Pod>>)
    ensures FoldCapacity(nodes, groups).total == Sum(nodes, AllocatableOf)
  {
    if |nodes| != 0 {
      var s := nodes[..|nodes| - 1];
      var node := nodes[|nodes| - 1];
      assert nodes == s + [node];
      CapacityTotalIsSumOfAllocatable(s, groups);
      SumAppend(s, [node], AllocatableOf);
      SumSingleton(node, AllocatableOf);
    }
  }

  /** The capacity of all `nodes` given all `pods`. The Go error return is always
      nil, and the total depends on the nodes alone. */
  function CalculateNodesCapacity(nodes: seq<Node>, pods: seq<Pod>): (r: Result<NodeAvailableCapacity>)
    ensures r.Ok?
    ensures r.value.total == Sum(nodes, AllocatableOf)
  {
    CapacityTotalIsSumOfAllocatable(nodes, MapPods(pods));
    Ok(FoldCapacity(nodes, MapPods(pods)))
  }

  /** With no nodes the result is all zero, whatever the pods. */
  lemma EmptyNodesGiveZeroCapacity(pods: seq<Pod>)
    ensures CalculateNodesCapacity([], pods) == Ok(NodeAvailableCapacity(Empty, Empty, Empty))
  {
  }

  /** Each tracker is either the initial zero pair or the allocatable pair of
      some input node. */
  lemma {:induction false} LargestAvailableIsZeroOrInputNode(nodes: seq<Node>, groups: map<string, seq<Pod>>, d: Dimension)
    ensures LargestAvailable(FoldCapacity(nodes, groups), d) == Empty
         || exists i :: 0 <= i < |nodes| && LargestAvailable(FoldCapacity(nodes, groups), d) == nodes[i].allocatable
  {
    if |nodes| != 0 {
      var s := nodes[..|nodes| - 1];
      var node := nodes[|nodes| - 1];
      LargestAvailableIsZeroOrInputNode(s, groups, d);
      LargestAvailableAfterStep(FoldCapacity(s, groups), node, groups, d);
      assert forall i :: 0 <= i < |s| ==> nodes[i] == s[i];
      assert nodes[|s|] == node;
    }
  }

  /** Node `i` is the last node to replace tracker `d`: its availability beat the
      value stored before it, and no later node's availability exceeds its
      allocatable, which is what later nodes are compared with. */
  ghost predicate IsLastReplacement(nodes: seq<Node>, groups: map<string, seq<Pod>>, d: Dimension, i: int)
  {
    && 0 <= i < |nodes|
    && Measure(GetNodeAvailableResources(nodes[i], groups), d)
         > Measure(LargestAvailable(FoldCapacity(nodes[..i], groups), d), d)
    && forall j :: i < j < |nodes| ==>
         Measure(GetNodeAvailableResources(nodes[j], groups), d) <= Measure(nodes[i].allocatable, d)
  }

  lemma LastReplacementAtEnd(s: seq<Node>, node: Node, groups: map<string, seq<Pod>>, d: Dimension)
    requires Measure(GetNodeAvailableResources(node, groups), d) > Measure(LargestAvailable(FoldCapacity(s, groups), d), d)
    ensures IsLastReplacement(s + [node], groups, d, |s|)
  {
    assert (s + [node])[..|s|] == s;
  }

  lemma LastReplacementKept(s: seq<Node>, node: Node, groups: map<string, seq<Pod>>, d: Dimension, i: int)
    requires IsLastReplacement(s, groups, d, i)
    requires Measure(GetNodeAvailableResources(node, groups), d) <= Measure(s[i].allocatable, d)
    ensures IsLastReplacement(s + [node], groups, d, i)
  {
    var t := s + [node];
    assert t[..i] == s[..i];
    var bound := Measure(s[i].allocatable, d);
    forall j | i < j < |t|
      ensures Measure(GetNodeAvailableResources(t[j], groups), d) <= bound
    {
      if j < |s| {
        assert t[j] == s[j];
      }
    }
  }

  /** A tracker that is not the zero pair is the allocatable pair of the last node
      that replaced it. */
  lemma {:induction false} LargestAvailableIsLastReplacement(nodes: seq<Node>, groups: map<string, seq<Pod>>, d: Dimension)
    ensures LargestAvailable(FoldCapacity(nodes, groups), d) != Empty ==>
              exists i :: IsLastReplacement(nodes, groups, d, i)
                          && LargestAvailable(FoldCapacity(nodes, groups), d) == nodes[i].allocatable
  {
    if |nodes| != 0 {
      var s := nodes[..|nodes| - 1];
      var node := nodes[|nodes| - 1];
      assert nodes == s + [node];
      var before := LargestAvailable(FoldCapacity(s, groups), d);
      FoldCapacitySnoc(s, node, groups);
      LargestAvailableAfterStep(FoldCapacity(s, groups), node, groups, d);
      if Measure(GetNodeAvailableResources(node, groups), d) > Measure(before, d) {
        LastReplacementAtEnd(s, node, groups, d);
      } else if before != Empty {
        LargestAvailableIsLastReplacement(s, groups, d);
        var i :| IsLastReplacement(s, groups, d, i) && before == s[i].allocatable;
        LastReplacementKept(s, node, groups, d, i);
      }
    }
  }

  /** If no node has positive availability in `d`, the tracker keeps the initial zero. */
  lemma {:induction false} NoHeadroomKeepsZero(nodes: seq<Node>, groups: map<string, seq<Pod>>, d: Dimension)
    requires forall i :: 0 <= i < |nodes| ==> Measure(GetNodeAvailableResources(nodes[i], groups), d) <= 0
    ensures LargestAvailable(FoldCapacity(nodes, groups), d) == Empty
  {
    if |nodes| != 0 {
      var s := nodes[..|nodes| - 1];
      var node := nodes[|nodes| - 1];
      assert forall i :: 0 <= i < |s| ==> nodes[i] == s[i];
      NoHeadroomKeepsZero(s, groups, d);
      LargestAvailableAfterStep(FoldCapacity(s, groups), node, groups, d);
    }
  }

  /** Every pod in every group has a non-negative request. */
  ghost predicate GroupsNonNegative(groups: map<string, seq<Pod>>)
  {
    forall name :: name in groups ==> RequestsNonNegative(groups[name])
  }

  lemma MapPodsNonNegative(pods: seq<Pod>)
    requires RequestsNonNegative(pods)
    ensures GroupsNonNegative(MapPods(pods))
  {
    MapPodsGroupsByNominatedName(pods);
  }

  /** With non-negative requests, a node's availability never exceeds its allocatable. */
  lemma AvailableAtMostAllocatable(node: Node, groups: map<string, seq<Pod>>, d: Dimension)
    requires GroupsNonNegative(groups)
    ensures Measure(GetNodeAvailableResources(node, groups), d) <= Measure(node.allocatable, d)
  {
    var used := UsingNodeResources(GroupOf(groups, node.name));
    SumNonNegative(used, RequestOf);
  }

  /** With non-negative requests, the stored value of a tracker is never negative
      and is at least the availability of every node: the stored value only grows,
      because a winner's allocatable is at least its own availability. */
  lemma {:induction false} LargestAvailableBoundsAvailability(nodes: seq<Node>, groups: map<string, seq<Pod>>, d: Dimension)
    requires GroupsNonNegative(groups)
    ensures 0 <= Measure(LargestAvailable(FoldCapacity(nodes, groups), d), d)
    ensures forall i :: 0 <= i < |nodes| ==>
              Measure(GetNodeAvailableResources(nodes[i], groups), d) <= Measure(LargestAvailable(FoldCapacity(nodes, groups), d), d)
  {
    if |nodes| != 0 {
      var s := nodes[..|nodes| - 1];
      var node := nodes[|nodes| - 1];
      LargestAvailableBoundsAvailability(s, groups, d);
      LargestAvailableAfterStep(FoldCapacity(s, groups), node, groups, d);
      AvailableAtMostAllocatable(node, groups, d);
      assert forall i :: 0 <= i < |s| ==> nodes[i] == s[i];
    }
  }

  /** With non-negative pod requests, a tracker is zero exactly when no node has
      positive availability in its dimension. */
  lemma LargestAvailableZeroIffNoHeadroom(nodes: seq<Node>, pods: seq<Pod>, d: Dimension)
    requires RequestsNonNegative(pods)
    ensures LargestAvailable(CalculateNodesCapacity(nodes, pods).value, d) == Empty
        <==> forall i :: 0 <= i < |nodes| ==> Measure(GetNodeAvailableResources(nodes[i], MapPods(pods)), d) <= 0
  {
    var groups := MapPods(pods);
    MapPodsNonNegative(pods);
    LargestAvailableBoundsAvailability(nodes, groups, d);
    if forall i :: 0 <= i < |nodes| ==> Measure(GetNodeAvailableResources(nodes[i], groups), d) <= 0 {
      NoHeadroomKeepsZero(nodes, groups, d);
    }
  }

  lemma GroupAfterAddingPod(pods: seq<Pod>, pod: Pod, name: string)
    ensures GroupOf(MapPods(pods + [pod]), name)
         == GroupOf(MapPods(pods), name) + if pod.nominatedNodeName == name then [pod] else []
  {
    GroupOfMapPods(pods + [pod], name);
    GroupOfMapPods(pods, name);
    NominatedAfterAppend(pods, pod);
  }

  lemma UsedAfterAppend(group: seq<Pod>, pod: Pod)
    ensures TotalRequests(UsingNodeResources(group + [pod]))
         == if IsPodUsingNodeResources(pod) then Add(TotalRequests(UsingNodeResources(group)), pod.request)
            else TotalRequests(UsingNodeResources(group))
  {
    FilterAppend(group, [pod], IsPodUsingNodeResources);
    FilterSingleton(pod, IsPodUsingNodeResources);
    var gated := Filter([pod], IsPodUsingNodeResources);
    SumAppend(UsingNodeResources(group), gated, RequestOf);
    if gated != [] {
      SumSingleton(pod, RequestOf);
    } else {
      assert UsingNodeResources(group) + gated == UsingNodeResources(group);
    }
  }

  lemma AvailabilityOfExtendedGroup(node: Node, before: map<string, seq<Pod>>, after: map<string, seq<Pod>>, pod: Pod)
    requires GroupOf(after, node.name) == GroupOf(before, node.name) + if pod.nominatedNodeName == node.name then [pod] else []
    ensures GetNodeAvailableResources(node, after)
         == if pod.nominatedNodeName == node.name && IsPodUsingNodeResources(pod)
            then Sub(GetNodeAvailableResources(node, before), pod.request)
            else GetNodeAvailableResources(node, before)
  {
    var group := GroupOf(before, node.name);
    if pod.nominatedNodeName == node.name {
      UsedAfterAppend(group, pod);
    } else {
      assert group + [] == group;
    }
  }

  /** Adding one pod changes a node's availability exactly when the pod is
      nominated to that node and uses node resources, and then by exactly its
      request. Pods under another key, including the empty key, never count. */
  lemma AvailabilityAfterAddingPod(node: Node, pods: seq<Pod>, pod: Pod)
    ensures GetNodeAvailableResources(node, MapPods(pods + [pod]))
         == if pod.nominatedNodeName == node.name && IsPodUsingNodeResources(pod)
            then Sub(GetNodeAvailableResources(node, MapPods(pods)), pod.request)
            else GetNodeAvailableResources(node, MapPods(pods))
  {
    GroupAfterAddingPod(pods, pod, node.name);
    AvailabilityOfExtendedGroup(node, MapPods(pods), MapPods(pods + [pod]), pod);
  }

  /** Pods with no nomination sit under the empty key, which no named node
      looks up: adding one never changes the availability of a node with a name. */
  lemma UnnominatedPodNeverReducesAvailability(node: Node, pods: seq<Pod>, pod: Pod)
    requires node.name != ""
    requires pod.nominatedNodeName == ""
    ensures GetNodeAvailableResources(node, MapPods(pods + [pod])) == GetNodeAvailableResources(node, MapPods(pods))
  {
    AvailabilityAfterAddingPod(node, pods, pod);
  }
}
