/** Worked cases of the aggregators on small concrete clusters: the largest
    pending request with and without ties, the availability subtraction with a
    completed pod, over-commit, and the comparison of a node's availability
    against the previous winner's allocatable pair. */
module Scenarios {
  import opened Resources
  import opened Results
  import opened Pods
  import opened Grouping
  import opened Usage
  import opened Capacity

  const Gi: int := 1024 * 1024 * 1024

  /** A pod whose PodScheduled condition is True, nominated to `nodeName`. */
  function ScheduledPod(phase: PodPhase, nodeName: string, request: ResourceItem): Pod
  {
    Pod([], map[], phase, [PodCondition(PodScheduled, ConditionTrue)], nodeName, request)
  }

  lemma ScheduledPodUsesNode(phase: PodPhase, nodeName: string, request: ResourceItem)
    ensures IsPodUsingNodeResources(ScheduledPod(phase, nodeName, request)) <==> phase == Pending || phase == Running
  {
    assert IsFirstOfType(ScheduledPod(phase, nodeName, request).conditions, 0, PodScheduled);
  }

  /** Pending memory requests 100, 500, 300 and a larger running pod: the memory
      tracker holds the pair of the 500 pod; the running pod counts only in the total. */
  lemma LargestMemoryAmongPending()
    ensures var pods := [ScheduledPod(Pending, "", ResourceItem(10, 100)),
                         ScheduledPod(Pending, "", ResourceItem(20, 500)),
                         ScheduledPod(Running, "a", ResourceItem(5, 900)),
                         ScheduledPod(Pending, "", ResourceItem(30, 300))];
            var u := CalculatePodsRequestedUsage(pods).value;
            && u.largestMemory == ResourceItem(20, 500)
            && u.largestCpu == ResourceItem(30, 300)
            && u.total == ResourceItem(65, 1800)
  {
    var p0 := ScheduledPod(Pending, "", ResourceItem(10, 100));
    var p1 := ScheduledPod(Pending, "", ResourceItem(20, 500));
    var p2 := ScheduledPod(Running, "a", ResourceItem(5, 900));
    var p3 := ScheduledPod(Pending, "", ResourceItem(30, 300));
    assert [] + [p0] == [p0] && [p0] + [p1] == [p0, p1];
    assert [p0, p1] + [p2] == [p0, p1, p2] && [p0, p1, p2] + [p3] == [p0, p1, p2, p3];
    FoldUsageSnoc([], p0);
    FoldUsageSnoc([p0], p1);
    FoldUsageSnoc([p0, p1], p2);
    FoldUsageSnoc([p0, p1, p2], p3);
    var u1 := UsageStep(NewPodRequestedUsage(), p0);
    assert u1 == PodRequestedUsage(ResourceItem(10, 100), ResourceItem(10, 100), ResourceItem(10, 100));
    var u2 := UsageStep(u1, p1);
    assert u2 == PodRequestedUsage(ResourceItem(30, 600), ResourceItem(20, 500), ResourceItem(20, 500));
    var u3 := UsageStep(u2, p2);
    assert u3 == PodRequestedUsage(ResourceItem(35, 1500), ResourceItem(20, 500), ResourceItem(20, 500));
    assert UsageStep(u3, p3) == PodRequestedUsage(ResourceItem(65, 1800), ResourceItem(20, 500), ResourceItem(30, 300));
  }

  /** Two pending pods tie on memory: the first one seen is kept. */
  lemma TieKeepsFirstPending()
    ensures var pods := [ScheduledPod(Pending, "", ResourceItem(5, 500)),
                         ScheduledPod(Pending, "", ResourceItem(7, 500))];
            CalculatePodsRequestedUsage(pods).value.largestMemory == ResourceItem(5, 500)
  {
    var p0 := ScheduledPod(Pending, "", ResourceItem(5, 500));
    var p1 := ScheduledPod(Pending, "", ResourceItem(7, 500));
    assert [] + [p0] == [p0] && [p0] + [p1] == [p0, p1];
    FoldUsageSnoc([], p0);
    FoldUsageSnoc([p0], p1);
  }

  /** A running pod reduces availability; a succeeded pod on the same node does not. */
  lemma AvailabilitySkipsCompletedPods()
    ensures var node := Node("a", ResourceItem(2000, 4 * Gi));
            var pods := [ScheduledPod(Running, "a", ResourceItem(500, Gi)),
                         ScheduledPod(Succeeded, "a", ResourceItem(1000, 0))];
            GetNodeAvailableResources(node, MapPods(pods)) == ResourceItem(1500, 3 * Gi)
  {
    var node := Node("a", ResourceItem(2000, 4 * Gi));
    var p0 := ScheduledPod(Running, "a", ResourceItem(500, Gi));
    var p1 := ScheduledPod(Succeeded, "a", ResourceItem(1000, 0));
    ScheduledPodUsesNode(Running, "a", ResourceItem(500, Gi));
    ScheduledPodUsesNode(Succeeded, "a", ResourceItem(1000, 0));
    assert [] + [p0] == [p0];
    assert [p0] + [p1] == [p0, p1];
    AvailabilityAfterAddingPod(node, [], p0);
    AvailabilityAfterAddingPod(node, [p0], p1);
  }

  /** Requests above allocatable give negative availability, reported as is. */
  lemma OverCommitIsNegative()
    ensures var node := Node("a", ResourceItem(1000, Gi));
            var pods := [ScheduledPod(Running, "a", ResourceItem(1500, 2 * Gi))];
            GetNodeAvailableResources(node, MapPods(pods)) == ResourceItem(-500, -Gi)
  {
    var node := Node("a", ResourceItem(1000, Gi));
    var p0 := ScheduledPod(Running, "a", ResourceItem(1500, 2 * Gi));
    ScheduledPodUsesNode(Running, "a", ResourceItem(1500, 2 * Gi));
    assert [] + [p0] == [p0];
    AvailabilityAfterAddingPod(node, [], p0);
  }

  lemma NoPodsLeaveAllocatable(node: Node)
    ensures GetNodeAvailableResources(node, MapPods([])) == node.allocatable
  {
    assert GroupOf(MapPods([]), node.name) == [];
  }

  /** Of two nodes, the first keeps the lead in `d` when it has positive
      availability and the second's availability does not exceed the first's
      allocatable, whatever the second's availability is relative to the first's. */
  lemma FirstOfTwoKeepsLead(a: Node, b: Node, groups: map<string, seq<Pod>>, d: Dimension)
    requires Measure(GetNodeAvailableResources(a, groups), d) > 0
    requires Measure(GetNodeAvailableResources(b, groups), d) <= Measure(a.allocatable, d)
    ensures LargestAvailable(FoldCapacity([a, b], groups), d) == a.allocatable
  {
    assert [] + [a] == [a] && [a] + [b] == [a, b];
    FoldCapacitySnoc([], a, groups);
    FoldCapacitySnoc([a], b, groups);
    LargestAvailableAfterStep(NewNodeAvailableCapacity(), a, groups, d);
    LargestAvailableAfterStep(FoldCapacity([a], groups), b, groups, d);
  }

  /** Node a has 1000m CPU available out of 4000m, node b 2000m out of 2000m. Node
      b's availability is compared with a's stored allocatable 4000m, so a stays
      the CPU winner although b has more CPU available. */
  lemma WinnerComparedAgainstAllocatable()
    ensures var nodes := [Node("a", ResourceItem(4000, 8 * Gi)), Node("b", ResourceItem(2000, 8 * Gi))];
            var pods := [ScheduledPod(Running, "a", ResourceItem(3000, 0))];
            && GetNodeAvailableResources(nodes[0], MapPods(pods)).cpu == 1000
            && GetNodeAvailableResources(nodes[1], MapPods(pods)).cpu == 2000
            && CalculateNodesCapacity(nodes, pods).value.largestAvailableCpu == nodes[0].allocatable
  {
    var a := Node("a", ResourceItem(4000, 8 * Gi));
    var b := Node("b", ResourceItem(2000, 8 * Gi));
    var p0 := ScheduledPod(Running, "a", ResourceItem(3000, 0));
    ScheduledPodUsesNode(Running, "a", ResourceItem(3000, 0));
    assert [] + [p0] == [p0];
    NoPodsLeaveAllocatable(a);
    NoPodsLeaveAllocatable(b);
    AvailabilityAfterAddingPod(a, [], p0);
    AvailabilityAfterAddingPod(b, [], p0);
    FirstOfTwoKeepsLead(a, b, MapPods([p0]), Cpu);
  }
}
