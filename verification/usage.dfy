/** The usage aggregator: one pass over the pods that sums every request and
    tracks, independently by memory and by CPU, the largest pending request. */
module Usage {
  import opened Resources
  import opened Results
  import opened Pods

  datatype PodRequestedUsage = PodRequestedUsage(
    total: ResourceItem,
    largestMemory: ResourceItem,
    largestCpu: ResourceItem)

  /** The all-zero accumulator a pass starts from. */
  function NewPodRequestedUsage(): (u: PodRequestedUsage)
    ensures u.total == Empty && Largest(u, Cpu) == Empty && Largest(u, Memory) == Empty
  {
    PodRequestedUsage(Empty, Empty, Empty)
  }

  /** The tracker for dimension `d`. */
  function Largest(u: PodRequestedUsage, d: Dimension): ResourceItem
  {
    match d
    case Cpu => u.largestCpu
    case Memory => u.largestMemory
  }

  /** A tracker keeps its pair unless the candidate is strictly greater in `d`;
      on replacement it takes the candidate's whole pair. */
  function KeepLarger(current: ResourceItem, candidate: ResourceItem, d: Dimension): ResourceItem
  {
    if Measure(candidate, d) > Measure(current, d) then candidate else current
  }

  /** One iteration of the loop: every pod adds to the total, only a pending
      pod is offered to the two trackers. */
  function UsageStep(acc: PodRequestedUsage, pod: Pod): PodRequestedUsage
  {
    var total := Add(acc.total, pod.request);
    if pod.phase == Pending then
      PodRequestedUsage(
        total,
        KeepLarger(acc.largestMemory, pod.request, Memory),
        KeepLarger(acc.largestCpu, pod.request, Cpu))
    else
      acc.(total := total)
  }

  /** The loop over `pods`, in input order. */
  function FoldUsage(pods: seq<Pod>): PodRequestedUsage
  {
    if |pods| == 0 then NewPodRequestedUsage()
    else UsageStep(FoldUsage(pods[..|pods| - 1]), pods[|pods| - 1])
  }

  lemma FoldUsageSnoc(pods: seq<Pod>, pod: Pod)
    ensures FoldUsage(pods + [pod]) == UsageStep(FoldUsage(pods), pod)
  {
    assert (pods + [pod])[..|pods|] == pods;
  }

  /** The largest request in `d` among the pending pods, or 0 if that is larger. */
  function MaxPending(pods: seq<Pod>, d: Dimension): int
  {
    if |pods| == 0 then 0
    else
      var m := MaxPending(pods[..|pods| - 1], d);
      var pod := pods[|pods| - 1];
      if pod.phase == Pending then Max(m, Measure(pod.request, d)) else m
  }

  /** Index `i` holds the first pending pod whose request reaches the maximum in `d`. */
  ghost predicate IsFirstPendingMaximum(pods: seq<Pod>, i: int, d: Dimension)
  {
    && 0 <= i < |pods|
    && pods[i].phase == Pending
    && Measure(pods[i].request, d) == MaxPending(pods, d)
    && forall j :: 0 <= j < i && pods[j].phase == Pending ==> Measure(pods[j].request, d) < MaxPending(pods, d)
  }

  lemma LargestAfterStep(acc: PodRequestedUsage, pod: Pod, d: Dimension)
    ensures Largest(UsageStep(acc, pod), d)
         == if pod.phase == Pending then KeepLarger(Largest(acc, d), pod.request, d) else Largest(acc, d)
  {
  }

  /** MaxPending is the maximum of 0 and the pending requests in `d`, in any order. */
  lemma {:induction false} MaxPendingIsMaximum(pods: seq<Pod>, d: Dimension)
    ensures 0 <= MaxPending(pods, d)
    ensures forall i :: 0 <= i < |pods| && pods[i].phase == Pending ==> Measure(pods[i].request, d) <= MaxPending(pods, d)
    ensures MaxPending(pods, d) == 0
         || exists i :: 0 <= i < |pods| && pods[i].phase == Pending && Measure(pods[i].request, d) == MaxPending(pods, d)
  {
    if |pods| != 0 {
      var s := pods[..|pods| - 1];
      MaxPendingIsMaximum(s, d);
      assert forall i :: 0 <= i < |s| ==> pods[i] == s[i];
    }
  }

  /** The maximum does not depend on the order in which the pods are listed. */
  lemma MaxPendingOrderIndependent(a: seq<Pod>, b: seq<Pod>, d: Dimension)
    requires multiset(a) == multiset(b)
    ensures MaxPending(a, d) == MaxPending(b, d)
  {
    MaxPendingIsMaximum(a, d);
    MaxPendingIsMaximum(b, d);
    if MaxPending(a, d) != 0 {
      var i :| 0 <= i < |a| && a[i].phase == Pending && Measure(a[i].request, d) == MaxPending(a, d);
      assert a[i] in multiset(b);
      var j :| 0 <= j < |b| && b[j] == a[i];
    }
    if MaxPending(b, d) != 0 {
      var j :| 0 <= j < |b| && b[j].phase == Pending && Measure(b[j].request, d) == MaxPending(b, d);
      assert b[j] in multiset(a);
      var i :| 0 <= i < |a| && a[i] == b[j];
    }
  }

  /** Each tracker holds the maximum pending request in its dimension, as the full
      pair of the first pending pod that reaches it, or zero if no pending pod
      requests a positive amount. */
  lemma {:induction false} LargestPendingIsFirstMaximum(pods: seq<Pod>, d: Dimension)
    ensures Measure(Largest(FoldUsage(pods), d), d) == MaxPending(pods, d)
    ensures MaxPending(pods, d) == 0 ==> Largest(FoldUsage(pods), d) == Empty
    ensures MaxPending(pods, d) > 0 ==>
              exists i :: IsFirstPendingMaximum(pods, i, d) && Largest(FoldUsage(pods), d) == pods[i].request
  {
    if |pods| != 0 {
      var s := pods[..|pods| - 1];
      var pod := pods[|pods| - 1];
      LargestPendingIsFirstMaximum(s, d);
      MaxPendingIsMaximum(s, d);
      LargestAfterStep(FoldUsage(s), pod, d);
      assert forall i :: 0 <= i < |s| ==> pods[i] == s[i];
      var m := MaxPending(s, d);
      if pod.phase == Pending && Measure(pod.request, d) > m {
        assert IsFirstPendingMaximum(pods, |s|, d);
      } else if m > 0 {
        var i :| IsFirstPendingMaximum(s, i, d) && Largest(FoldUsage(s), d) == s[i].request;
        assert IsFirstPendingMaximum(pods, i, d);
      }
    }
  }

  /** Non-pending pods are invisible to the trackers: dropping them changes neither. */
  lemma {:induction false} TrackersIgnoreNonPendingPods(pods: seq<Pod>, d: Dimension)
    ensures Largest(FoldUsage(pods), d) == Largest(FoldUsage(Filter(pods, IsPending)), d)
  {
    if |pods| != 0 {
      var s := pods[..|pods| - 1];
      var pod := pods[|pods| - 1];
      assert pods == s + [pod];
      TrackersIgnoreNonPendingPods(s, d);
      FilterAppend(s, [pod], IsPending);
      FilterSingleton(pod, IsPending);
      var fs := Filter(s, IsPending);
      LargestAfterStep(FoldUsage(s), pod, d);
      if IsPending(pod) {
        assert (fs + [pod])[..|fs + [pod]| - 1] == fs;
        LargestAfterStep(FoldUsage(fs), pod, d);
      } else {
        assert fs + [] == fs;
      }
    }
  }

  lemma {:induction false} UsageTotalIsSumOfRequests(pods: seq<Pod>)
    ensures FoldUsage(pods).total == TotalRequests(pods)
  {
    if |pods| != 0 {
      var s := pods[..|pods| - 1];
      var pod := pods[|pods| - 1];
      assert pods == s + [pod];
      UsageTotalIsSumOfRequests(s);
      SumAppend(s, [pod], RequestOf);
      SumSingleton(pod, RequestOf);
    }
  }

  /** The usage of all `pods`. The Go error return is always nil. */
  function CalculatePodsRequestedUsage(pods: seq<Pod>): (r: Result<PodRequestedUsage>)
    ensures r.Ok?
    ensures r.value.total == TotalRequests(pods)
    ensures r.value.largestMemory.memory == MaxPending(pods, Memory)
    ensures r.value.largestCpu.cpu == MaxPending(pods, Cpu)
  {
    UsageTotalIsSumOfRequests(pods);
    LargestPendingIsFirstMaximum(pods, Memory);
    LargestPendingIsFirstMaximum(pods, Cpu);
    Ok(FoldUsage(pods))
  }

  /** Inserting a pod anywhere adds exactly its request to the total, so with a
      non-negative request the total never decreases. */
  lemma InsertingPodAddsItsRequest(a: seq<Pod>, b: seq<Pod>, pod: Pod)
    ensures CalculatePodsRequestedUsage(a + [pod] + b).value.total
         == Add(CalculatePodsRequestedUsage(a + b).value.total, pod.request)
    ensures NonNegative(pod.request) ==>
              forall d :: Measure(CalculatePodsRequestedUsage(a + b).value.total, d)
                       <= Measure(CalculatePodsRequestedUsage(a + [pod] + b).value.total, d)
  {
    SumAppend(a + [pod], b, RequestOf);
    SumAppend(a, [pod], RequestOf);
    SumAppend(a, b, RequestOf);
    SumSingleton(pod, RequestOf);
  }

  /** With no pending pod (in particular with no pods at all) both trackers stay zero. */
  lemma NoPendingPodsKeepTrackersZero(pods: seq<Pod>)
    requires forall i :: 0 <= i < |pods| ==> pods[i].phase != Pending
    ensures CalculatePodsRequestedUsage(pods).value.largestMemory == Empty
    ensures CalculatePodsRequestedUsage(pods).value.largestCpu == Empty
  {
    MaxPendingIsMaximum(pods, Memory);
    MaxPendingIsMaximum(pods, Cpu);
    LargestPendingIsFirstMaximum(pods, Memory);
    LargestPendingIsFirstMaximum(pods, Cpu);
  }

  lemma EmptyInputGivesZeroUsage()
    ensures CalculatePodsRequestedUsage([]) == Ok(PodRequestedUsage(Empty, Empty, Empty))
  {
  }
}
