/** Attribution of pods to nodes: pods are grouped by their nominated node name.
    Pods with no nomination share the empty key, which matches no real node. */
module Grouping {
  import opened Pods

  /** The keep-predicate "nominated to `name`". */
  function NominatedAs(name: string): Pod -> bool
  {
    (pod: Pod) => pod.nominatedNodeName == name
  }

  /** The pods nominated to `name`, in input order. */
  function NominatedTo(pods: seq<Pod>, name: string): seq<Pod>
  {
    Filter(pods, NominatedAs(name))
  }

  /** Every nominated node name that occurs in `pods`, the empty one included. */
  function NominatedNames(pods: seq<Pod>): set<string>
  {
    set i | 0 <= i < |pods| :: pods[i].nominatedNodeName
  }

  lemma NominatedToOtherName(pods: seq<Pod>, name: string)
    requires name !in NominatedNames(pods)
    ensures NominatedTo(pods, name) == []
  {
    assert forall i :: 0 <= i < |pods| ==> pods[i].nominatedNodeName in NominatedNames(pods);
    FilterNone(pods, NominatedAs(name));
  }

  lemma NominatedAfterAppend(s: seq<Pod>, pod: Pod)
    ensures NominatedNames(s + [pod]) == NominatedNames(s) + {pod.nominatedNodeName}
    ensures forall name :: NominatedTo(s + [pod], name)
                        == NominatedTo(s, name) + if pod.nominatedNodeName == name then [pod] else []
  {
    var t := s + [pod];
    assert forall i :: 0 <= i < |s| ==> t[i] == s[i];
    assert t[|s|] == pod;
    forall name
      ensures NominatedTo(t, name) == NominatedTo(s, name) + if pod.nominatedNodeName == name then [pod] else []
    {
      FilterAppend(s, [pod], NominatedAs(name));
      FilterSingleton(pod, NominatedAs(name));
    }
  }

  /** Go's mapPods: one pass appending each pod to the group of its nominated
      node name, creating the group on first use. */
  function MapPods(pods: seq<Pod>): map<string, seq<Pod>>
  {
    if |pods| == 0 then map[]
    else
      var prev := MapPods(pods[..|pods| - 1]);
      var pod := pods[|pods| - 1];
      var name := pod.nominatedNodeName;
      var val := if name in prev then prev[name] else [];
      prev[name := val + [pod]]
  }

  /** The keys of the grouping are exactly the nominated names that occur, and
      each group is exactly the pods nominated to its key, in input order. */
  lemma {:induction false} MapPodsGroupsByNominatedName(pods: seq<Pod>)
    ensures MapPods(pods).Keys == NominatedNames(pods)
    ensures forall name :: name in MapPods(pods) ==> MapPods(pods)[name] == NominatedTo(pods, name)
  {
    if |pods| != 0 {
      var s := pods[..|pods| - 1];
      var pod := pods[|pods| - 1];
      assert pods == s + [pod];
      MapPodsGroupsByNominatedName(s);
      NominatedAfterAppend(s, pod);
      var prev := MapPods(s);
      var groups := MapPods(pods);
      forall name | name in groups
        ensures groups[name] == NominatedTo(pods, name)
      {
        if name != pod.nominatedNodeName {
          assert groups[name] == prev[name];
        } else if name !in prev {
          NominatedToOtherName(s, name);
        }
      }
    }
  }

  /** Go's `groups[name]`: a missing key reads as an empty group. */
  function GroupOf(groups: map<string, seq<Pod>>, name: string): seq<Pod>
  {
    if name in groups then groups[name] else []
  }

  /** Looking up any name, present or not, yields exactly the pods nominated to it. */
  lemma GroupOfMapPods(pods: seq<Pod>, name: string)
    ensures GroupOf(MapPods(pods), name) == NominatedTo(pods, name)
  {
    MapPodsGroupsByNominatedName(pods);
    if name !in MapPods(pods) {
      NominatedToOtherName(pods, name);
    }
  }

  /** Every pod sits in the group of its own nominated name and in no other. */
  lemma EveryPodInExactlyOneGroup(pods: seq<Pod>)
    ensures forall i :: 0 <= i < |pods| ==>
              pods[i].nominatedNodeName in MapPods(pods) && pods[i] in MapPods(pods)[pods[i].nominatedNodeName]
    ensures forall name :: name in MapPods(pods) ==>
              forall j :: 0 <= j < |MapPods(pods)[name]| ==> MapPods(pods)[name][j].nominatedNodeName == name
  {
    MapPodsGroupsByNominatedName(pods);
  }
}
