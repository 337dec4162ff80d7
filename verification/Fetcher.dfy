/** Collecting the request ratios of a namespace, grouped by node selector. */
module Fetcher {
  import opened Basics
  import opened Workloads
  import opened Groups
  import R = Ratio

  datatype Namespace = Namespace(labels: StringMap, annotations: StringMap)

  datatype FetchError = NotFound | Disabled | Failed

  const DISABLE_ANNOTATION := "validate-request-ratio.appuio.io/disable"

  /** strconv.ParseBool, for the spellings that mean true. */
  predicate ParsesTrue(s: string) {
    s in {"1", "t", "T", "TRUE", "true", "True"}
  }

  predicate IsDisabled(ns: Namespace, organizationLabel: string) {
    || (DISABLE_ANNOTATION in ns.annotations
        && ns.annotations[DISABLE_ANNOTATION] in {"1", "t", "T", "true", "TRUE", "True"})
    || (organizationLabel != "" && organizationLabel !in ns.labels)
  }

  /** No two groups share a ratio object. */
  ghost predicate Unshared(ratios: map<Selector, R.Ratio>) {
    forall j, k :: j in ratios && k in ratios && j != k ==> ratios[j] != ratios[k]
  }

  /** Each ratio holds exactly the given amounts of its group. */
  ghost predicate Holds(ratios: map<Selector, R.Ratio>, cpus: map<Selector, real>, mems: map<Selector, real>)
    reads ratios.Values
  {
    && cpus.Keys == mems.Keys == ratios.Keys
    && forall k :: k in ratios ==> ratios[k].cpu == cpus[k] && ratios[k].memory == mems[k]
  }

  /** The result carries one fresh ratio per node selector in use, each with exactly the requests of
      the running pods that have it. A failing namespace lookup or pod list is passed on. */
  method FetchRatios(organizationLabel: string, ns: Result<Namespace, FetchError>,
                     podList: Result<seq<Pod>, FetchError>)
    returns (res: Result<map<Selector, R.Ratio>, FetchError>)
    ensures res.Ok? <==> ns.Ok? && !IsDisabled(ns.value, organizationLabel) && podList.Ok?
    ensures res.Err? ==> res.error == if ns.Err? then ns.error
                                      else if IsDisabled(ns.value, organizationLabel) then Disabled
                                      else podList.error
    ensures res.Ok? ==> Unshared(res.value) && forall k :: k in res.value ==> fresh(res.value[k])
    ensures res.Ok? ==> Holds(res.value, Grouped(podList.value, Cpu), Grouped(podList.value, Memory))
  {
    if ns.Err? {
      return Err(ns.error);
    }
    if DISABLE_ANNOTATION in ns.value.annotations {
      if ParsesTrue(ns.value.annotations[DISABLE_ANNOTATION]) {
        return Err(Disabled);
      }
    }
    if organizationLabel != "" {
      if organizationLabel !in ns.value.labels {
        return Err(Disabled);
      }
    }
    if podList.Err? {
      return Err(podList.error);
    }
    var ratios := GroupPods(podList.value);
    res := Ok(ratios);
  }

  /** Adds a pod to the ratio of its group, which is created if needed, and to no other. */
  method RecordPodInGroup(ratios: map<Selector, R.Ratio>, pod: Pod,
                          ghost cpus: map<Selector, real>, ghost mems: map<Selector, real>)
    returns (updated: map<Selector, R.Ratio>)
    requires Unshared(ratios) && Holds(ratios, cpus, mems)
    modifies ratios.Values
    ensures Unshared(updated)
    ensures forall k :: k in updated ==> (k in ratios && updated[k] == ratios[k]) || fresh(updated[k])
    ensures Holds(updated, Added(cpus, pod.spec.nodeSelector, PodAmount(pod, Cpu)),
                  Added(mems, pod.spec.nodeSelector, PodAmount(pod, Memory)))
  {
    var k := pod.spec.nodeSelector;
    var r := RatioFor(ratios, k);
    SinglePod(pod);
    r.RecordPod([pod]);
    HoldsUpdated(ratios, cpus, mems, k, r, PodAmount(pod, Cpu), PodAmount(pod, Memory));
    updated := ratios[k := r];
  }

  method RatioFor(ratios: map<Selector, R.Ratio>, k: Selector) returns (r: R.Ratio)
    ensures k in ratios ==> r == ratios[k] && r in ratios.Values
    ensures k !in ratios ==> fresh(r) && r.cpu == r.memory == 0.0
  {
    if k in ratios {
      r := ratios[k];
    } else {
      r := new R.Ratio();
    }
  }

  lemma HoldsUpdated(ratios: map<Selector, R.Ratio>, cpus: map<Selector, real>, mems: map<Selector, real>,
                     k: Selector, r: R.Ratio, cpu: real, mem: real)
    requires cpus.Keys == mems.Keys == ratios.Keys
    requires forall j :: j in ratios && j != k ==> ratios[j].cpu == cpus[j] && ratios[j].memory == mems[j]
    requires r.cpu == At(cpus, k) + cpu && r.memory == At(mems, k) + mem
    ensures Holds(ratios[k := r], Added(cpus, k, cpu), Added(mems, k, mem))
  {
  }

  /** The grouping loop of FetchRatios. */
  method GroupPods(pods: seq<Pod>) returns (ratios: map<Selector, R.Ratio>)
    ensures Unshared(ratios) && forall k :: k in ratios ==> fresh(ratios[k])
    ensures Holds(ratios, Grouped(pods, Cpu), Grouped(pods, Memory))
  {
    ratios := map[];
    for i := 0 to |pods|
      invariant Unshared(ratios) && forall k :: k in ratios ==> fresh(ratios[k])
      invariant Holds(ratios, Grouped(pods[..i], Cpu), Grouped(pods[..i], Memory))
    {
      GroupedNext(pods, i);
      ratios := RecordPodInGroup(ratios, pods[i], Grouped(pods[..i], Cpu), Grouped(pods[..i], Memory));
    }
    assert pods[..|pods|] == pods;
  }

  lemma GroupedNext(pods: seq<Pod>, i: nat)
    requires i < |pods|
    ensures forall r :: Grouped(pods[..i + 1], r) ==
                        Added(Grouped(pods[..i], r), pods[i].spec.nodeSelector, PodAmount(pods[i], r))
  {
    assert pods[..i] + [pods[i]] == pods[..i + 1];
    forall r { GroupedStep(pods[..i], pods[i], r); }
  }

  lemma SinglePod(pod: Pod)
    ensures forall r :: PodsAmount([pod], r) == PodAmount(pod, r)
  {
    assert [pod][..0] == [];
  }
}
