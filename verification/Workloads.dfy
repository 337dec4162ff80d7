/** The parts of pods, deployments and stateful sets that the ratio engine reads. */
module Workloads {
  import opened Basics

  datatype Resource = Cpu | Memory

  /** Resource requests; a missing request reads as zero. */
  datatype Container = Container(requests: map<Resource, real>) {
    function Request(r: Resource): real {
      if r in requests then requests[r] else 0.0
    }
  }

  /** A node selector, or the labels that a group of pods selects. */
  datatype Selector = Selector(labels: StringMap)

  datatype PodSpec = PodSpec(containers: seq<Container>, nodeSelector: Selector)

  datatype Phase = Pending | Running | Succeeded | Failed | Unknown

  datatype Pod = Pod(spec: PodSpec, phase: Phase)

  /** A Deployment or a StatefulSet: a replica count, one if absent, and a pod template. */
  datatype Replicated = Replicated(replicas: Option<int>, template: PodSpec) {
    function Count(): int {
      if replicas.Some? then replicas.value else 1
    }
  }

  // ---------- what each kind of object requests of a resource, exactly ----------

  ghost function Requested(cs: seq<Container>, r: Resource): real {
    if cs == [] then 0.0
    else Requested(cs[..|cs| - 1], r) + cs[|cs| - 1].Request(r)
  }

  /** Only running pods count. */
  ghost function PodAmount(pod: Pod, r: Resource): real {
    if pod.phase == Running then Requested(pod.spec.containers, r) else 0.0
  }

  ghost function PodsAmount(pods: seq<Pod>, r: Resource): real {
    if pods == [] then 0.0
    else PodsAmount(pods[..|pods| - 1], r) + PodAmount(pods[|pods| - 1], r)
  }

  ghost function ReplicatedAmount(d: Replicated, r: Resource): real {
    Requested(d.template.containers, r) * d.Count() as real
  }

  ghost function AllReplicatedAmount(ds: seq<Replicated>, r: Resource): real {
    if ds == [] then 0.0
    else AllReplicatedAmount(ds[..|ds| - 1], r) + ReplicatedAmount(ds[|ds| - 1], r)
  }

  /** Requests are never negative, as the API server guarantees. */
  ghost predicate NonNegative(cs: seq<Container>) {
    forall c, r :: c in cs ==> c.Request(r) >= 0.0
  }

  lemma {:induction false} RequestedNonNegative(cs: seq<Container>, r: Resource)
    requires NonNegative(cs)
    ensures Requested(cs, r) >= 0.0
  {
    if cs != [] {
      RequestedNonNegative(cs[..|cs| - 1], r);
      assert cs[|cs| - 1] in cs;
    }
  }

  lemma RequestedAdds(cs: seq<Container>, c: Container, r: Resource)
    ensures Requested(cs + [c], r) == Requested(cs, r) + if r in c.requests then c.requests[r] else 0.0
  {
    assert (cs + [c])[..|cs|] == cs;
  }

  /** A pod adds the requests of its containers if it is running, and nothing in any other phase. */
  lemma PodAdds(pods: seq<Pod>, pod: Pod, r: Resource)
    ensures PodsAmount(pods + [pod], r) ==
            PodsAmount(pods, r) + if pod.phase.Running? then Requested(pod.spec.containers, r) else 0.0
  {
    assert (pods + [pod])[..|pods|] == pods;
  }

  /** A deployment requests what as many running pods made from its template would. */
  lemma {:induction false} ReplicasAreCopies(template: PodSpec, pods: seq<Pod>, r: Resource)
    requires forall p :: p in pods ==> p == Pod(template, Running)
    ensures ReplicatedAmount(Replicated(Some(|pods|), template), r) == PodsAmount(pods, r)
  {
    if pods != [] {
      var rest := pods[..|pods| - 1];
      assert forall p :: p in rest ==> p in pods;
      ReplicasAreCopies(template, rest, r);
      assert pods[|pods| - 1] in pods;
      OneMore(Requested(template.containers, r), |rest|);
    }
  }

  /** Without a replica count it requests what one does. */
  lemma AbsentReplicas(template: PodSpec, r: Resource)
    ensures ReplicatedAmount(Replicated(None, template), r) == Requested(template.containers, r)
  {
  }

  lemma OneMore(x: real, n: nat)
    ensures x * (n + 1) as real == x * n as real + x
  {
    assert (n + 1) as real == n as real + 1.0;
  }
}
