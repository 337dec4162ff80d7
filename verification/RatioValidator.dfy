/** The admission webhook that warns about an unfair memory-to-CPU ratio. */
module RatioValidator {
  import opened Basics
  import opened FairUse
  import opened Fetcher
  import opened Groups
  import opened Limits
  import opened Text
  import opened Workloads
  import R = Ratio

  /** The object of a request; its kind may be irrelevant, or its content may not decode. */
  datatype Object =
    | PodObject(pod: Pod)
    | DeploymentObject(deployment: Replicated)
    | StatefulSetObject(statefulSet: Replicated)
    | OtherObject
    | Undecodable

  /** What an object adds to the requests of its group. */
  ghost function ObjectAmount(o: Object, r: Resource): real {
    match o
    case PodObject(pod) => PodAmount(pod, r)
    case DeploymentObject(d) => ReplicatedAmount(d, r)
    case StatefulSetObject(d) => ReplicatedAmount(d, r)
    case _ => 0.0
  }

  function OwnSelector(o: Object): Selector {
    match o
    case PodObject(pod) => pod.spec.nodeSelector
    case DeploymentObject(d) => d.template.nodeSelector
    case StatefulSetObject(d) => d.template.nodeSelector
    case _ => Selector(map[])
  }

  datatype Warning = Warning(selector: Selector, limit: real)

  datatype Response = Response(allowed: bool, code: Option<int>, warnings: seq<Warning>)

  function Allowed(): Response {
    Response(true, None, [])
  }

  /** Failures of the webhook itself are reported but never deny the request. */
  function Errored(code: int): Response {
    Response(true, Some(code), [])
  }

  /** Every label of the node selector is on the group. */
  predicate Includes(group: Selector, sel: Selector) {
    forall l :: l in sel.labels ==> l in group.labels && group.labels[l] == sel.labels[l]
  }

  /** The group an object may be counted in: its own if that exists, else any group that carries
      all its labels, else a new one. */
  ghost predicate IsFuzzyMatch(s: Selector, groups: set<Selector>, key: Selector) {
    if s in groups then key == s
    else if exists k :: k in groups && Includes(k, s) then key in groups && Includes(key, s)
    else key == s
  }

  /** A group carries all labels of a selector exactly when adding them to it changes nothing. */
  lemma IncludesIff(group: Selector, sel: Selector)
    ensures Includes(group, sel) <==> group.labels + sel.labels == group.labels
  {
    if group.labels + sel.labels == group.labels {
      forall l | l in sel.labels ensures l in group.labels && group.labels[l] == sel.labels[l] {
        assert (group.labels + sel.labels)[l] == sel.labels[l];
      }
    }
  }

  method FuzzyMatchRatioKey(s: Selector, groups: set<Selector>) returns (key: Selector)
    ensures IsFuzzyMatch(s, groups, key)
    ensures s in groups ==> key == s
    ensures key in groups ==> key.labels + s.labels == key.labels
    ensures key in groups || key == s
    ensures key in groups <==> exists g :: g in groups && g.labels + s.labels == g.labels
  {
    forall g | g in groups ensures Includes(g, s) <==> g.labels + s.labels == g.labels {
      IncludesIff(g, s);
    }
    if s in groups {
      return s;
    }
    var rest := groups;
    while rest != {}
      invariant rest <= groups
      invariant forall k :: k in groups && k !in rest ==> !Includes(k, s)
      decreases rest
    {
      var k :| k in rest;
      if Includes(k, s) {
        return k;
      }
      rest := rest - {k};
    }
    return s;
  }

  /** The groups that have a warning. */
  ghost function Named(warnings: seq<Warning>): set<Selector> {
    set w | w in warnings :: w.selector
  }

  lemma NamedAppend(warnings: seq<Warning>, w: Warning)
    ensures Named(warnings + [w]) == Named(warnings) + {w.selector}
  {
    assert w in warnings + [w];
    assert forall v :: v in warnings ==> v in warnings + [w];
  }

  datatype RatioValidator = RatioValidator(
    limits: seq<Limit>,
    threshold: Option<real>,
    defaultNodeSelector: Selector
  ) {
    /** The amount under which the ratio of a group is reported, if a limit applies to it. */
    function WarnBelow(k: Selector): Option<real> {
      match GetLimitForNodeSelector(limits, k.labels)
      case None => None
      case Some(limit) => Some(R.WarnAmount(limit, threshold))
    }

    /** A group is unfair when a limit applies to it and the linear test of fair use fails. */
    ghost predicate Unfair(k: Selector, u: Usage) {
      WarnBelow(k).Some? && IsBelow(u, WarnBelow(k).value)
    }

    /** There is exactly one warning for each unfair group, naming its limit. */
    ghost predicate Reports(cpus: map<Selector, real>, mems: map<Selector, real>, warnings: seq<Warning>)
      requires cpus.Keys == mems.Keys
    {
      && (forall i, j :: 0 <= i < j < |warnings| ==> warnings[i].selector != warnings[j].selector)
      && (forall w :: w in warnings ==> w.selector in cpus
                                        && Some(w.limit) == GetLimitForNodeSelector(limits, w.selector.labels))
      && (forall k :: k in cpus ==>
            (Unfair(k, Usage(cpus[k], mems[k])) <==> k in Named(warnings)))
    }

    /** The node selector a request is judged by: its own, else the namespace's default, else the
        configured default. */
    function EffectiveSelector(o: Object, nsDefault: Selector): Selector {
      if OwnSelector(o).labels != map[] then OwnSelector(o)
      else if nsDefault.labels != map[] then nsDefault
      else defaultNodeSelector
    }

    /** A pod is judged by its own selector, a deployment or stateful set by that of its template, and
        an empty one by the default. */
    lemma SelectorOfKind(o: Object, nsDefault: Selector)
      ensures
        var default := if nsDefault.labels != map[] then nsDefault else defaultNodeSelector;
        var judged := EffectiveSelector(o, nsDefault);
        && (o.PodObject? && o.pod.spec.nodeSelector.labels != map[] ==> judged == o.pod.spec.nodeSelector)
        && (o.DeploymentObject? && o.deployment.template.nodeSelector.labels != map[] ==>
              judged == o.deployment.template.nodeSelector)
        && (o.StatefulSetObject? && o.statefulSet.template.nodeSelector.labels != map[] ==>
              judged == o.statefulSet.template.nodeSelector)
        && (o.PodObject? && o.pod.spec.nodeSelector.labels == map[] ==> judged == default)
        && (o.DeploymentObject? && o.deployment.template.nodeSelector.labels == map[] ==> judged == default)
        && (o.StatefulSetObject? && o.statefulSet.template.nodeSelector.labels == map[] ==> judged == default)
        && (o.OtherObject? ==> judged == default)
    {
    }

    method RecordObject(r: R.Ratio, o: Object)
      requires !o.Undecodable?
      modifies r
      ensures r.cpu == old(r.cpu) + ObjectAmount(o, Cpu)
      ensures r.memory == old(r.memory) + ObjectAmount(o, Memory)
    {
      match o
      case PodObject(pod) =>
        SinglePod(pod);
        r.RecordPod([pod]);
      case DeploymentObject(d) =>
        SingleReplicated(d);
        r.RecordReplicated([d]);
      case StatefulSetObject(d) =>
        SingleReplicated(d);
        r.RecordReplicated([d]);
      case OtherObject =>
    }

    /** One pass over the groups, in any order. */
    method CollectWarnings(ratios: map<Selector, R.Ratio>, ghost cpus: map<Selector, real>,
                           ghost mems: map<Selector, real>)
      returns (warnings: seq<Warning>)
      requires Holds(ratios, cpus, mems)
      ensures Reports(cpus, mems, warnings)
    {
      warnings := [];
      var rest := ratios.Keys;
      while rest != {}
        invariant rest <= ratios.Keys
        invariant forall i, j :: 0 <= i < j < |warnings| ==> warnings[i].selector != warnings[j].selector
        invariant forall w :: w in warnings ==> w.selector in ratios && w.selector !in rest
        invariant forall w :: w in warnings ==> Some(w.limit) == GetLimitForNodeSelector(limits, w.selector.labels)
        invariant forall k :: k in ratios && k !in rest ==>
                    (Unfair(k, Usage(cpus[k], mems[k])) <==> k in Named(warnings))
        decreases rest
      {
        var k :| k in rest;
        rest := rest - {k};
        var limit := GetLimitForNodeSelector(limits, k.labels);
        if limit.Some? {
          var below := ratios[k].Below(limit.value, threshold);
          if below {
            NamedAppend(warnings, Warning(k, limit.value));
            warnings := warnings + [Warning(k, limit.value)];
          }
        }
      }
    }

    /** The whole webhook. It always allows the request. Apart from system users, disabled
        namespaces and failures, its warnings are exactly the groups that fail the linear test
        once a created object is counted in one group. */
    method Handle(user: string, create: bool, o: Object, organizationLabel: string,
                  ns: Result<Namespace, FetchError>, podList: Result<seq<Pod>, FetchError>, nsDefault: Selector)
      returns (resp: Response)
      ensures resp.allowed
      ensures HasPrefix(user, "system:") ==> resp == Allowed()
      ensures !HasPrefix(user, "system:") && (ns.Err? || IsDisabled(ns.value, organizationLabel) || podList.Err?) ==>
                var e := if ns.Err? then ns.error
                         else if IsDisabled(ns.value, organizationLabel) then Disabled
                         else podList.error;
                resp == if e.Disabled? then Allowed() else Errored(if e.NotFound? then 404 else 500)
      ensures !HasPrefix(user, "system:") && ns.Ok? && !IsDisabled(ns.value, organizationLabel) && podList.Ok? ==>
                && (o.Undecodable? ==> resp == Errored(400))
                && (!o.Undecodable? ==>
                      && resp.code == None
                      && Judged(Grouped(podList.value, Cpu), Grouped(podList.value, Memory), create, o,
                                EffectiveSelector(o, nsDefault), resp.warnings))
    {
      if HasPrefix(user, "system:") {
        return Allowed();
      }
      var fetched := FetchRatios(organizationLabel, ns, podList);
      if fetched.Err? {
        if fetched.error.Disabled? {
          return Allowed();
        }
        if fetched.error.NotFound? {
          return Errored(404);
        }
        return Errored(500);
      }
      if o.Undecodable? {
        return Errored(400);
      }
      var warnings := Judge(fetched.value, create, o, EffectiveSelector(o, nsDefault),
                            Grouped(podList.value, Cpu), Grouped(podList.value, Memory));
      resp := Response(true, None, warnings);
    }

    /** What the warnings are for a request whose object is judged by node selector s. */
    ghost predicate Judged(cpus: map<Selector, real>, mems: map<Selector, real>, create: bool, o: Object, s: Selector,
                           warnings: seq<Warning>)
      requires cpus.Keys == mems.Keys
    {
      if create then
        exists key :: IsFuzzyMatch(s, cpus.Keys, key)
                      && Reports(Added(cpus, key, ObjectAmount(o, Cpu)), Added(mems, key, ObjectAmount(o, Memory)),
                                 warnings)
      else
        Reports(cpus, mems, warnings)
    }

    /** The part of Handle that counts the object and collects the warnings. */
    method Judge(ratios: map<Selector, R.Ratio>, create: bool, o: Object, s: Selector,
                 ghost cpus: map<Selector, real>, ghost mems: map<Selector, real>)
      returns (warnings: seq<Warning>)
      requires !o.Undecodable? && Unshared(ratios) && Holds(ratios, cpus, mems)
      modifies ratios.Values
      ensures Judged(cpus, mems, create, o, s, warnings)
    {
      if !create {
        warnings := CollectWarnings(ratios, cpus, mems);
        return;
      }
      var key := FuzzyMatchRatioKey(s, ratios.Keys);
      var r := RatioFor(ratios, key);
      RecordObject(r, o);
      HoldsUpdated(ratios, cpus, mems, key, r, ObjectAmount(o, Cpu), ObjectAmount(o, Memory));
      warnings := CollectWarnings(ratios[key := r], Added(cpus, key, ObjectAmount(o, Cpu)),
                                  Added(mems, key, ObjectAmount(o, Memory)));
    }

    /** Creating an object that would be fair on its own, in a namespace whose groups are all fair,
        brings no warning, whichever group it is counted in. */
    lemma FairCreateIsSilent(cpus: map<Selector, real>, mems: map<Selector, real>, key: Selector, cpu: real, mem: real,
                             warnings: seq<Warning>)
      requires cpus.Keys == mems.Keys && cpu >= 0.0 && mem >= 0.0
      requires forall k :: k in cpus ==> cpus[k] >= 0.0 && mems[k] >= 0.0 && !Unfair(k, Usage(cpus[k], mems[k]))
      requires !Unfair(key, Usage(cpu, mem))
      requires Reports(Added(cpus, key, cpu), Added(mems, key, mem), warnings)
      ensures warnings == []
    {
      var cpus', mems' := Added(cpus, key, cpu), Added(mems, key, mem);
      forall k | k in cpus' ensures !Unfair(k, Usage(cpus'[k], mems'[k])) {
        GroupStaysFair(cpus, mems, key, cpu, mem, k);
      }
      AllFairIsSilent(cpus', mems', warnings);
    }

    lemma GroupStaysFair(cpus: map<Selector, real>, mems: map<Selector, real>, key: Selector, cpu: real, mem: real,
                         k: Selector)
      requires cpus.Keys == mems.Keys && cpu >= 0.0 && mem >= 0.0 && k in Added(cpus, key, cpu)
      requires k in cpus ==> cpus[k] >= 0.0 && mems[k] >= 0.0 && !Unfair(k, Usage(cpus[k], mems[k]))
      requires !Unfair(key, Usage(cpu, mem))
      ensures !Unfair(k, Usage(Added(cpus, key, cpu)[k], Added(mems, key, mem)[k]))
    {
      if k == key {
        StaysFair(key, At(cpus, key), At(mems, key), cpu, mem);
      }
    }

    lemma AllFairIsSilent(cpus: map<Selector, real>, mems: map<Selector, real>, warnings: seq<Warning>)
      requires cpus.Keys == mems.Keys && Reports(cpus, mems, warnings)
      requires forall k :: k in cpus ==> !Unfair(k, Usage(cpus[k], mems[k]))
      ensures warnings == []
    {
      assert |warnings| > 0 ==> warnings[0] in warnings && warnings[0].selector in Named(warnings);
    }

    lemma StaysFair(key: Selector, cpu0: real, mem0: real, cpu: real, mem: real)
      requires cpu0 >= 0.0 && mem0 >= 0.0 && cpu >= 0.0 && mem >= 0.0
      requires !Unfair(key, Usage(cpu0, mem0)) || cpu0 == mem0 == 0.0
      requires !Unfair(key, Usage(cpu, mem))
      ensures !Unfair(key, Usage(cpu0 + cpu, mem0 + mem))
    {
      if WarnBelow(key).Some? && !(cpu0 == mem0 == 0.0) {
        PooledFair(Usage(cpu0, mem0), Usage(cpu, mem), WarnBelow(key).value);
      }
    }
  }

  lemma SingleReplicated(d: Replicated)
    ensures forall r :: AllReplicatedAmount([d], r) == ReplicatedAmount(d, r)
  {
    assert [d][..0] == [];
  }
}
