/** Requests grouped by node selector, and sums over groups. */
module Groups {
  import opened Text
  import opened Workloads

  /** What the running pods with node selector k request of a resource. */
  ghost function GroupAmount(pods: seq<Pod>, k: Selector, r: Resource): real {
    if pods == [] then 0.0
    else GroupAmount(pods[..|pods| - 1], k, r) + InGroup(pods[|pods| - 1], k, r)
  }

  ghost function InGroup(pod: Pod, k: Selector, r: Resource): real {
    if pod.spec.nodeSelector == k then PodAmount(pod, r) else 0.0
  }

  /** The node selectors of all pods, running or not. */
  ghost function Selectors(pods: seq<Pod>): set<Selector> {
    set pod | pod in pods :: pod.spec.nodeSelector
  }

  ghost function Grouped(pods: seq<Pod>, r: Resource): map<Selector, real> {
    map k | k in Selectors(pods) :: GroupAmount(pods, k, r)
  }

  // ---------- sums over a finite set of groups ----------

  ghost function Sum(m: map<Selector, real>, keys: set<Selector>): real
    requires keys <= m.Keys
  {
    if keys == {} then 0.0
    else
      var k :| k in keys;
      m[k] + Sum(m, keys - {k})
  }

  ghost function Total(m: map<Selector, real>): real {
    Sum(m, m.Keys)
  }

  /** Any group may be summed first. */
  lemma {:induction false} SumTakeOut(m: map<Selector, real>, keys: set<Selector>, k: Selector)
    requires k in keys && keys <= m.Keys
    ensures Sum(m, keys) == m[k] + Sum(m, keys - {k})
  {
    var j :| j in keys && Sum(m, keys) == m[j] + Sum(m, keys - {j});
    if j != k {
      SumTakeOut(m, keys - {j}, k);
      SumTakeOut(m, keys - {k}, j);
      assert keys - {j} - {k} == keys - {k} - {j};
    }
  }

  lemma {:induction false} SumFrame(m: map<Selector, real>, n: map<Selector, real>, keys: set<Selector>)
    requires keys <= m.Keys && keys <= n.Keys
    requires forall k :: k in keys ==> m[k] == n[k]
    ensures Sum(m, keys) == Sum(n, keys)
  {
    if keys != {} {
      var k :| k in keys;
      SumFrame(m, n, keys - {k});
      SumTakeOut(m, keys, k);
      SumTakeOut(n, keys, k);
    }
  }

  /** What a group holds; nothing if it does not exist yet. */
  ghost function At(m: map<Selector, real>, k: Selector): real {
    if k in m then m[k] else 0.0
  }

  ghost function Added(m: map<Selector, real>, k: Selector, x: real): map<Selector, real> {
    m[k := At(m, k) + x]
  }

  /** Recording an object in one group raises the total by exactly what it requests. */
  lemma AddedTotal(m: map<Selector, real>, k: Selector, x: real)
    ensures Total(Added(m, k, x)) == Total(m) + x
    ensures At(Added(m, k, x), k) == At(m, k) + x && forall j :: j != k ==> At(Added(m, k, x), j) == At(m, j)
  {
    var n := Added(m, k, x);
    SumTakeOut(n, n.Keys, k);
    assert n.Keys - {k} == m.Keys - {k};
    SumFrame(m, n, m.Keys - {k});
    if k in m {
      SumTakeOut(m, m.Keys, k);
    } else {
      assert m.Keys - {k} == m.Keys;
    }
  }

  // ---------- grouping ----------

  lemma SelectorsStep(pods: seq<Pod>, pod: Pod)
    ensures Selectors(pods + [pod]) == Selectors(pods) + {pod.spec.nodeSelector}
  {
    var all := pods + [pod];
    forall k | k in Selectors(pods) + {pod.spec.nodeSelector} ensures k in Selectors(all) {
      if k == pod.spec.nodeSelector {
        assert all[|pods|] == pod;
      } else {
        var p :| p in pods && p.spec.nodeSelector == k;
        assert p in all;
      }
    }
  }

  lemma {:induction false} AbsentGroupIsEmpty(pods: seq<Pod>, k: Selector, r: Resource)
    requires k !in Selectors(pods)
    ensures GroupAmount(pods, k, r) == 0.0
  {
    if pods != [] {
      assert pods[|pods| - 1] in pods;
      assert Selectors(pods[..|pods| - 1]) <= Selectors(pods);
      AbsentGroupIsEmpty(pods[..|pods| - 1], k, r);
    }
  }

  /** Grouping one more pod is adding it to its group. */
  lemma GroupedStep(pods: seq<Pod>, pod: Pod, r: Resource)
    ensures Grouped(pods + [pod], r) == Added(Grouped(pods, r), pod.spec.nodeSelector, PodAmount(pod, r))
  {
    var s := pod.spec.nodeSelector;
    SelectorsStep(pods, pod);
    forall k ensures GroupAmount(pods + [pod], k, r) == GroupAmount(pods, k, r) + InGroup(pod, k, r) {
      GroupAmountStep(pods, pod, k, r);
    }
    if s !in Selectors(pods) {
      AbsentGroupIsEmpty(pods, s, r);
    }
  }

  lemma GroupAmountStep(pods: seq<Pod>, pod: Pod, k: Selector, r: Resource)
    ensures GroupAmount(pods + [pod], k, r) == GroupAmount(pods, k, r) + InGroup(pod, k, r)
  {
    assert (pods + [pod])[..|pods|] == pods;
  }

  ghost function WithSelector(pods: seq<Pod>, k: Selector): seq<Pod> {
    if pods == [] then []
    else
      var rest := WithSelector(pods[..|pods| - 1], k);
      if pods[|pods| - 1].spec.nodeSelector == k then rest + [pods[|pods| - 1]] else rest
  }

  /** There is one group for each node selector of a pod, and it holds what the pods with that selector
      request if they are recorded on their own. */
  lemma GroupedIs(pods: seq<Pod>, k: Selector, r: Resource)
    ensures k in Grouped(pods, r) <==> exists pod :: pod in pods && pod.spec.nodeSelector == k
    ensures k in Grouped(pods, r) ==> Grouped(pods, r)[k] == PodsAmount(WithSelector(pods, k), r)
  {
    GroupIsItsPods(pods, k, r);
  }

  lemma {:induction false} GroupIsItsPods(pods: seq<Pod>, k: Selector, r: Resource)
    ensures GroupAmount(pods, k, r) == PodsAmount(WithSelector(pods, k), r)
  {
    if pods != [] {
      GroupIsItsPods(pods[..|pods| - 1], k, r);
      PodAdds(WithSelector(pods[..|pods| - 1], k), pods[|pods| - 1], r);
    }
  }

  /** The groups partition the namespace: together they request what all its running pods do. */
  lemma {:induction false} GroupsPartition(pods: seq<Pod>, r: Resource)
    ensures Total(Grouped(pods, r)) == PodsAmount(pods, r)
  {
    if pods == [] {
      assert Grouped(pods, r).Keys == {};
    } else {
      var rest, pod := pods[..|pods| - 1], pods[|pods| - 1];
      assert rest + [pod] == pods;
      GroupsPartition(rest, r);
      GroupedStep(rest, pod, r);
      AddedTotal(Grouped(rest, r), pod.spec.nodeSelector, PodAmount(pod, r));
    }
  }

  /** Listing the pods in another order gives the same groups. */
  lemma GroupedPermutation(pods: seq<Pod>, others: seq<Pod>, r: Resource)
    requires multiset(pods) == multiset(others)
    ensures Grouped(pods, r) == Grouped(others, r)
  {
    assert forall p :: p in pods <==> p in multiset(pods);
    assert forall p :: p in others <==> p in multiset(others);
    forall k ensures GroupAmount(pods, k, r) == GroupAmount(others, k, r) {
      GroupAmountPermutation(pods, others, k, r);
    }
  }

  lemma {:induction false} GroupAmountPermutation(pods: seq<Pod>, others: seq<Pod>, k: Selector, r: Resource)
    requires multiset(pods) == multiset(others)
    ensures GroupAmount(pods, k, r) == GroupAmount(others, k, r)
  {
    assert |pods| == |multiset(pods)| == |multiset(others)| == |others|;
    if pods != [] {
      var n := |pods| - 1;
      var i := LastAmong(pods, others);
      GroupAmountPermutation(pods[..n], Without(others, i), k, r);
      GroupAmountTakeOut(others, i, k, r);
    }
  }

  /** Where a permutation has the last pod, and that the rest is a permutation of the others. */
  lemma LastAmong(pods: seq<Pod>, others: seq<Pod>) returns (i: nat)
    requires pods != [] && multiset(pods) == multiset(others)
    ensures i < |others| && others[i] == pods[|pods| - 1]
    ensures multiset(pods[..|pods| - 1]) == multiset(Without(others, i))
  {
    var n := |pods| - 1;
    assert pods[n] in multiset(others);
    i :| 0 <= i < |others| && others[i] == pods[n];
    WithoutMultiset(pods, n);
    WithoutMultiset(others, i);
    assert Without(pods, n) == pods[..n];
  }

  lemma {:induction false} GroupAmountTakeOut(pods: seq<Pod>, i: nat, k: Selector, r: Resource)
    requires i < |pods|
    ensures GroupAmount(pods, k, r) == GroupAmount(Without(pods, i), k, r) + InGroup(pods[i], k, r)
  {
    var n := |pods| - 1;
    if i == n {
      assert Without(pods, i) == pods[..n];
    } else {
      GroupAmountTakeOut(pods[..n], i, k, r);
      var without := Without(pods, i);
      assert without[..|without| - 1] == Without(pods[..n], i);
      assert without[|without| - 1] == pods[n];
    }
  }
}
