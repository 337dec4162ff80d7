/** What any schedule of usage profile reconciles does to the cluster. */
module UsageProfileRuns {
  import opened Basics
  import opened QuotaTransformer
  import opened Text
  import A = QuotaAgreement
  import opened UsageProfile

  type Orders = map<Key, seq<string>>

  /** What happened: a reconcile, and the order in which Go read the annotations for each object. */
  datatype Event = Reconciled(request: Request, orders: Orders)

  function OrderAt(orders: Orders, key: Key): seq<string> {
    if key in orders then orders[key] else []
  }

  ghost function After(w: World, e: Event, key: Key, o: Option<Object>): Option<Object> {
    AfterReading(w, e.request, OrderAt(e.orders, key), key, o)
  }

  /** The orders are possible ones. */
  ghost predicate Possible(w: World, e: Event) {
    forall key :: Claims(w, e.request, key) ==> w.Iterates(key, OrderAt(e.orders, key))
  }

  ghost predicate IsStep(w: World, e: Event, c: Cluster, d: Cluster) {
    Possible(w, e) && forall key :: Find(d, key) == After(w, e, key, Find(c, key))
  }

  ghost function OrderFor(w: World, r: Request, key: Key, o: Option<Object>, o': Option<Object>): (order: seq<string>)
    requires Claims(w, r, key) && MayBecome(w, r, key, o, o')
    ensures Reads(w, r, order, key, o, o')
  {
    var order :| Reads(w, r, order, key, o, o');
    order
  }

  /** The steps of a run are exactly what the reconciler may do. */
  lemma StepsAreReconciles(w: World, r: Request, c: Cluster, d: Cluster)
    ensures IsReconcile(w, r, c, d) <==> exists orders :: IsStep(w, Reconciled(r, orders), c, d)
  {
    if IsReconcile(w, r, c, d) {
      var orders := map key | key in d && Claims(w, r, key) :: OrderFor(w, r, key, Find(c, key), Find(d, key));
      forall key ensures Claims(w, r, key) ==> w.Iterates(key, OrderAt(orders, key))
                 ensures Find(d, key) == After(w, Reconciled(r, orders), key, Find(c, key))
      {
        assert MayBecome(w, r, key, Find(c, key), Find(d, key));
      }
      assert IsStep(w, Reconciled(r, orders), c, d);
    }
    if orders :| IsStep(w, Reconciled(r, orders), c, d) {
      forall key ensures MayBecome(w, r, key, Find(c, key), Find(d, key)) {
        if Claims(w, r, key) {
          assert Reads(w, r, OrderAt(orders, key), key, Find(c, key), Find(d, key));
        }
      }
    }
  }

  /** States of the cluster before, between and after the reconciles of a schedule. */
  ghost predicate IsRun(w: World, events: seq<Event>, states: seq<Cluster>) {
    && |states| == |events| + 1
    && forall i :: 0 <= i < |events| ==> IsStep(w, events[i], states[i], states[i + 1])
  }

  /** The history of one object. */
  ghost function RunAt(w: World, events: seq<Event>, key: Key, o: Option<Object>): Option<Object> {
    if events == [] then o
    else After(w, events[|events| - 1], key, RunAt(w, events[..|events| - 1], key, o))
  }

  lemma {:induction false} RunIsPointwise(w: World, events: seq<Event>, states: seq<Cluster>, key: Key)
    requires IsRun(w, events, states)
    ensures Find(states[|events|], key) == RunAt(w, events, key, Find(states[0], key))
  {
    if events != [] {
      var n := |events| - 1;
      assert IsStep(w, events[n], states[n], states[n + 1]);
      RunIsPointwise(w, events[..n], states[..n + 1], key);
    }
  }

  // ---------- the closed form of a run ----------

  /** The profile whose event claims the object first. */
  function FirstClaimant(w: World, events: seq<Event>, key: Key): Option<string> {
    if events == [] then None
    else if Claims(w, events[0].request, key) then Some(events[0].request.profile)
    else FirstClaimant(w, events[1..], key)
  }

  /** The order that the last event of profile p to claim the object read the annotations in. */
  function LastReading(w: World, events: seq<Event>, key: Key, p: string): (order: Option<seq<string>>)
    ensures order.Some? ==> w.Has(p, key) && w.organizationLabel in w.namespaces[key.namespace].labels
    ensures order.Some? ==> exists e :: e in events && e.request.profile == p
  {
    if events == [] then None
    else
      var e := events[|events| - 1];
      if e.request.profile == p && Claims(w, e.request, key) then Some(OrderAt(e.orders, key))
      else LastReading(w, events[..|events| - 1], key, p)
  }

  /** The owner after the run: whoever owned the object before, else the first to claim it. */
  function FinalOwner(w: World, events: seq<Event>, key: Key, o: Option<Object>): Option<string> {
    if Owner(o).Some? then Owner(o) else FirstClaimant(w, events, key)
  }

  /** The object after the run: as its owner last rendered it, with its original labels, if its
      owner ever reached it, and as it was otherwise. */
  ghost function Outcome(w: World, events: seq<Event>, key: Key, o: Option<Object>): Option<Object> {
    var owner := FinalOwner(w, events, key, o);
    if owner.Some? && LastReading(w, events, key, owner.value).Some? then
      Some(w.Rendered(owner.value, key, Labels(o), LastReading(w, events, key, owner.value).value))
    else o
  }

  lemma {:induction false} FirstClaimantAppend(w: World, events: seq<Event>, e: Event, key: Key)
    ensures FirstClaimant(w, events + [e], key) ==
            if FirstClaimant(w, events, key).Some? then FirstClaimant(w, events, key)
            else if Claims(w, e.request, key) then Some(e.request.profile)
            else None
  {
    if events == [] {
      assert ([e])[1..] == [];
    } else {
      assert (events + [e])[1..] == events[1..] + [e];
      FirstClaimantAppend(w, events[1..], e, key);
    }
  }

  lemma {:induction false} FirstClaimantReads(w: World, events: seq<Event>, key: Key)
    requires FirstClaimant(w, events, key).Some?
    ensures LastReading(w, events, key, FirstClaimant(w, events, key).value).Some?
  {
    var init, e := events[..|events| - 1], events[|events| - 1];
    assert events == init + [e];
    FirstClaimantAppend(w, init, e, key);
    if FirstClaimant(w, init, key).Some? {
      FirstClaimantReads(w, init, key);
    }
  }

  /** First owner wins: every object's fate depends only on its first claimant and on whether its
      owner reached it, not on the rest of the schedule. */
  lemma {:induction false} RunOutcome(w: World, events: seq<Event>, key: Key, o: Option<Object>)
    ensures RunAt(w, events, key, o) == Outcome(w, events, key, o)
    ensures Owner(RunAt(w, events, key, o)) == FinalOwner(w, events, key, o)
  {
    if events != [] {
      var init, e := events[..|events| - 1], events[|events| - 1];
      assert events == init + [e];
      RunOutcome(w, init, key, o);
      OutcomeAppend(w, init, e, key, o);
    }
  }

  lemma OutcomeAppend(w: World, init: seq<Event>, e: Event, key: Key, o: Option<Object>)
    requires Owner(Outcome(w, init, key, o)) == FinalOwner(w, init, key, o)
    ensures After(w, e, key, Outcome(w, init, key, o)) == Outcome(w, init + [e], key, o)
    ensures Owner(Outcome(w, init + [e], key, o)) == FinalOwner(w, init + [e], key, o)
  {
    var before := FinalOwner(w, init, key, o);
    assert (init + [e])[..|init|] == init;
    FirstClaimantAppend(w, init, e, key);
    if Owner(o).None? && before.Some? {
      FirstClaimantReads(w, init, key);
    }
    if Claims(w, e.request, key) && FinalOwner(w, init + [e], key, o) == Some(e.request.profile) {
      RenderedAgain(w, e.request.profile, key, Labels(o), OrderAt(e.orders, key));
    }
  }

  lemma RenderedAgain(w: World, p: string, key: Key, labels: StringMap, order: seq<string>)
    requires w.Has(p, key)
    ensures w.Rendered(p, key, labels[OWNER := p], order) == w.Rendered(p, key, labels, order)
    ensures Owner(Some(w.Rendered(p, key, labels, order))) == Some(p)
  {
    assert labels[OWNER := p][OWNER := p] == labels[OWNER := p];
  }

  // ---------- safety ----------

  /** An object of one owner is never touched by reconciles of other profiles. */
  lemma ForeignObjectsUntouched(w: World, events: seq<Event>, states: seq<Cluster>, key: Key, owner: string)
    requires IsRun(w, events, states) && Owner(Find(states[0], key)) == Some(owner)
    requires forall e :: e in events ==> e.request.profile != owner
    ensures Find(states[|events|], key) == Find(states[0], key)
  {
    RunIsPointwise(w, events, states, key);
    RunOutcome(w, events, key, Find(states[0], key));
  }

  /** Objects outside organization namespaces are never touched. */
  lemma OtherNamespacesUntouched(w: World, events: seq<Event>, states: seq<Cluster>, key: Key)
    requires IsRun(w, events, states)
    requires key.namespace !in w.namespaces || w.organizationLabel !in w.namespaces[key.namespace].labels
    ensures Find(states[|events|], key) == Find(states[0], key)
  {
    RunIsPointwise(w, events, states, key);
    RunOutcome(w, events, key, Find(states[0], key));
    if FirstClaimant(w, events, key).Some? {
      FirstClaimantReads(w, events, key);
    }
  }

  /** No object disappears, ownership never changes hands, and no label but the owner label is
      ever added, changed or removed. */
  lemma LabelsKept(w: World, events: seq<Event>, states: seq<Cluster>, key: Key)
    requires IsRun(w, events, states) && key in states[0]
    ensures key in states[|events|]
    ensures states[|events|][key].labels - {OWNER} == states[0][key].labels - {OWNER}
    ensures Owner(Find(states[0], key)).Some? ==>
              Owner(Find(states[|events|], key)) == Owner(Find(states[0], key))
  {
    RunIsPointwise(w, events, states, key);
    RunOutcome(w, events, key, Find(states[0], key));
  }

  // ---------- stabilization ----------

  /** Every enabled profile was reconciled at least once without a failing API call. */
  ghost predicate AllRanCleanly(w: World, events: seq<Event>) {
    forall p :: w.Enabled(p) ==> exists e :: e in events && e.request.profile == p && e.request.failing == {}
  }

  /** No reconcile from the given time on changes anything, whatever the order it reads in. */
  ghost predicate Settled(w: World, now: int, c: Cluster) {
    forall e: Event, d :: e.request.now >= now && IsStep(w, e, c, d) ==> d == c
  }

  /** What profile p renders for the object does not depend on the order of the annotations: no two
      of them give the same limit different values, unless the template keeps all limits out. */
  ghost predicate Determined(w: World, p: string, key: Key)
    requires w.Has(p, key)
  {
    key.gvk == QUOTA && !w.profiles[p].resources[key.name].body.hard.Blocked? ==>
      ConflictFree(NormalizedBase(w.labelBase), w.parse, w.namespaces[key.namespace].annotations, key.name)
  }

  /** Once every enabled profile has run, in whatever order and however often, the cluster is
      settled if and only if the annotations determine every quota that its owner still renders. */
  lemma StabilizesIff(w: World, events: seq<Event>, states: seq<Cluster>, now: int)
    requires IsRun(w, events, states) && AllRanCleanly(w, events)
    requires forall x :: x in events ==> x.request.now <= now
    ensures Settled(w, now, states[|events|]) <==>
            forall key, p :: w.Targets(p, now, key) && FinalOwner(w, events, key, Find(states[0], key)) == Some(p) ==>
              Determined(w, p, key)
  {
    var last := states[|events|];
    if forall key, p :: w.Targets(p, now, key) && FinalOwner(w, events, key, Find(states[0], key)) == Some(p) ==>
         Determined(w, p, key)
    {
      forall e: Event, d | e.request.now >= now && IsStep(w, e, last, d) ensures d == last {
        forall key ensures Find(d, key) == Find(last, key) {
          if Claims(w, e.request, key) {
            assert w.Targets(e.request.profile, now, key);
            StaysAsRendered(w, events, states, e, key);
          }
        }
        SameObjects(d, last);
      }
    }
    if Settled(w, now, last) {
      forall key, p | w.Targets(p, now, key) && FinalOwner(w, events, key, Find(states[0], key)) == Some(p)
        ensures Determined(w, p, key)
      {
        RunIsPointwise(w, events, states, key);
        RunOutcome(w, events, key, Find(states[0], key));
        if !Determined(w, p, key) {
          NotSettled(w, p, now, key, last);
          assert false;
        }
      }
    }
  }

  lemma {:induction false} LastReadingOf(w: World, events: seq<Event>, e: Event, key: Key)
    requires e in events && Claims(w, e.request, key)
    ensures LastReading(w, events, key, e.request.profile).Some?
    ensures FirstClaimant(w, events, key).Some?
  {
    var init, x := events[..|events| - 1], events[|events| - 1];
    assert events == init + [x];
    FirstClaimantAppend(w, init, x, key);
    if e != x {
      LastReadingOf(w, init, e, key);
    }
  }

  lemma {:induction false} LastReadingIterates(w: World, events: seq<Event>, key: Key, p: string)
    requires LastReading(w, events, key, p).Some? && forall e :: e in events ==> Possible(w, e)
    ensures w.Iterates(key, LastReading(w, events, key, p).value)
  {
    var e := events[|events| - 1];
    assert Possible(w, e);
    if !(e.request.profile == p && Claims(w, e.request, key)) {
      LastReadingIterates(w, events[..|events| - 1], key, p);
    }
  }

  lemma StaysAsRendered(w: World, events: seq<Event>, states: seq<Cluster>, e: Event, key: Key)
    requires IsRun(w, events, states) && AllRanCleanly(w, events) && Possible(w, e)
    requires forall x :: x in events ==> x.request.now <= e.request.now
    requires Claims(w, e.request, key)
    requires FinalOwner(w, events, key, Find(states[0], key)) == Some(e.request.profile)
             ==> Determined(w, e.request.profile, key)
    ensures After(w, e, key, Find(states[|events|], key)) == Find(states[|events|], key)
  {
    var o, p := Find(states[0], key), e.request.profile;
    RunIsPointwise(w, events, states, key);
    RunOutcome(w, events, key, o);
    var x :| x in events && x.request.profile == p && x.request.failing == {};
    LastReadingOf(w, events, x, key);
    if FinalOwner(w, events, key, o) == Some(p) {
      var order, order' := LastReading(w, events, key, p).value, OrderAt(e.orders, key);
      forall a | a in events ensures Possible(w, a) {
        var i :| 0 <= i < |events| && events[i] == a;
        assert IsStep(w, events[i], states[i], states[i + 1]);
      }
      LastReadingIterates(w, events, key, p);
      SameRendering(w, p, key, order, order');
      RenderedAgain(w, p, key, Labels(o), order);
      RenderedAgain(w, p, key, Labels(o), order');
    }
  }

  lemma SameRendering(w: World, p: string, key: Key, order: seq<string>, order': seq<string>)
    requires w.Has(p, key) && Determined(w, p, key) && w.Iterates(key, order) && w.Iterates(key, order')
    ensures w.RenderedBody(p, key, order) == w.RenderedBody(p, key, order')
  {
    if key.gvk == QUOTA && !w.profiles[p].resources[key.name].body.hard.Blocked? {
      SameOverrides(w, key, order, order');
    }
  }

  lemma SameOverrides(w: World, key: Key, order: seq<string>, order': seq<string>)
    requires key.gvk == QUOTA && key.namespace in w.namespaces && w.Iterates(key, order) && w.Iterates(key, order')
    requires ConflictFree(NormalizedBase(w.labelBase), w.parse, w.namespaces[key.namespace].annotations, key.name)
    ensures w.Overrides(key, order) == w.Overrides(key, order')
  {
    OrderIrrelevantIff(NormalizedBase(w.labelBase), w.parse, w.namespaces[key.namespace].annotations, key.name);
  }

  lemma SameObjects(c: Cluster, d: Cluster)
    requires forall key :: Find(c, key) == Find(d, key)
    ensures c == d
  {
    forall key ensures key in c <==> key in d
               ensures key in c ==> c[key] == d[key]
    {
      assert Find(c, key) == Find(d, key);
    }
  }

  // ---------- conflicting annotations ----------

  /** The objects that a profile may write. */
  function Writable(w: World, p: string): set<Key> {
    if p !in w.profiles then {}
    else
      var resources := w.profiles[p].resources;
      set ns, name | ns in w.namespaces && name in resources :: Key(resources[name].gvk, ns, name)
  }

  /** The cluster after an event. */
  ghost function Step(w: World, e: Event, c: Cluster): (d: Cluster)
    requires Possible(w, e)
    ensures IsStep(w, e, c, d)
  {
    map key | key in c.Keys + Writable(w, e.request.profile) && After(w, e, key, Find(c, key)).Some? ::
      After(w, e, key, Find(c, key)).value
  }

  /** A reconcile at which one object is rendered in a given order. */
  ghost function ReconcileReading(w: World, p: string, now: int, key: Key, order: seq<string>): (e: Event)
    requires w.Targets(p, now, key) && w.Iterates(key, order)
    ensures Possible(w, e) && e.request == Request(p, now, {}) && OrderAt(e.orders, key) == order
  {
    var all := Writable(w, p);
    var orders := map x | x in all && x.namespace in w.namespaces ::
      if x == key then order else SomeOrder(w.namespaces[x.namespace].annotations.Keys);
    Reconciled(Request(p, now, {}), orders)
  }

  /** With conflicting annotations two reconciles of the same profile give the object different
      contents, from every state in which the profile may write it: repeated in turn, they change
      it for ever. */
  lemma Flip(w: World, p: string, now: int, key: Key, o: Option<Object>) returns (e: Event, e': Event)
    requires w.Targets(p, now, key) && !Determined(w, p, key) && (Owner(o).Some? ==> Owner(o).value == p)
    ensures e.request == e'.request == Request(p, now, {}) && Possible(w, e) && Possible(w, e')
    ensures
      var first := After(w, e, key, o);
      var second := After(w, e', key, first);
      && first.Some? && second.Some? && first.value.body != second.value.body
      && After(w, e, key, second) == first
  {
    var order, order' := DifferentBodies(w, p, key);
    e, e' := ReconcileReading(w, p, now, key, order), ReconcileReading(w, p, now, key, order');
    WrittenBy(w, e, key, o);
    WrittenBy(w, e', key, After(w, e, key, o));
    WrittenBy(w, e, key, After(w, e', key, After(w, e, key, o)));
  }

  lemma WrittenBy(w: World, e: Event, key: Key, o: Option<Object>)
    requires Claims(w, e.request, key) && (Owner(o).Some? ==> Owner(o).value == e.request.profile)
    ensures
      var p := e.request.profile;
      var after := After(w, e, key, o);
      && after == Some(Object(w.RenderedBody(p, key, OrderAt(e.orders, key)), Labels(o)[OWNER := p], p))
      && Labels(after)[OWNER := p] == Labels(after) && Owner(after) == Some(p)
  {
  }

  lemma DifferentBodies(w: World, p: string, key: Key) returns (order: seq<string>, order': seq<string>)
    requires w.Has(p, key) && !Determined(w, p, key)
    ensures w.Iterates(key, order) && w.Iterates(key, order')
    ensures w.RenderedBody(p, key, order) != w.RenderedBody(p, key, order')
  {
    order, order' := DifferentOverrides(w, key);
    OverwrittenDiffers(w.profiles[p].resources[key.name].body.hard, w.Overrides(key, order), w.Overrides(key, order'));
  }

  lemma DifferentOverrides(w: World, key: Key) returns (order: seq<string>, order': seq<string>)
    requires key.namespace in w.namespaces
    requires !ConflictFree(NormalizedBase(w.labelBase), w.parse, w.namespaces[key.namespace].annotations, key.name)
    ensures w.Iterates(key, order) && w.Iterates(key, order')
    ensures w.Overrides(key, order).Keys == w.Overrides(key, order').Keys
    ensures w.Overrides(key, order) != w.Overrides(key, order')
  {
    var base, annotations := NormalizedBase(w.labelBase), w.namespaces[key.namespace].annotations;
    OrderIrrelevantIff(base, w.parse, annotations, key.name);
    order, order' :| Enumerates(order, annotations.Keys) && Enumerates(order', annotations.Keys)
      && Merged(base, w.parse, annotations, order, key.name) != Merged(base, w.parse, annotations, order', key.name);
    SameMergedKeys(base, w.parse, annotations, order, order', key.name);
  }

  lemma NotSettled(w: World, p: string, now: int, key: Key, c: Cluster)
    requires w.Targets(p, now, key) && !Determined(w, p, key) && Owner(Find(c, key)) == Some(p)
    ensures !Settled(w, now, c)
  {
    var e, e' := Flip(w, p, now, key, Find(c, key));
    var d, d' := Step(w, e, c), Step(w, e', c);
    assert Find(d, key) == After(w, e, key, Find(c, key));
    assert Find(d', key) == After(w, e', key, Find(c, key));
    if d == c {
      assert d' != c;
    }
  }

  /** Such a run: the namespace sets one storage class limit twice, to different values. The agent's
      three reconciles of the same profile write one content, another, and the first again. */
  lemma FlipRun(w: World, p: string, now: int, key: Key, k: string, v: string, json: string, c: Cluster)
    returns (events: seq<Event>, states: seq<Cluster>)
    requires w.Targets(p, now, key) && key.gvk == QUOTA
    requires Owner(Find(c, key)).Some? ==> Owner(Find(c, key)).value == p
    requires !w.profiles[p].resources[key.name].body.hard.Blocked?
    requires w.namespaces[key.namespace].annotations == A.Overlapping(Trimmed(w.labelBase), key.name, k, v, json)
    requires '.' !in key.name && '_' !in k && Contains(k, STORAGE)
    requires w.parse(json).Some? && k in w.parse(json).value && w.parse(json).value[k] != v
    ensures |events| == 3 && events[0] == events[2] && IsRun(w, events, states) && states[0] == c
    ensures events[0].request == events[1].request == Request(p, now, {})
    ensures Find(states[1], key).Some? && Find(states[2], key).Some?
    ensures Find(states[1], key).value.body != Find(states[2], key).value.body
    ensures Find(states[3], key) == Find(states[1], key)
  {
    A.OverlapConflicts(Trimmed(w.labelBase), w.parse, key.name, k, v, json);
    assert !Determined(w, p, key);
    var e, e' := Flip(w, p, now, key, Find(c, key));
    events := [e, e', e];
    states := InTurn(w, e, e', key, c);
  }

  lemma InTurn(w: World, e: Event, e': Event, key: Key, c: Cluster) returns (states: seq<Cluster>)
    requires Possible(w, e) && Possible(w, e')
    ensures IsRun(w, [e, e', e], states) && states[0] == c
    ensures
      var o := After(w, e, key, Find(c, key));
      && Find(states[1], key) == o && Find(states[2], key) == After(w, e', key, o)
      && Find(states[3], key) == After(w, e, key, After(w, e', key, o))
  {
    var c1 := Step(w, e, c);
    var c2 := Step(w, e', c1);
    var c3 := Step(w, e, c2);
    states := ThreeSteps(w, e, e', e, c, c1, c2, c3);
    assert Find(c1, key) == After(w, e, key, Find(c, key));
    assert Find(c2, key) == After(w, e', key, Find(c1, key));
    assert Find(c3, key) == After(w, e, key, Find(c2, key));
  }

  lemma ThreeSteps(w: World, e1: Event, e2: Event, e3: Event, c0: Cluster, c1: Cluster, c2: Cluster, c3: Cluster)
    returns (states: seq<Cluster>)
    requires IsStep(w, e1, c0, c1) && IsStep(w, e2, c1, c2) && IsStep(w, e3, c2, c3)
    ensures states == [c0, c1, c2, c3] && IsRun(w, [e1, e2, e3], states)
  {
    states := [c0, c1, c2, c3];
    var events := [e1, e2, e3];
    forall i | 0 <= i < |events| ensures IsStep(w, events[i], states[i], states[i + 1]) {
      if i == 0 {
      } else if i == 1 {
      } else {
        assert i == 2;
      }
    }
  }
}
