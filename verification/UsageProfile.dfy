/** Applying usage profiles to organization namespaces: the first profile to reach an object owns
    it, and objects of other owners are left alone. */
module UsageProfile {
  import opened Basics
  import opened QuotaTransformer

  const OWNER := "cloud-agent.appuio.io/usage-profile"

  /** The kind that the agent's transformer acts on. */
  const QUOTA := "/v1, Kind=ResourceQuota"

  /** An object of the cluster: its kind, namespace and name. */
  datatype Key = Key(gvk: string, namespace: string, name: string)

  /** The content of an object without its metadata: its `spec.hard`, and the rest in serialized
      form. */
  datatype Body = Body(rest: string, hard: HardField)

  /** The content of an object, its labels, and the profile set as its controller. */
  datatype Object = Object(body: Body, labels: StringMap, controller: string)

  type Cluster = map<Key, Object>

  /** A resource of a profile. It may fail to convert, or be unable to take an owner reference. */
  datatype Template = Template(gvk: string, body: Body, convertible: bool, ownable: bool)

  datatype Profile = Profile(resources: map<string, Template>)

  datatype Namespace = Namespace(labels: StringMap, annotations: StringMap, deletion: Option<int>)

  /** Everything a reconcile reads and does not change. */
  datatype World = World(
    organizationLabel: string,
    selectedProfile: string,
    profiles: map<string, Profile>,
    namespaces: map<string, Namespace>,
    labelBase: string,
    parse: ParseStrings
  ) {
    predicate Enabled(p: string) {
      (selectedProfile == "" || selectedProfile == p) && p in profiles
    }

    /** An organization namespace whose deletion time has not passed. */
    predicate Active(ns: string, now: int) {
      && ns in namespaces && organizationLabel in namespaces[ns].labels
      && !(namespaces[ns].deletion.Some? && now > namespaces[ns].deletion.value)
    }

    /** Profile p has a resource for this object. */
    predicate Has(p: string, key: Key) {
      p in profiles && key.name in profiles[p].resources && key.namespace in namespaces
    }

    /** Profile p has a usable resource for this object; without a kind it cannot even be read. */
    predicate Targets(p: string, now: int, key: Key) {
      && Enabled(p) && Active(key.namespace, now) && Has(p, key)
      && var t := profiles[p].resources[key.name];
         t.convertible && t.ownable && t.gvk == key.gvk != ""
    }

    /** The overrides for an object when its namespace's annotations are read in the given order. */
    ghost function Overrides(key: Key, order: seq<string>): StringMap
      requires key.namespace in namespaces
    {
      Merged(NormalizedBase(labelBase), parse, namespaces[key.namespace].annotations, order, key.name)
    }

    ghost function RenderedBody(p: string, key: Key, order: seq<string>): Body
      requires Has(p, key)
    {
      var body := profiles[p].resources[key.name].body;
      if key.gvk == QUOTA then body.(hard := Overwritten(body.hard, Overrides(key, order))) else body
    }

    ghost function Rendered(p: string, key: Key, labels: StringMap, order: seq<string>): Object
      requires Has(p, key)
    {
      Object(RenderedBody(p, key, order), labels[OWNER := p], p)
    }

    /** Orders in which Go may iterate over the annotations that an object is rendered with. */
    ghost predicate Iterates(key: Key, order: seq<string>)
      requires key.namespace in namespaces
    {
      key.gvk == QUOTA ==> Enumerates(order, namespaces[key.namespace].annotations.Keys)
    }
  }

  function Labels(o: Option<Object>): StringMap {
    if o.Some? then o.value.labels else map[]
  }

  function Owner(o: Option<Object>): Option<string> {
    if OWNER in Labels(o) then Some(Labels(o)[OWNER]) else None
  }

  // ---------- one reconcile ----------

  /** A reconcile of one profile at some time, with the objects whose API calls fail. */
  datatype Request = Request(profile: string, now: int, failing: set<Key>)

  /** The reconcile reaches the object with a usable resource and a working API. */
  predicate Claims(w: World, r: Request, key: Key) {
    w.Targets(r.profile, r.now, key) && key !in r.failing
  }

  /** What becomes of one object if its annotations are read in the given order: it is rendered
      anew, keeping its labels, unless another profile owns it. */
  ghost function AfterReading(w: World, r: Request, order: seq<string>, key: Key, o: Option<Object>): Option<Object> {
    if !Claims(w, r, key) then o
    else if Owner(o).Some? && Owner(o).value != r.profile then o
    else Some(w.Rendered(r.profile, key, Labels(o), order))
  }

  ghost predicate MayBecome(w: World, r: Request, key: Key, o: Option<Object>, o': Option<Object>) {
    if Claims(w, r, key) then exists order :: Reads(w, r, order, key, o, o') else o' == o
  }

  ghost predicate Reads(w: World, r: Request, order: seq<string>, key: Key, o: Option<Object>, o': Option<Object>)
    requires Claims(w, r, key)
  {
    w.Iterates(key, order) && o' == AfterReading(w, r, order, key, o)
  }

  ghost predicate IsReconcile(w: World, r: Request, c: Cluster, d: Cluster) {
    forall key :: MayBecome(w, r, key, Find(c, key), Find(d, key))
  }

  // ---------- what a reconcile does to an object, in terms of what it reads ----------

  /** The profile is selected, if any is, and exists; the namespace belongs to an organization and its
      deletion time has not passed; and the profile's resource of that name has this kind, can be
      converted and owned, and is reached by a working API. */
  predicate Due(w: World, r: Request, key: Key) {
    && w.selectedProfile in {"", r.profile} && r.profile in w.profiles
    && key.namespace in w.namespaces && w.organizationLabel in w.namespaces[key.namespace].labels
    && (w.namespaces[key.namespace].deletion.Some? ==> r.now <= w.namespaces[key.namespace].deletion.value)
    && key.name in w.profiles[r.profile].resources && key !in r.failing
    && var t := w.profiles[r.profile].resources[key.name];
       t.convertible && t.ownable && t.gvk == key.gvk && t.gvk != ""
  }

  /** No other profile has left its label on the object. */
  predicate Unclaimed(c: Cluster, key: Key, p: string) {
    key in c && OWNER in c[key].labels ==> c[key].labels[OWNER] == p
  }

  /** The hard limits of a quota when the annotations are read in some order; a template's own for
      any other kind. */
  ghost predicate HardFrom(w: World, t: Template, key: Key, hard: HardField)
    requires key.namespace in w.namespaces
  {
    var annotations := w.namespaces[key.namespace].annotations;
    if t.gvk != QUOTA then hard == t.body.hard
    else
      exists order :: Enumerates(order, annotations.Keys)
        && hard == Overwritten(t.body.hard, Merged(NormalizedBase(w.labelBase), w.parse, annotations, order, key.name))
  }

  /** Every object that is due and not another profile's gets the content of its resource, its old
      labels and the owner label; every other object stays. */
  lemma ReconcileWrites(w: World, r: Request, c: Cluster, d: Cluster, key: Key)
    requires IsReconcile(w, r, c, d)
    ensures
      if Due(w, r, key) && Unclaimed(c, key, r.profile) then
        var t := w.profiles[r.profile].resources[key.name];
        && key in d && d[key].controller == r.profile
        && d[key].labels == (if key in c then c[key].labels else map[])[OWNER := r.profile]
        && d[key].body.rest == t.body.rest && HardFrom(w, t, key, d[key].body.hard)
      else Find(d, key) == Find(c, key)
  {
    assert MayBecome(w, r, key, Find(c, key), Find(d, key));
    if Due(w, r, key) {
      var order :| Reads(w, r, order, key, Find(c, key), Find(d, key));
    }
  }

  /** How the dynamic watches behave: whether a cache and a controller exist, and the kinds for
      which requesting a watch fails. */
  datatype Watcher = Watcher(ready: bool, unwatchable: set<string>)

  /** The resource reports an error for a namespace, given the objects and the kinds already
      tracked before the reconcile. */
  predicate Fails(w: World, r: Request, c: Cluster, tracked: set<string>, watcher: Watcher, ns: string, name: string)
    requires w.Enabled(r.profile) && name in w.profiles[r.profile].resources
  {
    var t := w.profiles[r.profile].resources[name];
    var key := Key(t.gvk, ns, name);
    var o := Find(c, key);
    || !t.convertible
    || !t.ownable || key in r.failing
    || (Owner(o).Some? && Owner(o).value != r.profile)
    || !watcher.ready || t.gvk == ""
    || (t.gvk !in tracked && t.gvk in watcher.unwatchable)
  }

  /** A resource reports no error exactly when its object is written and its kind is watched. */
  lemma NoFailureIff(w: World, r: Request, c: Cluster, tracked: set<string>, watcher: Watcher, ns: string, name: string)
    requires w.Enabled(r.profile) && name in w.profiles[r.profile].resources && w.Active(ns, r.now)
    ensures
      var gvk := w.profiles[r.profile].resources[name].gvk;
      !Fails(w, r, c, tracked, watcher, ns, name) <==>
      && Due(w, r, Key(gvk, ns, name)) && Unclaimed(c, Key(gvk, ns, name), r.profile)
      && watcher.ready && (gvk in watcher.unwatchable ==> gvk in tracked)
  {
  }

  /** One of the resources reports an error for the namespace. */
  ghost predicate AnyFails(w: World, r: Request, c: Cluster, tracked: set<string>, watcher: Watcher, ns: string,
                           names: set<string>)
    requires w.Enabled(r.profile)
  {
    exists name :: name in names && name in w.profiles[r.profile].resources
                   && Fails(w, r, c, tracked, watcher, ns, name)
  }

  /** The kinds that are tracked once the named resources have been applied to some namespace. */
  function Watched(w: World, r: Request, names: set<string>, watcher: Watcher, tracked: set<string>): set<string>
    requires w.Enabled(r.profile)
  {
    var resources := w.profiles[r.profile].resources;
    tracked + set name | name in names && name in resources && resources[name].convertible && watcher.ready
                         && resources[name].gvk != "" :: resources[name].gvk
  }

  /** The named resources have been applied to one namespace, and nothing else has changed. */
  ghost predicate AppliedIn(w: World, r: Request, ns: string, names: set<string>, c: Cluster, d: Cluster) {
    forall key: Key ::
      if key.namespace == ns && key.name in names then MayBecome(w, r, key, Find(c, key), Find(d, key))
      else Find(d, key) == Find(c, key)
  }

  /** All resources have been applied to all but some namespaces, and nothing else has changed. */
  ghost predicate AppliedOutside(w: World, r: Request, namespaces: set<string>, c: Cluster, d: Cluster) {
    forall key: Key ::
      if key.namespace in namespaces then Find(d, key) == Find(c, key)
      else MayBecome(w, r, key, Find(c, key), Find(d, key))
  }

  lemma AppliedStep(w: World, r: Request, ns: string, done: set<string>, name: string, c: Cluster, d: Cluster,
                    e: Cluster)
    requires w.Enabled(r.profile) && name in w.profiles[r.profile].resources && name !in done
    requires AppliedIn(w, r, ns, done, c, d)
    requires
      var key := Key(w.profiles[r.profile].resources[name].gvk, ns, name);
      && (forall k :: k != key ==> Find(e, k) == Find(d, k))
      && MayBecome(w, r, key, Find(d, key), Find(e, key))
    ensures AppliedIn(w, r, ns, done + {name}, c, e)
  {
  }

  lemma FailsStep(w: World, r: Request, ns: string, done: set<string>, name: string, c: Cluster, d: Cluster,
                  tracked: set<string>, tracked': set<string>, watcher: Watcher)
    requires w.Enabled(r.profile) && name in w.profiles[r.profile].resources && name !in done
    requires AppliedIn(w, r, ns, done, c, d) && tracked' == Watched(w, r, done, watcher, tracked)
    ensures AnyFails(w, r, c, tracked, watcher, ns, done + {name}) <==>
            AnyFails(w, r, c, tracked, watcher, ns, done) || Fails(w, r, d, tracked', watcher, ns, name)
  {
    var all := done + {name};
    var gvk := w.profiles[r.profile].resources[name].gvk;
    assert Find(d, Key(gvk, ns, name)) == Find(c, Key(gvk, ns, name));
    assert name in all;
    if n :| n in done && n in w.profiles[r.profile].resources && Fails(w, r, c, tracked, watcher, ns, n) {
      assert n in all;
    }
    if gvk in tracked' && gvk !in tracked && gvk in watcher.unwatchable {
      var n :| n in done && n in w.profiles[r.profile].resources && w.profiles[r.profile].resources[n].gvk == gvk;
      assert Fails(w, r, c, tracked, watcher, ns, n);
    }
  }

  lemma WatchedStep(w: World, r: Request, done: set<string>, name: string, watcher: Watcher, tracked: set<string>,
                    tracked': set<string>)
    requires w.Enabled(r.profile) && name in w.profiles[r.profile].resources
    requires tracked' == Watched(w, r, done, watcher, tracked)
    ensures
      var t := w.profiles[r.profile].resources[name];
      Watched(w, r, done + {name}, watcher, tracked) ==
      if t.convertible && watcher.ready && t.gvk != "" then tracked' + {t.gvk} else tracked'
  {
    var t := w.profiles[r.profile].resources[name];
    var all := done + {name};
    forall g | g in tracked' ensures g in Watched(w, r, all, watcher, tracked) {
      if g !in tracked {
        var n :| n in done && n in w.profiles[r.profile].resources && w.profiles[r.profile].resources[n].convertible
          && watcher.ready && w.profiles[r.profile].resources[n].gvk == g != "";
        assert n in all;
      }
    }
    assert name in all;
  }

  lemma WatchedAgain(w: World, r: Request, watcher: Watcher, tracked: set<string>)
    requires w.Enabled(r.profile)
    ensures
      var names := w.profiles[r.profile].resources.Keys;
      var once := Watched(w, r, names, watcher, tracked);
      Watched(w, r, names, watcher, once) == once
  {
  }

  lemma SkippedStep(w: World, r: Request, rest: set<string>, ns: string, c: Cluster, d: Cluster)
    requires !w.Active(ns, r.now) && AppliedOutside(w, r, rest, c, d)
    ensures AppliedOutside(w, r, rest - {ns}, c, d)
  {
  }

  lemma NamespaceStep(w: World, r: Request, rest: set<string>, ns: string, c: Cluster, d: Cluster, e: Cluster)
    requires w.Enabled(r.profile) && ns in rest && AppliedOutside(w, r, rest, c, d)
    requires AppliedIn(w, r, ns, w.profiles[r.profile].resources.Keys, d, e)
    ensures AppliedOutside(w, r, rest - {ns}, c, e)
  {
  }

  /** Some resource reports an error for a namespace that is not in the given set. */
  ghost predicate FailsOutside(w: World, r: Request, c: Cluster, tracked: set<string>, watcher: Watcher,
                               namespaces: set<string>)
    requires w.Enabled(r.profile)
  {
    exists ns :: ns !in namespaces && w.Active(ns, r.now)
                 && AnyFails(w, r, c, tracked, watcher, ns, w.profiles[r.profile].resources.Keys)
  }

  /** The kinds tracked once all resources have been applied to all but some namespaces. */
  ghost function WatchedOutside(w: World, r: Request, namespaces: set<string>, watcher: Watcher, tracked: set<string>)
    : set<string>
    requires w.Enabled(r.profile)
  {
    if exists ns :: ns !in namespaces && w.Active(ns, r.now)
    then Watched(w, r, w.profiles[r.profile].resources.Keys, watcher, tracked)
    else tracked
  }

  /** Another namespace adds its failures. A kind that is tracked by now is not watched again, but its
      failure was reported for the namespace that came first. */
  lemma FailsOutsideStep(w: World, r: Request, rest: set<string>, ns: string, c: Cluster, d: Cluster,
                         tracked: set<string>, tracked': set<string>, watcher: Watcher)
    requires w.Enabled(r.profile) && ns in rest && w.Active(ns, r.now) && AppliedOutside(w, r, rest, c, d)
    requires tracked' == WatchedOutside(w, r, rest, watcher, tracked)
    ensures FailsOutside(w, r, c, tracked, watcher, rest - {ns}) <==>
            FailsOutside(w, r, c, tracked, watcher, rest)
            || AnyFails(w, r, d, tracked', watcher, ns, w.profiles[r.profile].resources.Keys)
  {
    var names := w.profiles[r.profile].resources.Keys;
    if n :| n in names && Fails(w, r, c, tracked, watcher, ns, n) && !Fails(w, r, d, tracked', watcher, ns, n) {
      FirstFailure(w, r, rest, ns, n, c, d, tracked, tracked', watcher);
    }
    forall n | n in names && Fails(w, r, d, tracked', watcher, ns, n) ensures Fails(w, r, c, tracked, watcher, ns, n) {
      assert Find(d, Key(w.profiles[r.profile].resources[n].gvk, ns, n))
          == Find(c, Key(w.profiles[r.profile].resources[n].gvk, ns, n));
    }
    if AnyFails(w, r, c, tracked, watcher, ns, names) {
      assert ns !in rest - {ns};
    }
  }

  lemma FirstFailure(w: World, r: Request, rest: set<string>, ns: string, name: string, c: Cluster, d: Cluster,
                     tracked: set<string>, tracked': set<string>, watcher: Watcher)
    requires w.Enabled(r.profile) && ns in rest && AppliedOutside(w, r, rest, c, d)
    requires tracked' == WatchedOutside(w, r, rest, watcher, tracked) && name in w.profiles[r.profile].resources
    requires Fails(w, r, c, tracked, watcher, ns, name) && !Fails(w, r, d, tracked', watcher, ns, name)
    ensures FailsOutside(w, r, c, tracked, watcher, rest)
  {
    var key := Key(w.profiles[r.profile].resources[name].gvk, ns, name);
    assert Find(d, key) == Find(c, key);
    var other :| other !in rest && w.Active(other, r.now);
    assert Fails(w, r, c, tracked, watcher, other, name);
    assert AnyFails(w, r, c, tracked, watcher, other, w.profiles[r.profile].resources.Keys);
  }

  lemma WatchedOutsideStep(w: World, r: Request, rest: set<string>, ns: string, watcher: Watcher,
                           tracked: set<string>, tracked': set<string>)
    requires w.Enabled(r.profile) && w.Active(ns, r.now)
    requires tracked' == WatchedOutside(w, r, rest, watcher, tracked)
    ensures WatchedOutside(w, r, rest - {ns}, watcher, tracked) ==
            Watched(w, r, w.profiles[r.profile].resources.Keys, watcher, tracked')
  {
    assert ns !in rest - {ns};
    WatchedAgain(w, r, watcher, tracked);
  }

  class Reconciler {
    var cluster: Cluster
    /** Kinds for which a watch was requested, and the requests made, in order. */
    var tracked: set<string>
    var watchCalls: seq<string>

    /** A watch is requested at most once per kind. */
    ghost predicate WatchesOnce()
      reads this
    {
      && Distinct(watchCalls)
      && forall g :: g in watchCalls <==> g in tracked
    }

    constructor (cluster: Cluster)
      ensures this.cluster == cluster && tracked == {} && watchCalls == [] && WatchesOnce()
    {
      this.cluster, tracked, watchCalls := cluster, {}, [];
    }

    /** Only the first request for a kind can fail; it is not repeated even then. */
    method EnsureWatch(gvk: string, watcher: Watcher) returns (failed: bool)
      requires WatchesOnce()
      modifies this`tracked, this`watchCalls
      ensures WatchesOnce()
      ensures tracked == if watcher.ready && gvk != "" then old(tracked) + {gvk} else old(tracked)
      ensures watchCalls == if watcher.ready && gvk != "" && gvk !in old(tracked) then old(watchCalls) + [gvk]
                            else old(watchCalls)
      ensures failed <==> !watcher.ready || gvk == "" || (gvk !in old(tracked) && gvk in watcher.unwatchable)
    {
      if !watcher.ready || gvk == "" {
        return true;
      }
      failed := false;
      if gvk !in tracked {
        tracked := tracked + {gvk};
        watchCalls := watchCalls + [gvk];
        failed := gvk in watcher.unwatchable;
      }
    }

    /** CreateOrUpdate of one resource in one namespace, followed by the watch of its kind. What the
        transformer reports is logged and ignored. */
    method ApplyResourceToNamespace(w: World, r: Request, ns: string, name: string, watcher: Watcher)
      returns (failed: bool)
      requires w.Enabled(r.profile) && name in w.profiles[r.profile].resources && w.Active(ns, r.now)
      requires WatchesOnce()
      modifies this
      ensures WatchesOnce()
      ensures
        var t := w.profiles[r.profile].resources[name];
        tracked == if t.convertible && watcher.ready && t.gvk != "" then old(tracked) + {t.gvk} else old(tracked)
      ensures
        var key := Key(w.profiles[r.profile].resources[name].gvk, ns, name);
        && (forall k :: k != key ==> Find(cluster, k) == Find(old(cluster), k))
        && MayBecome(w, r, key, Find(old(cluster), key), Find(cluster, key))
      ensures failed <==> Fails(w, r, old(cluster), old(tracked), watcher, ns, name)
    {
      var t := w.profiles[r.profile].resources[name];
      if !t.convertible {
        return true;
      }
      var key := Key(t.gvk, ns, name);
      var applyFailed := true;
      if key !in r.failing && t.gvk != "" && t.ownable {
        var hard, order := TransformedHard(w, t, ns, name);
        var labels := if key in cluster then cluster[key].labels else map[];
        if OWNER !in labels || labels[OWNER] == r.profile {
          var body := t.body.(hard := hard);
          cluster := cluster[key := Object(body, labels[OWNER := r.profile], r.profile)];
          applyFailed := false;
        }
        assert Claims(w, r, key) && Reads(w, r, order, key, Find(old(cluster), key), Find(cluster, key));
      }
      failed := EnsureWatch(t.gvk, watcher);
      failed := failed || applyFailed;
    }

    /** Runs the transformer on a copy of the template. */
    method TransformedHard(w: World, t: Template, ns: string, name: string)
      returns (hard: HardField, ghost order: seq<string>)
      requires ns in w.namespaces
      ensures
        var key := Key(t.gvk, ns, name);
        && w.Iterates(key, order)
        && hard == if t.gvk == QUOTA then Overwritten(t.body.hard, w.Overrides(key, order)) else t.body.hard
    {
      var u := new Unstructured(t.gvk == QUOTA, name, t.body.hard);
      var ignored;
      ignored, order := Transform(w.labelBase, w.parse, u, w.namespaces[ns].annotations);
      hard := u.hard;
    }

    /** Every resource of the profile, in any order, applied to one namespace. */
    method ApplyToNamespace(w: World, r: Request, ns: string, watcher: Watcher) returns (failed: bool)
      requires w.Enabled(r.profile) && w.Active(ns, r.now) && WatchesOnce()
      modifies this
      ensures WatchesOnce() && AppliedIn(w, r, ns, w.profiles[r.profile].resources.Keys, old(cluster), cluster)
      ensures tracked == Watched(w, r, w.profiles[r.profile].resources.Keys, watcher, old(tracked))
      ensures failed <==> AnyFails(w, r, old(cluster), old(tracked), watcher, ns, w.profiles[r.profile].resources.Keys)
    {
      failed := false;
      var names := w.profiles[r.profile].resources.Keys;
      ghost var done: set<string> := {};
      while names != {}
        invariant WatchesOnce() && names + done == w.profiles[r.profile].resources.Keys && names !! done
        invariant AppliedIn(w, r, ns, done, old(cluster), cluster)
        invariant tracked == Watched(w, r, done, watcher, old(tracked))
        invariant failed <==> AnyFails(w, r, old(cluster), old(tracked), watcher, ns, done)
        decreases names
      {
        var name :| name in names;
        names := names - {name};
        ghost var c, tr := cluster, tracked;
        var f := ApplyResourceToNamespace(w, r, ns, name, watcher);
        AppliedStep(w, r, ns, done, name, old(cluster), c, cluster);
        FailsStep(w, r, ns, done, name, old(cluster), c, old(tracked), tr, watcher);
        WatchedStep(w, r, done, name, watcher, old(tracked), tr);
        done := done + {name};
        failed := failed || f;
      }
    }

    /** Applies every resource of a profile to every organization namespace; errors are collected
        and never stop the rest. */
    method Reconcile(w: World, r: Request, watcher: Watcher) returns (failed: bool)
      requires WatchesOnce()
      modifies this
      ensures WatchesOnce()
      ensures IsReconcile(w, r, old(cluster), cluster)
      ensures w.selectedProfile !in {"", r.profile} || r.profile !in w.profiles ==>
                cluster == old(cluster) && tracked == old(tracked) && watchCalls == old(watchCalls) && !failed
      ensures tracked == if w.Enabled(r.profile) then WatchedOutside(w, r, {}, watcher, old(tracked)) else old(tracked)
      ensures failed <==> w.Enabled(r.profile) && FailsOutside(w, r, old(cluster), old(tracked), watcher, {})
    {
      failed := false;
      if !w.Enabled(r.profile) {
        return;
      }
      var rest := set ns | ns in w.namespaces && w.organizationLabel in w.namespaces[ns].labels;
      ghost var all := rest;
      assert forall ns :: w.Active(ns, r.now) ==> ns in rest;
      while rest != {}
        invariant rest <= all && WatchesOnce()
        invariant AppliedOutside(w, r, rest, old(cluster), cluster)
        invariant tracked == WatchedOutside(w, r, rest, watcher, old(tracked))
        invariant failed <==> FailsOutside(w, r, old(cluster), old(tracked), watcher, rest)
        decreases rest
      {
        var ns :| ns in rest;
        ghost var c, tr := cluster, tracked;
        if w.namespaces[ns].deletion.Some? && r.now > w.namespaces[ns].deletion.value {
          SkippedStep(w, r, rest, ns, old(cluster), cluster);
        } else {
          var f := ApplyToNamespace(w, r, ns, watcher);
          NamespaceStep(w, r, rest, ns, old(cluster), c, cluster);
          FailsOutsideStep(w, r, rest, ns, old(cluster), c, old(tracked), tr, watcher);
          WatchedOutsideStep(w, r, rest, ns, watcher, old(tracked), tr);
          failed := failed || f;
        }
        rest := rest - {ns};
      }
    }
  }
}
