/** Syncing groups with the teams and organization members of another cluster. */
module GroupSync {
  import opened Basics
  import opened Text

  const FINALIZER_PREFIX := "agent.appuio.io/group-zone-"

  // ---------- request names ----------

  /** An upstream object: a team of an organization, or the members of an organization. */
  datatype UpstreamKey = TeamKey(namespace: string, name: string) | MembersKey(namespace: string)

  /** The group name to reconcile for an upstream object. */
  function RequestName(key: UpstreamKey): string {
    match key
    case TeamKey(namespace, name) => namespace + ['+'] + name
    case MembersKey(namespace) => namespace
  }

  /** The upstream object a group name stands for: split at the first '+', if there is one. */
  function ParseRequest(name: string): UpstreamKey {
    match CutAt(name, '+')
    case Cut(namespace, team) => TeamKey(namespace, team)
    case NoCut => MembersKey(name)
  }

  /** A name leads back to the object it was made for exactly when its namespace has no '+'. */
  lemma RequestRoundTrip(key: UpstreamKey)
    ensures ParseRequest(RequestName(key)) == key <==> '+' !in key.namespace
  {
    CutAtFirst(RequestName(key), '+');
    match key
    case TeamKey(namespace, name) =>
      if '+' !in namespace {
        CutAtUnique(namespace, '+', name);
      }
    case MembersKey(namespace) =>
  }

  /** Different upstream objects never share a group. */
  lemma RequestInjective(x: UpstreamKey, y: UpstreamKey)
    requires '+' !in x.namespace && '+' !in y.namespace && RequestName(x) == RequestName(y)
    ensures x == y
  {
    RequestRoundTrip(x);
    RequestRoundTrip(y);
  }

  // ---------- the two stores, for one group name ----------

  datatype Upstream = Upstream(members: seq<string>, finalizers: seq<string>, deleting: bool, version: nat)

  datatype Group = Group(users: seq<string>, version: nat)

  /** The upstream object and the group, and the clock that versions are drawn from. Every write
      draws a version, so an unchanged clock means that nothing was written. */
  datatype Stores = Stores(upstream: Option<Upstream>, group: Option<Group>, clock: nat)

  function RemoveAll(s: seq<string>, x: string): (r: seq<string>)
    ensures x !in r
    ensures forall y :: y != x ==> (y in r <==> y in s)
  {
    if s == [] then []
    else if s[0] == x then RemoveAll(s[1..], x)
    else [s[0]] + RemoveAll(s[1..], x)
  }

  /** An update needs the current version. A deleted object goes away with its last finalizer. */
  function UpdateUpstream(s: Stores, u: Upstream, finalizers: seq<string>): Stores {
    if s.upstream.None? || s.upstream.value.version != u.version then s
    else
      var u' := u.(finalizers := finalizers, version := s.clock + 1);
      s.(upstream := if u'.deleting && u'.finalizers == [] then None else Some(u'), clock := s.clock + 1)
  }

  function DeleteGroup(s: Stores): Stores {
    if s.group.None? then s else s.(group := None, clock := s.clock + 1)
  }

  function WriteGroup(s: Stores, users: seq<string>): Stores {
    if s.group.Some? && s.group.value.users == users then s
    else s.(group := Some(Group(users, s.clock + 1)), clock := s.clock + 1)
  }

  // ---------- a reconcile that nothing interrupts ----------

  function Reconciled(s: Stores, finalizer: string): Stores {
    if s.upstream.None? then s
    else
      var u := s.upstream.value;
      if u.deleting then
        var s' := DeleteGroup(s);
        if finalizer in u.finalizers then UpdateUpstream(s', u, RemoveAll(u.finalizers, finalizer)) else s'
      else
        Synced(s, u, Sort(u.members), finalizer)
  }

  /** The group written first, the finalizer stored second. */
  function Synced(s: Stores, u: Upstream, users: seq<string>, finalizer: string): Stores {
    var s' := WriteGroup(s, users);
    if finalizer !in u.finalizers then UpdateUpstream(s', u, u.finalizers + [finalizer]) else s'
  }

  /** A live upstream ends up with the finalizer and with a group that lists exactly its members,
      sorted. */
  lemma LiveIsSynced(s: Stores, finalizer: string)
    requires s.upstream.Some? && !s.upstream.value.deleting
    ensures
      var t := Reconciled(s, finalizer);
      && t.upstream.Some? && !t.upstream.value.deleting && finalizer in t.upstream.value.finalizers
      && t.upstream.value.members == s.upstream.value.members
      && t.group.Some? && Sorted(t.group.value.users)
      && multiset(t.group.value.users) == multiset(s.upstream.value.members)
  {
    var u := s.upstream.value;
    assert finalizer in u.finalizers + [finalizer];
  }

  /** A deleted upstream ends up without the finalizer, or gone, and without a group. */
  lemma DeletedIsReleased(s: Stores, finalizer: string)
    requires s.upstream.Some? && s.upstream.value.deleting
    ensures
      var t := Reconciled(s, finalizer);
      && t.group.None?
      && (t.upstream.Some? ==> finalizer !in t.upstream.value.finalizers && t.upstream.value.deleting)
      && (s.upstream.value.finalizers == [finalizer] ==> t.upstream.None?)
  {
    if s.upstream.value.finalizers == [finalizer] {
      assert RemoveAll([finalizer], finalizer) == [] by {
        assert [finalizer][1..] == [];
      }
    }
  }

  /** The finalizers on an object, none if it does not exist. */
  function FinalizersOf(u: Option<Upstream>): seq<string> {
    if u.Some? then u.value.finalizers else []
  }

  /** Whatever the reconcile does, a finalizer of others is there afterwards exactly when it was
      before; and a deleted object that carried the zone's finalizer is gone exactly when it carried
      no other. */
  lemma KeepsOtherFinalizers(s: Stores, finalizer: string)
    ensures
      var t := Reconciled(s, finalizer);
      && (forall f :: f != finalizer ==> (f in FinalizersOf(t.upstream) <==> f in FinalizersOf(s.upstream)))
      && (s.upstream.Some? && s.upstream.value.deleting && finalizer in s.upstream.value.finalizers ==>
            (t.upstream.None? <==> forall f :: f in s.upstream.value.finalizers ==> f == finalizer))
  {
    if s.upstream.Some? && s.upstream.value.deleting {
      var rest := RemoveAll(s.upstream.value.finalizers, finalizer);
      assert rest != [] ==> rest[0] in rest;
    }
  }

  /** The order in which members are listed does not show in the group. */
  lemma MemberOrderIrrelevant(s: Stores, finalizer: string, members: seq<string>)
    requires s.upstream.Some? && multiset(members) == multiset(s.upstream.value.members)
    ensures
      var s' := s.(upstream := Some(s.upstream.value.(members := members)));
      Reconciled(s', finalizer).group == Reconciled(s, finalizer).group
  {
    SortForgetsOrder(members, s.upstream.value.members);
    ReconciledGroup(s, finalizer);
    ReconciledGroup(s.(upstream := Some(s.upstream.value.(members := members))), finalizer);
  }

  lemma ReconciledGroup(s: Stores, finalizer: string)
    requires s.upstream.Some?
    ensures
      var users := Sort(s.upstream.value.members);
      Reconciled(s, finalizer).group ==
      if s.upstream.value.deleting then None
      else if s.group.Some? && s.group.value.users == users then s.group
      else Some(Group(users, s.clock + 1))
  {
    if s.upstream.value.deleting {
      DeletedIsReleased(s, finalizer);
    } else {
      SyncedGroup(s, s.upstream.value, Sort(s.upstream.value.members), finalizer);
    }
  }

  lemma SyncedGroup(s: Stores, u: Upstream, users: seq<string>, finalizer: string)
    ensures Synced(s, u, users, finalizer).group ==
            if s.group.Some? && s.group.value.users == users then s.group else Some(Group(users, s.clock + 1))
  {
  }

  /** A second reconcile writes nothing. */
  lemma ReconcileIsIdempotent(s: Stores, finalizer: string)
    ensures Reconciled(Reconciled(s, finalizer), finalizer) == Reconciled(s, finalizer)
  {
    if s.upstream.Some? {
      if s.upstream.value.deleting {
        DeletedIsReleased(s, finalizer);
      } else {
        LiveIsSynced(s, finalizer);
      }
    }
  }

  // ---------- the reconciler ----------

  predicate Carries(upstreams: map<UpstreamKey, Upstream>, key: UpstreamKey, f: string) {
    key in upstreams && f in upstreams[key].finalizers
  }

  class Reconciler {
    const finalizer: string
    var upstreams: map<UpstreamKey, Upstream>
    var groups: map<string, Group>
    var clock: nat

    constructor (zone: string, upstreams: map<UpstreamKey, Upstream>, groups: map<string, Group>, clock: nat)
      ensures this.finalizer == FINALIZER_PREFIX + zone
      ensures this.upstreams == upstreams && this.groups == groups && this.clock == clock
    {
      this.finalizer := FINALIZER_PREFIX + zone;
      this.upstreams, this.groups, this.clock := upstreams, groups, clock;
    }

    /** What the stores hold for one group name. */
    ghost function View(name: string): Stores
      reads this
    {
      Stores(Find(upstreams, ParseRequest(name)), Find(groups, name), clock)
    }

    method Update(key: UpstreamKey, u: Upstream, finalizers: seq<string>)
      requires key in upstreams && upstreams[key].version == u.version
      modifies this`upstreams, this`clock
      ensures clock == old(clock) + 1
      ensures forall k :: k != key ==> Find(upstreams, k) == Find(old(upstreams), k)
      ensures Find(upstreams, key) ==
              if u.deleting && finalizers == [] then None
              else Some(u.(finalizers := finalizers, version := clock))
    {
      clock := clock + 1;
      if u.deleting && finalizers == [] {
        upstreams := upstreams - {key};
      } else {
        upstreams := upstreams[key := u.(finalizers := finalizers, version := clock)];
      }
    }

    /** A reconcile changes what belongs to its own group name, as specified, and nothing else. It
        keeps the finalizers of others, and an object that is deleted goes away with the zone's
        finalizer exactly when that was the only one. */
    method Reconcile(name: string)
      modifies this
      ensures
        forall f :: f != finalizer ==>
          (Carries(upstreams, ParseRequest(name), f) <==> Carries(old(upstreams), ParseRequest(name), f))
      ensures
        var key := ParseRequest(name);
        key in old(upstreams) && old(upstreams)[key].deleting && finalizer in old(upstreams)[key].finalizers ==>
          (key !in upstreams <==> forall f :: f in old(upstreams)[key].finalizers ==> f == finalizer)
      ensures View(name) == Reconciled(old(View(name)), finalizer)
      ensures forall k :: k != ParseRequest(name) ==> Find(upstreams, k) == Find(old(upstreams), k)
      ensures forall n :: n != name ==> Find(groups, n) == Find(old(groups), n)
    {
      var key := ParseRequest(name);
      KeepsOtherFinalizers(View(name), finalizer);
      if key !in upstreams {
        return;
      }
      var upstream := upstreams[key];
      if upstream.deleting {
        Release(name, upstream);
      } else {
        var users := SortedNames(upstream.members);
        Sync(name, upstream, users);
      }
    }

    method Release(name: string, upstream: Upstream)
      requires View(name).upstream == Some(upstream) && upstream.deleting
      modifies this
      ensures View(name) == Reconciled(old(View(name)), finalizer)
      ensures forall k :: k != ParseRequest(name) ==> Find(upstreams, k) == Find(old(upstreams), k)
      ensures forall n :: n != name ==> Find(groups, n) == Find(old(groups), n)
    {
      if name in groups {
        groups := groups - {name};
        clock := clock + 1;
      }
      assert Stores(Some(upstream), Find(groups, name), clock) == DeleteGroup(old(View(name)));
      if finalizer in upstream.finalizers {
        Update(ParseRequest(name), upstream, RemoveAll(upstream.finalizers, finalizer));
      }
    }

    /** Copies the member names and sorts the copy. */
    method SortedNames(members: seq<string>) returns (users: seq<string>)
      ensures users == Sort(members)
    {
      users := [];
      for i := 0 to |members|
        invariant users == members[..i]
      {
        users := users + [members[i]];
      }
      assert users == members;
      users := Sort(users);
    }

    method Sync(name: string, upstream: Upstream, users: seq<string>)
      requires View(name).upstream == Some(upstream)
      modifies this
      ensures View(name) == Synced(old(View(name)), upstream, users, finalizer)
      ensures forall k :: k != ParseRequest(name) ==> Find(upstreams, k) == Find(old(upstreams), k)
      ensures forall n :: n != name ==> Find(groups, n) == Find(old(groups), n)
    {
      if name !in groups || groups[name].users != users {
        clock := clock + 1;
        groups := groups[name := Group(users, clock)];
      }
      assert Stores(Some(upstream), Find(groups, name), clock) == WriteGroup(old(View(name)), users);
      if finalizer !in upstream.finalizers {
        Update(ParseRequest(name), upstream, upstream.finalizers + [finalizer]);
      }
    }
  }
}
