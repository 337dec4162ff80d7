/** Runs of the group sync: the agent's steps, with reads that may lag, interleaved with crashes and
    with what others do to the stores. */
module GroupSyncRuns {
  import opened Basics
  import opened Text
  import opened GroupSync
  import opened GroupSyncProtocol

  /** The agent and the stores, and what a cache may still know of them: every state that the two
      objects have been in, and the newest version that the agent has read. `stored` records whether
      the finalizer was ever stored on the upstream object that exists, or on the last one that
      existed. */
  datatype System = System(
    s: State,
    stored: bool,
    newest: nat,
    upstreams: set<Upstream>,
    groups: set<Option<Group>>
  )

  datatype Action =
    | Agent
    | ReadLagging(former: Upstream)
    | ReadBackwards(older: Upstream)
    | ReadGroupLagging(formerGroup: Option<Group>)
    | Crash
    | CreateUpstream(members: seq<string>, finalizers: seq<string>)
    | EditUpstream(members: seq<string>, finalizers: seq<string>)
    | MarkUpstream
    | EditGroup(users: seq<string>)
    | RemoveGroup

  /** What an action does. A lagging read of the upstream object may find any former state of it; it
      goes backwards if the agent has read a newer one before. Others may do what they like to the
      upstream object except touch this zone's finalizer, and to the group except create one. */
  function Act(y: System, a: Action, finalizer: string): State {
    var s, st := y.s, y.s.stores;
    match a
    case Agent => AgentStep(s, finalizer)
    case ReadLagging(former) =>
      if s.at == Idle && former in y.upstreams && former.version >= y.newest then s.(at := ReadUpstream(former)) else s
    case ReadBackwards(older) =>
      if s.at == Idle && older in y.upstreams && older.version < y.newest then s.(at := ReadUpstream(older)) else s
    case ReadGroupLagging(former) =>
      if s.at.ReadUpstream? && !s.at.u.deleting && former in y.groups then s.(at := ReadGroup(s.at.u, former)) else s
    case Crash => s.(at := Idle)
    case CreateUpstream(members, finalizers) =>
      if st.upstream.Some? then s
      else
        var u := Upstream(members, finalizers, false, st.clock + 1);
        s.(stores := st.(upstream := Some(u), clock := st.clock + 1))
    case EditUpstream(members, finalizers) =>
      if st.upstream.None? || (finalizer in finalizers) != HasFinalizer(st, finalizer) then s
      else s.(stores := UpdateUpstream(st, st.upstream.value.(members := members), finalizers))
    case MarkUpstream => s.(stores := DeleteUpstream(st))
    case EditGroup(users) => if st.group.None? then s else s.(stores := WriteGroup(st, users))
    case RemoveGroup => s.(stores := DeleteGroup(st))
  }

  function Max(a: nat, b: nat): nat {
    if a >= b then a else b
  }

  function Present<T>(o: Option<T>): set<T> {
    if o.Some? then {o.value} else {}
  }

  function Next(y: System, a: Action, finalizer: string): System {
    var s := Act(y, a, finalizer);
    var created := a.CreateUpstream? && y.s.stores.upstream.None?;
    System(
      s,
      (y.stored && !created) || HasFinalizer(s.stores, finalizer),
      if s.at.ReadUpstream? then Max(y.newest, s.at.u.version) else y.newest,
      y.upstreams + Present(s.stores.upstream),
      y.groups + {s.stores.group}
    )
  }

  function Run(y: System, actions: seq<Action>, finalizer: string): System {
    Fold(NextBy(finalizer), y, actions)
  }

  function NextBy(finalizer: string): (System, Action) -> System {
    (y, a) => Next(y, a, finalizer)
  }

  /** An agent that just started, over any contents of the stores. */
  ghost predicate Initial(y: System, finalizer: string) {
    var st := y.s.stores;
    && y.s.at == Idle && y.newest == 0
    && (st.upstream.Some? ==> st.upstream.value.version <= st.clock)
    && y.stored == HasFinalizer(st, finalizer)
    && y.upstreams == Present(st.upstream) && y.groups == {st.group}
  }

  // ---------- the past ----------

  /** After some first actions of a run, or at its start. */
  ghost predicate AtSomePoint<T>(actions: seq<T>, p: seq<T> -> bool) {
    exists i :: 0 <= i <= |actions| && p(actions[..i])
  }

  lemma AtSomePointAppend<T>(actions: seq<T>, a: T, p: seq<T> -> bool)
    ensures AtSomePoint(actions + [a], p) <==> AtSomePoint(actions, p) || p(actions + [a])
  {
    var all := actions + [a];
    assert all[..|all|] == all;
    assert forall i :: 0 <= i <= |actions| ==> all[..i] == actions[..i];
    if AtSomePoint(actions, p) {
      var i :| 0 <= i <= |actions| && p(actions[..i]);
      assert p(all[..i]);
    }
    if p(all) {
      assert p(all[..|all|]);
    }
  }

  function UpstreamIs(y: System, u: Upstream, finalizer: string): seq<Action> -> bool {
    past => Run(y, past, finalizer).s.stores.upstream == Some(u)
  }

  function GroupIs(y: System, g: Option<Group>, finalizer: string): seq<Action> -> bool {
    past => Run(y, past, finalizer).s.stores.group == g
  }

  lemma NextRecords(y: System, a: Action, finalizer: string)
    ensures
      var z := Next(y, a, finalizer);
      z.upstreams == y.upstreams + Present(z.s.stores.upstream) && z.groups == y.groups + {z.s.stores.group}
  {
  }

  lemma RunAppend(y: System, actions: seq<Action>, a: Action, finalizer: string)
    ensures Run(y, actions + [a], finalizer) == Next(Run(y, actions, finalizer), a, finalizer)
  {
    FoldAppend(NextBy(finalizer), y, actions, a);
  }

  /** What a lagging read can find is exactly what the upstream object, or the group, has been. */
  lemma {:induction false} PastIsHistory(y: System, actions: seq<Action>, u: Upstream, g: Option<Group>,
                                         finalizer: string)
    requires Initial(y, finalizer)
    ensures u in Run(y, actions, finalizer).upstreams <==> AtSomePoint(actions, UpstreamIs(y, u, finalizer))
    ensures g in Run(y, actions, finalizer).groups <==> AtSomePoint(actions, GroupIs(y, g, finalizer))
  {
    if actions == [] {
      assert actions[..0] == actions;
      assert UpstreamIs(y, u, finalizer)(actions) <==> y.s.stores.upstream == Some(u);
      assert GroupIs(y, g, finalizer)(actions) <==> y.s.stores.group == g;
    } else {
      var before, a := actions[..|actions| - 1], actions[|actions| - 1];
      assert actions == before + [a];
      PastIsHistory(y, before, u, g, finalizer);
      AtSomePointAppend(before, a, UpstreamIs(y, u, finalizer));
      AtSomePointAppend(before, a, GroupIs(y, g, finalizer));
      NextRecords(Run(y, before, finalizer), a, finalizer);
    }
  }

  // ---------- what every run keeps ----------

  /** Versions grow, and the agent acts on what it has read. */
  ghost predicate Consistent(y: System, finalizer: string) {
    && (forall x :: x in y.upstreams ==> x.version <= y.s.stores.clock)
    && (y.s.stores.upstream.Some? ==>
          var u := y.s.stores.upstream.value;
          u in y.upstreams && forall x :: x in y.upstreams ==> x == u || x.version < u.version)
    && (y.s.at != Idle ==> y.s.at.u in y.upstreams && y.s.at.u.version <= y.newest)
    && (y.s.at.ReadGroup? || y.s.at.GroupWritten? ==> !y.s.at.u.deleting)
    && (y.s.at.GroupDeleted? ==> y.s.at.u.deleting && y.s.stores.group.None?)
    && (HasFinalizer(y.s.stores, finalizer) ==> y.stored)
  }

  /** The finalizer was stored and is gone: then so is the group, the agent is not about to write
      one, and it has read that the object is being deleted. */
  ghost predicate Released(y: System, finalizer: string) {
    y.stored && !HasFinalizer(y.s.stores, finalizer) ==>
      Clean(y.s) && forall x :: x in y.upstreams && x.version >= y.newest ==> x.deleting
  }

  lemma AgentKeepsConsistent(y: System, finalizer: string)
    requires Consistent(y, finalizer)
    ensures Consistent(Next(y, Agent, finalizer), finalizer)
  {
    var s := y.s;
    if s.at.ReadGroup? {
      WriteStepKeeps(s, s.at.u, s.at.seen, Sort(s.at.u.members));
    }
  }

  lemma WriteStepKeeps(s: State, u: Upstream, seen: Option<Group>, users: seq<string>)
    ensures
      var t := WriteStep(s, u, seen, users);
      && t.stores.upstream == s.stores.upstream && s.stores.clock <= t.stores.clock
      && (t.at == Idle || t.at == GroupWritten(u))
  {
  }

  lemma NextKeepsConsistent(y: System, a: Action, finalizer: string)
    requires Consistent(y, finalizer)
    ensures Consistent(Next(y, a, finalizer), finalizer)
  {
    if a.Agent? {
      AgentKeepsConsistent(y, finalizer);
    }
  }

  lemma AgentKeepsReleased(y: System, finalizer: string)
    requires Consistent(y, finalizer) && Released(y, finalizer)
    ensures Released(Next(y, Agent, finalizer), finalizer)
  {
    var s := y.s;
    if s.at.ReadGroup? {
      WriteStepKeeps(s, s.at.u, s.at.seen, Sort(s.at.u.members));
    }
  }

  /** The action is not a read that goes back to a version in which the object is alive. */
  predicate NotBackToLife(a: Action) {
    a.ReadBackwards? ==> a.older.deleting
  }

  lemma NextKeepsReleased(y: System, a: Action, finalizer: string)
    requires Consistent(y, finalizer) && Released(y, finalizer) && NotBackToLife(a)
    ensures Released(Next(y, a, finalizer), finalizer)
  {
    if a.Agent? {
      AgentKeepsReleased(y, finalizer);
    }
  }

  lemma {:induction false} RunKeepsConsistent(y: System, actions: seq<Action>, finalizer: string)
    requires Initial(y, finalizer)
    ensures Consistent(Run(y, actions, finalizer), finalizer)
  {
    if actions != [] {
      RunKeepsConsistent(y, actions[..|actions| - 1], finalizer);
      NextKeepsConsistent(Run(y, actions[..|actions| - 1], finalizer), actions[|actions| - 1], finalizer);
    }
  }

  lemma {:induction false} RunKeepsReleased(y: System, actions: seq<Action>, finalizer: string)
    requires Initial(y, finalizer) && forall a :: a in actions ==> NotBackToLife(a)
    ensures Released(Run(y, actions, finalizer), finalizer)
  {
    if actions != [] {
      var before := actions[..|actions| - 1];
      RunKeepsConsistent(y, before, finalizer);
      RunKeepsReleased(y, before, finalizer);
      NextKeepsReleased(Run(y, before, finalizer), actions[|actions| - 1], finalizer);
    }
  }

  // ---------- safety ----------

  /** Only the agent puts the finalizer on an existing object or takes it off. */
  lemma OthersKeepFinalizer(y: System, a: Action, finalizer: string)
    requires y.s.stores.upstream.Some? && !a.Agent?
    ensures HasFinalizer(Act(y, a, finalizer).stores, finalizer) == HasFinalizer(y.s.stores, finalizer)
  {
  }

  lemma AgentChangesFinalizer(y: System, finalizer: string)
    requires Consistent(y, finalizer)
    requires HasFinalizer(AgentStep(y.s, finalizer).stores, finalizer) != HasFinalizer(y.s.stores, finalizer)
    ensures y.s.stores.upstream.Some?
    ensures
      if HasFinalizer(y.s.stores, finalizer) then
        y.s.at.GroupDeleted? && y.s.stores.upstream.value.deleting && AgentStep(y.s, finalizer).stores.group.None?
      else
        !y.s.stores.upstream.value.deleting
  {
    var s := y.s;
    match s.at
    case Idle =>
    case ReadUpstream(u) =>
    case ReadGroup(u, seen) => WriteStepKeeps(s, u, seen, Sort(u.members));
    case GroupWritten(u) => UpdateStoresFinalizers(s.stores, u, u.finalizers + [finalizer]);
    case GroupDeleted(u) => UpdateStoresFinalizers(s.stores, u, RemoveAll(u.finalizers, finalizer));
  }

  lemma UpdateStoresFinalizers(st: Stores, u: Upstream, finalizers: seq<string>)
    ensures
      var st' := UpdateUpstream(st, u, finalizers);
      && st'.group == st.group
      && (st' == st || st'.upstream.None? ||
          (st'.upstream.value.finalizers == finalizers && st'.upstream.value.deleting == u.deleting))
  {
  }

  /** Whenever the finalizer disappears, in any run, it is the agent that removes it, from a deleted
      object, while there is no group. */
  lemma RemovedOnlyWithoutGroup(y: System, actions: seq<Action>, a: Action, finalizer: string)
    requires Initial(y, finalizer)
    requires HasFinalizer(Run(y, actions, finalizer).s.stores, finalizer)
    requires !HasFinalizer(Run(y, actions + [a], finalizer).s.stores, finalizer)
    ensures a.Agent? && Run(y, actions, finalizer).s.stores.upstream.value.deleting
    ensures Run(y, actions, finalizer).s.stores.group.None? && Run(y, actions + [a], finalizer).s.stores.group.None?
  {
    var z := Run(y, actions, finalizer);
    RunAppend(y, actions, a, finalizer);
    RunKeepsConsistent(y, actions, finalizer);
    if a.Agent? {
      AgentChangesFinalizer(z, finalizer);
    } else {
      OthersKeepFinalizer(z, a, finalizer);
    }
  }

  /** The finalizer is never put on an object that is being deleted. */
  lemma NeverAddedWhileDeleting(y: System, actions: seq<Action>, a: Action, finalizer: string)
    requires Initial(y, finalizer)
    requires
      var st := Run(y, actions, finalizer).s.stores;
      st.upstream.Some? && st.upstream.value.deleting && !HasFinalizer(st, finalizer)
    ensures !HasFinalizer(Run(y, actions + [a], finalizer).s.stores, finalizer)
  {
    var z := Run(y, actions, finalizer);
    RunAppend(y, actions, a, finalizer);
    RunKeepsConsistent(y, actions, finalizer);
    if a.Agent? {
      if HasFinalizer(AgentStep(z.s, finalizer).stores, finalizer) {
        AgentChangesFinalizer(z, finalizer);
      }
    } else {
      OthersKeepFinalizer(z, a, finalizer);
    }
  }

  /** No step of the agent, in any run, touches the finalizers of others. */
  lemma AgentKeepsOtherFinalizers(y: System, actions: seq<Action>, f: string, finalizer: string)
    requires Initial(y, finalizer) && f != finalizer
    ensures f in FinalizersOf(Run(y, actions + [Agent], finalizer).s.stores.upstream) <==>
            f in FinalizersOf(Run(y, actions, finalizer).s.stores.upstream)
  {
    var z := Run(y, actions, finalizer);
    RunAppend(y, actions, Agent, finalizer);
    RunKeepsConsistent(y, actions, finalizer);
    var s := z.s;
    match s.at
    case Idle =>
    case ReadUpstream(u) =>
    case ReadGroup(u, seen) => WriteStepKeeps(s, u, seen, Sort(u.members));
    case GroupWritten(u) => UpdateStoresFinalizers(s.stores, u, u.finalizers + [finalizer]);
    case GroupDeleted(u) => UpdateStoresFinalizers(s.stores, u, RemoveAll(u.finalizers, finalizer));
  }

  /** A step of the agent makes an object disappear only if it was deleted and carried no finalizer
      but this zone's; and a step that removes this zone's finalizer does so exactly then. */
  lemma AgentReleasesLast(y: System, actions: seq<Action>, finalizer: string)
    requires Initial(y, finalizer) && Run(y, actions, finalizer).s.stores.upstream.Some?
    ensures
      var before, after := Run(y, actions, finalizer).s.stores, Run(y, actions + [Agent], finalizer).s.stores;
      var only := forall f :: f in before.upstream.value.finalizers ==> f == finalizer;
      && (after.upstream.None? ==> before.upstream.value.deleting && only)
      && (HasFinalizer(before, finalizer) && !HasFinalizer(after, finalizer) ==> (after.upstream.None? <==> only))
  {
    var z := Run(y, actions, finalizer);
    var u := z.s.stores.upstream.value;
    RunAppend(y, actions, Agent, finalizer);
    RunKeepsConsistent(y, actions, finalizer);
    AgentRemovesDeleted(z.s, finalizer);
    var after := AgentStep(z.s, finalizer).stores;
    forall f | f != finalizer ensures f in FinalizersOf(after.upstream) <==> f in u.finalizers {
      AgentKeepsOtherFinalizers(y, actions, f, finalizer);
    }
    assert FinalizersOf(after.upstream) != [] ==> FinalizersOf(after.upstream)[0] in FinalizersOf(after.upstream);
  }

  lemma AgentRemovesDeleted(s: State, finalizer: string)
    requires s.stores.upstream.Some?
    requires s.at != Idle && s.at.u.version == s.stores.upstream.value.version ==> s.at.u == s.stores.upstream.value
    requires s.at.GroupDeleted? ==> s.at.u.deleting
    ensures
      var after := AgentStep(s, finalizer).stores;
      && (after.upstream.None? ==> s.stores.upstream.value.deleting)
      && (HasFinalizer(s.stores, finalizer) && !HasFinalizer(after, finalizer) && FinalizersOf(after.upstream) == [] ==>
            after.upstream.None?)
  {
    if s.at.ReadGroup? {
      WriteStepKeeps(s, s.at.u, s.at.seen, Sort(s.at.u.members));
    }
  }

  /** In every run whose reads never go back to a version in which the upstream object is alive:
      once the finalizer was stored on the object, it cannot be gone while its group exists. */
  lemma NoOrphanOnceStored(y: System, actions: seq<Action>, finalizer: string)
    requires Initial(y, finalizer) && forall a :: a in actions ==> NotBackToLife(a)
    ensures
      var z := Run(y, actions, finalizer);
      z.stored && z.s.stores.upstream.None? ==> z.s.stores.group.None?
  {
    RunKeepsReleased(y, actions, finalizer);
  }

  // ---------- the reads that are excepted ----------

  /** The system after n steps of the agent alone. */
  function Alone(y: System, n: nat, finalizer: string): System {
    Repeat(AgentAlone(finalizer), y, n)
  }

  function AgentAlone(finalizer: string): System -> System {
    y => Next(y, Agent, finalizer)
  }

  function AgentSteps(n: nat): seq<Action> {
    seq(n, _ => Agent)
  }

  lemma RunAlone(y: System, actions: seq<Action>, n: nat, finalizer: string)
    ensures Run(y, actions + AgentSteps(n), finalizer) == Alone(Run(y, actions, finalizer), n, finalizer)
  {
    FoldRepeats(NextBy(finalizer), AgentAlone(finalizer), y, actions, Agent, n);
    assert AgentSteps(n) == seq(n, _ => Agent);
  }

  lemma AloneIsSteps(y: System, n: nat, finalizer: string)
    ensures Alone(y, n, finalizer).s == Steps(y.s, n, finalizer)
  {
    RepeatMaps(AgentAlone(finalizer), GroupSyncProtocol.Agent(finalizer), (z: System) => z.s, y, n);
  }

  /** Nothing is forgotten. */
  lemma AloneRemembers(y: System, n: nat, finalizer: string)
    ensures
      var z := Alone(y, n, finalizer);
      y.upstreams <= z.upstreams && y.newest <= z.newest && (y.stored ==> z.stored)
  {
    var p := (z: System) => y.upstreams <= z.upstreams && y.newest <= z.newest && (y.stored ==> z.stored);
    RepeatKeeps(AgentAlone(finalizer), p, y, 0, n);
  }

  /** Reading a former version of the upstream object. */
  function Read(y: System, former: Upstream): Action {
    if former.version >= y.newest then ReadLagging(former) else ReadBackwards(former)
  }

  /** Once the finalizer is gone, whether the upstream object is gone with it or waits for others to
      release it, a reconcile that starts from any former version of the object brings the group
      back exactly when that version is alive; and then the read goes back behind what the agent had
      read before. */
  lemma ReadRevivesIff(y: System, actions: seq<Action>, former: Upstream, finalizer: string)
    requires Initial(y, finalizer) && forall a :: a in actions ==> NotBackToLife(a)
    requires
      var z := Run(y, actions, finalizer);
      z.s.at == Idle && z.stored && !HasFinalizer(z.s.stores, finalizer) && former in z.upstreams
    ensures
      var z := Run(y, actions, finalizer);
      var after := Run(y, actions + [Read(z, former)] + AgentSteps(3), finalizer);
      && after.stored && after.s.stores.upstream == z.s.stores.upstream
      && (after.s.stores.group.Some? <==> !former.deleting)
      && (after.s.stores.group.Some? <==> !NotBackToLife(Read(z, former)))
  {
    var z := Run(y, actions, finalizer);
    RunKeepsConsistent(y, actions, finalizer);
    RunKeepsReleased(y, actions, finalizer);
    var read := Next(z, Read(z, former), finalizer);
    assert read.s == z.s.(at := ReadUpstream(former)) && read.stored;
    RunAppend(y, actions, Read(z, former), finalizer);
    RunAlone(y, actions + [Read(z, former)], 3, finalizer);
    AloneIsSteps(read, 3, finalizer);
    AloneRemembers(read, 3, finalizer);
    StepsFromRead(read.s, former, finalizer);
  }

  lemma StepsFromRead(s: State, former: Upstream, finalizer: string)
    requires s.at == ReadUpstream(former) && s.stores.group.None? && !HasFinalizer(s.stores, finalizer)
    requires s.stores.upstream.Some? ==>
               s.stores.upstream.value.deleting
               && (former == s.stores.upstream.value || former.version < s.stores.upstream.value.version)
    ensures
      var after := Steps(s, 3, finalizer).stores;
      after.upstream == s.stores.upstream && (after.group.Some? <==> !former.deleting)
  {
    if former.deleting {
      DeletingRead(s, former, finalizer);
    } else {
      StaleFinishes(s, finalizer);
    }
  }

  lemma DeletingRead(s: State, former: Upstream, finalizer: string)
    requires s.at == ReadUpstream(former) && former.deleting && s.stores.group.None?
    requires !HasFinalizer(s.stores, finalizer)
    requires s.stores.upstream.Some? ==>
               s.stores.upstream.value.deleting
               && (former == s.stores.upstream.value || former.version < s.stores.upstream.value.version)
    ensures
      var after := Steps(s, 3, finalizer).stores;
      after.upstream == s.stores.upstream && after.group.None?
  {
    FirstSteps(s, finalizer);
  }

  /** The reconcile as a whole, in a run. */
  lemma ReconcileInRun(y: System, actions: seq<Action>, n: nat, finalizer: string)
    requires Initial(y, finalizer) && Run(y, actions, finalizer).s.at == Idle
    requires n == Length(Run(y, actions, finalizer).s.stores)
    ensures
      var before := Run(y, actions, finalizer);
      var after := Run(y, actions + AgentSteps(n), finalizer);
      && after.s == State(Reconciled(before.s.stores, finalizer), Idle)
      && before.upstreams <= after.upstreams && (before.stored ==> after.stored)
      && (HasFinalizer(after.s.stores, finalizer) ==> after.stored)
  {
    var before := Run(y, actions, finalizer);
    RunAlone(y, actions, n, finalizer);
    AloneIsSteps(before, n, finalizer);
    AloneRemembers(before, n, finalizer);
    UndisturbedStepsAreReconcile(before.s, finalizer);
    RunKeepsConsistent(y, actions + AgentSteps(n), finalizer);
  }

  /** An upstream object is created and synced, undisturbed. */
  function SyncRun(members: seq<string>): seq<Action> {
    [CreateUpstream(members, [])] + AgentSteps(4)
  }

  lemma AfterSync(y: System, members: seq<string>, finalizer: string)
    requires Initial(y, finalizer) && y.s.stores.upstream.None?
    ensures
      var z := Run(y, SyncRun(members), finalizer);
      && z.stored && z.s.at == Idle && Upstream(members, [], false, y.s.stores.clock + 1) in z.upstreams
      && z.s.stores.upstream.Some? && !z.s.stores.upstream.value.deleting
      && z.s.stores.upstream.value.finalizers == [finalizer]
  {
    AfterCreate(y, members, finalizer);
    var create := [CreateUpstream(members, [])];
    ReconcileInRun(y, create, 4, finalizer);
    SyncedFinalizers(Run(y, create, finalizer).s.stores, finalizer);
  }

  lemma AfterCreate(y: System, members: seq<string>, finalizer: string)
    requires Initial(y, finalizer) && y.s.stores.upstream.None?
    ensures
      var z := Run(y, [CreateUpstream(members, [])], finalizer);
      var u := Upstream(members, [], false, y.s.stores.clock + 1);
      z.s.at == Idle && z.s.stores.upstream == Some(u) && u in z.upstreams
  {
    var create := CreateUpstream(members, []);
    RunAppend(y, [], create, finalizer);
    assert [] + [create] == [create];
  }

  lemma SyncedFinalizers(st: Stores, finalizer: string)
    requires st.upstream.Some? && !st.upstream.value.deleting && st.upstream.value.finalizers == []
    ensures
      var t := Reconciled(st, finalizer).upstream;
      t.Some? && !t.value.deleting && t.value.finalizers == [finalizer]
  {
    LiveIsSynced(st, finalizer);
    assert [] + [finalizer] == [finalizer];
  }

  /** And then it is deleted and released, undisturbed. */
  function WholeLife(members: seq<string>): seq<Action> {
    SyncRun(members) + [MarkUpstream] + AgentSteps(3)
  }

  lemma AfterWholeLife(y: System, members: seq<string>, finalizer: string)
    requires Initial(y, finalizer) && y.s.stores.upstream.None?
    ensures forall a :: a in WholeLife(members) ==> NotBackToLife(a)
    ensures
      var z := Run(y, WholeLife(members), finalizer);
      && z.s.at == Idle && z.stored && z.s.stores.upstream.None? && z.s.stores.group.None?
      && Upstream(members, [], false, y.s.stores.clock + 1) in z.upstreams
  {
    AfterSync(y, members, finalizer);
    RunAppend(y, SyncRun(members), MarkUpstream, finalizer);
    var marked := Run(y, SyncRun(members) + [MarkUpstream], finalizer);
    ReconcileInRun(y, SyncRun(members) + [MarkUpstream], 3, finalizer);
    DeletedIsReleased(marked.s.stores, finalizer);
  }

  /** A run with such a read: the group that was removed with its upstream object comes back when the
      agent reads from a cache that still holds the object as it was created. */
  lemma StaleReadOrphans(y: System, members: seq<string>, finalizer: string)
    requires Initial(y, finalizer) && y.s.stores.upstream.None?
    ensures
      var created := Upstream(members, [], false, y.s.stores.clock + 1);
      var after := Run(y, WholeLife(members) + [ReadBackwards(created)] + AgentSteps(3), finalizer);
      && after.stored && after.s.stores.upstream.None? && after.s.stores.group.Some?
  {
    AfterWholeLife(y, members, finalizer);
    ReadRevivesIff(y, WholeLife(members), Upstream(members, [], false, y.s.stores.clock + 1), finalizer);
  }
}
