/** The group sync as a protocol: the agent reads and writes two stores in separate steps, its reads
    may lag behind the stores, it may stop between any two steps, and others edit and delete objects
    at any time. */
module GroupSyncProtocol {
  import opened Basics
  import opened Text
  import opened GroupSync

  // ---------- the agent ----------

  /** Where the agent is in a reconcile, and what it remembers having read. */
  datatype Progress =
    | Idle
    | ReadUpstream(u: Upstream)
    | ReadGroup(u: Upstream, seen: Option<Group>)
    | GroupWritten(u: Upstream)
    | GroupDeleted(u: Upstream)

  datatype State = State(stores: Stores, at: Progress)

  /** The second half of create-or-update, after `seen` was read. */
  function WriteStep(s: State, u: Upstream, seen: Option<Group>, users: seq<string>): State {
    // Create fails if the group exists by now; update fails if it changed meanwhile.
    if seen.None? then
      if s.stores.group.Some? then s.(at := Idle)
      else State(WriteGroup(s.stores, users), GroupWritten(u))
    else if seen.value.users == users then s.(at := GroupWritten(u))
    else if s.stores.group.None? || s.stores.group.value.version != seen.value.version then s.(at := Idle)
    else State(WriteGroup(s.stores, users), GroupWritten(u))
  }

  function AgentStep(s: State, finalizer: string): State {
    match s.at
    case Idle =>
      if s.stores.upstream.None? then s else s.(at := ReadUpstream(s.stores.upstream.value))
    case ReadUpstream(u) =>
      if u.deleting then State(DeleteGroup(s.stores), GroupDeleted(u))
      else s.(at := ReadGroup(u, s.stores.group))
    case ReadGroup(u, seen) =>
      WriteStep(s, u, seen, Sort(u.members))
    case GroupWritten(u) =>
      if finalizer in u.finalizers then s.(at := Idle)
      else State(UpdateUpstream(s.stores, u, u.finalizers + [finalizer]), Idle)
    case GroupDeleted(u) =>
      if finalizer !in u.finalizers then s.(at := Idle)
      else State(UpdateUpstream(s.stores, u, RemoveAll(u.finalizers, finalizer)), Idle)
  }

  /** The group is as it was read: there is none, or it has the version that was read. */
  predicate SawCurrent(group: Option<Group>, seen: Option<Group>) {
    if seen.None? then group.None? else group.Some? && group.value.version == seen.value.version
  }

  /** From s to t, the agent writes the users to the group only over what it has read, and not if they
      are there already; anything else ends the reconcile without a write. */
  predicate Optimistic(s: State, u: Upstream, seen: Option<Group>, users: seq<string>, t: State) {
    if seen.Some? && seen.value.users == users then t == State(s.stores, GroupWritten(u))
    else if !SawCurrent(s.stores.group, seen) then t == State(s.stores, Idle)
    else
      && t.at == GroupWritten(u) && t.stores.upstream == s.stores.upstream
      && t.stores.group.Some? && t.stores.group.value.users == users
      && (s.stores.group.None? || s.stores.group.value.users != users ==>
            t.stores.group.value.version > s.stores.clock)
  }

  lemma WriteIsOptimistic(s: State, u: Upstream, seen: Option<Group>, finalizer: string)
    requires s.at == ReadGroup(u, seen)
    ensures Optimistic(s, u, seen, Sort(u.members), AgentStep(s, finalizer))
  {
    WriteStepOptimistic(s, u, seen, Sort(u.members));
  }

  lemma WriteStepOptimistic(s: State, u: Upstream, seen: Option<Group>, users: seq<string>)
    ensures Optimistic(s, u, seen, users, WriteStep(s, u, seen, users))
  {
  }

  function Repeat<T>(f: T -> T, x: T, n: nat): T {
    if n == 0 then x else f(Repeat(f, x, n - 1))
  }

  lemma {:induction false} RepeatCompose<T>(f: T -> T, x: T, m: nat, n: nat)
    ensures Repeat(f, x, m + n) == Repeat(f, Repeat(f, x, m), n)
  {
    if n > 0 {
      RepeatCompose(f, x, m, n - 1);
    }
  }

  lemma {:induction false} RepeatKeeps<T>(f: T -> T, p: T -> bool, x: T, m: nat, n: nat)
    requires m <= n && p(Repeat(f, x, m)) && forall y :: p(y) ==> p(f(y))
    ensures p(Repeat(f, x, n))
  {
    if m < n {
      RepeatKeeps(f, p, x, m, n - 1);
    }
  }

  /** Doing things one after the other. */
  function Fold<S, A>(f: (S, A) -> S, x: S, actions: seq<A>): S {
    if actions == [] then x else f(Fold(f, x, actions[..|actions| - 1]), actions[|actions| - 1])
  }

  lemma FoldAppend<S, A>(f: (S, A) -> S, x: S, actions: seq<A>, a: A)
    ensures Fold(f, x, actions + [a]) == f(Fold(f, x, actions), a)
  {
    assert (actions + [a])[..|actions|] == actions;
  }

  lemma {:induction false} FoldRepeats<S, A>(f: (S, A) -> S, g: S -> S, x: S, actions: seq<A>, a: A, n: nat)
    requires forall y :: g(y) == f(y, a)
    ensures Fold(f, x, actions + seq(n, _ => a)) == Repeat(g, Fold(f, x, actions), n)
  {
    if n == 0 {
      assert actions + seq(0, _ => a) == actions;
    } else {
      FoldRepeats(f, g, x, actions, a, n - 1);
      FoldAppend(f, x, actions + seq(n - 1, _ => a), a);
      assert actions + seq(n - 1, _ => a) + [a] == actions + seq(n, _ => a);
    }
  }

  lemma {:induction false} RepeatMaps<S, T>(f: S -> S, g: T -> T, h: S -> T, x: S, n: nat)
    requires forall y :: h(f(y)) == g(h(y))
    ensures h(Repeat(f, x, n)) == Repeat(g, h(x), n)
  {
    if n > 0 {
      RepeatMaps(f, g, h, x, n - 1);
    }
  }

  function Agent(finalizer: string): State -> State {
    s => AgentStep(s, finalizer)
  }

  function Steps(s: State, n: nat, finalizer: string): State {
    Repeat(Agent(finalizer), s, n)
  }

  lemma FirstSteps(s: State, finalizer: string)
    ensures Steps(s, 0, finalizer) == s
    ensures Steps(s, 1, finalizer) == AgentStep(s, finalizer)
    ensures Steps(s, 2, finalizer) == AgentStep(Steps(s, 1, finalizer), finalizer)
    ensures Steps(s, 3, finalizer) == AgentStep(Steps(s, 2, finalizer), finalizer)
    ensures Steps(s, 4, finalizer) == AgentStep(Steps(s, 3, finalizer), finalizer)
  {
  }

  lemma StepsCompose(s: State, m: nat, n: nat, finalizer: string)
    ensures Steps(s, m + n, finalizer) == Steps(Steps(s, m, finalizer), n, finalizer)
  {
    RepeatCompose(Agent(finalizer), s, m, n);
  }

  // ---------- the steps make up the reconcile ----------

  /** The number of steps of a reconcile that starts now. */
  function Length(st: Stores): nat {
    if st.upstream.None? then 1 else if st.upstream.value.deleting then 3 else 4
  }

  /** Undisturbed, the steps do exactly what the reconcile as a whole does, and come to rest. */
  lemma UndisturbedStepsAreReconcile(s: State, finalizer: string)
    requires s.at == Idle
    ensures Steps(s, Length(s.stores), finalizer) == State(Reconciled(s.stores, finalizer), Idle)
  {
    FirstSteps(s, finalizer);
    var st := s.stores;
    if st.upstream.Some? {
      var u := st.upstream.value;
      if u.deleting {
        assert Steps(s, 2, finalizer).stores == DeleteGroup(st);
      } else {
        assert Steps(s, 2, finalizer).at == ReadGroup(u, st.group);
        assert Steps(s, 3, finalizer).stores == WriteGroup(st, Sort(u.members));
      }
    }
  }

  predicate HasFinalizer(s: Stores, finalizer: string) {
    s.upstream.Some? && finalizer in s.upstream.value.finalizers
  }

  /** Wherever the agent stopped, and whatever the stores hold: one undisturbed reconcile after a
      restart releases a deleted upstream object and removes its group, and brings a live one in
      sync. */
  lemma RestartRecovers(s: State, finalizer: string)
    requires s.stores.upstream.Some?
    ensures
      var after := Steps(s.(at := Idle), Length(s.stores), finalizer).stores;
      if s.stores.upstream.value.deleting then
        after.group.None? && !HasFinalizer(after, finalizer)
      else
        && HasFinalizer(after, finalizer) && after.group.Some? && Sorted(after.group.value.users)
        && multiset(after.group.value.users) == multiset(s.stores.upstream.value.members)
  {
    UndisturbedStepsAreReconcile(s.(at := Idle), finalizer);
    if s.stores.upstream.value.deleting {
      DeletedIsReleased(s.stores, finalizer);
    } else {
      LiveIsSynced(s.stores, finalizer);
    }
  }

  // ---------- when a group outlives its upstream object ----------

  /** An object with finalizers is only marked when it is deleted. */
  function DeleteUpstream(st: Stores): Stores {
    if st.upstream.None? then st
    else
      var u := st.upstream.value.(deleting := true);
      UpdateUpstream(st, u, u.finalizers)
  }

  /** The upstream object was synced and the agent goes over it once more. */
  predicate InSync(s: State, finalizer: string) {
    && s.stores.upstream.Some? && s.stores.group.Some?
    && var u := s.stores.upstream.value;
       && !u.deleting && finalizer in u.finalizers && s.stores.group.value.users == Sort(u.members)
       && (s.at == Idle || s.at == ReadUpstream(u) || s.at == ReadGroup(u, s.stores.group) || s.at == GroupWritten(u))
  }

  lemma StaysInSync(s: State, m: nat, n: nat, stores: Stores, finalizer: string)
    requires m <= n && InSync(Steps(s, m, finalizer), finalizer) && Steps(s, m, finalizer).stores == stores
    ensures InSync(Steps(s, n, finalizer), finalizer) && Steps(s, n, finalizer).stores == stores
  {
    var p := (t: State) => InSync(t, finalizer) && t.stores == stores;
    forall t | p(t) ensures p(Agent(finalizer)(t)) {
      InSyncStep(t, finalizer);
    }
    RepeatKeeps(Agent(finalizer), p, s, m, n);
  }

  lemma InSyncStep(s: State, finalizer: string)
    requires InSync(s, finalizer)
    ensures InSync(AgentStep(s, finalizer), finalizer) && AgentStep(s, finalizer).stores == s.stores
  {
  }

  /** The agent has read the upstream object alive, and goes on with a version that is not current
      any more. */
  ghost predicate Stale(s: State) {
    match s.at
    case Idle => s.stores.group.Some?
    case ReadUpstream(u) => Outdated(s.stores, u)
    case ReadGroup(u, seen) => Outdated(s.stores, u) && seen == s.stores.group
    case GroupWritten(u) => Outdated(s.stores, u) && s.stores.group.Some?
    case GroupDeleted(u) => false
  }

  predicate Outdated(st: Stores, u: Upstream) {
    !u.deleting && !(st.upstream.Some? && st.upstream.value.version == u.version)
  }

  /** The number of steps to the end of the reconcile. */
  function Left(at: Progress): nat {
    match at
    case Idle => 0
    case ReadUpstream(u) => if u.deleting then 2 else 3
    case ReadGroup(_, _) => 2
    case GroupWritten(_) => 1
    case GroupDeleted(_) => 1
  }

  /** It writes the group all the same, and not the upstream object. */
  lemma {:induction false} StaleFinishes(s: State, finalizer: string)
    requires Stale(s)
    ensures
      var t := Steps(s, Left(s.at), finalizer);
      t.at == Idle && t.stores.upstream == s.stores.upstream && t.stores.group.Some?
    decreases Left(s.at)
  {
    if s.at != Idle {
      StaleStep(s, finalizer);
      StaleFinishes(AgentStep(s, finalizer), finalizer);
      FirstSteps(s, finalizer);
      StepsCompose(s, 1, Left(s.at) - 1, finalizer);
    }
  }

  lemma StaleStep(s: State, finalizer: string)
    requires Stale(s) && s.at != Idle
    ensures
      var t := AgentStep(s, finalizer);
      Stale(t) && Left(t.at) == Left(s.at) - 1 && t.stores.upstream == s.stores.upstream
  {
  }

  /** There is no group, and the agent is not about to write one. */
  predicate Clean(s: State) {
    && s.stores.group.None?
    && (s.stores.upstream.Some? ==> s.stores.upstream.value.deleting)
    && (s.at == Idle || (s.at.ReadUpstream? && s.at.u.deleting) || s.at.GroupDeleted?)
    && (s.at.GroupDeleted? ==> s.at.u.deleting)
  }

  lemma StaysClean(s: State, m: nat, n: nat, finalizer: string)
    requires m <= n && Clean(Steps(s, m, finalizer))
    ensures Clean(Steps(s, n, finalizer))
  {
    var p := (t: State) => Clean(t);
    forall t | p(t) ensures p(Agent(finalizer)(t)) {
      CleanStep(t, finalizer);
    }
    RepeatKeeps(Agent(finalizer), p, s, m, n);
  }

  lemma CleanStep(s: State, finalizer: string)
    requires Clean(s)
    ensures Clean(AgentStep(s, finalizer))
  {
  }

  lemma {:induction false} NothingToRead(s: State, n: nat, finalizer: string)
    requires s.at == Idle && s.stores.upstream.None?
    ensures Steps(s, n, finalizer) == s
  {
    if n > 0 {
      NothingToRead(s, n - 1, finalizer);
    }
  }

  /** Left alone after a deletion, the agent removes the group if and only if the upstream object is
      still there for it to read. */
  lemma AfterDeletion(s: State, n: nat, finalizer: string)
    requires s.at == Idle || Stale(s)
    requires s.stores.upstream.Some? ==> s.stores.upstream.value.deleting
    requires n >= Left(s.at) + 2
    ensures
      var t := Steps(s, n, finalizer).stores;
      && (t.group.Some? <==> s.stores.upstream.None? && (s.at != Idle || s.stores.group.Some?))
      && (t.group.Some? ==> t.upstream.None?)
  {
    if s.at == Idle {
      DeletedAtRest(s, n, finalizer);
    } else {
      var m := Left(s.at);
      StaleFinishes(s, finalizer);
      DeletedAtRest(Steps(s, m, finalizer), n - m, finalizer);
      StepsCompose(s, m, n - m, finalizer);
    }
  }

  lemma DeletedAtRest(s: State, n: nat, finalizer: string)
    requires s.at == Idle && n >= 2
    requires s.stores.upstream.Some? ==> s.stores.upstream.value.deleting
    ensures
      var t := Steps(s, n, finalizer).stores;
      && (t.group.Some? <==> s.stores.upstream.None? && s.stores.group.Some?)
      && (t.group.Some? ==> t.upstream.None?)
  {
    if s.stores.upstream.None? {
      NothingToRead(s, n, finalizer);
    } else {
      var m := Length(s.stores) - 1;
      BecomesClean(s, finalizer);
      StaysClean(s, m, n, finalizer);
    }
  }

  lemma BecomesClean(s: State, finalizer: string)
    requires s.at == Idle && s.stores.upstream.Some? && s.stores.upstream.value.deleting
    ensures Clean(Steps(s, Length(s.stores) - 1, finalizer))
  {
    FirstSteps(s, finalizer);
  }

  /** How far the agent has come after up to three steps over a live object. */
  lemma FirstPass(s: State, k: nat, finalizer: string)
    requires s.at == Idle && s.stores.upstream.Some? && !s.stores.upstream.value.deleting && 1 <= k <= 3
    ensures
      var u := s.stores.upstream.value;
      var t := Steps(s, k, finalizer);
      && t.stores.upstream == s.stores.upstream && s.stores.clock <= t.stores.clock
      && t.at == (if k == 1 then ReadUpstream(u) else if k == 2 then ReadGroup(u, t.stores.group) else GroupWritten(u))
      && (k == 3 ==> t.stores.group.Some?)
  {
    var u := s.stores.upstream.value;
    var second := State(s.stores, ReadGroup(u, s.stores.group));
    FirstSteps(s, finalizer);
    assert Steps(s, 1, finalizer) == State(s.stores, ReadUpstream(u));
    assert Steps(s, 2, finalizer) == second;
    WriteSucceeds(second, u, Sort(u.members));
  }

  /** Nobody has come between reading the group and writing it. */
  lemma WriteSucceeds(s: State, u: Upstream, users: seq<string>)
    ensures
      var t := WriteStep(s, u, s.stores.group, users);
      && t.at == GroupWritten(u) && t.stores.group.Some?
      && t.stores.upstream == s.stores.upstream && s.stores.clock <= t.stores.clock
  {
  }

  /** A live upstream object is deleted after any number k of steps of the agent, which then goes on
      undisturbed. The group outlives the object exactly when the object has no finalizers of
      others and the deletion comes before the agent's own finalizer is stored, in the fourth step:
      right away if there was a group before, after the first step otherwise. */
  lemma OrphanIff(s: State, k: nat, n: nat, finalizer: string)
    requires s.at == Idle && s.stores.upstream.Some? && !s.stores.upstream.value.deleting
    requires s.stores.upstream.value.version <= s.stores.clock && n >= 5
    ensures
      var before := Steps(s, k, finalizer);
      var after := Steps(before.(stores := DeleteUpstream(before.stores)), n, finalizer).stores;
      && (after.group.Some? ==> after.upstream.None?)
      && (after.group.Some? <==>
            s.stores.upstream.value.finalizers == [] && k <= 3 && (k >= 1 || s.stores.group.Some?))
  {
    var before := Steps(s, k, finalizer);
    FirstSteps(s, finalizer);
    if 1 <= k <= 3 {
      FirstPass(s, k, finalizer);
    } else if k > 3 {
      AfterFirstPass(s, k, finalizer);
    }
    AfterDeletion(before.(stores := DeleteUpstream(before.stores)), n, finalizer);
  }

  /** Afterwards the finalizer is stored and the agent has the current version. */
  lemma AfterFirstPass(s: State, k: nat, finalizer: string)
    requires s.at == Idle && s.stores.upstream.Some? && !s.stores.upstream.value.deleting && k > 3
    requires s.stores.upstream.value.version <= s.stores.clock
    ensures
      var t := Steps(s, k, finalizer);
      && InSync(t, finalizer) && t.stores.upstream.value.version <= t.stores.clock
  {
    var m := Length(s.stores);
    UndisturbedStepsAreReconcile(s, finalizer);
    SyncedIsInSync(s.stores, finalizer);
    StaysInSync(s, m, k, Reconciled(s.stores, finalizer), finalizer);
  }

  lemma SyncedIsInSync(st: Stores, finalizer: string)
    requires st.upstream.Some? && !st.upstream.value.deleting && st.upstream.value.version <= st.clock
    ensures
      var t := Reconciled(st, finalizer);
      InSync(State(t, Idle), finalizer) && t.upstream.value.version <= t.clock
  {
    LiveIsSynced(st, finalizer);
  }
}
