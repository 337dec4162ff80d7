/** Changes of namespaces through all webhooks that see them, over any run of requests. */
module AdmissionRuns {
  import opened Basics
  import opened ClusterState
  import opened Text
  import J = Json
  import M = NamespaceMetadata
  import O = Organization
  import Q = NamespaceQuota

  /** A request that no webhook skips, or the deletion of a namespace. */
  datatype Event =
    | Create(user: string, name: string, doc: J.Json, failing: set<Ref>)
    | Update(user: string, name: string, doc: J.Json, failing: set<Ref>)
    | Delete(name: string)

  const NO_METADATA := M.Metadata(map[], map[])

  function MetadataOf(doc: J.Json): M.Metadata {
    M.Metadata(O.AnnotationsOf(doc), O.LabelsOf(doc))
  }

  function MetadataAt(s: State, name: string): M.Metadata {
    M.Metadata(if name in s.annotations then s.annotations[name] else map[],
               if name in s.namespaces then s.namespaces[name] else map[])
  }

  /** The webhooks, the first two configured with the same organization label, the third one only if
      it is enabled. The quota validator sees creations only, the others updates too. */
  datatype Chain = Chain(mutator: O.Mutator, validator: Q.Validator, metadata: Option<M.Validator>) {
    ghost predicate Valid() {
      mutator.organizationLabel == validator.organizationLabel && !validator.skipQuota
    }

    const orgLabel := mutator.organizationLabel

    /** The object as the mutator leaves it, if it does not refuse it. */
    function Mutated(s: State, e: Event): Option<J.Json>
      requires !e.Delete?
    {
      mutator.Admitted(e.doc, mutator.Handle(s, e.failing, false, Some(false), Some(e.doc), e.user))
    }

    ghost predicate MetadataAllows(name: string, before: M.Metadata, after: M.Metadata) {
      metadata.None? || metadata.value.Verdict(Some(false), name, Some(before), Some(after)) == M.Allowed
    }

    /** The request creates its namespace. */
    ghost predicate Creates(s: State, e: Event) {
      && e.Create? && e.name !in s.namespaces && Mutated(s, e).Some?
      && var out := Mutated(s, e).value;
         && validator.Handle(s, e.failing, Some(false), Some(out), true, e.user) == Q.Allowed
         && MetadataAllows(e.name, NO_METADATA, MetadataOf(out))
    }

    /** The request updates its namespace. */
    ghost predicate Updates(s: State, e: Event) {
      && e.Update? && e.name in s.namespaces && Mutated(s, e).Some?
      && MetadataAllows(e.name, MetadataAt(s, e.name), MetadataOf(Mutated(s, e).value))
    }

    function Stored(s: State, name: string, m: M.Metadata): State {
      s.(namespaces := s.namespaces[name := m.labels], annotations := s.annotations[name := m.annotations])
    }

    ghost function Step(s: State, e: Event): State {
      if e.Delete? then s.(namespaces := s.namespaces - {e.name}, annotations := s.annotations - {e.name})
      else if Creates(s, e) || Updates(s, e) then Stored(s, e.name, MetadataOf(Mutated(s, e).value))
      else s
    }

    ghost function Run(s: State, events: seq<Event>): State {
      if events == [] then s else Step(Run(s, events[..|events| - 1]), events[|events| - 1])
    }

    function Count(s: State, org: string): nat {
      |Q.NamespacesOf(s, orgLabel, org)|
    }

    // ---------- one request ----------

    /** The validator counts the organization that the mutator settled on. */
    lemma ValidatorSeesLabel(doc: J.Json)
      requires Valid() && mutator.Org(doc) != ""
      ensures validator.OrgLabel(doc, true) == J.Found(mutator.Org(doc))
    {
      J.NestedDeeper(doc, ["metadata", "labels"], orgLabel);
      assert ["metadata", "labels"] + [orgLabel] == ["metadata", "labels", orgLabel];
      var labels := J.NestedField(doc, ["metadata", "labels"]).value;
      assert J.IsStringMap(labels);
      assert J.NestedField(labels, [orgLabel]) == J.NestedField(labels.members[orgLabel], []);
    }

    /** A created namespace belongs to an organization its requester may use, which had room left. */
    lemma CreatedNamespace(s: State, e: Event)
      requires Valid() && Creates(s, e)
      ensures
        var labels := Step(s, e).namespaces[e.name];
        var org := Get(labels, orgLabel);
        && orgLabel in labels && org != "" && mutator.MayUse(s, e.user, org)
        && validator.Limit(s, e.failing, org).Ok? && Count(s, org) < validator.Limit(s, e.failing, org).value
        && labels == O.LabelsOf(e.doc)[orgLabel := org]
    {
      mutator.AdmittedNamespace(s, e.failing, e.doc, e.user);
      ValidatorSeesLabel(Mutated(s, e).value);
    }

    /** An updated namespace belongs to an organization its requester may use, with or without room. */
    lemma UpdatedNamespace(s: State, e: Event)
      requires Updates(s, e)
      ensures
        var labels := Step(s, e).namespaces[e.name];
        var org := Get(labels, orgLabel);
        && orgLabel in labels && org != "" && mutator.MayUse(s, e.user, org)
        && labels == O.LabelsOf(e.doc)[orgLabel := org]
    {
      mutator.AdmittedNamespace(s, e.failing, e.doc, e.user);
    }

    /** A request that gets past the mutator, for a fresh name, creates its namespace exactly when the
        organization has room and all its metadata is allowed. */
    lemma CreatesIffRoom(s: State, e: Event)
      requires Valid() && e.Create? && e.name !in s.namespaces && NamespaceList !in e.failing
      requires Mutated(s, e).Some?
      ensures
        var out := Mutated(s, e).value;
        var limit := validator.Limit(s, e.failing, mutator.Org(out));
        Creates(s, e) <==>
        && limit.Ok? && Count(s, mutator.Org(out)) < limit.value
        && MetadataAllows(e.name, NO_METADATA, MetadataOf(out))
    {
      mutator.AdmittedNamespace(s, e.failing, e.doc, e.user);
      ValidatorSeesLabel(Mutated(s, e).value);
    }

    lemma CountStored(s: State, name: string, m: M.Metadata, org: string)
      ensures
        var without := Q.NamespacesOf(s, orgLabel, org) - {name};
        Q.NamespacesOf(Stored(s, name, m), orgLabel, org) ==
        if Find(m.labels, orgLabel) == Some(org) then without + {name} else without
    {
    }

    /** A creation adds one namespace to one organization. */
    lemma CreatedCount(s: State, e: Event, org: string)
      requires Valid() && Creates(s, e)
      ensures Count(Step(s, e), org) ==
              Count(s, org) + if org == Get(Step(s, e).namespaces[e.name], orgLabel) then 1 else 0
    {
      CreatedNamespace(s, e);
      CountStored(s, e.name, MetadataOf(Mutated(s, e).value), org);
      assert Q.NamespacesOf(s, orgLabel, org) - {e.name} == Q.NamespacesOf(s, orgLabel, org);
    }

    lemma DeletedCount(s: State, name: string, org: string)
      ensures Count(Step(s, Delete(name)), org) <= Count(s, org)
    {
      Q.SubsetSize(Q.NamespacesOf(Step(s, Delete(name)), orgLabel, org), Q.NamespacesOf(s, orgLabel, org));
    }

    /** The event is not an update that changes the organization of its namespace. */
    ghost predicate KeepsLabel(s: State, e: Event) {
      Updates(s, e) ==> Find(Step(s, e).namespaces[e.name], orgLabel) == Find(s.namespaces[e.name], orgLabel)
    }

    /** Such an update changes no count. */
    lemma UpdatedCount(s: State, e: Event, org: string)
      requires Updates(s, e) && KeepsLabel(s, e)
      ensures Q.NamespacesOf(Step(s, e), orgLabel, org) == Q.NamespacesOf(s, orgLabel, org)
    {
      CountStored(s, e.name, MetadataOf(Mutated(s, e).value), org);
    }

    /** What each event does to a namespace: a deletion removes it, an admitted request stores the
        metadata of the object as the mutator left it, and nothing else changes. */
    lemma StepEffect(s: State, e: Event, name: string)
      ensures
        var t := Step(s, e);
        var labels, annotations := Find(t.namespaces, name), Find(t.annotations, name);
        if e == Delete(name) then labels.None? && annotations.None?
        else if e.name == name && (Creates(s, e) || Updates(s, e)) then
          && labels == Some(O.LabelsOf(Mutated(s, e).value))
          && annotations == Some(O.AnnotationsOf(Mutated(s, e).value))
        else
          labels == Find(s.namespaces, name) && annotations == Find(s.annotations, name)
    {
    }

    /** An update that the metadata validator sees keeps every annotation and label of the namespace
        that no pattern of its list matches. */
    lemma UpdateKeepsProtected(s: State, e: Event, k: string)
      requires Updates(s, e) && metadata.Some? && e.name in s.annotations
      ensures
        var t, v := Step(s, e), metadata.value;
        && (!M.Modifiable(v.matches, v.allowedAnnotations, k) ==>
              Find(t.annotations[e.name], k) == Find(s.annotations[e.name], k))
        && (!M.Modifiable(v.matches, v.allowedLabels, k) ==>
              Find(t.namespaces[e.name], k) == Find(s.namespaces[e.name], k))
    {
      var v := metadata.value;
      assert v.Kept(MetadataAt(s, e.name), MetadataOf(Mutated(s, e).value));
    }

    // ---------- runs ----------

    /** What an organization can grow to: its limit, unless it starts out above it or has none. */
    function Bound(s: State, org: string): int {
      var limit := validator.Limit(s, {}, org);
      if limit.Ok? && limit.value > Count(s, org) then limit.value else Count(s, org)
    }

    /** Only the namespaces change, so limits stay what they are; failing reads only withhold them. */
    lemma LimitFixed(s: State, events: seq<Event>, failing: set<Ref>, org: string)
      ensures
        var l := validator.Limit(Run(s, events), failing, org);
        l.Ok? ==> l == validator.Limit(s, {}, org)
    {
      OnlyNamespacesChange(s, events);
    }

    lemma {:induction false} OnlyNamespacesChange(s: State, events: seq<Event>)
      ensures Run(s, events) == s.(namespaces := Run(s, events).namespaces, annotations := Run(s, events).annotations)
    {
      if events != [] {
        OnlyNamespacesChange(s, events[..|events| - 1]);
      }
    }

    ghost predicate KeepsLabels(s: State, events: seq<Event>) {
      events == [] ||
      (KeepsLabels(s, events[..|events| - 1])
       && KeepsLabel(Run(s, events[..|events| - 1]), events[|events| - 1]))
    }

    /** In every run of creations, deletions, and updates that keep the organization, no organization
        outgrows its limit. */
    lemma {:induction false} QuotaHolds(s: State, events: seq<Event>, org: string)
      requires Valid() && KeepsLabels(s, events)
      ensures Count(Run(s, events), org) <= Bound(s, org)
    {
      if events != [] {
        QuotaHolds(s, events[..|events| - 1], org);
        QuotaHoldsStep(s, events[..|events| - 1], events[|events| - 1], org);
      }
    }

    lemma QuotaHoldsStep(s: State, events: seq<Event>, e: Event, org: string)
      requires Valid() && KeepsLabel(Run(s, events), e) && Count(Run(s, events), org) <= Bound(s, org)
      ensures Count(Step(Run(s, events), e), org) <= Bound(s, org)
    {
      var before := Run(s, events);
      if Creates(before, e) {
        CreatedCount(before, e, org);
        CreatedNamespace(before, e);
        if org == Get(Step(before, e).namespaces[e.name], orgLabel) {
          LimitFixed(s, events, e.failing, org);
        }
      } else if Updates(before, e) {
        UpdatedCount(before, e, org);
      } else if e.Delete? {
        DeletedCount(before, e.name, org);
      }
    }

    // ---------- families of service accounts ----------

    /** The request comes from a service account of a namespace in the given set. */
    predicate ByServiceAccountOf(e: Event, family: set<string>) {
      && e.Create? && HasPrefix(e.user, O.SERVICE_ACCOUNT)
      && O.ServiceAccountNamespace(e.user).Some? && O.ServiceAccountNamespace(e.user).value in family
    }

    /** A namespace together with all that its service accounts create, directly or through the
        service accounts of namespaces so created. */
    ghost function Family(s: State, events: seq<Event>, root: string): set<string> {
      if events == [] then {root}
      else
        var init, e := events[..|events| - 1], events[|events| - 1];
        var family := Family(s, init, root);
        if e.Delete? then family - {e.name}
        else if ByServiceAccountOf(e, family) && Creates(Run(s, init), e) then family + {e.name}
        else family
    }

    /** Whoever is created by a service account of the family joins it, and only a deletion ends that. */
    lemma FamilyGrows(s: State, events: seq<Event>, root: string, e: Event, n: string, account: string)
      requires n in Family(s, events, root) && ':' !in n && ':' !in account
      ensures e != Delete(n) ==> n in Family(s, events + [e], root)
      ensures
        e.Create? && Creates(Run(s, events), e) && e.user == O.SERVICE_ACCOUNT + n + [':'] + account ==>
          e.name in Family(s, events + [e], root)
    {
      assert (events + [e])[..|events|] == events;
      O.ServiceAccountRoundTrip(n, account);
      HasPrefixIff(O.SERVICE_ACCOUNT + n + [':'] + account, O.SERVICE_ACCOUNT);
      assert O.SERVICE_ACCOUNT + n + [':'] + account == O.SERVICE_ACCOUNT + (n + [':'] + account);
    }

    /** As long as updates keep the organization, a family never leaves the one it started in. */
    lemma {:induction false} FamilyStaysInOrganization(s: State, events: seq<Event>, root: string, n: string)
      requires Valid() && root in s.namespaces && n in Family(s, events, root) && KeepsLabels(s, events)
      ensures n in Run(s, events).namespaces
      ensures Get(Run(s, events).namespaces[n], orgLabel) == Get(s.namespaces[root], orgLabel)
    {
      if events != [] {
        var init, e := events[..|events| - 1], events[|events| - 1];
        var before := Run(s, init);
        var family := Family(s, init, root);
        if n in family {
          FamilyStaysInOrganization(s, init, root, n);
        } else {
          var parent := O.ServiceAccountNamespace(e.user).value;
          FamilyStaysInOrganization(s, init, root, parent);
          CreatedNamespace(before, e);
        }
      }
    }

    // ---------- the allowed labels decide ----------

    /** The metadata validator, if enabled, lets the organization label be changed. */
    predicate LabelOpen() {
      metadata.None? || M.Modifiable(metadata.value.matches, metadata.value.allowedLabels, orgLabel)
    }

    /** It checks the label that the mutator has put on a new namespace, so without an allowed pattern
        for it no namespace is ever created; and with one, no reserved one. */
    lemma CreationNeedsOpenLabel(s: State, e: Event)
      requires Valid() && Creates(s, e)
      ensures LabelOpen() && (metadata.Some? ==> !metadata.value.Reserved(e.name))
    {
      CreatedNamespace(s, e);
      assert Find(MetadataOf(Mutated(s, e).value).labels, orgLabel) != Find(NO_METADATA.labels, orgLabel);
    }

    lemma ClosedLabelStays(s: State, e: Event)
      requires !LabelOpen()
      ensures KeepsLabel(s, e)
    {
      if Updates(s, e) {
        var v := metadata.value;
        assert M.ProtectedKept(v.matches, v.allowedLabels, s.namespaces[e.name], Step(s, e).namespaces[e.name]);
      }
    }

    lemma {:induction false} ClosedLabelsStay(s: State, events: seq<Event>)
      requires !LabelOpen()
      ensures KeepsLabels(s, events)
    {
      if events != [] {
        ClosedLabelsStay(s, events[..|events| - 1]);
        ClosedLabelStays(Run(s, events[..|events| - 1]), events[|events| - 1]);
      }
    }

    /** A namespace object with the given metadata. */
    function Namespace(m: M.Metadata): J.Json {
      var fields := map[O.ANNOTATIONS := J.ToJson(m.annotations), O.LABELS := J.ToJson(m.labels)];
      J.Object(map[O.METADATA := J.Object(fields)])
    }

    lemma NamespaceMetadataOf(m: M.Metadata)
      ensures MetadataOf(Namespace(m)) == m
    {
      var doc := Namespace(m);
      J.NestedTwo(doc, O.METADATA, O.LABELS);
      J.NestedTwo(doc, O.METADATA, O.ANNOTATIONS);
      var labels, annotations := J.ToJson(m.labels), J.ToJson(m.annotations);
      assert J.IsStringMap(labels) && (map k | k in labels.members :: labels.members[k].s) == m.labels;
      assert J.IsStringMap(annotations)
        && (map k | k in annotations.members :: annotations.members[k].s) == m.annotations;
    }

    /** The update that moves a namespace to another organization. */
    function Relabel(s: State, user: string, name: string, org: string): Event {
      var m := MetadataAt(s, name);
      Update(user, name, Namespace(m.(labels := m.labels[orgLabel := org])), {})
    }

    /** A user may move a namespace that is not reserved to any organization of the user exactly when
        the label is open: there is no check of the limit. */
    lemma RelabelIff(s: State, user: string, name: string, org: string)
      requires name in s.namespaces && Find(s.namespaces[name], orgLabel) != Some(org) && org != ""
      requires !HasPrefix(user, O.SERVICE_ACCOUNT) && user in s.users && mutator.MayUse(s, user, org)
      requires metadata.Some? ==> !metadata.value.Reserved(name)
      ensures Updates(s, Relabel(s, user, name, org)) <==> LabelOpen()
      ensures LabelOpen() ==> Count(Step(s, Relabel(s, user, name, org)), org) == Count(s, org) + 1
    {
      var m := MetadataAt(s, name);
      var m' := m.(labels := m.labels[orgLabel := org]);
      RelabelPassesMutator(s, user, name, org);
      assert Find(m'.labels, orgLabel) == Some(org);
      if LabelOpen() {
        assert MetadataAllows(name, m, m');
        CountStored(s, name, m', org);
        assert Q.NamespacesOf(s, orgLabel, org) - {name} == Q.NamespacesOf(s, orgLabel, org);
      }
    }

    lemma RelabelPassesMutator(s: State, user: string, name: string, org: string)
      requires org != "" && !HasPrefix(user, O.SERVICE_ACCOUNT) && user in s.users && mutator.MayUse(s, user, org)
      ensures
        var m := MetadataAt(s, name);
        var out := Mutated(s, Relabel(s, user, name, org));
        out.Some? && MetadataOf(out.value) == m.(labels := m.labels[orgLabel := org])
    {
      var m := MetadataAt(s, name);
      NamespaceMetadataOf(m.(labels := m.labels[orgLabel := org]));
      assert mutator.Org(Relabel(s, user, name, org).doc) == org;
    }

    /** So of an organization that is full, in a cluster where one of its users has another namespace
        to move, some run exceeds the limit if and only if the label is open. */
    lemma ExceedsIff(s: State, user: string, name: string, org: string)
      requires Valid() && Count(s, org) == Bound(s, org)
      requires name in s.namespaces && Find(s.namespaces[name], orgLabel) != Some(org) && org != ""
      requires !HasPrefix(user, O.SERVICE_ACCOUNT) && user in s.users && mutator.MayUse(s, user, org)
      requires metadata.Some? ==> !metadata.value.Reserved(name)
      ensures (exists events :: Count(Run(s, events), org) > Bound(s, org)) <==> LabelOpen()
    {
      if LabelOpen() {
        RelabelIff(s, user, name, org);
        var events := [Relabel(s, user, name, org)];
        assert events[..0] == [];
        assert Run(s, events) == Step(s, events[0]);
        assert Count(Run(s, events), org) > Bound(s, org);
      } else {
        forall events ensures Count(Run(s, events), org) <= Bound(s, org) {
          ClosedLabelsStay(s, events);
          QuotaHolds(s, events, org);
        }
      }
    }
  }
}
