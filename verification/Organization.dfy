/** The webhook that puts namespaces and projects into an organization. */
module Organization {
  import opened Basics
  import opened ClusterState
  import opened Text
  import J = Json

  datatype Response =
    | Allowed
    | Denied
    | Errored(code: int)
    | Patched(patch: J.Operation)

  const METADATA := "metadata"
  const LABELS := "labels"
  const ANNOTATIONS := "annotations"
  const REQUESTER := "openshift.io/requester"
  const SERVICE_ACCOUNT := "system:serviceaccount:"

  function LabelsOf(doc: J.Json): StringMap {
    J.GetMap(doc, [METADATA, LABELS])
  }

  function AnnotationsOf(doc: J.Json): StringMap {
    J.GetMap(doc, [METADATA, ANNOTATIONS])
  }

  /** The part of a service account's user name that holds its namespace. */
  function ServiceAccountNamespace(user: string): Option<string> {
    var p := Split(user, ':');
    if |p| == 4 then Some(p[2]) else None
  }

  /** The user name of a service account leads back to its namespace exactly when neither the
      namespace nor the account has a ':' in its name. */
  lemma ServiceAccountRoundTrip(ns: string, account: string)
    ensures ServiceAccountNamespace(SERVICE_ACCOUNT + ns + [':'] + account) == Some(ns) <==>
            ':' !in ns && ':' !in account
  {
    var user := SERVICE_ACCOUNT + ns + [':'] + account;
    assert user == "system" + [':'] + ("serviceaccount" + [':'] + (ns + [':'] + account));
    SplitFirst("system", ':', "serviceaccount" + [':'] + (ns + [':'] + account));
    SplitFirst("serviceaccount", ':', ns + [':'] + account);
    SplitConcat(ns, ':', account);
    SplitSingle(ns, ':');
    SplitSingle(account, ':');
    var p, q := Split(ns, ':'), Split(account, ':');
    assert Split(user, ':') == ["system"] + (["serviceaccount"] + (p + q));
    if ':' !in ns && ':' !in account {
      SplitNone(ns, ':');
      assert Split(user, ':')[2] == ns;
    }
  }

  datatype Mutator = Mutator(organizationLabel: string, defaultOrganizationAnnotation: string) {
    function Org(doc: J.Json): string {
      Get(LabelsOf(doc), organizationLabel)
    }

    /** Adds the label, or a whole new label map when there is none that can be read. */
    function OrgLabelPatch(doc: J.Json, org: string): J.Operation {
      if J.NestedStringMap(doc, [METADATA, LABELS]).Found? then
        J.Add("/" + METADATA + "/" + LABELS + "/" + J.EscapeSegment(organizationLabel), J.String(org))
      else
        J.Add("/" + METADATA + "/" + LABELS, J.ToJson(map[organizationLabel := org]))
    }

    /** `skip` is absent when the check fails, `doc` when it does not decode. */
    function Handle(s: State, failing: set<Ref>, isProject: bool, skip: Option<bool>, doc: Option<J.Json>, user: string)
      : Response
    {
      if skip.None? then Errored(500)
      else if skip.value && !isProject then Allowed
      else if doc.None? then Errored(400)
      else if isProject then HandleProject(s, failing, doc.value)
      else HandleNamespace(s, failing, doc.value, user)
    }

    function HandleProject(s: State, failing: set<Ref>, doc: J.Json): Response {
      var user := Get(AnnotationsOf(doc), REQUESTER);
      if user == "" then Allowed
      else if HasPrefix(user, SERVICE_ACCOUNT) then Denied
      else HandleUserRequested(s, failing, user, doc)
    }

    function HandleNamespace(s: State, failing: set<Ref>, doc: J.Json, user: string): Response {
      if HasPrefix(user, SERVICE_ACCOUNT) then HandleServiceAccountNamespace(s, failing, doc, user)
      else HandleUserRequested(s, failing, user, doc)
    }

    function HandleUserRequested(s: State, failing: set<Ref>, user: string, doc: J.Json): Response {
      match Read(s.users, user, User(user) in failing)
      case NotFound => Errored(500)
      case Failed => Errored(500)
      case Found(annotations) =>
        var requested := Org(doc);
        var org := if requested == "" then Get(annotations, defaultOrganizationAnnotation) else requested;
        if org == "" then Denied
        else
          match Read(s.groups, org, Group(org) in failing)
          case Failed => Errored(500)
          case NotFound => Denied
          case Found(members) =>
            if user !in members then Denied
            else if requested == "" then Patched(OrgLabelPatch(doc, org))
            else Allowed
    }

    function HandleServiceAccountNamespace(s: State, failing: set<Ref>, doc: J.Json, user: string): Response {
      match ServiceAccountNamespace(user)
      case None => Errored(422)
      case Some(ns) =>
        match Read(s.namespaces, ns, Namespace(ns) in failing)
        case NotFound => Errored(500)
        case Failed => Errored(500)
        case Found(labels) =>
          var nsOrg := Get(labels, organizationLabel);
          var requested := Org(doc);
          if nsOrg == "" then Denied
          else if requested != "" && requested != nsOrg then Denied
          else if requested == "" then Patched(OrgLabelPatch(doc, nsOrg))
          else Allowed
    }

    // ---------- what an admitted object looks like ----------

    /** The object has metadata for labels to live in. */
    predicate HasMetadata(doc: J.Json) {
      doc.Object? && METADATA in doc.members && doc.members[METADATA].Object?
    }

    /** The object with its labels replaced and everything else as it was. */
    function WithLabels(doc: J.Json, labels: StringMap): J.Json
      requires HasMetadata(doc)
    {
      J.Object(doc.members[METADATA := J.Object(doc.members[METADATA].members[LABELS := J.ToJson(labels)])])
    }

    /** The patch sets exactly the organization label: every other readable label, and the rest of
        the object, stays. It fails to apply exactly when there is no metadata. */
    lemma OrgLabelPatchEffect(doc: J.Json, org: string)
      ensures J.Apply(doc, OrgLabelPatch(doc, org)) ==
              if HasMetadata(doc) then Some(WithLabels(doc, LabelsOf(doc)[organizationLabel := org])) else None
    {
      J.NestedTwo(doc, METADATA, LABELS);
      var labels := LabelsOf(doc);
      if J.NestedStringMap(doc, [METADATA, LABELS]).Found? {
        J.ApplyThree(doc, METADATA, LABELS, organizationLabel, J.String(org));
        J.AddThree(doc, METADATA, LABELS, organizationLabel, J.String(org));
        assert doc.members[METADATA].members[LABELS].members[organizationLabel := J.String(org)]
            == J.ToJson(labels[organizationLabel := org]).members;
      } else {
        J.ApplyTwo(doc, METADATA, LABELS, J.ToJson(map[organizationLabel := org]));
        J.AddTwo(doc, METADATA, LABELS, J.ToJson(map[organizationLabel := org]));
        assert labels[organizationLabel := org] == map[organizationLabel := org];
      }
    }

    lemma LabelsAfter(doc: J.Json, labels: StringMap)
      requires HasMetadata(doc)
      ensures LabelsOf(WithLabels(doc, labels)) == labels
    {
      J.NestedTwo(WithLabels(doc, labels), METADATA, LABELS);
      var j := J.ToJson(labels);
      assert J.IsStringMap(j) && (map k | k in j.members :: j.members[k].s) == labels;
    }

    /** The object as it reaches the next webhook, if the request survives this one. */
    function Admitted(doc: J.Json, r: Response): Option<J.Json> {
      match r
      case Allowed => Some(doc)
      case Patched(op) => J.Apply(doc, op)
      case _ => None
    }

    /** The organization a requester may create namespaces in: any of the groups a user is in, but
        only the organization of its own namespace for a service account. */
    ghost predicate MayUse(s: State, user: string, org: string) {
      if HasPrefix(user, SERVICE_ACCOUNT) then
        && ServiceAccountNamespace(user).Some?
        && ServiceAccountNamespace(user).value in s.namespaces
        && org == Get(s.namespaces[ServiceAccountNamespace(user).value], organizationLabel)
      else
        org in s.groups && user in s.groups[org]
    }

    /** An admitted namespace carries an organization its requester may use, keeps every other label
        it asked for, and keeps an organization it asked for by name. */
    lemma AdmittedNamespace(s: State, failing: set<Ref>, doc: J.Json, user: string)
      requires Admitted(doc, HandleNamespace(s, failing, doc, user)).Some?
      ensures
        var out := Admitted(doc, HandleNamespace(s, failing, doc, user)).value;
        && Org(out) != "" && MayUse(s, user, Org(out))
        && (Org(doc) != "" ==> out == doc)
        && LabelsOf(out) == LabelsOf(doc)[organizationLabel := Org(out)]
    {
      var r := HandleNamespace(s, failing, doc, user);
      if r.Patched? {
        var org := if HasPrefix(user, SERVICE_ACCOUNT)
                   then Get(s.namespaces[ServiceAccountNamespace(user).value], organizationLabel)
                   else Get(s.users[user], defaultOrganizationAnnotation);
        OrgLabelPatchEffect(doc, org);
        LabelsAfter(doc, LabelsOf(doc)[organizationLabel := org]);
      } else {
        assert LabelsOf(doc)[organizationLabel := Org(doc)] == LabelsOf(doc);
      }
    }

    /** Exactly the requests that name, or default to, an organization their requester may use are
        not refused, as long as every read works. */
    lemma AdmissionIff(s: State, doc: J.Json, user: string)
      ensures
        var r := HandleNamespace(s, {}, doc, user);
        r.Allowed? || r.Patched? <==>
        if HasPrefix(user, SERVICE_ACCOUNT) then
          exists org :: org != "" && MayUse(s, user, org) && (Org(doc) == "" || Org(doc) == org)
        else
          && user in s.users
          && var org := if Org(doc) == "" then Get(s.users[user], defaultOrganizationAnnotation) else Org(doc);
             org != "" && MayUse(s, user, org)
    {
      if HasPrefix(user, SERVICE_ACCOUNT) && ServiceAccountNamespace(user).Some?
         && ServiceAccountNamespace(user).value in s.namespaces {
        var org := Get(s.namespaces[ServiceAccountNamespace(user).value], organizationLabel);
        assert MayUse(s, user, org);
      }
    }

    /** Failing reads only ever withhold: a request is let through if and only if it would be with all
        reads working and none of the reads that it needs fails. */
    lemma FailingReads(s: State, failing: set<Ref>, doc: J.Json, user: string)
      ensures
        var r, working := HandleNamespace(s, failing, doc, user), HandleNamespace(s, {}, doc, user);
        r.Allowed? || r.Patched? <==>
        && (working.Allowed? || working.Patched?)
        && if HasPrefix(user, SERVICE_ACCOUNT) then
             Namespace(ServiceAccountNamespace(user).value) !in failing
           else
             var org := if Org(doc) == "" then Get(s.users[user], defaultOrganizationAnnotation) else Org(doc);
             User(user) !in failing && Group(org) !in failing
    {
      if HasPrefix(user, SERVICE_ACCOUNT) {
        ServiceAccountReads(s, failing, doc, user);
      } else {
        UserReads(s, failing, user, doc);
      }
    }

    lemma ServiceAccountReads(s: State, failing: set<Ref>, doc: J.Json, user: string)
      ensures
        var r := HandleServiceAccountNamespace(s, failing, doc, user);
        var working := HandleServiceAccountNamespace(s, {}, doc, user);
        r.Allowed? || r.Patched? <==>
        && (working.Allowed? || working.Patched?)
        && Namespace(ServiceAccountNamespace(user).value) !in failing
    {
    }

    lemma UserReads(s: State, failing: set<Ref>, user: string, doc: J.Json)
      ensures
        var r, working := HandleUserRequested(s, failing, user, doc), HandleUserRequested(s, {}, user, doc);
        r.Allowed? || r.Patched? <==>
        && (working.Allowed? || working.Patched?)
        && var org := if Org(doc) == "" then Get(s.users[user], defaultOrganizationAnnotation) else Org(doc);
           User(user) !in failing && Group(org) !in failing
    {
    }

    /** What is refused is an error if the service account's name cannot be read, or the user, group or
        namespace cannot, and a denial otherwise. */
    lemma Refusals(s: State, failing: set<Ref>, doc: J.Json, user: string)
      ensures
        var r := HandleNamespace(s, failing, doc, user);
        var account := HasPrefix(user, SERVICE_ACCOUNT);
        var ns := ServiceAccountNamespace(user);
        var readable := if account then ns.Some? && ns.value in s.namespaces && Namespace(ns.value) !in failing
                        else user in s.users && User(user) !in failing;
        && (r == Errored(422) <==> account && ns.None?)
        && (r.Errored? ==> r.code in {422, 500})
        && (!readable ==> r.Errored?)
        && (r == Errored(500) && readable ==> !account && exists org :: Group(org) in failing)
    {
      if !HasPrefix(user, SERVICE_ACCOUNT) && HandleNamespace(s, failing, doc, user) == Errored(500)
         && user in s.users && User(user) !in failing {
        var org := if Org(doc) == "" then Get(s.users[user], defaultOrganizationAnnotation) else Org(doc);
        assert Group(org) in failing;
      }
    }

    /** A failing skipper and an object that does not decode are errors; whatever is skipped is allowed,
        except projects. */
    lemma SkipFirst(s: State, failing: set<Ref>, doc: Option<J.Json>, user: string)
      ensures forall project :: Handle(s, failing, project, None, doc, user) == Errored(500)
      ensures Handle(s, failing, false, Some(true), doc, user) == Allowed
      ensures doc.Some? ==>
                Handle(s, failing, true, Some(true), doc, user) == Handle(s, failing, true, Some(false), doc, user)
      ensures doc.None? ==> Handle(s, failing, false, Some(false), doc, user) == Errored(400)
                            && forall skip :: Handle(s, failing, true, Some(skip), doc, user) == Errored(400)
    {
    }

    /** Exactly the projects are not refused that name no requester, or a user, not a service account,
        who may use the organization that the project names or that is the user's default. The
        sender of the request and the skipper do not matter. */
    lemma ProjectAdmissionIff(s: State, doc: J.Json, skip: bool, user: string)
      ensures
        var requester := Get(AnnotationsOf(doc), REQUESTER);
        var r := Handle(s, {}, true, Some(skip), Some(doc), user);
        r.Allowed? || r.Patched? <==>
        || requester == ""
        || (!HasPrefix(requester, SERVICE_ACCOUNT) && requester in s.users
            && var org := if Org(doc) == "" then Get(s.users[requester], defaultOrganizationAnnotation) else Org(doc);
               org != "" && MayUse(s, requester, org))
    {
      AdmissionIff(s, doc, Get(AnnotationsOf(doc), REQUESTER));
    }
  }
}
