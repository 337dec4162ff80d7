/** The webhook that limits the number of namespaces of an organization. */
module NamespaceQuota {
  import opened Basics
  import opened ClusterState
  import J = Json

  datatype Response = Allowed | Denied | Errored(code: int)

  const QUOTA_KEY := "namespaceQuota"

  /** The namespaces of an organization. */
  function NamespacesOf(s: State, orgLabel: string, org: string): set<string> {
    set n | n in s.namespaces && orgLabel in s.namespaces[n] && s.namespaces[n][orgLabel] == org
  }

  datatype Validator = Validator(
    organizationLabel: string,
    defaultOrganizationAnnotation: string,
    skipQuota: bool,
    legacyQuota: Option<int>,
    selectedProfile: string,
    atoi: string -> Option<int>
  ) {
    /** The limit of an organization, or the response when none can be determined. */
    function Limit(s: State, failing: set<Ref>, org: string): Result<int, Response> {
      var base :=
        if legacyQuota.Some? then Ok(legacyQuota.value)
        else if selectedProfile == "" then Err(Denied)
        else match Read(s.profiles, selectedProfile, Profile(selectedProfile) in failing)
             case Found(n) => Ok(n)
             case _ => Err(Errored(500));
      if base.Err? then base
      else
        match Read(s.overrides, "override-" + org, Override("override-" + org) in failing)
        case Failed => Err(Errored(500))
        case NotFound => base
        case Found(data) =>
          if Get(data, QUOTA_KEY) == "" then base
          else match atoi(Get(data, QUOTA_KEY))
               case None => Err(Errored(500))
               case Some(n) => Ok(n)
    }

    /** The label of a Namespace object; other kinds, and other objects, have none. */
    function OrgLabel(doc: J.Json, isNamespace: bool): J.Nested<string> {
      if !isNamespace then J.Missing
      else match J.NestedField(doc, ["metadata", "labels", organizationLabel])
           case Missing => J.Missing
           case Malformed => J.Malformed
           case Found(j) => if j.String? then J.Found(j.s) else J.Malformed
    }

    function Handle(s: State, failing: set<Ref>, skip: Option<bool>, doc: Option<J.Json>, isNamespace: bool,
                    user: string): Response
    {
      if skip.None? then Errored(500)
      else if skip.value then Allowed
      else if doc.None? then Errored(400)
      else
        var found := OrgLabel(doc.value, isNamespace);
        if found.Malformed? then Errored(500)
        else
          var named := if found.Found? then found.value else "";
          if named != "" then Check(s, failing, named)
          else match Read(s.users, user, User(user) in failing)
               case Found(annotations) =>
                 var org := Get(annotations, defaultOrganizationAnnotation);
                 if org == "" then Denied else Check(s, failing, org)
               case _ => Errored(500)
    }

    function Check(s: State, failing: set<Ref>, org: string): Response {
      if skipQuota then Allowed
      else
        var limit := Limit(s, failing, org);
        if limit.Err? then limit.error
        else if NamespaceList in failing then Errored(500)
        else if |NamespacesOf(s, organizationLabel, org)| >= limit.value then Denied
        else Allowed
    }

    /** The organization that a request counts for: the one in the label of a Namespace, else the
        default of the user. Labels of other kinds do not count. */
    ghost predicate CountsFor(s: State, doc: J.Json, isNamespace: bool, user: string, org: string) {
      var field := J.NestedField(doc, ["metadata", "labels", organizationLabel]);
      && org != ""
      && if isNamespace && field == J.Found(J.String(org)) then true
         else
           && (isNamespace ==> field == J.Missing || field == J.Found(J.String("")))
           && user in s.users && org == Get(s.users[user], defaultOrganizationAnnotation)
    }

    ghost predicate HasRoom(s: State, org: string) {
      exists limit :: Limit(s, {}, org) == Ok(limit) && |NamespacesOf(s, organizationLabel, org)| < limit
    }

    /** As long as every read works, exactly the requests are allowed that count for an organization
        with room. */
    lemma AllowedIff(s: State, doc: J.Json, isNamespace: bool, user: string)
      ensures Handle(s, {}, Some(false), Some(doc), isNamespace, user) == Allowed <==>
              exists org :: CountsFor(s, doc, isNamespace, user, org) && (skipQuota || HasRoom(s, org))
    {
      var found := OrgLabel(doc, isNamespace);
      if !found.Malformed? {
        if found.Found? && found.value != "" {
          assert CountsFor(s, doc, isNamespace, user, found.value);
        } else if user in s.users {
          var org := Get(s.users[user], defaultOrganizationAnnotation);
          assert org != "" ==> CountsFor(s, doc, isNamespace, user, org);
        }
      }
    }

    /** The number that decides: an organization's own override, if it has a non-empty one, instead of
        the legacy quota or, without that, of the number of the selected profile. An override alone
        is not enough, and one that is not a number is never replaced by the default. */
    ghost predicate LimitIs(s: State, org: string, n: int) {
      var name := "override-" + org;
      var hasDefault := legacyQuota.Some? || (selectedProfile != "" && selectedProfile in s.profiles);
      && hasDefault
      && if name in s.overrides && Get(s.overrides[name], QUOTA_KEY) != "" then
           atoi(Get(s.overrides[name], QUOTA_KEY)) == Some(n)
         else
           n == if legacyQuota.Some? then legacyQuota.value else s.profiles[selectedProfile]
    }

    lemma LimitIff(s: State, org: string, n: int)
      ensures Limit(s, {}, org) == Ok(n) <==> LimitIs(s, org, n)
    {
    }

    /** With working reads and the quota check on, a request that counts for an organization is allowed
        if and only if a number decides and the organization has fewer namespaces. */
    lemma AllowedByNumber(s: State, doc: J.Json, isNamespace: bool, user: string, org: string)
      requires CountsFor(s, doc, isNamespace, user, org) && !skipQuota
      ensures
        var mine := set n | n in s.namespaces && Find(s.namespaces[n], organizationLabel) == Some(org);
        Handle(s, {}, Some(false), Some(doc), isNamespace, user) == Allowed <==>
        exists n :: LimitIs(s, org, n) && |mine| < n
    {
      assert (set n | n in s.namespaces && Find(s.namespaces[n], organizationLabel) == Some(org))
          == NamespacesOf(s, organizationLabel, org);
      assert forall n :: Limit(s, {}, org) == Ok(n) <==> LimitIs(s, org, n) by {
        forall n { LimitIff(s, org, n); }
      }
      AllowedIff(s, doc, isNamespace, user);
      assert forall other :: CountsFor(s, doc, isNamespace, user, other) ==> other == org;
    }

    ghost predicate Labelled(doc: J.Json, isNamespace: bool, org: string) {
      isNamespace && J.NestedField(doc, ["metadata", "labels", organizationLabel]) == J.Found(J.String(org))
    }

    lemma CountsForOne(s: State, doc: J.Json, isNamespace: bool, user: string, org: string, other: string)
      requires CountsFor(s, doc, isNamespace, user, org) && CountsFor(s, doc, isNamespace, user, other)
      ensures other == org
    {
    }

    lemma HandleCounted(s: State, failing: set<Ref>, doc: J.Json, isNamespace: bool, user: string, org: string)
      requires CountsFor(s, doc, isNamespace, user, org)
      ensures Handle(s, failing, Some(false), Some(doc), isNamespace, user) ==
              if Labelled(doc, isNamespace, org) || User(user) !in failing then Check(s, failing, org) else Errored(500)
    {
    }

    lemma HandleUncounted(s: State, failing: set<Ref>, doc: J.Json, isNamespace: bool, user: string)
      requires forall org :: !CountsFor(s, doc, isNamespace, user, org)
      ensures
        var field := J.NestedField(doc, ["metadata", "labels", organizationLabel]);
        var resp := Handle(s, failing, Some(false), Some(doc), isNamespace, user);
        && resp != Allowed
        && (resp == Denied <==>
              && (isNamespace ==> field == J.Missing || field == J.Found(J.String("")))
              && user in s.users && User(user) !in failing)
        && (user in s.users && (isNamespace ==> field == J.Missing || field == J.Found(J.String(""))) ==>
              Get(s.users[user], defaultOrganizationAnnotation) == "")
    {
      var found := OrgLabel(doc, isNamespace);
      assert found.Found? && found.value != "" ==> CountsFor(s, doc, isNamespace, user, found.value);
      if user in s.users {
        assert !CountsFor(s, doc, isNamespace, user, Get(s.users[user], defaultOrganizationAnnotation));
      }
    }

    ghost predicate IsFull(s: State, org: string) {
      exists n :: LimitIs(s, org, n) && n <= |NamespacesOf(s, organizationLabel, org)|
    }

    /** With working reads a request is denied, rather than answered by an error, exactly when its
        organization is full, no profile is selected, or a known user has no organization at all. */
    lemma DeniedIff(s: State, doc: J.Json, isNamespace: bool, user: string)
      ensures
        var field := J.NestedField(doc, ["metadata", "labels", organizationLabel]);
        Handle(s, {}, Some(false), Some(doc), isNamespace, user) == Denied <==>
        || ((isNamespace ==> field == J.Missing || field == J.Found(J.String("")))
            && user in s.users && Get(s.users[user], defaultOrganizationAnnotation) == "")
        || (!skipQuota
            && exists org :: CountsFor(s, doc, isNamespace, user, org)
                             && ((legacyQuota.None? && selectedProfile == "") || IsFull(s, org)))
    {
      if org :| CountsFor(s, doc, isNamespace, user, org) {
        HandleCounted(s, {}, doc, isNamespace, user, org);
        CheckDenied(s, org);
        forall other | CountsFor(s, doc, isNamespace, user, other) ensures other == org {
          CountsForOne(s, doc, isNamespace, user, org, other);
        }
      } else {
        HandleUncounted(s, {}, doc, isNamespace, user);
      }
    }

    lemma CheckDenied(s: State, org: string)
      ensures Check(s, {}, org) == Denied <==>
              !skipQuota && ((legacyQuota.None? && selectedProfile == "") || IsFull(s, org))
    {
      assert forall n :: Limit(s, {}, org) == Ok(n) <==> LimitIs(s, org, n) by {
        forall n { LimitIff(s, org, n); }
      }
    }

    /** Failing reads only ever withhold: a request is allowed if and only if it would be with all reads
        working and none of the reads that it needs fails. */
    lemma FailingReads(s: State, failing: set<Ref>, doc: J.Json, isNamespace: bool, user: string)
      ensures
        Handle(s, failing, Some(false), Some(doc), isNamespace, user) == Allowed <==>
        && Handle(s, {}, Some(false), Some(doc), isNamespace, user) == Allowed
        && exists org :: CountsFor(s, doc, isNamespace, user, org)
             && (User(user) in failing ==> Labelled(doc, isNamespace, org))
             && (!skipQuota ==>
                   && NamespaceList !in failing && Override("override-" + org) !in failing
                   && (legacyQuota.None? ==> Profile(selectedProfile) !in failing))
    {
      if org :| CountsFor(s, doc, isNamespace, user, org) {
        HandleCounted(s, failing, doc, isNamespace, user, org);
        HandleCounted(s, {}, doc, isNamespace, user, org);
        CheckReads(s, failing, org);
        forall other | CountsFor(s, doc, isNamespace, user, other) ensures other == org {
          CountsForOne(s, doc, isNamespace, user, org, other);
        }
      } else {
        HandleUncounted(s, failing, doc, isNamespace, user);
      }
    }

    lemma CheckReads(s: State, failing: set<Ref>, org: string)
      ensures Check(s, failing, org) == Allowed <==>
              && Check(s, {}, org) == Allowed
              && (!skipQuota ==>
                    && NamespaceList !in failing && Override("override-" + org) !in failing
                    && (legacyQuota.None? ==> Profile(selectedProfile) !in failing))
    {
    }

    /** Before any of this: a failing skipper and an object that does not decode are errors, and
        whatever is skipped is allowed. */
    lemma SkipFirst(s: State, failing: set<Ref>, doc: Option<J.Json>, isNamespace: bool, user: string)
      ensures Handle(s, failing, None, doc, isNamespace, user) == Errored(500)
      ensures Handle(s, failing, Some(true), doc, isNamespace, user) == Allowed
      ensures doc.None? ==> Handle(s, failing, Some(false), doc, isNamespace, user) == Errored(400)
    {
    }

    /** A request that is allowed stays allowed when namespaces are deleted. */
    lemma FewerNamespaces(s: State, namespaces: map<string, StringMap>, failing: set<Ref>, skip: Option<bool>,
                          doc: Option<J.Json>, isNamespace: bool, user: string)
      requires namespaces.Keys <= s.namespaces.Keys
      requires forall n :: n in namespaces ==> namespaces[n] == s.namespaces[n]
      requires Handle(s, failing, skip, doc, isNamespace, user) == Allowed
      ensures Handle(s.(namespaces := namespaces), failing, skip, doc, isNamespace, user) == Allowed
    {
      var t := s.(namespaces := namespaces);
      forall org ensures |NamespacesOf(t, organizationLabel, org)| <= |NamespacesOf(s, organizationLabel, org)| {
        SubsetSize(NamespacesOf(t, organizationLabel, org), NamespacesOf(s, organizationLabel, org));
      }
    }
  }

  lemma {:induction false} SubsetSize<T>(a: set<T>, b: set<T>)
    requires a <= b
    ensures |a| <= |b|
  {
    if x :| x in a {
      SubsetSize(a - {x}, b - {x});
    }
  }
}
