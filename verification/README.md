# Verified model of the APPUiO Cloud Agent

A Dafny 4.11 model of the reconcilers and admission webhooks of the agent, with
proofs of what they promise. `dafny verify dfyconfig.toml` checks all of it.

The API server is a set of plain maps. Go maps are iterated by picking
remaining keys arbitrarily, so a contract of a method that iterates one holds
for every iteration order. Library functions whose inside does not matter
(JSON, quantity and selector parsing, wildcard matching, label selectors) are
parameters, and every statement holds for all of them. Failing API calls are
parameters as well.

## The parts

**Fair-use ratio** (`Rounding`, `FairUse`, `Workloads`, `Ratio`, `Groups`,
`Fetcher`, `Limits`, `RatioValidator`). Requests are added up in mutable ratio
objects, one per node selector. The ratio is rounded twice, half-even to bytes
and away from zero to mebibytes, and compared with a scaled limit. With
K the number of mebibytes that cover the scaled limit, all of this is the
linear test `2*mem <= (2*(K-1)*2^20 + 1)*cpu` (for `K <= 0`, which only matters
for negative amounts, `2*mem < (2*K*2^20 - 1)*cpu`). Everything else about
fairness follows from it: pooling, replicas, and how far the two roundings move
the documented limit. The comment of `Below` says that it tells whether the
ratio is below the limit. Because of the roundings it does so exactly for no
positive limit: `FairNeverReportedIff` and `UnfairAlwaysReportedIff` show that
of the two halves of that sentence exactly one holds, and which. For limits of
a whole number of bytes it is the harmless half.

**Quota overrides** (`QuotaTransformer`, `LegacyQuota`, `QuotaAgreement`). The
transformer scans the annotations and overwrites what it finds; the legacy
controller looks an annotation up for every default limit. The main results say
exactly when Go's iteration order shows in the transformer's result, and
exactly for which bases, quota names and keys both implementations agree, key by
key and on a whole quota. The transformer trims a trailing slash of the base and
the legacy controller does not, so under such a base only the transformer finds
annotations.

**Usage profiles** (`UsageProfile`, `UsageProfileRuns`). A reconcile is a step
on a map of objects, which renders each quota through the transformer of
`QuotaTransformer`, reading the annotations in any order. `RunOutcome` gives a
closed form of any schedule of reconciles and orders; safety and stabilization
are read off from it. Stabilization is not unconditional: `StabilizesIff` says
that it holds exactly when no two annotations of a quota conflict, and `FlipRun`
shows the reconciles that change a quota back and forth when two do.

**Group sync** (`GroupSync`, `GroupSyncProtocol`, `GroupSyncRuns`). The
reconciler as a class over two stores, and the same as single reads and writes;
`UndisturbedStepsAreReconcile` connects the two. The group is written before the
finalizer is stored, so an orphaned group is possible, and `OrphanIff` says
exactly when. In runs the agent may stop at any point, others edit and delete
objects, and its reads go through a cache (`main.go:203-210`) that may hold any
former state. Once the finalizer was stored no orphan is possible if reads never
go back from a newer state to one in which the upstream object is alive
(`NoOrphanOnceStored`). Such a read brings the group back (`ReadRevivesIff`,
`StaleReadOrphans`).

**Admission** (`Json`, `PodNodeSelector`, `SelectorConsistency`,
`ClusterState`, `Organization`, `NamespaceQuota`, `AdmissionRuns`,
`NamespaceMetadata`). JSON pointers follow RFC 6901 and patches section 4.1 of
RFC 6902. The organization mutator with its patch, the quota validator and the
metadata validator are chained as they are registered, and the chain is run over
arbitrary sequences of namespace creations, updates and deletions. Only
creations are counted. No organization outgrows its limit as long as updates
keep the organization label (`QuotaHolds`), and the metadata validator is what
decides whether they must: `ExceedsIff`. But it also checks the label that the
mutator puts on a new namespace, so when it protects the label, no namespace is
created at all (`CreationNeedsOpenLabel`).

`Text` and `Basics` hold string functions and small datatypes.

## Model

| member | source | states |
|---|---|---|
| FairUse.RoundedTwice | ratio/ratio.go:83-89 | Half-even rounding to bytes followed by rounding up to mebibytes yields k mebibytes only for workloads in one explicit linear bracket; ties never matter. |
| FairUse.BracketUnique | ratio/ratio.go:83-89 | Every workload lies in one bracket only, so the bracket determines the reported ratio. |
| FairUse.BracketBelow | ratio/ratio.go:98-104 | Comparing the doubly rounded ratio with any amount is one linear inequality in CPU and memory, for negative memory and amounts too. |
| FairUse.NearlyExact | ratio/ratio.go:76-91 | The reported ratio is at most half a byte under the exact quotient and less than a mebibyte minus half a byte over it. |
| FairUse.PooledBelow | ratio/ratio.go:27-39 | Two workloads that are below a limit are below it together. |
| FairUse.PooledFair | ratio/ratio.go:27-39 | Two workloads that are not below a limit are not below it together. |
| FairUse.ScaledBelow | ratio/ratio.go:52-74 | Any positive number of replicas is below a limit exactly when one is, so scaling never changes the verdict. |
| FairUse.FairNeverReportedIff | ratio/ratio.go:93-104 | No workload whose exact ratio reaches the limit is reported, exactly for limits not within half a byte above a mebibyte multiple. |
| FairUse.UnfairAlwaysReportedIff | ratio/ratio.go:93-104 | Every workload whose exact ratio is under the limit is reported, exactly for the other limits. |
| FairUse.WholeBytesAreSafe | ratio/ratio.go:93-104 | With a limit of a whole number of bytes no fair workload is reported. |
| Rounding.Round | ratio/ratio.go:83-88 | The rounded number is the nearest with ties to even, or the next away from zero, as the mode demands. |
| Rounding.RoundsToUnique | ratio/ratio.go:83-88 | Each rounding mode admits one result only. |
| Ratio.Ratio.RecordReplicatedPodSpec | ratio/ratio.go:27-39 | Adds the requests of all containers times the replicas, in place. |
| Ratio.Ratio.RecordPod | ratio/ratio.go:41-50 | Adds the requests of exactly the running pods. |
| Ratio.Ratio.RecordReplicated | ratio/ratio.go:52-74 | Adds the requests of each template times its replicas, one by default. |
| Ratio.Ratio.Quantity | ratio/ratio.go:76-91 | Absent exactly when no CPU is requested, else the mebibyte amount of the workload's bracket. |
| Ratio.Ratio.Below | ratio/ratio.go:93-104 | True exactly when CPU is requested and the linear test holds for the limit times the threshold. |
| Workloads.ReplicasAreCopies | ratio/ratio.go:52-62 | A deployment of n replicas counts as n running pods of its template. |
| Workloads.AbsentReplicas | ratio/ratio.go:54-59 | Without a replica count a deployment or stateful set requests what one replica does. |
| Workloads.PodAdds | ratio/ratio.go:43-50 | A pod adds the requests of its containers if it is running and nothing in any other phase. |
| Groups.GroupsPartition | ratio/fetcher.go:56-64 | The groups together request exactly what all running pods request. |
| Groups.GroupedIs | ratio/fetcher.go:56-64 | One group for each node selector of a pod, holding what the pods with that selector request on their own. |
| Groups.GroupedPermutation | ratio/fetcher.go:56-64 | The groups do not depend on the order in which pods are listed. |
| Groups.AddedTotal | webhooks/ratio_validator.go:94-105 | Counting an object in one group raises the namespace total by exactly its requests. |
| Fetcher.FetchRatios | ratio/fetcher.go:26-67 | One fresh, unshared ratio per node selector in use, with exactly the requests of its running pods; failures and disabled namespaces as in the source. |
| Limits.GetLimitForNodeSelector | limits/limits.go:16-32 | The amount of the first limit with a valid and matching selector, and nothing if there is none. |
| Limits.FirstMatchDecides | limits/limits.go:19-32 | The first limit with a selector that matches decides; one with an invalid selector never does. |
| RatioValidator.FuzzyMatchRatioKey | webhooks/ratio_validator.go:209-223 | The exact key if present; otherwise a group whose label map does not change when the object's labels are added, if there is one; otherwise a new group. |
| RatioValidator.RatioValidator.SelectorOfKind | webhooks/ratio_validator.go:75-89 | A pod is judged by its own selector, a deployment or stateful set by its template's, and an empty one by the namespace's default or else the configured one. |
| RatioValidator.RatioValidator.RecordObject | webhooks/ratio_validator.go:136-158 | Adds exactly what the object requests, by its kind. |
| RatioValidator.RatioValidator.CollectWarnings | webhooks/ratio_validator.go:110-126 | Exactly one warning for each group that fails the linear test against its first matching limit. |
| RatioValidator.RatioValidator.Handle | webhooks/ratio_validator.go:48-134 | Always allows; the warnings are exactly the unfair groups after counting a created object in one matching group; every failure has its code. |
| RatioValidator.RatioValidator.FairCreateIsSilent | webhooks/ratio_validator.go:94-126 | A fair object created in a fair namespace brings no warning, whichever group it is counted in. |
| QuotaTransformer.OverridesFromObj | controllers/transformers/resourcequota.go:53-90 | For any iteration order: per quota, the annotations merged in that order; an error exactly when some annotation is malformed, which drops out alone. |
| QuotaTransformer.Transform | controllers/transformers/resourcequota.go:31-51 | Overwrites the hard limits of quotas by the merged overrides and leaves other objects alone; fails exactly on malformed annotations or an unreachable field. |
| QuotaTransformer.OverwrittenKeys | controllers/transformers/resourcequota.go:44-48 | After the overwriting a key has its override if there is one and what it had before otherwise. |
| QuotaTransformer.MalformedIff | controllers/transformers/resourcequota.go:61-77 | An annotation is reported exactly when it has the prefix and no dot after it, or belongs to the storage classes of a quota and is not JSON. |
| QuotaTransformer.OrderIrrelevantIff | controllers/transformers/resourcequota.go:61-87 | The result is the same for every iteration order exactly when no two annotations give one key different values. |
| QuotaAgreement.TransformIsDeterministic | controllers/transformers/resourcequota.go:61-87 | With one slash per annotation key and no overlap with the JSON annotation, no iteration order shows. |
| Text.ContainsIff | controllers/transformers/resourcequota.go:79 | A text contains a part exactly when it is the part with some text before and after. |
| QuotaAgreement.StorageFromJson | controllers/transformers/resourcequota.go:73-84 | The limit of every key with the storage class suffix anywhere in it comes from the JSON annotation, unless an annotation of its own sets the same key. |
| QuotaAgreement.OthersNotFromJson | controllers/transformers/resourcequota.go:79-86 | Every other override comes from an annotation of its own. |
| QuotaAgreement.LegacyLimits | controllers/legacy_resource_quota_controller.go:55-94 | The same for the legacy controller: which annotation decides each limit, when the default stays, and what is reported. |
| QuotaAgreement.DecodeEncode | controllers/legacy_resource_quota_controller.go:77 | Decoding inverts encoding exactly on keys without an underscore. |
| QuotaAgreement.DecodeInjective | controllers/transformers/resourcequota.go:86 | Suffixes without a slash that decode to the same key are equal. |
| QuotaAgreement.AgreementIff | controllers/legacy_resource_quota_controller.go:55-94 | For all well-formed annotations and every order both implementations give the same limit, exactly when both can override it or neither can: the transformer when the quota name has no dot and the key is a storage class key, or has no underscore and is not "storageclasses"; the legacy controller when the base does not end in a slash. |
| QuotaAgreement.AgreeAtIff | controllers/legacy_resource_quota_controller.go:55-94 | For any annotations, well-formed or not: both give the same limit at a key in every order, exactly when every annotation that sets the key reads as the legacy limit, which is the default if there is none. |
| QuotaAgreement.WholeAgreementIff | controllers/legacy_resource_quota_controller.go:55-94 | The transformed template and the legacy quota have the same limits on all default keys, for all well-formed annotations and every order, exactly when the condition holds of every default key; further keys come from the transformer's overrides only. |
| QuotaAgreement.OverlapConflicts | controllers/transformers/resourcequota.go:73-86 | A storage class limit set differently by an annotation of its own and by the JSON annotation is a conflict, so the iteration order shows. |
| LegacyQuota.Reconciler.BuildSpec | controllers/legacy_resource_quota_controller.go:75-90 | Each default limit is overwritten as its annotation says; unreadable overrides keep the default and are reported. |
| LegacyQuota.Reconciler.Reconcile | controllers/legacy_resource_quota_controller.go:36-126 | Writes exactly the default quotas and the limit range of managed namespaces; a quota that fails stops no other; fails exactly when something failed. |
| UsageProfile.Reconciler.EnsureWatch | controllers/zoneusageprofileapply_controller.go:160-179 | A watch is requested at most once per kind, even if that request failed. |
| UsageProfile.Reconciler.ApplyResourceToNamespace | controllers/zoneusageprofileapply_controller.go:110-158 | Touches one object: the template, with a quota's limits overridden for its name from the annotations in some order, with its old labels and the owner set, unless it is owned by another profile; reports exactly the failures. |
| UsageProfile.Reconciler.Reconcile | controllers/zoneusageprofileapply_controller.go:64-108 | A profile that is not selected or does not exist changes nothing, watches nothing and does not fail. Otherwise, for any order of namespaces, resources and annotations, the cluster makes exactly one step of the profile; the kinds watched and the failures are exact. |
| UsageProfile.ReconcileWrites | controllers/zoneusageprofileapply_controller.go:70-105 | In terms of the selected profile, labels and deletion times: each due object that no other profile owns gets the content of its resource, its old labels and the owner; every other object stays. |
| UsageProfile.NoFailureIff | controllers/zoneusageprofileapply_controller.go:110-158 | A resource reports no error exactly when its object is written and its kind is watched. |
| UsageProfileRuns.StepsAreReconciles | controllers/zoneusageprofileapply_controller.go:64-108 | The steps of a run are exactly the outcomes a reconcile can have for some orders of the annotations. |
| UsageProfileRuns.RunIsPointwise | controllers/zoneusageprofileapply_controller.go:64-108 | In a run of the cluster every object has its own independent history. |
| UsageProfileRuns.RunOutcome | controllers/zoneusageprofileapply_controller.go:123-151 | Closed form of every schedule: an object belongs to its previous owner or else to the first profile that claimed it, and looks as that owner last rendered it. |
| UsageProfileRuns.ForeignObjectsUntouched | controllers/zoneusageprofileapply_controller.go:144-147 | Objects of one owner are never changed by reconciles of other profiles, over whole runs. |
| UsageProfileRuns.OtherNamespacesUntouched | controllers/zoneusageprofileapply_controller.go:81-93 | Objects outside organization namespaces are never changed. |
| UsageProfileRuns.LabelsKept | controllers/zoneusageprofileapply_controller.go:123-150 | No object disappears, ownership never changes hands, and no label but the owner label ever changes. |
| UsageProfileRuns.StabilizesIff | controllers/zoneusageprofileapply_controller.go:87-107 | Once every enabled profile ran without API failures, in any schedule, no later reconcile in any order changes anything, if and only if no two annotations conflict about a quota that its owner renders. |
| UsageProfileRuns.Flip | controllers/transformers/resourcequota.go:37-48 | With a conflict, two reconciles of the owner in turn change the object for ever, from every state in which the profile may write it. |
| UsageProfileRuns.FlipRun | controllers/transformers/resourcequota.go:61-87 | Such a run for a storage class limit set twice: the same reconcile three times writes one content, another, and the first again. |
| GroupSync.RequestRoundTrip | controllers/groupsync_controller.go:55-72 | A group name leads back to its team or organization exactly when the namespace has no plus sign. |
| GroupSync.RequestInjective | controllers/groupsync_controller.go:143-157 | Different upstream objects never share a group name, teams and organizations included. |
| GroupSync.LiveIsSynced | controllers/groupsync_controller.go:109-129 | A live upstream ends with the finalizer and a group that is a sorted permutation of its members. |
| GroupSync.DeletedIsReleased | controllers/groupsync_controller.go:86-107 | A deleted upstream ends without group and without finalizer, or gone if it was the last one. |
| GroupSync.KeepsOtherFinalizers | controllers/groupsync_controller.go:97-131 | A finalizer of others is there after a reconcile exactly when it was before; a deleted upstream that carried the zone's is gone exactly when it carried no other. |
| GroupSync.MemberOrderIrrelevant | controllers/groupsync_controller.go:110-114 | Any reordering of the members gives the same group. |
| GroupSync.ReconcileIsIdempotent | controllers/groupsync_controller.go:45-132 | A second reconcile writes nothing to either store. |
| GroupSync.Reconciler.Reconcile | controllers/groupsync_controller.go:45-132 | Changes the two objects of its own group name as specified and no other; keeps the finalizers of others, and lets a deleted object go exactly when only the zone's finalizer held it. |
| GroupSyncProtocol.UndisturbedStepsAreReconcile | controllers/groupsync_controller.go:45-132 | Undisturbed, the single steps do exactly what the reconcile as a whole does. |
| GroupSyncProtocol.WriteIsOptimistic | controllers/groupsync_controller.go:109-121 | The agent writes the group only over the version it has read, and only if the users differ; after a conflict it ends the reconcile without a write. |
| GroupSyncProtocol.RestartRecovers | controllers/groupsync_controller.go:45-132 | Wherever the agent stopped and whatever the stores hold, one undisturbed reconcile releases a deleted upstream and syncs a live one. |
| GroupSyncProtocol.OrphanIff | controllers/groupsync_controller.go:84-131 | A live upstream is deleted after any number of steps of the agent: the group outlives it exactly when it has no other finalizers and the agent's own is not stored yet, and a group existed before or the agent had read the upstream. |
| GroupSyncRuns.PastIsHistory | main.go:203-210 | What a lagging read can find is exactly what the upstream object or the group has been in the run. |
| GroupSyncRuns.RunKeepsConsistent | controllers/groupsync_controller.go:84-131 | In every interleaving of agent steps, lagging reads, crashes, edits and deletes: versions grow, and after deleting the group the agent holds a deleted upstream while there is no group. |
| GroupSyncRuns.RunKeepsReleased | controllers/groupsync_controller.go:84-131 | Unless a read goes back to a live version: once the finalizer was stored and is gone there is no group, none is about to be written, and all versions that can still be read are deleted ones. |
| GroupSyncRuns.RemovedOnlyWithoutGroup | controllers/groupsync_controller.go:86-102 | Whenever the finalizer disappears it is the agent that removes it, from a deleted object, while there is no group. |
| GroupSyncRuns.NeverAddedWhileDeleting | controllers/groupsync_controller.go:123-129 | The finalizer is never put on an object that is being deleted. |
| GroupSyncRuns.AgentKeepsOtherFinalizers | controllers/groupsync_controller.go:97-131 | No step of the agent, in any run, adds or removes a finalizer of others. |
| GroupSyncRuns.AgentReleasesLast | controllers/groupsync_controller.go:97-107 | A step of the agent makes an upstream disappear only if it was deleted and carried no other finalizer, and the step that removes the zone's finalizer does so exactly then. |
| GroupSyncRuns.NoOrphanOnceStored | controllers/groupsync_controller.go:84-131 | Once the finalizer was stored, the upstream object cannot be gone while its group exists, in every run whose reads never go back to a live version. |
| GroupSyncRuns.ReadRevivesIff | controllers/groupsync_controller.go:45-131 | From every such run after which the finalizer is gone, with or without the upstream, a reconcile from a former version brings the group back if and only if that version is alive, and then the read goes back. |
| GroupSyncRuns.StaleReadOrphans | controllers/groupsync_controller.go:45-131 | A whole run with such a read: created, synced, deleted, released, and orphaned by a read of the object as it was created. |
| Json.SegmentRoundTrip | webhooks/pod_node_selector_mutator.go:120-126 | Decoding by section 4 of RFC 6901 inverts the encoding, on every string. |
| Json.EscapeInjective | webhooks/pod_node_selector_mutator.go:120-126 | Different label keys have different encodings. |
| Json.EscapeIsProper | webhooks/pod_node_selector_mutator.go:120-126 | The encoding has no slash, and every tilde in it starts a proper escape. |
| Json.PointerRoundTrip | webhooks/pod_node_selector_mutator.go:91 | Reading a pointer built from encoded segments gives back exactly those segments. |
| PodNodeSelector.PatchMergesDefaults | webhooks/pod_node_selector_mutator.go:87-100 | The patch yields the union of defaults and own selector with own values winning; it fails to apply exactly when there is no spec. |
| PodNodeSelector.SecondPassIsEmpty | webhooks/pod_node_selector_mutator.go:71-103 | On its own result the mutator has nothing to add. |
| PodNodeSelector.BuildPatches | webhooks/pod_node_selector_mutator.go:87-100 | For any iteration order: one operation per missing default, or one for the whole selector. |
| PodNodeSelector.Handle | webhooks/pod_node_selector_mutator.go:36-104 | Every failure has its code; applying the emitted operations in any order merges the defaults. |
| SelectorConsistency.MutatedGroupIncludesSelector | webhooks/ratio_validator.go:75-89 | The selector a workload is judged by is carried by the group of its mutated pods, whatever the namespace annotation and the defaults. |
| Organization.ServiceAccountRoundTrip | webhooks/namespace_project_organization_mutator.go:146-151 | A service account's user name leads back to its namespace exactly when neither name has a colon. |
| Organization.Mutator.OrgLabelPatchEffect | webhooks/namespace_project_organization_mutator.go:173-189 | The patch sets exactly the organization label and keeps the rest; it fails to apply exactly when there is no metadata. |
| Organization.Mutator.AdmittedNamespace | webhooks/namespace_project_organization_mutator.go:106-171 | An admitted namespace carries an organization its requester may use and keeps all other labels. |
| Organization.Mutator.AdmissionIff | webhooks/namespace_project_organization_mutator.go:106-171 | Which namespace requests are admitted, in both directions, for users and service accounts. |
| Organization.Mutator.FailingReads | webhooks/namespace_project_organization_mutator.go:106-171 | A request passes exactly when it would with working reads and none of the reads it needs fails. |
| Organization.Mutator.Refusals | webhooks/namespace_project_organization_mutator.go:106-171 | Which refusals are errors, and with which code, and which are denials. |
| Organization.Mutator.ProjectAdmissionIff | webhooks/namespace_project_organization_mutator.go:68-104 | Both directions: with working reads exactly the projects pass that name no requester, or a user, not a service account, who may use the organization named or defaulted; sender and skipper do not matter. |
| NamespaceQuota.Validator.AllowedIff | webhooks/namespace_quota_validator.go:72-165 | With working reads exactly the requests are allowed that count for an organization, by label or default, that has room. |
| NamespaceQuota.Validator.AllowedByNumber | webhooks/namespace_quota_validator.go:113-162 | A request that counts for an organization is allowed exactly when the organization has fewer namespaces than its non-empty override, if it has one, and otherwise than the legacy quota or the selected profile's number; without a default, or with an unreadable override, never. |
| NamespaceQuota.Validator.FailingReads | webhooks/namespace_quota_validator.go:100-155 | A request is allowed exactly when it would be with working reads and none of the reads it needs fails. |
| NamespaceQuota.Validator.DeniedIff | webhooks/namespace_quota_validator.go:107-162 | Denied, rather than an error, exactly when the organization is full, no profile is selected, or a known user has no organization. |
| NamespaceQuota.Validator.FewerNamespaces | webhooks/namespace_quota_validator.go:151-162 | An allowed request stays allowed when namespaces are deleted, whatever else fails. |
| AdmissionRuns.Chain.ValidatorSeesLabel | webhooks/namespace_quota_validator.go:90-100 | The validator counts the organization that the mutator's patch put on the object. |
| AdmissionRuns.Chain.CreatedNamespace | webhooks/namespace_quota_validator.go:151-165 | A created namespace belongs to an organization its requester may use, and that had room. |
| AdmissionRuns.Chain.CreatesIffRoom | webhooks/namespace_quota_validator.go:151-165 | Past the mutator, a fresh namespace is created exactly when its organization has room and its metadata is allowed. |
| AdmissionRuns.Chain.StepEffect | webhooks/namespace_project_organization_mutator.go:60-104 | What each event does to a namespace: a deletion removes it, an admitted request stores the metadata the mutator left, and nothing else changes. |
| AdmissionRuns.Chain.UpdateKeepsProtected | webhooks/namespace_metadata_validator.go:50-85 | An admitted update keeps every annotation and label of the stored namespace that no pattern of its list matches. |
| AdmissionRuns.Chain.UpdatedNamespace | webhooks/namespace_project_organization_mutator.go:106-171 | An updated namespace belongs to an organization its requester may use and keeps the other labels asked for. |
| AdmissionRuns.Chain.QuotaHolds | webhooks/namespace_quota_validator.go:121-165 | In every serialized run of creations, deletions, and updates that keep the organization label, each organization stays within its limit, or within where it started. |
| AdmissionRuns.Chain.FamilyStaysInOrganization | webhooks/namespace_project_organization_mutator.go:146-171 | In the same runs, chains of service account creations never leave the organization they started in. |
| AdmissionRuns.Chain.FamilyGrows | webhooks/namespace_project_organization_mutator.go:146-171 | What a service account of a family creates joins the family, and only a deletion ends that. |
| AdmissionRuns.Chain.CreationNeedsOpenLabel | webhooks/namespace_metadata_validator.go:50-85 | A namespace gets through the whole chain only if the organization label matches an allowed pattern and its name is not reserved, or the metadata validator is off. |
| AdmissionRuns.Chain.RelabelIff | webhooks/namespace_metadata_validator.go:50-85 | A user may move a namespace that is not reserved to any organization of the user exactly when the label is allowed, and the move is counted nowhere. |
| AdmissionRuns.Chain.ExceedsIff | webhooks/namespace_quota_validator.go:22-23 | With such a user and namespace, some run takes a full organization over its limit if and only if the label is allowed. |
| NamespaceMetadata.ChangedKeys | webhooks/namespace_metadata_validator.go:114-129 | Exactly the keys whose presence or value differs, sorted and without duplicates. |
| NamespaceMetadata.ChangeListUnique | webhooks/namespace_metadata_validator.go:114-129 | The list is determined by the two maps and is the same in both directions. |
| NamespaceMetadata.ChangeTriangle | webhooks/namespace_metadata_validator.go:114-129 | What changes overall changes in one of two steps. |
| NamespaceMetadata.ValidateChangedMap | webhooks/namespace_metadata_validator.go:101-112 | No error exactly when every key that matches no allowed pattern is as it was. |
| NamespaceMetadata.Validator.Handle | webhooks/namespace_metadata_validator.go:50-85 | Allowed exactly when skipped, or the name is not reserved and no protected key changes; a creation changes from no metadata. |
| NamespaceMetadata.Validator.AllowedIff | webhooks/namespace_metadata_validator.go:50-112 | Pattern by pattern: no reserved pattern matches the name, and every annotation and label that no pattern of its list matches is as it was. |
| NamespaceMetadata.Validator.ReachableIffKept | webhooks/namespace_metadata_validator.go:101-112 | The states that sequences of admitted updates can reach are exactly those that keep every protected key. |

## Left out

- Decimal representation: CPU, memory and quantities are exact real numbers; the unscaled integer and scale of the decimal library, and the sharing of its pointers, do not appear.
- Text of warnings, errors and events: a warning is its node selector and limit; the reported ratio is `Ratio.Ratio.Quantity`.
- Node selector strings: groups are keyed by the selector map instead of its canonical string, so the failure to convert such a string back is not modelled.
- UsageProfile.World: the list of transformers is the one that the agent installs (`main.go:235-237`); apart from `spec.hard` the content of an object is an uninterpreted text.
- UsageProfileRuns: time only moves forward and profiles, namespaces and annotations do not change during a run.
- GroupSyncRuns: a read that finds nothing while the upstream exists ends the reconcile and has no action of its own; there is one reconcile at a time per group name; others do not touch this zone's finalizer and do not create groups.
- GroupSync.Reconciler.Reconcile: failing API calls appear in `GroupSyncRuns` only, as crashes.
- AdmissionRuns.Chain.QuotaHolds: for requests that are handled one after the other; the validator reads a count without holding a lock, so concurrent requests can exceed the limit.
- LegacyQuota.Reconciler.Reconcile: a quota's scopes and the owner references are not modelled; the limit range is one opaque value.
- JSON patches: paths into arrays and operations other than add, which the webhooks never emit.
- Skippers, `validate/labels.go`, the run-once, load-balancer and reserved-resource webhooks, and the user-attribute, profile-sync, organization RBAC, ratio and zone-version controllers: short scans or direct copies.
- Startup, configuration files, watches and predicates, logging, metrics.
