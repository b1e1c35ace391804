# Verified models of kube-bind's reconcilers

kube-bind lets a service provider export APIs that consumers bind into their own clusters. Its
controllers are small state machines over maps of Kubernetes objects; they run in any order, on
possibly stale reads, interleaved with requests that fail and with changes made by others. This
project models the state machines whose correctness is not visible in any one function, and proves
what every run of them keeps.

Each component is one module. Its specification is a state, a set of atomic steps and, for whole
runs, `Runs.IsRun`; "in every run" in the table below means in every state of every such run. Where
the program updates things in place, the module also holds a class or a method with loops, proved to
take exactly the steps of the specification. API requests, clocks and the results of parsing are
parameters of the steps; hashes, label matching and JSON lookup are arbitrary functions.

`dafny verify dfyconfig.toml` checks the whole project.

| module | component |
|---|---|
| `Konnector` | sharing of cluster controllers between bindings and heartbeats (aliased contexts, cancellation) |
| `ExportSync` | work queue, wake-up mapper and two-phase write of an export's schema hash and condition |
| `DynamicInformer` | registration, distribution, replay and removal of event handlers |
| `Tenancy`, `ProviderNamespaces` | identity to cluster namespace to provider namespace |
| `BoundSchemas`, `ExportRequests` | schema copies under an update policy; the phase of an export request |
| `BindingBundles`, `Templates` | sync loops of several owners over one collection |
| `Claims`, `Rbac` | which objects a claim selects; canonical policy rules and convergence |
| `Sessions`, `Login` | session stores, the PKCE flow (sections 4.1 to 4.6 of RFC 7636), the session check |
| `Committer`, `ContextStore` | merge patches (section 2 of RFC 7396) under optimistic concurrency; cancel-once bookkeeping |
| `Api`, `Text`, `Runs` | shared types, facts about strings, induction over runs |

Where the code and its comments or intentions disagree, the model follows the code, and a lemma says
exactly when the intended property holds:

- A binding whose controller fails to start keeps its map entry, and the start is never retried while
  the kubeconfig stays the same (`Konnector.ServedUntilFailedStart`, `Konnector.FailedStartHappens`,
  `Konnector.SameKubeconfigIsNoOp`).
- A heartbeat may overwrite an occupied synthetic key (`Konnector.StepIsExact`, `Konnector.OverwriteHappens`)
  and so leave a context running that nothing will cancel (`Konnector.OverwrittenIsNeverCancelled`).
- A controller started for a binding rejects its own bindings once its first binding has moved on, and
  dereferences nil once that binding is gone (`Konnector.FilterAnswersIff`, `Konnector.FilterCanRejectOwnBinding`,
  `Konnector.FilterCanDereferenceNil`).
- The replay to a new handler may deliver an outdated object last (`DynamicInformer.LastSeenUntilStaleReplay`,
  `DynamicInformer.StaleReplayHappens`).
- A wake-up of an export is lost when the mapper's list fails or a schema in the core group changes
  (`ExportSync.StepKeepsUnlessLost`, `ExportSync.FailedListLosesWakeUp`, `ExportSync.CoreGroupIsNotWoken`).
- A user who deletes a binding during a sync can make a bundle delete another's binding
  (`BindingBundles.DeletesOwnedUnlessAnticipated`, `BindingBundles.UserDeleteBreaksOwnership`).
- A namespace that carries both identity annotations can change its owner (`Tenancy.OwnerNeverChanges`,
  `Tenancy.OwnerCanBeTaken`).
- A protected handler may run after its session has expired, since nothing looks at the clock between the
  check and the handler (`Login.HandlersRunOnlyOnValidSessions`, `Login.HandlerCanRunLate`).
- Selectors are documented as ANDed; the code treats them as alternatives (`Claims.SelectorsAreAlternatives`).
  The two readings agree exactly for selectors of one kind (`Claims.OneKindIsAnded`,
  `Claims.SeveralKindsAreNotAnded`).
- A reference without versions takes over those of its neighbour, so the order of references can decide
  (`Claims.DecisionDependsOnSets`, `Claims.NotClosedDependsOnOrder`, `Claims.CarriedVersionsDependOnOrder`).
- The comment on template names fears collisions of binding names with the scope suffix; there are none
  (`Templates.TemplateNamesAreUnique`).
- Without isolation, deleting an APIServiceNamespace targets a namespace it never had
  (`ProviderNamespaces.DeletionTargetsOwnIff`, `ProviderNamespaces.CleanUpCanHitAnother`).
- Empty policy rules that the API reads back as absent make every reconcile write again
  (`Rbac.NextReconcileWritesNothingIff`, `Rbac.NamespacedScopeNeverSettles`).
- Saving an already expired session over a valid one is ignored by Redis only (`Sessions.AgreeUntilExpiredSave`,
  `Sessions.AnswersCanDiffer`).
- The contexts of an export are found by a plain string prefix, which covers exports with a longer name
  (`ContextStore.PrefixCoversIff`, `ContextStore.BulkDeleteCanHitAnother`).

## Model

| member | source | states |
|---|---|---|
| `Konnector.EveryRunIsSafe` | pkg/konnector/konnector_reconcile.go:83-269 | in every run, failed starts and overwriting heartbeats included: a mapped key is in its context's binding set, equal kubeconfigs share one context, no cancelled context is reachable, none is cancelled twice |
| `Konnector.StepIsExact` | pkg/konnector/konnector_reconcile.go:83-269 | every uncancelled context's set is exactly the keys mapped to it and not empty; a step keeps this if and only if it is not a heartbeat that starts a controller under an occupied synthetic key |
| `Konnector.EveryRunIsExact` | pkg/konnector/konnector_reconcile.go:185-247 | exact bookkeeping in every run without such an overwrite |
| `Konnector.CancelledWhenLastBindingLeaves` | pkg/konnector/konnector_reconcile.go:187-195 | a context's cancel count rises by one in exactly the step in which its last key leaves the map, and never otherwise |
| `Konnector.OneControllerPerKubeconfig` | pkg/konnector/konnector_reconcile.go:202-247 | uncancelled contexts number exactly the distinct kubeconfigs in the map |
| `Konnector.HeapGrows` | pkg/konnector/konnector_reconcile.go:65-72 | no step lowers a cancel count, drops a context, or changes its kubeconfig, start outcome or filter |
| `Konnector.StepRefinesPlainMap` | pkg/konnector/konnector_reconcile.go:83-269 | the pointer map refines a plain key-to-kubeconfig map without contexts, for every step |
| `Konnector.EveryRunRefinesPlainMap` | pkg/konnector/konnector_reconcile.go:83-269 | in every run, which kubeconfig serves which key is what the plain map computes from the events alone |
| `Konnector.EveryRunCancelsExactly` | pkg/konnector/konnector_reconcile.go:185-247 | in every run without overwrites, uncancelled contexts number the distinct kubeconfigs of the plain map, and each step cancels exactly the contexts it leaves without keys |
| `Konnector.SyntheticKeysDiffer` | pkg/konnector/konnector_reconcile.go:125-128 | two synthetic keys are equal if and only if the secret names are |
| `Konnector.StepIsOwn` | pkg/konnector/konnector_reconcile.go:83-269 | a step leaves the map entries of all keys but its own as they are |
| `Konnector.HeartbeatIsOwn` | pkg/konnector/konnector_reconcile.go:125-136 | a heartbeat leaves the entries of all other secrets, and every context that was there, as they are |
| `Konnector.CreatedForEvent` | pkg/konnector/konnector_reconcile.go:130-152 | a new context serves its event's kubeconfig, is registered for its key alone, and its filter captures it for a heartbeat and looks up the binding otherwise |
| `Konnector.OverwriteNeedsSameSecret` | pkg/konnector/konnector_reconcile.go:125-136 | in every run a heartbeat overwrites only after a heartbeat of the same secret name or a binding named like its key |
| `Konnector.OverwrittenIsNeverCancelled` | pkg/konnector/konnector_reconcile.go:128-136 | in every run, the context under an overwritten synthetic key goes on listing it and is never cancelled, as long as no binding of the key's name joins it again |
| `Konnector.OrphanedUntilRejoined` | pkg/konnector/konnector_reconcile.go:128-218 | a step keeps such a context uncancelled and listing the key if and only if it is not a binding of that name, with that kubeconfig, while another key still uses the context |
| `Konnector.OverwriteHappens` | pkg/konnector/konnector_reconcile.go:128-136 | a run, for any two kubeconfigs under one secret name, that ends with a running context no key points to |
| `Konnector.ServedUntilFailedStart` | pkg/konnector/konnector_reconcile.go:242-264 | all mapped keys have a started controller until exactly a binding step whose new controller fails to start |
| `Konnector.FailedStartHappens` | pkg/konnector/konnector_reconcile.go:261-264 | a run in which a start fails and reconciling again leaves the binding without a started controller |
| `Konnector.SameKubeconfigIsNoOp` | pkg/konnector/konnector_reconcile.go:185-218 | reconciling a mapped binding with its kubeconfig unchanged changes nothing, so a failed start is not retried |
| `Konnector.FilterSelectsOwnBindings` | pkg/konnector/konnector_reconcile.go:147-152 | a running controller's filter selects exactly its own context's bindings if and only if it captured the context or its starting binding still points to it |
| `Konnector.FilterAnswersIff` | pkg/konnector/konnector_reconcile.go:254-258 | a running controller's filter dereferences nil exactly if its starting binding is gone from the map, rejects a binding of its own context exactly if the starting one points elsewhere, and accepts exactly the bindings of the context it consults |
| `Konnector.FilterCanDereferenceNil` | pkg/konnector/konnector_reconcile.go:254-258 | a run, for any two bindings, after which the filter of a running controller dereferences nil whatever it is asked |
| `Konnector.FilterCanRejectOwnBinding` | pkg/konnector/konnector_reconcile.go:254-258 | a concrete run after which a running controller does not select a binding of its own context |
| `Konnector.Reconciler.FindByKubeconfig` | pkg/konnector/konnector_reconcile.go:210-218 | the search in map order finds an entry if and only if some context has the kubeconfig |
| `Konnector.Reconciler.StopOld` | pkg/konnector/konnector_reconcile.go:187-195 | leaving an old context removes the name from map and set and cancels once the set is empty; no other context changes |
| `Konnector.Reconciler.Join` | pkg/konnector/konnector_reconcile.go:210-218 | joining maps the name to the shared context and adds it to that context's set, seen through every alias |
| `Konnector.Reconciler.Serve` | pkg/konnector/konnector_reconcile.go:197-269 | after detaching: join the context with the kubeconfig, or create one whose entry stays even if the start fails |
| `Konnector.Reconciler.Reconcile` | pkg/konnector/konnector_reconcile.go:167-269 | the method on aliased objects takes exactly the specified binding step |
| `Konnector.Reconciler.StartForSecret` | pkg/konnector/konnector_reconcile.go:83-165 | the method takes exactly the specified heartbeat step, rollback included |
| `ExportSync.EveryRunIsQueuedOrConsistent` | backend/controllers/serviceexport/serviceexport_controller.go:95-172 | for every export, in every interleaving of schema changes, watch events, workers and failing requests that does not lose its wake-up: it is queued, about to be woken, being worked on from current data, or consistent (hash annotation current and in sync, or a schema missing and out of sync) |
| `ExportSync.DrainedMeansConsistent` | backend/controllers/serviceexport/serviceexport_reconcile.go:54-95 | in every such run, with queue, workers and events drained, the export is consistent with its schemas |
| `ExportSync.StepKeepsUnlessLost` | backend/controllers/serviceexport/serviceexport_controller.go:119-172 | for every export and every step: it stays queued or consistent if and only if the step does not lose its wake-up, by a failing list on the last event it waits for or a schema change under keys outside its index, while it is out of date |
| `ExportSync.DeliverKeepsUnlessLost` | backend/controllers/serviceexport/serviceexport_controller.go:149-172 | a delivered event keeps an export queued or consistent if and only if the list succeeds, or the export is queued, waits for another event, or is up to date anyway |
| `ExportSync.FinishKeeps` | backend/controllers/serviceexport/serviceexport_controller.go:119-145 | a worker that finishes on current reads leaves its export consistent or queued again |
| `ExportSync.FinishQueuesIff` | backend/controllers/serviceexport/serviceexport_controller.go:128-145 | on current, error-free reads with a successful write, an export is queued again if and only if its hash annotation had to change; one that was consistent is neither queued nor written |
| `ExportSync.OnlyCoreSchemasAreLost` | pkg/indexers/serviceexport.go:40-51 | a schema change loses a wake-up only if the schema is in the empty group and the export reads it under the empty group or one spelled "core" |
| `ExportSync.IndexableIsNotLost` | backend/controllers/serviceexport/serviceexport_controller.go:149-172 | an export with neither empty nor "core" groups loses no wake-up while lists succeed |
| `ExportSync.EveryIndexableIsQueuedOrConsistent` | backend/controllers/serviceexport/serviceexport_controller.go:95-172 | in every run in which no failing list loses one of them a wake-up, all exports with neither empty nor "core" groups are queued or consistent |
| `ExportSync.EveryExportCanSettle` | backend/controllers/serviceexport/serviceexport_controller.go:119-145 | for any schemas and any export whose schemas are among them, a run that drains with the annotation current and the condition in sync |
| `ExportSync.QueueOutcome` | backend/controllers/serviceexport/serviceexport_controller.go:149-185 | which keys creation, deletion, resync, start of a worker and a delivered event queue or take |
| `ExportSync.WakesReader` | pkg/indexers/serviceexport.go:40-51 | the mapper's key for a schema equals a reader's index name exactly when the schema's group is not empty |
| `ExportSync.CoreGroupIsNotWoken` | backend/controllers/serviceexport/serviceexport_controller.go:151-158 | a run without any failure, for either spelling of the core group, that drains with the export reporting a schema missing that is there |
| `ExportSync.FailedListLosesWakeUp` | backend/controllers/serviceexport/serviceexport_controller.go:155-158 | a run with one failing list, for any resource, that drains with the export inconsistent |
| `ExportSync.OneReconcile` | backend/controllers/serviceexport/serviceexport_reconcile.go:54-95 | one reconcile in terms of what is stored: missing schema named in the condition, else annotation brought up to date, else condition set |
| `ExportSync.TwoReconcilesReachFixpoint` | backend/controllers/serviceexport/serviceexport_reconcile.go:54-95 | with unchanged schemas the second reconcile reaches a fixpoint, and it is consistent |
| `ExportSync.ServiceExport.EnsureSchema` | backend/controllers/serviceexport/serviceexport_reconcile.go:54-95 | the loop stops at the first missing or unreadable schema; the object's new state is the specified decision on what was read |
| `ExportSync.ServiceExport.Reconcile` | backend/controllers/serviceexport/serviceexport_controller.go:119-145 | annotation or condition is written, or nothing; an error exactly if a read or the needed write fails; requeued exactly if the annotation was written |
| `ExportSync.IndexByBoundSchema` | pkg/indexers/serviceexport.go:40-51 | one index name per resource, in order |
| `ExportSync.MapBoundSchema` | backend/controllers/serviceexport/serviceexport_controller.go:149-172 | exactly the exports whose index holds the schema's key are woken |
| `DynamicInformer.EveryLiveHandlerHasSeenTheStore` | pkg/konnector/controllers/dynamic/eventhandler.go:74-130 | at least once: in every run, once events and its own replay have drained, a live handler has been given the current version of every stored object |
| `DynamicInformer.EveryRunCovers` | pkg/konnector/controllers/dynamic/eventhandler.go:74-130 | in every state, each live handler has been given, or is still going to be given, the current version of every stored object |
| `DynamicInformer.KeysAreUnique` | pkg/konnector/controllers/dynamic/eventhandler.go:113-115 | the name with counter suffix determines name and counter, whatever dashes and digits the name holds |
| `DynamicInformer.RegisterIsFresh` | pkg/konnector/controllers/dynamic/eventhandler.go:111-116 | a registration never overwrites another |
| `DynamicInformer.RemoveIsOwn` | pkg/konnector/controllers/dynamic/eventhandler.go:118-123 | a removal removes exactly its own registration |
| `DynamicInformer.LastSeenUntilStaleReplay` | pkg/konnector/controllers/dynamic/eventhandler.go:125-129 | each live handler's last word on every object stays current if and only if the step is no replay of an outdated object with no correcting event under way |
| `DynamicInformer.DrainedMeansLastSeen` | pkg/konnector/controllers/dynamic/eventhandler.go:125-129 | without stale replays, a drained handler's last notice about an object is its current version if it is stored, and none or its deletion if it is not |
| `DynamicInformer.EveryRunIsLastSeen` | pkg/konnector/controllers/dynamic/eventhandler.go:74-130 | in every run without stale replays, the last thing a drained handler heard of each object, stored or deleted, is current |
| `DynamicInformer.StaleReplayHappens` | pkg/konnector/controllers/dynamic/eventhandler.go:125-129 | a run, for any two versions, that drains with the old version as the handler's last word |
| `DynamicInformer.SharedInformer.AddHandler` | pkg/konnector/controllers/dynamic/eventhandler.go:111-116 | the locked part of registration takes the specified step |
| `DynamicInformer.SharedInformer.RemoveHandler` | pkg/konnector/controllers/dynamic/eventhandler.go:118-123 | the waiting goroutine's deletion takes the specified step |
| `DynamicInformer.SharedInformer.Distribute` | pkg/konnector/controllers/dynamic/eventhandler.go:74-95 | the callback is a run of the protocol that ends idle; every registered handler is given the event exactly once, and nobody else is |
| `DynamicInformer.SharedInformer.ReplayStore` | pkg/konnector/controllers/dynamic/eventhandler.go:125-129 | the replay loop is a run of the protocol that leaves nothing to replay; its handler is given exactly the listed objects, after what it had, and no other handler is called |
| `Tenancy.EveryRunKeeps` | backend/kubernetes/manager.go:121-141 | for an arbitrary hash, stale lists and reads and failing requests, from unannotated or legacy namespaces: every returned or patched namespace is owned by its caller, in every run |
| `Tenancy.NamespacesAreExclusive` | backend/kubernetes/manager.go:121-141 | at any two moments of a run: a successful call got the namespace prefix+hash of its identity, annotated with that identity, which stays its owner, and two successful calls got the same namespace if and only if they had the same identity |
| `Tenancy.ListOutcome` | backend/kubernetes/manager.go:121-141 | a list with exactly one namespace returns it, one with none leads to a creation; the call fails exactly if the request fails or more are found |
| `Tenancy.CreateOutcome` | backend/kubernetes/resources/namespace.go:61-78 | a free name is created with the caller's annotation and returned, a taken one is looked at |
| `Tenancy.GetOutcome` | backend/kubernetes/resources/namespace.go:74-89 | an existing namespace is refused unless an annotation names the caller, migrated if only the legacy one does, and returned otherwise |
| `Tenancy.PatchOutcome` | backend/kubernetes/resources/namespace.go:40-59 | a migrated namespace carries the caller's identity and no legacy annotation, and is returned |
| `Tenancy.SecondLoginFindsTheSame` | backend/kubernetes/manager.go:121-141 | for every identity a run in which a first call creates its namespace and a second one returns the same |
| `Tenancy.LegacyNamespaceIsMigrated` | backend/kubernetes/resources/namespace.go:40-89 | for every non-empty identity a run in which the owner of a legacy namespace gets it back, migrated |
| `Tenancy.OwnerNeverChanges` | backend/kubernetes/resources/namespace.go:40-92 | from any namespaces none of which is contested (both annotations, different, named after the legacy one): whatever owner a namespace has at one moment of a run it has at every later one |
| `Tenancy.AcceptsOnlyOwner` | backend/kubernetes/resources/namespace.go:61-92 | the check on an existing namespace admits exactly its owner, but admits the empty identity anywhere |
| `Tenancy.OwnerCanBeTaken` | backend/kubernetes/resources/namespace.go:40-59 | the converse: from any start with a contested namespace some run changes its owner |
| `Tenancy.Cluster.CreateNamespace` | backend/kubernetes/resources/namespace.go:61-92 | with failing requests and outdated reads: success exactly if the create succeeds and the name is free, or what is read passes the check and a needed migration succeeds; the store changes exactly by creation or migration |
| `Tenancy.Cluster.FindOrCreateNamespace` | backend/kubernetes/manager.go:121-141 | returns the one listed namespace; with none listed, what is created or found under prefix+hash; fails without any change on a failed or ambiguous list |
| `ProviderNamespaces.ProviderNamesAreUnique` | backend/controllers/servicenamespace/servicenamespace_reconcile.go:46-81 | the provider name determines cluster namespace and consumer namespace, because the hash text has no dash; no injectivity of the hash is used |
| `ProviderNamespaces.ProviderNameIsNoClusterNamespace` | backend/kubernetes/resources/namespace.go:94-97 | no provider name equals a cluster namespace under the same prefix |
| `ProviderNamespaces.ReturnedIsClusterNamespace` | backend/kubernetes/manager.go:121-141 | in every run of logins, what is returned is a cluster namespace in the sense of these names |
| `ProviderNamespaces.AnnotationsAreUnique` | backend/controllers/servicenamespace/servicenamespace_reconcile.go:66-68 | the annotation determines the object it names |
| `ProviderNamespaces.EveryRunKeeps` | backend/controllers/servicenamespace/servicenamespace_controller.go:222-271 | in every run, with cluster namespaces created along the way, a set status is the object's own name, and every namespace is a cluster namespace or annotated with the object it is named after |
| `ProviderNamespaces.ReconcileOutcome` | backend/controllers/servicenamespace/servicenamespace_reconcile.go:46-81 | a reconcile with a name to choose leaves the namespace there, created with the object's annotation if it was not, and named in the status; otherwise nothing changes |
| `ProviderNamespaces.CleanUpOutcome` | backend/controllers/servicenamespace/servicenamespace_controller.go:236-246 | cleaning up removes the one namespace named after the object, and nothing else |
| `ProviderNamespaces.EveryObjectIsServed` | backend/controllers/servicenamespace/servicenamespace_controller.go:222-271 | for every object and isolation a run in which it gets its annotated namespace and, with isolation, loses it after it is deleted |
| `ProviderNamespaces.StatusNeverChanges` | backend/controllers/servicenamespace/servicenamespace_reconcile.go:46-81 | in every run and under any isolation, a status that is set stays the same as long as its object lives |
| `ProviderNamespaces.StatusIsUnique` | backend/controllers/servicenamespace/servicenamespace_reconcile.go:46-81 | no two objects have the same status namespace, at the same or at different moments of a run |
| `ProviderNamespaces.CleanUpIsOwn` | backend/controllers/servicenamespace/servicenamespace_controller.go:236-246 | cleaning up deletes only a namespace annotated with the deleted object, never a cluster namespace or another object's |
| `ProviderNamespaces.DeletionTargetsOwnIff` | backend/controllers/servicenamespace/servicenamespace_controller.go:236-246 | the deletion branch targets the object's own namespace if and only if there is isolation; without it, it names another object's |
| `ProviderNamespaces.CleanUpCanHitAnother` | backend/controllers/servicenamespace/servicenamespace_controller.go:236-246 | a run without isolation in which cleaning up deletes the namespace of another, living object and leaves the deleted object's own behind |
| `ProviderNamespaces.Controller.ReconcileObject` | backend/controllers/servicenamespace/servicenamespace_reconcile.go:46-81 | takes the specified step: name from status or isolation, then namespace, then status; succeeds exactly if there is a name to choose and no needed request fails |
| `ProviderNamespaces.Controller.Delete` | backend/controllers/servicenamespace/servicenamespace_controller.go:236-246 | the deletion branch takes the specified step |
| `BoundSchemas.AnnotationIsHashInEveryRun` | backend/controllers/serviceexportrequest/serviceexportrequest_reconcile.go:168-232 | in every run, with changing sources and mixed policies, the annotation is the hash of the stored spec, and the stored spec is stamped and scope-rewritten |
| `BoundSchemas.CreatedFromSource` | backend/controllers/serviceexportrequest/serviceexportrequest_reconcile.go:171-232 | a new BoundSchema has group, plural and body of its source, the configured informer scope, and the source's scope unless namespaced isolation turns Namespaced into Cluster; it has no controller |
| `BoundSchemas.UpdateOutcome` | backend/controllers/serviceexportrequest/serviceexportrequest_reconcile.go:187-223 | an existing one is refused exactly if another export controls it; it becomes the given export's, and its spec and annotation change exactly under Always with a different hash, to those of the source |
| `BoundSchemas.ScopesInEveryRun` | backend/controllers/serviceexportrequest/serviceexportrequest_reconcile.go:155-175 | in every run stored specs have the configured informer scope, and none is Namespaced under namespaced isolation |
| `BoundSchemas.SourceOfFinds` | backend/controllers/serviceexportrequest/serviceexportrequest_reconcile.go:151-152 | the source of a resource is the listed schema with its group and plural, and only that |
| `BoundSchemas.NeverKeepsSpec` | backend/controllers/serviceexportrequest/serviceexportrequest_reconcile.go:203-212 | along any stretch of a run in which only Never requests touch a BoundSchema its spec stays the same |
| `BoundSchemas.RemovedIsRecreated` | backend/controllers/serviceexportrequest/serviceexportrequest_reconcile.go:225-231 | a BoundSchema that somebody removed is made anew from the source of the next request, under either policy |
| `BoundSchemas.AlwaysStoresSource` | backend/controllers/serviceexportrequest/serviceexportrequest_reconcile.go:203-212 | after an Always call the stored spec is the stamped source if and only if the two did not differ and collide under the hash |
| `BoundSchemas.NamesAreDistinct` | sdk/apis/kubebind/v1alpha2/apiserviceexportrequest_types.go:155-160 | different resources are stored under different names if and only if none is requested under both the empty group and "core" |
| `BoundSchemas.Store.CreateOrUpdateBoundSchema` | backend/controllers/serviceexportrequest/serviceexportrequest_reconcile.go:168-232 | takes the specified step; succeeds exactly if no request fails and no other export controls the object, and leaves the store alone otherwise |
| `BoundSchemas.Store.FindSource` | backend/controllers/serviceexportrequest/serviceexportrequest_reconcile.go:151-152 | the search in map order finds the one listed schema of the group and plural, and nothing exactly if there is none |
| `BoundSchemas.Store.EnsureBoundSchemas` | backend/controllers/serviceexportrequest/serviceexportrequest_reconcile.go:140-166 | nothing changes but the requested resources with versions, Never keeps every spec, an error-free Always pass under an injective hash stores each of them as its source demands, and the pass is error-free if no request fails and no other export is in the way |
| `ExportRequests.Validate` | backend/controllers/serviceexportrequest/serviceexportrequest_reconcile.go:327-412 | accepts exactly when schemas exist and agree on the scope and claims are claimable and duplicate-free; fails the request for good exactly when only the claims are at fault |
| `ExportRequests.ValidateSchemas` | backend/controllers/serviceexportrequest/serviceexportrequest_reconcile.go:333-372 | the loop with the carried first scope equals pairwise agreement |
| `ExportRequests.ValidateClaims` | backend/controllers/serviceexportrequest/serviceexportrequest_reconcile.go:374-411 | the two loops equal: all claimable, and no group-resource twice |
| `ExportRequests.IsClaimableAPI` | backend/controllers/serviceexportrequest/serviceexportrequest_reconcile.go:415-422 | true exactly if some claimable API has the group and plural |
| `ExportRequests.ClaimableIff` | sdk/apis/kubebind/v1alpha2/claimable_apis.go:38-81 | claimable are exactly configmaps, secrets and serviceaccounts of the core group |
| `ExportRequests.AgreeMeansOneScope` | backend/controllers/serviceexportrequest/serviceexportrequest_reconcile.go:344-372 | with no empty scopes, the check passes exactly when one scope is shared by all requested resources |
| `ExportRequests.ClaimKeysDiffer` | backend/controllers/serviceexportrequest/serviceexportrequest_reconcile.go:394-395 | the text key under which claims are remembered tells claimable APIs apart |
| `ExportRequests.SucceededMeansCreated` | backend/controllers/serviceexportrequest/serviceexportrequest_reconcile.go:234-319 | in every run, Succeeded is stored only for a request that passed validation and for which an export with the same name, resources and claims was created since it was submitted |
| `ExportRequests.ReconcileOutcome` | backend/controllers/serviceexportrequest/serviceexportrequest_reconcile.go:58-319 | when a reconcile creates the export, deletes the request or returns an error, and its phase, each exactly: a Pending request succeeds if and only if the export is created in its first minute, and fails if and only if it is created later or only its claims are at fault |
| `ExportRequests.StoreOutcome` | backend/controllers/serviceexportrequest/serviceexportrequest_controller.go:225-245 | what is stored afterwards: nothing if deleted, the phase even on an error if the copy was current and the write succeeds, and what was there otherwise |
| `ExportRequests.TerminalPhaseWasDecided` | backend/controllers/serviceexportrequest/serviceexportrequest_reconcile.go:304-311 | in every run a stored Succeeded goes back to a reconcile of the Pending request that created the export in its first minute, and a Failed with allowed claims to one that created it later |
| `ExportRequests.ValidRequestIsServed` | backend/controllers/serviceexportrequest/serviceexportrequest_reconcile.go:234-319 | for every valid request a run that creates its export and stores Succeeded in the first minute, Failed after it |
| `ExportRequests.TerminalPhaseStays` | sdk/apis/kubebind/v1alpha2/apiserviceexportrequest_types.go:113-117 | because the claims are immutable, no step changes a stored Succeeded or Failed |
| `ExportRequests.TerminalPhaseStaysInEveryRun` | backend/controllers/serviceexportrequest/serviceexportrequest_reconcile.go:234-412 | a Succeeded or Failed request stays as it is as long as it exists |
| `ExportRequests.Reconciler.ReconcileRequest` | backend/controllers/serviceexportrequest/serviceexportrequest_reconcile.go:58-88 | the method computes the specified result, writes the phase exactly if the write succeeds and creates exactly the request's export |
| `BindingBundles.EveryRunKeeps` | pkg/konnector/controllers/servicebindingbundle/servicebindingbundle_reconcile.go:216-287 | in every request-by-request interleaving of any number of bundles and users without such a deletion: no binding has two bundle owners, and each error-free sync under way owns exactly its planned deletions and its exports done and not found taken |
| `BindingBundles.KeptUnlessDisturbed` | pkg/konnector/controllers/servicebindingbundle/servicebindingbundle_reconcile.go:216-287 | every step keeps ownership and all syncs in order if and only if it is not a user deleting a binding that a sync under way is going to delete itself, or that an error-free sync of its owner counts on |
| `BindingBundles.BindingsAreImmutable` | pkg/konnector/controllers/servicebindingbundle/servicebindingbundle_reconcile.go:237-246 | owners and spec of a binding never change while it exists |
| `BindingBundles.NewBindingIsTheBundles` | pkg/konnector/controllers/servicebindingbundle/servicebindingbundle_reconcile.go:248-265 | a binding that appears was made by a user, or by a bundle's sync with that bundle as its one owner and with its secret |
| `BindingBundles.OnlyOwnerDeletes` | pkg/konnector/controllers/servicebindingbundle/servicebindingbundle_reconcile.go:276-287 | in every run in which no user deletes a binding that a sync under way is going to delete, a binding disappears only by the user, or by a bundle that owns it and has no export of its name |
| `BindingBundles.DeletesOwnedUnlessAnticipated` | pkg/konnector/controllers/servicebindingbundle/servicebindingbundle_reconcile.go:276-287 | every step keeps that syncs own what they are going to delete, if and only if it is not such a deletion by a user |
| `BindingBundles.CleanSyncIsExact` | pkg/konnector/controllers/servicebindingbundle/servicebindingbundle_reconcile.go:216-287 | in every undisturbed run an error-free sync ends with its bundle owning exactly its exports not found taken |
| `BindingBundles.RepeatedSyncRetriesTaken` | pkg/konnector/controllers/servicebindingbundle/servicebindingbundle_reconcile.go:216-287 | in every undisturbed run a sync right after a clean one with the same exports deletes nothing and retries only the names found taken |
| `BindingBundles.TakenMeansHeldByOthers` | pkg/konnector/controllers/servicebindingbundle/servicebindingbundle_reconcile.go:268-273 | a name is found taken only while somebody else holds it |
| `BindingBundles.UserDeleteBreaksOwnership` | pkg/konnector/controllers/servicebindingbundle/servicebindingbundle_reconcile.go:276-287 | a run from the start in which, after a user deletes a binding during a sync, a bundle deletes another bundle's binding |
| `BindingBundles.SyncedIsExact` | pkg/konnector/controllers/servicebindingbundle/servicebindingbundle_reconcile.go:216-287 | an error-free undisturbed sync leaves the bundle owning exactly the exports that others do not hold |
| `BindingBundles.SyncedCreatesOwn` | pkg/konnector/controllers/servicebindingbundle/servicebindingbundle_reconcile.go:248-274 | a free name exists after a sync exactly if it is an export whose request succeeds, as the bundle's own binding with its secret |
| `BindingBundles.SyncedKeepsOthers` | pkg/konnector/controllers/servicebindingbundle/servicebindingbundle_reconcile.go:216-287 | bindings of others are untouched, whatever fails |
| `BindingBundles.SyncingAgainIsNoOp` | pkg/konnector/controllers/servicebindingbundle/servicebindingbundle_reconcile.go:216-287 | repeating the sync changes nothing |
| `BindingBundles.UninterruptedIsSynced` | pkg/konnector/controllers/servicebindingbundle/servicebindingbundle_reconcile.go:216-287 | the protocol and the loops agree: a sync of the protocol that nothing interrupts leaves the declarative result, failing requests included |
| `BindingBundles.Consumer.OwnedBindings` | pkg/konnector/controllers/servicebindingbundle/servicebindingbundle_reconcile.go:216-228 | the nested loops find exactly the bindings with an owner reference to the bundle |
| `BindingBundles.Consumer.CreateMissing` | pkg/konnector/controllers/servicebindingbundle/servicebindingbundle_reconcile.go:230-274 | creates exactly the free export names whose request succeeds, and reports the others that failed |
| `BindingBundles.Consumer.DeleteOrphans` | pkg/konnector/controllers/servicebindingbundle/servicebindingbundle_reconcile.go:276-287 | deletes exactly the owned names without export whose request succeeds |
| `BindingBundles.Consumer.SyncAPIServiceBindings` | pkg/konnector/controllers/servicebindingbundle/servicebindingbundle_reconcile.go:216-298 | the loops together compute the declarative result, and report success exactly if no needed request failed |
| `Templates.TemplateNamesAreUnique` | backend/provider/kcp/controllers/apibindingtemplate/reconcile.go:48-55 | template names are injective in binding and scope |
| `Templates.PartitionIsStable` | backend/provider/kcp/controllers/apibindingtemplate/reconcile.go:173-236 | each bound resource stands in its scope's list right after the earlier ones of its scope |
| `Templates.PartitionIsComplete` | backend/provider/kcp/controllers/apibindingtemplate/reconcile.go:173-236 | every bound resource is in exactly one of the lists, with its multiplicity, and nothing else is |
| `Templates.ServedIsListed` | backend/provider/kcp/controllers/apibindingtemplate/reconcile.go:187-192 | a served version is listed right after the served ones before it |
| `Templates.ListedIsServed` | backend/provider/kcp/controllers/apibindingtemplate/reconcile.go:187-192 | every listed version is a served one, in its place |
| `Templates.BoundResourceIsListed` | backend/provider/kcp/controllers/apibindingtemplate/reconcile.go:173-236 | a bound resource is in the template named after the binding and its schema's scope, owned by the binding, under its group and resource and with its served versions |
| `Templates.EnsureOutcome` | backend/provider/kcp/controllers/apibindingtemplate/reconcile.go:127-168 | whatever was there: the template has the given scope and resources and a reference to the binding; an existing one keeps annotation and references |
| `Templates.StepIsOwn` | backend/provider/kcp/controllers/apibindingtemplate/reconcile.go:101-171 | ensuring or pruning for one binding leaves every other binding's templates as they are |
| `Templates.EveryRunIsSeparate` | backend/provider/kcp/controllers/apibindingtemplate/reconcile.go:63-171 | the same in every run without hand-made templates |
| `Templates.ExactlyDesired` | backend/provider/kcp/controllers/apibindingtemplate/reconcile.go:63-97 | desired templates in place and no other of the binding: the binding's templates are exactly the desired ones |
| `Templates.Reconciler.EnsureTemplate` | backend/provider/kcp/controllers/apibindingtemplate/reconcile.go:127-171 | takes the specified step: create, or rewrite scope and resources and add the reference |
| `Templates.Reconciler.DeleteTemplate` | backend/provider/kcp/controllers/apibindingtemplate/reconcile.go:119-121 | takes the specified step: the one template is gone if the request succeeds |
| `Templates.Reconciler.PruneOrphans` | backend/provider/kcp/controllers/apibindingtemplate/reconcile.go:101-125 | deletes only the binding's own undesired templates, all of them on success; succeeds exactly if none of these deletions fails |
| `Templates.Reconciler.EnsureAll` | backend/provider/kcp/controllers/apibindingtemplate/reconcile.go:80-92 | succeeds exactly if no request for a scope in use fails, and then every scope's desired template is in place; other bindings' are untouched in any case |
| `Templates.Reconciler.Reconcile` | backend/provider/kcp/controllers/apibindingtemplate/reconcile.go:63-97 | others' templates are untouched whatever fails; a successful pass on a Bound binding with resources leaves exactly the desired templates; an unbound or empty binding is left alone; it succeeds if all schemas can be read and no request fails |
| `Templates.Group` | backend/provider/kcp/controllers/apibindingtemplate/reconcile.go:173-236 | resolves every bound resource in order, or fails if any schema cannot be read |
| `Templates.ByScope` | backend/provider/kcp/controllers/apibindingtemplate/reconcile.go:173-236 | the accumulated map holds exactly the non-empty scope lists |
| `Claims.IsClaimed` | pkg/resources/resources.go:167-182 | the nested early-exit loops equal the plain existential predicate; a missing object or empty selector selects nothing |
| `Claims.MatchesNamedResources` | pkg/resources/resources.go:67-82 | true exactly if some named resource has the name and no or the same namespace |
| `Claims.MatchesReferences` | pkg/resources/resources.go:84-163 | true exactly if some reference matches from some referrer |
| `Claims.MatchesReference` | pkg/resources/resources.go:106-160 | the innermost loop equals one match condition on name and namespace |
| `Claims.SingleSelects` | pkg/resources/resources.go:44-82 | a single label selector claims what it matches, a single named resource the objects of its name in its namespace or, if it has none, in all, and an empty selector nothing |
| `Claims.SingleReferenceSelects` | pkg/resources/resources.go:106-160 | a single reference claims the objects named at its path of names, in a namespace at its path of namespaces; with nothing there in any, and without that path in the referrer's under namespaced isolation and in any otherwise |
| `Claims.SelectorsAreAlternatives` | sdk/apis/kubebind/v1alpha2/apiserviceexportrequest_types.go:162-164 | the code's reading: a selector claims exactly what its three parts claim on their own, together |
| `Claims.OneKindIsAnded` | sdk/apis/kubebind/v1alpha2/apiserviceexportrequest_types.go:162-164 | for a selector that sets at most one kind, the code's reading and the documented one (every kind that is set must pick the object) agree on all objects, referrers and isolations |
| `Claims.SeveralKindsAreNotAnded` | sdk/apis/kubebind/v1alpha2/apiserviceexportrequest_types.go:162-164 | for every other selector there is an object that the code claims and the documented reading does not, under any isolation |
| `Claims.ClaimedDependsOnSets` | pkg/resources/resources.go:67-182 | order and repetition of named resources, references and referrers do not matter |
| `Claims.ClaimedIsMonotone` | pkg/resources/resources.go:84-182 | more referrers can only claim more |
| `Claims.SidesAgree` | pkg/resources/resources.go:187-286 | with distinct status namespaces, the provider's decision on an object in a mapped namespace equals the consumer's on its counterpart, for every selector; on an unmapped one it equals the consumer's on the same object |
| `Claims.RemapFinds` | pkg/resources/resources.go:268-281 | with distinct statuses a mapped namespace is remapped to its own consumer namespace |
| `Claims.SingleReferenceLists` | pkg/resources/resources.go:209-249 | a single reference lists nothing unless exported or without isolation, else its own versions, else those of the first export of its group-resource |
| `Claims.FailedListsClaimNothing` | pkg/resources/resources.go:243-267 | nothing is claimed when a list of referrers fails or, on the provider, that of namespaces |
| `Claims.GatherIsUnion` | pkg/resources/resources.go:204-251 | when whatever a reference could take over from its neighbour is listed anyway, what is gathered is the union of what each reference lists itself, and it fails exactly if some list of theirs fails |
| `Claims.DecisionDependsOnSets` | pkg/resources/resources.go:187-286 | under that condition on the set of references the whole decision ignores their order and repetition |
| `Claims.NotClosedDependsOnOrder` | pkg/resources/resources.go:201-228 | whenever the condition fails, the same references in two orders decide differently, for some lister and every object |
| `Claims.IsolatedIsClosed` | pkg/resources/resources.go:209-216 | with any isolation but None the condition always holds |
| `Claims.CarriedVersionsDependOnOrder` | pkg/resources/resources.go:201-228 | without isolation, two references list different objects in the two orders, and an object that one of these refers to is claimed in one order only |
| `Claims.IsReferenceAllowed` | pkg/resources/resources.go:288-300 | true exactly without isolation or for an exported group-resource |
| `Claims.FindVersions` | pkg/resources/resources.go:218-228 | versions of the reference, else of the first matching export resource, else carried over |
| `Claims.GatherReferrers` | pkg/resources/resources.go:203-251 | the loops with the carried variable equal the recursive gathering |
| `Claims.RemapNamespace` | pkg/resources/resources.go:268-281 | the first ready service namespace with that status, else the namespace itself |
| `Claims.IsClaimedWithReference` | pkg/resources/resources.go:187-286 | equals the declarative decision on either side, list errors included |
| `Rbac.BuildPolicyRules` | backend/controllers/serviceexportrbac/rbac_reconciler.go:77-97 | rules are taken from the input, one for each text, in ascending order of texts, whatever order the map is walked in |
| `Rbac.RulesListEachOnce` | backend/controllers/serviceexportrbac/rbac_reconciler.go:77-97 | with dot-free resource names each group-resource is listed exactly once and nothing else is |
| `Rbac.RulesCompleteIff` | backend/controllers/serviceexportrbac/rbac_reconciler.go:77-97 | no group-resource goes without a rule if and only if their texts differ |
| `Rbac.RulesDependOnSet` | backend/controllers/serviceexportrbac/rbac_reconciler.go:77-129 | the rules are the same list for any two inputs with the same group-resources |
| `Rbac.DottedNamesCollide` | sdk/apis/kubebind/v1alpha2/apiserviceexportrequest_types.go:235-237 | with a dot in a resource name, two group-resources share a text and one loses its rule |
| `Rbac.AscendingIsUnique` | backend/controllers/serviceexportrbac/rbac_reconciler.go:79-79 | sorted lists of the same keys are the same list |
| `Rbac.SplitClaims` | backend/controllers/serviceexportrbac/rbac_reconciler.go:99-121 | the loops sort the claims by scope, skipping those that are not claimable |
| `Rbac.AllowedClaimsHaveOneScope` | sdk/apis/kubebind/v1alpha2/claimable_apis.go:38-81 | every claim that passes validation is in the rules of exactly one scope |
| `Rbac.OneReconcileConverges` | backend/controllers/serviceexportrbac/rbac_reconciler.go:175-221 | one error-free reconcile brings every object of the export to its desired fields and leaves all other objects alone |
| `Rbac.ReconciledObjects` | backend/controllers/serviceexportrbac/rbac_reconciler.go:131-221 | after a reconcile, by name: the roles for exported resources and for claims with their rules, label and owner, the aggregating role bound to the export's namespace, and with namespaced scope the claims' role and binding in every ready namespace |
| `Rbac.OtherNamespacesAreLeft` | backend/controllers/serviceexportrbac/rbac_reconciler.go:204-221 | with cluster scope, or in a namespace that is not ready, no role or binding is touched |
| `Rbac.NextReconcileWritesNothingIff` | backend/controllers/serviceexportrbac/rbac_reconciler.go:229-443 | the next reconcile writes nothing if and only if no empty rule list is written that the API reads back as absent |
| `Rbac.NamespacedScopeNeverSettles` | sdk/apis/kubebind/v1alpha2/claimable_apis.go:38-81 | with namespaced scope, validated claims and an API that reads empty rules back as absent, every reconcile writes again |
| `Rbac.PlanIsCoherent` | backend/controllers/serviceexportrbac/rbac_reconciler.go:175-221 | no object is ensured in two ways in one reconcile |
| `Rbac.Reconciler.EnsureObject` | backend/controllers/serviceexportrbac/rbac_reconciler.go:410-443 | creates, updates or leaves one object, counting writes |
| `Rbac.Reconciler.EnsurePerNamespace` | backend/controllers/serviceexportrbac/rbac_reconciler.go:209-221 | role and binding for every service namespace with a status, in order |
| `Rbac.Reconciler.ReconcileExport` | backend/controllers/serviceexportrbac/rbac_reconciler.go:175-226 | carries out exactly the planned objects, in order, for either scope |
| `Sessions.MemoryStore.Save` | backend/session/memory/memory.go:46-51 | the session replaces the one of its id, and is what is loaded for it until the next save or deletion |
| `Sessions.MemoryStore.Load` | backend/session/memory/memory.go:53-61 | over the whole history of saves and deletions: the session last saved for the id and not deleted since, expired or not |
| `Sessions.MemoryStore.Delete` | backend/session/memory/memory.go:63-68 | afterwards nothing is loaded for the id, and what is loaded for any other id is unchanged |
| `Sessions.MemoryStore.SavePKCEVerifier` | backend/session/memory/memory.go:70-81 | refuses empty arguments, else stores with a ten-minute deadline |
| `Sessions.MemoryStore.LoadAndDeletePKCEVerifier` | backend/session/memory/memory.go:83-101 | hands out an unexpired verifier, and removes it expired or not |
| `Sessions.MemoryStore.IsValidSession` | backend/auth/middleware.go:204-210 | true exactly if the session last saved for the id, and not deleted since, expires later |
| `Sessions.KeysAreSeparate` | backend/session/redis/redis.go:32-38 | session and verifier keys share one keyspace injectively and never meet |
| `Sessions.RedisStore.Save` | backend/session/redis/redis.go:60-82 | stores with the session's expiry as deadline, none for the zero time, and not at all if already expired; verifiers are untouched |
| `Sessions.RedisStore.Load` | backend/session/redis/redis.go:84-102 | the session of the id unless evicted |
| `Sessions.RedisStore.Delete` | backend/session/redis/redis.go:104-111 | the id's session is gone, all else stays |
| `Sessions.RedisStore.SavePKCEVerifier` | backend/session/redis/redis.go:113-125 | refuses empty arguments, else stores with a ten-minute deadline; sessions are untouched |
| `Sessions.RedisStore.LoadAndDeletePKCEVerifier` | backend/session/redis/redis.go:127-145 | called alone, hands out an unexpired verifier and removes it |
| `Sessions.AgreeUntilExpiredSave` | backend/session/redis/redis.go:60-102 | the expiring and the never-evicting store agree on all ids now and later until exactly the save of an expired session over a valid one |
| `Sessions.SaveAndDeleteOutcome` | backend/session/redis/redis.go:60-111 | an unexpired session that is saved is valid in both stores exactly until it expires, a deleted one in neither, and others as before |
| `Sessions.SameAnswersInEveryRun` | backend/session/redis/redis.go:60-111 | in every run with a monotone clock and no such save, the session check answers alike over both stores |
| `Sessions.SameAnswersWhenSavedUnexpired` | backend/session/redis/redis.go:60-111 | in particular in every run that saves only unexpired sessions |
| `Sessions.AnswersCanDiffer` | backend/session/redis/redis.go:67-74 | a run, for any id and times, after which Redis still answers valid and memory does not |
| `Login.VerifiersAreHandedOnce` | backend/auth/handler.go:115-214 | in every interleaving a saved verifier is handed out at most once, to its own id, and never later than ten minutes after saving |
| `Login.CallbackIsHandedIff` | backend/auth/handler.go:115-214 | in every run the first callback after an authorize call of its id is handed that call's verifier if and only if at most ten minutes have passed, and the verifier is gone either way |
| `Login.ExchangeOutcome` | backend/auth/handler.go:216-229 | an exchange that succeeds leads to a session that expires a lifetime later, one that fails to none |
| `Login.SessionsComeFromExchanges` | backend/auth/handler.go:216-236 | in every run a stored session goes back to an exchange for its id and expires the lifetime after it |
| `Login.SessionsNeverOutnumberAuthorizes` | backend/auth/handler.go:208-236 | in every interleaving the sessions saved for an id never outnumber its authorize calls |
| `Login.VerifyPassesIff` | backend/auth/middleware.go:164-201 | a request passes exactly if it names a session, subject and issuer, its own expiry has not passed, and the stored session expires later |
| `Login.RunsIffAuthorized` | backend/auth/middleware.go:212-235 | a request that passed runs exactly if it is authorized, and once |
| `Login.DeletedNeverPasses` | backend/session/memory/memory.go:63-68 | in every run no session of a deleted id is found until one is saved |
| `Login.HandlersRunOnlyOnValidSessions` | backend/auth/middleware.go:164-235 | in every run a handler runs only after a check that read, in time, the session then last saved for its id; and it runs within the life of the session last saved when it runs if and only if it runs before the expiry the check read or, if one was saved in between, before the last one's |
| `Login.ImmediateHandlersRunInTime` | backend/auth/middleware.go:189-199 | a handler that runs at the time of its check, with no session saved in between, runs within the life of the last saved session |
| `Login.HandlerCanRunLate` | backend/auth/middleware.go:189-199 | a run, for any lifetime and any later moment, in which a handler runs after its session has expired |
| `Login.VerifierStepsUseTheStore` | backend/auth/handler.go:115-127 | authorize and callback change and read verifiers exactly as the memory store's methods do |
| `Committer.PatchRoundTrip` | pkg/committer/committer.go:95-114 | the patch computed from one null-free object to another turns the first into the second, also where the target already holds the identifiers |
| `Committer.DiffMemberIff` | pkg/committer/committer.go:109-112 | the patch mentions exactly the members that change |
| `Committer.DiffEmptyIff` | pkg/committer/committer.go:109-112 | the patch is empty if and only if nothing changes |
| `Committer.AcceptedIffCurrent` | pkg/committer/committer.go:89-122 | the server accepts the patch if and only if uid and version are those it was computed from, and then stores exactly the object asked for |
| `Committer.AcceptedIffReadCurrent` | pkg/committer/committer.go:57-128 | in a serial history, a commit is written if and only if its committer had read the stored version and changed exactly one half; otherwise nothing changes |
| `Committer.EveryRunIsSerial` | pkg/committer/committer.go:57-128 | in every interleaving of committers with stale reads and of other writers, each accepted commit was computed from exactly the version it replaced |
| `Committer.FinalObjectIsSerial` | pkg/committer/committer.go:57-128 | the stored object is the serial application of the accepted writes, and no commit changes both status and spec or metadata |
| `Committer.StoredIsReplay` | pkg/committer/committer.go:74-84 | every version in the history is the replay of the log up to it, each edit touching only its half |
| `Committer.Server.Commit` | pkg/committer/committer.go:57-128 | panics exactly on a change of both halves, sends nothing exactly without a change, is accepted exactly under the stored identity, and changes nothing otherwise |
| `ContextStore.EveryRunConserves` | pkg/konnector/controllers/contextstore/contextstore.go:76-126 | in every run each context ever stored is still stored, or was cancelled exactly once, or was overwritten: exactly one of the three |
| `ContextStore.StoredIsLastSet` | pkg/konnector/controllers/contextstore/contextstore.go:89-94 | in every run what is stored under a key is what the last set for it brought, generation included |
| `ContextStore.KeysDifferWithoutDots` | pkg/konnector/controllers/contextstore/contextstore.go:33-38 | keys of dot-free parts are equal if and only if all parts are |
| `ContextStore.PrefixCoversIff` | pkg/konnector/controllers/contextstore/contextstore.go:33-38 | an export's prefix covers a key exactly in the same namespace when the rest starts with the export's name |
| `ContextStore.PrefixCoversLongerNames` | pkg/konnector/controllers/contextstore/contextstore.go:33-38 | so it covers all keys of an export with a longer name |
| `ContextStore.BulkDeleteCanHitAnother` | pkg/konnector/controllers/contextstore/contextstore.go:105-126 | a run in which deleting the contexts of one export cancels that of an export with a longer name |
| `ContextStore.Store.Set` | pkg/konnector/controllers/contextstore/contextstore.go:89-94 | takes the specified step; what was stored under the key is overwritten uncancelled |
| `ContextStore.Store.Delete` | pkg/konnector/controllers/contextstore/contextstore.go:96-103 | takes the specified step: removed and cancelled, if it was there |
| `ContextStore.Store.Get` | pkg/konnector/controllers/contextstore/contextstore.go:69-74 | the context stored under the key, if there is one, labelled with that key |
| `ContextStore.Store.ListPrefixed` | pkg/konnector/controllers/contextstore/contextstore.go:76-87 | lists exactly the contexts with the prefix, each once |
| `ContextStore.Store.BulkDeletePrefixed` | pkg/konnector/controllers/contextstore/contextstore.go:105-126 | cancels and removes exactly what it lists, each once, and keeps the rest |

## Left out

- Liveness of a Pending request: an already existing export returns without setting the phase, so a
  request may stay Pending; only safety is stated.
- Dotted resource names in `ExportSync`: plural names are taken to hold no dot, as Kubernetes requires.
- Deletion of cluster namespaces in `Tenancy`. Empty identities are left out of the claim that namespaces are
  exclusive; `Tenancy.AcceptsOnlyOwner` says what the check does with one.
- The rest of HandleResources: service accounts, kubeconfig secrets and the ClusterBinding.
- Stale listings of bindings in `BindingBundles`: a sync sees the bindings as they are when it begins.
- Hand-made templates in `Templates`.
- RBAC across several consumer namespaces, stale caches and failing requests in `Rbac`: the shared
  ClusterRoleBinding's subjects are replaced by each export's reconcile, so convergence is per export.
  An unknown informer scope is not modelled.
- Rbac.Reconciler.EnsureObject: compares the modelled fields only; verbs and the fixed names of
  subjects are not part of the model.
- Subjects, issuers and groups of a session, and the authorization itself: flags.
- Redis PKCE verifiers: load and delete are two requests there, so the at-most-once claim is for the memory
  store. Redis's rounding of short lifetimes is not modelled either.
- Null values in committed objects; semantic equality of nil and empty collections; creation and deletion of
  the object by a committer. Deletion by others is part of `Committer.Other`.
- Cryptography, OIDC exchange, JWT, cookies, msgpack, gjson, label selectors, kubeconfig parsing and hashes:
  arbitrary functions or flags.
- ContextStore.Store.Set: each call is taken to bring its own cancel function, as its callers do.
- Conditions and messages other than ProviderInSync, APIServiceNamespaces created by a request, and the
  export's own hash annotation at creation.
- HTTP routing, the web UI, CLI plugins, options, bootstrap and deployment code, generated clients.
