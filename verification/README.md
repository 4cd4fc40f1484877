# Dynamic route provisioner: a verified model

This project models the control plane of the dynamic route provisioner in Dafny and proves what it
keeps, step by step and over whole runs. `dafny verify dfyconfig.toml` checks all of it.

The parts, and the files that hold them:

- **The Ingress gateway.** Routes are packed as rules into Ingresses of bounded size and edited by JSON
  Patches (RFC 6902) whose indices come from a listed snapshot. `kube.dfy` is the API: a map from names
  to Ingresses, patches that apply as a whole or not at all, lists that are left out of the document
  when empty, calls that may fail before or after they take effect. `ingress_plan.dfy` says which calls
  each operation makes of a listing, and what each patch does to an Ingress; `ingress_provisioner.dfy`
  has the provisioner's loops and proves each method to carry out a prefix of that plan, all of it when
  it returns without error. On top: the flat route table a packed store stands for (`merge.dfy`,
  `ingress_table.dfy`, `ingress_filter.dfy`, `ingress_store.dfy`), what the table holds of a request
  (`ingress_request.dfy`), bin packing (`packing.dfy`), batches
  cut off anywhere (`ingress_batch.dfy`), runs of operations (`ingress_runs.dfy`), what List reports
  (`ingress_list.dfy`), TLS (`ingress_tls.dfy`), and runs that meet the failing conditions
  (`ingress_witness.dfy`). `mapper.dfy` has the names derived from hosts.
- **Reconciliation.** `diff.dfy` and `reconciler.dfy` have the cycle itself, over either gateway;
  `log_gateway.dfy` the in-memory gateway; `log_convergence.dfy` and `ingress_convergence.dfy` the
  convergence results, `ingress_stuck.dfy` where there is no convergence, and `ingress_order.dfy` what an
  API that always lists in one order adds to that; `event_handler.dfy` the handling of one event;
  `http_source.dfy` the HTTP source with its event channel that drops.
- **Concurrency.** `lease.dfy` is the lease protocol: any number of instances with their own clocks,
  every operation sent, served and answered in separate steps. `orchestrator.dfy` is one leadership term
  of the event loop, the periodic loop and the mutex. `trigger.dfy` is the fan-in of triggers.
- **Certificate caches.** `cert_cache.dfy` has the caches in Kubernetes Secrets and in Vault,
  `file_cache.dfy` the one in files.

`core.dfy` and `text.dfy` hold the shared records and decimal numerals.

Some results say what the code does *not* do. Each is proved with the exact condition:

- Removing routes in a batch replaces `/spec/tls`. In an Ingress that has no TLS entry that path does
  not exist, so the patch is refused (`IngressStore.BatchDeprovisionIsFilter`). Reconciliation only logs
  the error. An unwanted host therefore survives every run of cycles, whatever succeeds or fails in
  them, exactly if some Ingress holds it that has no TLS entry and would keep another rule
  (`IngressStuck.StaysIff`); one at a time the same removals succeed
  (`IngressTls.BatchRemovalWithoutTls`). That is for an API that may list in any order. Where it always
  lists in one, the removal never gets past the first such Ingress: a cycle can rid the cluster of the
  host exactly if no Ingress that holds it is, or is listed after, one that resists
  (`IngressOrder.OneCycleInOrderIff`), and where wanted and unwanted hosts share no identifier the same
  decides all runs (`IngressOrder.StaysInOrderIff`).
- For the same reason a route with TLS cannot join an Ingress that has no TLS entry
  (`IngressTls.FirstTlsIsRefused`, `IngressWitness.TlsRefusedRun`). A cycle's additions can succeed exactly
  if all its routes map and some listing, sorted by load, has the names of new Ingresses free and packs no
  such route into a plain Ingress (`IngressStuck.AdditionPossibleIff`). The sorting matters: a cluster
  reached by two successful operations refuses a route with TLS that its fuller Ingress would take
  (`IngressStuck.SortedOrderRefuses`, `IngressStuck.PlainEmptierRun`). One desired route without backends that is not there yet keeps
  every other host from being added, in every later cycle too (`IngressStuck.BadRouteBlocksAll`).
- New Ingresses are named by the number of listed ones. With TLS everywhere an operation succeeds exactly
  if none of the names it creates is taken (`IngressTls.SucceedsIff`); three operations from an empty
  cluster lead to a taken one (`IngressWitness.GapRun`).
- An update keeps the store well-formed exactly if it leaves no TLS entry of another host behind
  (`IngressStore.ProvisionKeepsIff`); a route with TLS and one without, for "a.b" and "a-b", do leave one
  (`IngressWitness.ClashRun`, `IngressWitness.DotAndDash`).
- A delete event removes the route it was created with exactly if the source's identifier is the one the
  route is stored under (`EventHandling.LogDeleteIff`, `EventHandling.IngressDeleteIff`); over both gateways
  there are routes it leaves behind (`EventHandling.LogDeleteMisses`, `IngressWitness.DeleteMissesRun`).
- The log gateway converges from any table if no effective identifier is desired for two hosts
  (`LogConvergence.Converges`); from empty, and for desired routes with hosts of their own, exactly then
  (`LogConvergence.ConvergesIff`). Where a host is desired more than once there is no such condition on the
  set of desired routes: the order they are listed in decides (`LogConvergence.OrderDecides`).
- A host has a cache key of its own, before any cut, exactly if it has no dash and no "wildcard" in it
  (`Mapper.CleanIff`); such a host has a Secret name of its own exactly if the name stays below 253
  characters (`Mapper.SecretNameIff`, `Mapper.DefaultSecretNameIff`); and one host is handed another's
  certificate exactly if the two share a key (`CertCache.WrongHostIff`).
- A certificate stored in files comes back exactly if it brings its own CA or finds none left over
  (`FileCache.RoundTripIff`). Storing is atomic exactly over a directory without readable metadata and
  without such a CA (`FileCache.CommitPointIff`); elsewhere a store that stops leaves the old metadata
  with whatever PEM files are there (`FileCache.StoppedLoads`). A cache hit still never returns such a
  mixture (`FileCache.HitIsCompleteStore`), unless a Revoke has stopped part-way over a valid certificate:
  that is harmless exactly if it took the metadata, or left both PEM files and the certificate's own CA,
  for a directory (`FileCache.PartialRemovalIff`) and for a run however it goes on
  (`FileCache.HarmlessIff`). A read that fails over a valid certificate does the same harm exactly if the store
  that follows has begun and stops before the metadata (`FileCache.CallHarmlessIff`, `FileCache.UnreadMixes`).

The comment on the composite trigger (`core/trigger/composite.go:35-37`) speaks of the first non-context
error, and of returning when the context is cancelled; the code waits for every child and keeps the first
error seen while the context is live, whatever kind of error it is. The model follows the code.

## Model

| member | source | states |
|---|---|---|
| LeaseDocument.MongoLeaderElector.TryAcquire | impl/lease-mongo/elector.go:102-132 | an answered call takes the lease, for its full duration, if it is free, lapsed at the caller's stamp or already the caller's, expired or not; otherwise a duplicate key is a loss and nothing changes; a failed call may or may not have been applied |
| LeaseDocument.MongoLeaderElector.TryRenew | impl/lease-mongo/elector.go:156-174 | an answered call extends the expiry of a lease the caller holds to the full duration from its stamp, and touches no other |
| LeaseDocument.MongoLeaderElector.Release | impl/lease-mongo/elector.go:177-183 | removes the lease only if the caller holds it |
| LeaseProtocol.MutualExclusion | impl/lease-mongo/elector.go:49-99 | in every state of every timely run of any number of instances, at most one is leading or has its callback running, and it is the document's holder |
| LeaseProtocol.ExclusionIff | impl/lease-mongo/elector.go:49-174 | exclusion holds in all timely runs if and only if renewal delay + drain time + clock skew <= lease duration; otherwise a concrete run with two active leaders |
| LeaseProtocol.LateDrainRun | impl/lease-mongo/elector.go:72-85 | the counter-run: a late cancelled, slowly draining leader and a second instance whose clock is ahead |
| LeaseProtocol.NoTakeover | impl/lease-mongo/elector.go:102-129 | while an instance is active no other instance's pending acquire can obtain the lease |
| LeaseProtocol.InvStep | impl/lease-mongo/elector.go:49-183 | every step of every instance keeps the protocol invariant |
| LeaseProtocol.HolderLosesLease | impl/lease-mongo/elector.go:102-183 | with no timing assumption, a step takes the lease from its holder exactly if it acquires past the stored expiry or is the holder's own release |
| LeaseProtocol.HolderChange | impl/lease-mongo/elector.go:102-183 | between two states with different holders lies an expiry takeover from the first or its own release |
| LeaseProtocol.OthersUntouched | impl/lease-mongo/elector.go:156-183 | no instance's renew or release alters a lease that another holds |
| LeaseProtocol.ReleaseAfterCallback | impl/lease-mongo/elector.go:75-85 | whatever fails and whatever the clocks, an instance releases only after its own callback has returned |
| LeaseProtocol.AcquireServed | impl/lease-mongo/elector.go:102-129 | the reply to an instance's acquire is yes, and it is the holder, exactly if there is no lease, the lease is its own, or the lease has expired; otherwise no, and the lease stays |
| LeaseProtocol.RenewServed | impl/lease-mongo/elector.go:156-174 | a renewal is granted exactly to the holder, for the full duration from its stamp |
| LeaseProtocol.WaitingCanLead | impl/lease-mongo/elector.go:49-69 | a waiting instance that finds the lease free, its own or expired leads after one answered attempt |
| LeaseProtocol.LeaderCanRenew | impl/lease-mongo/elector.go:136-152 | an answered renewal keeps the leader leading |
| LeaseProtocol.DrainedGivesBack | impl/lease-mongo/elector.go:75-98 | an instance whose callback has returned gives the lease back and waits again, or stops |
| CompositeTrigger.FanInOutcome | core/trigger/composite.go:38-63 | a returned Start means all children returned; its error is one child's own error, heard while the context was live; nil without cancellation means every child returned nil |
| CompositeTrigger.OutcomeStable | core/trigger/composite.go:48-62 | nothing Start returned is revised by steps that come later |
| CompositeTrigger.InvHolds | core/trigger/composite.go:42-60 | the once-guard, the first error and the cancellation agree in every reachable state |
| CompositeTrigger.NeverStuck | core/trigger/composite.go:42-63 | once every child has come back, until Start has returned some step of its own is possible |
| CompositeTrigger.StepsRunOut | core/trigger/composite.go:42-63 | and there are only so many of them |
| Orchestrator.OneHandlerAtATime | core/orchestrator/orchestrator.go:103-190 | in every interleaving at most one of the event loop, the periodic loop and the unlocked initial reconciliation is inside a handler |
| Orchestrator.SerialOrder | core/orchestrator/orchestrator.go:139-190 | gateway accesses of different handlers never interleave; each access starts from what the one before left |
| Orchestrator.WritesFollowLists | core/orchestrator/orchestrator.go:176-225 | in every interleaving, for gateway calls of the form the Ingress gateway's methods are proved to keep to, every write follows a List of its own handler with only that handler's writes in between |
| Orchestrator.NoStaleSnapshot | core/orchestrator/orchestrator.go:103-190 | a listed snapshot still equals the gateway when its handler next writes |
| Orchestrator.DegradesToReconciliation | core/orchestrator/orchestrator.go:144-152 | after the trigger has failed no event is handled again |
| Orchestrator.TermGoesOn | core/orchestrator/orchestrator.go:104-126 | after the initial reconciliation the trigger is listened to and the periodic loop runs, if configured |
| Orchestrator.NextIsHandled | core/orchestrator/orchestrator.go:139-178 | while the mutex is free an event is handled next, and a tick reconciles, also after the trigger has failed |
| Orchestrator.EventCanBeHandled | core/orchestrator/orchestrator.go:176-225 | handling a created, updated or deleted event can go through to its write of the gateway and end |
| Orchestrator.ReconciliationCanFinish | core/reconciler/reconciler.go:36-99 | a reconciliation can list, remove, issue, add and end |
| Orchestrator.DoneUnlocks | core/orchestrator/orchestrator.go:164-178 | a handler that is done gives the mutex back |
| EventHandling.Orchestrator.HandleEvent | core/orchestrator/orchestrator.go:176-225 | created and updated provision, with a certificate if TLS is wanted and not at all if it cannot be had; deleted deprovisions the source's identifier; anything else does nothing; over Ingresses a call is made exactly for a ready event, lists once and first, and fails exactly if one of its requests does |
| EventHandling.Orchestrator.ProvisionRoute | core/orchestrator/orchestrator.go:192-218 | the issuer is asked exactly for TLS routes, and its failure leaves the gateway alone |
| EventHandling.LogEventIs | core/orchestrator/orchestrator.go:182-190 | over the log gateway a created and an updated event alike leave the ready route stored under its identifier, or host, with the certificate obtained, and nothing else changed; one without its certificate, and any other kind, change nothing |
| EventHandling.IngressEventIs | core/orchestrator/orchestrator.go:182-190 | over Ingresses a successful created or updated event leaves the route served and the rest of the table as it was; one that is not ready, and any other kind, change nothing |
| EventHandling.LogDeleteIff | core/orchestrator/orchestrator.go:220-225 | over the log gateway a delete event undoes the creation iff the route has an identifier of its own (or no host) |
| EventHandling.IngressDeleteIff | core/orchestrator/orchestrator.go:220-225 | over the Ingress gateway a successful delete event leaves the route out iff it was not there or its identifier is the derived one |
| EventHandling.LogDeleteMisses | core/orchestrator/orchestrator.go:220-225 | a route without identifier is created and deleted, and is still there |
| Kube.KubeApi.List | impl/provisioner-ingress/provisioner.go:383-391 | an answered listing names every managed Ingress once |
| Kube.KubeApi.Send | impl/provisioner-ingress/provisioner.go:426-440 | a call takes effect as the server defines it or not at all; its answer may be lost |
| Kube.ApplyPatchConcat | impl/provisioner-ingress/provisioner.go:563-577 | a patch is applied operation after operation, all or nothing |
| Kube.ServeAllConcat | impl/provisioner-ingress/provisioner.go:282-305 | a sequence of calls served in two parts is the sequence served at once |
| IngressPlan.MapRoutes | impl/provisioner-ingress/provisioner.go:202-216 | mapping succeeds iff each route maps, and keeps order and number |
| IngressPlan.Find | impl/provisioner-ingress/provisioner.go:88-94 | finds a rule with the identifier, or there is none in the listing |
| IngressPlan.FindEntry | impl/provisioner-ingress/provisioner.go:474-481 | the first TLS entry that names the host |
| IngressPlan.FindRoom | impl/provisioner-ingress/provisioner.go:393-400 | the first Ingress below capacity |
| IngressPlan.AddOpsEffect | impl/provisioner-ingress/provisioner.go:443-463 | adding rules and TLS entries appends both, and fails exactly if entries are added where there are none |
| IngressPlan.UpdateOpsEffect | impl/provisioner-ingress/provisioner.go:496-526 | the update patch replaces the rule and its TLS entry, and fails exactly if it adds the first TLS entry |
| IngressPlan.RemoveOpsEffect | impl/provisioner-ingress/provisioner.go:466-484 | the index-based removal always applies and takes out just the rule and its host's TLS entry |
| IngressPlan.ReplaceOpsEffect | impl/provisioner-ingress/provisioner.go:487-493 | replacing both lists fails exactly if there is no TLS entry |
| IngressGateway.SortByLoad | impl/provisioner-ingress/provisioner.go:223-226 | the listing, permuted, most room first |
| IngressGateway.IngressProvisioner.PatchAddRules | impl/provisioner-ingress/provisioner.go:443-463 | sends the patch that appends the rules and entries |
| IngressGateway.IngressProvisioner.PatchRemoveRule | impl/provisioner-ingress/provisioner.go:466-484 | sends the patch that removes rule and TLS entry by index |
| IngressGateway.IngressProvisioner.UpdateRule | impl/provisioner-ingress/provisioner.go:496-526 | sends the patch that replaces rule and TLS entry by index |
| IngressGateway.IngressProvisioner.CreateIngressWithRules | impl/provisioner-ingress/provisioner.go:405-432 | creates the Ingress of the given number with the rules in it |
| IngressGateway.IngressProvisioner.FindRule | impl/provisioner-ingress/provisioner.go:88-94 | the nested search loops find the first rule with the identifier |
| IngressGateway.IngressProvisioner.FindWithCapacity | impl/provisioner-ingress/provisioner.go:393-400 | the loop finds the first Ingress below capacity |
| IngressGateway.IngressProvisioner.Provision | impl/provisioner-ingress/provisioner.go:66-119 | a mapping error sends nothing; otherwise at most the planned call took effect, and without error it did; the result names its Ingress, without certificate on an update; the API is listed once, before the write; an API error is reported exactly if a request failed; on a well-formed store a success leaves the request served and the rest of the table as it was |
| IngressGateway.IngressProvisioner.PlaceRoute | impl/provisioner-ingress/provisioner.go:88-119 | updates the route's rule where there is one, or else appends to the first Ingress with room or creates one |
| IngressGateway.ProvisionReports | impl/provisioner-ingress/provisioner.go:88-119 | the result names identifier, host and Ingress, and the certificate's host exactly for a route that was not there |
| IngressRequest.MapsIff | cmd/routes-provisioner/internal/provisioner/ingress_mapper.go:52-94 | a route fails to map exactly if it has no backends; otherwise it maps to its own host and path, "/" for none, its first backend's service and port, and, if wanted, TLS for exactly its host |
| IngressRequest.ProvisionProvides | impl/provisioner-ingress/provisioner.go:66-119 | a served Provision leaves the table with the request's host, path, backend and TLS under its identifier and every other entry as it was, whatever was there |
| IngressRequest.MapsAll | impl/provisioner-ingress/provisioner.go:202-216 | a batch fails to map exactly if some route has no backends |
| IngressRequest.BatchProvides | impl/provisioner-ingress/provisioner.go:195-309 | a served BatchProvision does so for each of its new requests, and adds nothing else |
| IngressGateway.IngressProvisioner.Deprovision | impl/provisioner-ingress/provisioner.go:123-154 | at most the planned call took effect, and without error all of the plan did; not finding the route is success; the API is listed once, before the write; an error is reported exactly if a request failed |
| IngressGateway.IngressProvisioner.List | impl/provisioner-ingress/provisioner.go:158-188 | reports every rule of every managed Ingress, in listing order |
| IngressGateway.IngressProvisioner.ListOne | impl/provisioner-ingress/provisioner.go:165-185 | the routes of one Ingress, in the order of its rules |
| IngressGateway.IngressProvisioner.CollectTlsHosts | impl/provisioner-ingress/provisioner.go:528-536 | exactly the hosts some TLS entry names |
| IngressGateway.IngressProvisioner.MapAll | impl/provisioner-ingress/provisioner.go:202-216 | maps all routes or returns the first error |
| IngressGateway.IngressProvisioner.PackExisting | impl/provisioner-ingress/provisioner.go:235-252 | the cursor loop fills listed Ingresses as the packing says |
| IngressGateway.IngressProvisioner.CreateForRest | impl/provisioner-ingress/provisioner.go:256-280 | the loop over new Ingresses carries out a prefix of the plan, and all creates without error |
| IngressGateway.IngressProvisioner.ApplyBatches | impl/provisioner-ingress/provisioner.go:283-305 | patches the listed Ingresses in order after the creates, and the results line up with the requests |
| IngressGateway.IngressProvisioner.BatchProvision | impl/provisioner-ingress/provisioner.go:195-309 | a prefix of the plan for a listing sorted by load took effect, all of it without error; the API is listed once, before all writes; an API error is reported exactly if a request failed; new requests with identifiers of their own are all served; each result reports its request and the Ingress of its batch |
| IngressGateway.IngressProvisioner.BatchDeprovision | impl/provisioner-ingress/provisioner.go:313-373 | a prefix of the removals took effect, all of them without error; the API is listed once, before all writes; an error is reported exactly if a request failed |
| IngressGateway.IngressProvisioner.RulesToKeep | impl/provisioner-ingress/provisioner.go:331-338 | the loop keeps the other rules in order and collects the removed hosts |
| IngressGateway.IngressProvisioner.TlsToKeep | impl/provisioner-ingress/provisioner.go:345-356 | the loop drops removed hosts from TLS entries, and entries left empty |
| IngressGateway.PermutedListing | impl/provisioner-ingress/provisioner.go:224-226 | any order of a listing is a listing of the same cluster |
| IngressTable.UpdateRoutes | impl/provisioner-ingress/provisioner.go:496-526 | an update in place is insert-or-replace on the Ingress's routes |
| IngressTable.UpdateTidy | impl/provisioner-ingress/provisioner.go:501-519 | an update keeps every TLS entry single, unique and backed by a rule |
| IngressTable.StaleTls | impl/provisioner-ingress/provisioner.go:501-519 | where the condition fails, the update does leave a TLS entry without rule |
| IngressTable.AppendRoutes | impl/provisioner-ingress/provisioner.go:443-463 | appending rules with new identifiers is union of the routes |
| IngressTable.RemoveIsFilter | impl/provisioner-ingress/provisioner.go:466-484 | removing by index gives the same Ingress as filtering by identifier |
| IngressFilter.FilterRoutes | impl/provisioner-ingress/provisioner.go:325-356 | filtering subtracts exactly the identifiers from the Ingress's routes |
| IngressFilter.FilterTidy | impl/provisioner-ingress/provisioner.go:344-356 | filtering keeps the TLS invariants |
| IngressFilter.FilterTwice | impl/provisioner-ingress/provisioner.go:325-356 | filtering twice is filtering by the union |
| IngressFilter.KeptTlsSecures | impl/provisioner-ingress/provisioner.go:344-356 | whatever the entries, also those for several hosts: exactly the removed hosts lose their Secret, and no entry is left empty |
| IngressStore.ProvisionRefines | impl/provisioner-ingress/provisioner.go:66-119 | an error-free Provision is insert-or-replace on the flat table and keeps the store well-formed |
| IngressStore.ProvisionKeepsIff | impl/provisioner-ingress/provisioner.go:496-526 | a served Provision keeps the store well-formed if and only if the update leaves no TLS entry of another host behind |
| IngressStore.DeprovisionIsFilter | impl/provisioner-ingress/provisioner.go:123-154 | on a well-formed store Deprovision's patch always applies and equals filtering by the identifier |
| IngressStore.DeprovisionRefines | impl/provisioner-ingress/provisioner.go:123-154 | Deprovision is deletion from the table |
| IngressStore.BatchDeprovisionIsFilter | impl/provisioner-ingress/provisioner.go:313-373 | on any store, BatchDeprovision succeeds exactly if no partly emptied Ingress lacks TLS, and then filters every Ingress |
| IngressStore.BatchDeprovisionRefines | impl/provisioner-ingress/provisioner.go:313-373 | BatchDeprovision is set subtraction from the table |
| IngressStore.SinglyIsFilter | impl/provisioner-ingress/provisioner.go:123-154 | deprovisioning one at a time, each with its own listing, always succeeds and is the filter by all identifiers |
| IngressStore.SinglyIsBatch | impl/provisioner-ingress/provisioner.go:123-373 | one at a time and in one successful batch leave the identical store, Ingress by Ingress |
| IngressStore.FilterStoreRefines | impl/provisioner-ingress/provisioner.go:325-370 | filtering the store subtracts from its table and keeps it well-formed |
| Packing.OptimalPacking | impl/provisioner-ingress/provisioner.go:223-280 | exactly ceil(max(0, n - free) / max) new Ingresses, and no placement of n routes within the capacities uses fewer |
| Packing.Pigeonhole | impl/provisioner-ingress/provisioner.go:238-280 | no placement holds more routes than its bins together |
| Packing.BatchesAreRequests | impl/provisioner-ingress/provisioner.go:235-280 | the batches concatenate to the request list, consecutive and complete |
| Packing.FillExistingChain | impl/provisioner-ingress/provisioner.go:238-252 | batches for listed Ingresses are consecutive from the first request on |
| Packing.FillExistingNames | impl/provisioner-ingress/provisioner.go:238-252 | each names a listed Ingress and fits its room |
| Packing.FillExistingDistinct | impl/provisioner-ingress/provisioner.go:238-252 | no two of them name the same Ingress |
| Packing.FillNewChain | impl/provisioner-ingress/provisioner.go:256-280 | new Ingresses are numbered upwards, none overfull, as few as can hold the rest |
| Packing.CursorIsRoom | impl/provisioner-ingress/provisioner.go:236-252 | listed Ingresses take all the requests they have room for |
| IngressBatch.OrderIsPlanned | impl/provisioner-ingress/provisioner.go:235-305 | in execution order the batches are disjoint, fit, and patch no Ingress twice |
| IngressBatch.PrefixSpread | impl/provisioner-ingress/provisioner.go:256-305 | however far the calls get, the store is the old one with the first batches spread over it |
| IngressBatch.NothingLostOnFailure | impl/provisioner-ingress/provisioner.go:238-305 | after any prefix of the calls old rules and TLS entries are still in front, only requested rules were added, each at most once, and bounds are kept |
| IngressBatch.BundleRoutes | impl/provisioner-ingress/provisioner.go:263-271 | routes with distinct identifiers make a tidy Ingress holding just their entries |
| IngressBatch.PrefixTable | impl/provisioner-ingress/provisioner.go:256-305 | after any prefix the table has grown by exactly the batches served |
| IngressBatch.PartIsAll | impl/provisioner-ingress/provisioner.go:235-305 | all batches together are all requests |
| IngressBatch.BatchProvisionRefines | impl/provisioner-ingress/provisioner.go:195-309 | an error-free BatchProvision of new distinct identifiers is union with the table |
| IngressRuns.PartialRemoval | impl/provisioner-ingress/provisioner.go:325-370 | a BatchDeprovision that stops early is a complete one of some of its identifiers |
| IngressRuns.PartialStep | impl/provisioner-ingress/provisioner.go:66-373 | any operation stopped after any call leaves a well-formed, bounded store whose table holds only old and requested entries |
| IngressRuns.RunsStaySound | impl/provisioner-ingress/provisioner.go:66-373 | over every run from an empty cluster, with any failures, identifiers stay unique, TLS entries tidy, and every Ingress between 1 and max rules |
| IngressRuns.TableIsFold | impl/provisioner-ingress/provisioner.go:66-373 | over every error-free run the store's table is the fold of the operations on a flat table |
| IngressRuns.CompleteStep | impl/provisioner-ingress/provisioner.go:66-373 | each complete operation does to the table what it means |
| IngressRuns.ProvisionedSinglyIsBatch | impl/provisioner-ingress/provisioner.go:66-309 | fresh routes provisioned one at a time give the same table as one BatchProvision |
| IngressList.ListIsTable | impl/provisioner-ingress/provisioner.go:158-188 | List enumerates exactly the table, each identifier once, with a certificate exactly for entries with TLS, and names the Ingress that holds it |
| IngressTls.RunsStayTls | impl/provisioner-ingress/provisioner.go:66-373 | in runs where every route has TLS every stored route has its TLS entry |
| IngressTls.OneEntryPerRule | impl/provisioner-ingress/provisioner.go:443-526 | then each Ingress has as many TLS entries as rules |
| IngressTls.EveryPatchApplies | impl/provisioner-ingress/provisioner.go:443-526 | in such runs, whatever failed before, every JSON Patch of every operation finds all its targets |
| IngressTls.PatchApplies | impl/provisioner-ingress/provisioner.go:443-526 | the next patch of a partly executed plan applies |
| IngressTls.SucceedsIff | impl/provisioner-ingress/provisioner.go:109-256 | with TLS everywhere an operation succeeds iff none of the names it creates is taken |
| IngressWitness.GapRun | impl/provisioner-ingress/provisioner.go:105-112 | a run of three successful operations from an empty cluster after which the next create finds its name taken |
| IngressWitness.ClashRun | impl/provisioner-ingress/provisioner.go:496-526 | two successful Provisions from an empty cluster, for hosts sharing an identifier, that leave a TLS entry without rule |
| IngressWitness.DotAndDash | cmd/routes-provisioner/internal/provisioner/ingress_mapper.go:41-48 | routes for "a.b" and "a-b" are such a pair |
| IngressTls.BatchRemovalWithoutTls | impl/provisioner-ingress/provisioner.go:366-493 | without TLS a batch removal that leaves a rule is refused, while the same removals one at a time succeed |
| IngressStuck.PlainRouteStaysForGood | core/reconciler/reconciler.go:62-67 | two plain routes provisioned from empty into one Ingress: the batch removal of the unwanted one is refused, a single removal is not, and it is there after every run of cycles |
| IngressWitness.PlainPairRun | impl/provisioner-ingress/provisioner.go:96-104 | a run of two successful Provisions from empty that puts two plain routes into one Ingress |
| IngressWitness.TlsRefusedRun | impl/provisioner-ingress/provisioner.go:443-451 | after one plain route, a route with TLS finds room next to it and is refused |
| IngressWitness.DeleteMissesRun | core/orchestrator/orchestrator.go:220-225 | a route the source knows as "42" is provisioned, a successful removal of "42" finds nothing, and the route is still there |
| IngressTls.FirstTlsIsRefused | impl/provisioner-ingress/provisioner.go:443-451 | the first TLS route cannot join an Ingress without TLS |
| Mapper.RouteIdCollision | cmd/routes-provisioner/internal/provisioner/ingress_mapper.go:41-48 | two hosts share a route identifier iff they agree up to dots for dashes |
| Mapper.RouteIdInjective | cmd/routes-provisioner/internal/provisioner/ingress_mapper.go:41-48 | identifiers are unique among hosts without dashes |
| Mapper.CleanIff | impl/certstore-vault/issuer.go:178-180 | a host can be read back from its sanitized form iff it has no dash and no "wildcard"; those hosts have keys of their own |
| Mapper.RestoredSanitized | impl/certstore-kube/issuer.go:114-121 | reading back a clean host's key gives the host |
| Mapper.SecretNameInjective | impl/certstore-kube/issuer.go:114-121 | clean hosts whose names are not cut have Secret names of their own |
| Mapper.SecretNameIff | impl/certstore-kube/issuer.go:114-121 | a clean host has a Secret name no other clean host has iff the name stays below 253 characters |
| Mapper.DefaultSecretNameIff | cmd/routes-provisioner/internal/provisioner/ingress_mapper.go:16-23 | the same for the fallback names |
| Mapper.DefaultSecretNameInjective | cmd/routes-provisioner/internal/provisioner/ingress_mapper.go:16-23 | the same for the fallback names |
| Mapper.VaultKeyInjective | impl/certstore-vault/issuer.go:111-113 | clean hosts have Vault paths of their own |
| Mapper.CutCollision | impl/certstore-kube/issuer.go:117-119 | every clean host whose name reaches the limit shares it with another clean host |
| Mapper.KeyCollisions | impl/certstore-kube/issuer.go:114-121 | hosts with a dash or the word collide with others |
| Mapper.Int32 | cmd/routes-provisioner/internal/provisioner/ingress_mapper.go:75 | the port wraps to 32 bits: in range, and congruent to the given one |
| Mapper.IngressNameInjective | cmd/routes-provisioner/internal/provisioner/ingress_mapper.go:96-98 | differently numbered Ingresses have different names |
| Diff.Compute | core/reconciler/reconciler.go:104-125 | the loops add desired routes whose host is missing and remove identifiers of unwanted hosts, in order |
| Diff.InToAdd | core/reconciler/reconciler.go:110-116 | a route is added iff it is desired and its host is not there |
| Diff.ToRemoveFrom | core/reconciler/reconciler.go:118-122 | every identifier removed belongs to an unwanted host |
| Diff.ToRemoveHas | core/reconciler/reconciler.go:118-122 | every unwanted host's identifier is removed |
| Reconciliation.Reconciler.Reconcile | core/reconciler/reconciler.go:36-99 | one cycle over either gateway: list errors stop it, a failed removal does not, certificates are asked for the added TLS routes, a failed addition is the cycle's error; over Ingresses up to three gateway calls in turn, each listing once and first, and a step that fails exactly if a request failed or an added route has no backends |
| Reconciliation.Reconciler.IssueAll | core/reconciler/reconciler.go:70-85 | one Issue per added TLS route, in order; the map of what was obtained |
| Reconciliation.CertsFrom | core/reconciler/reconciler.go:70-85 | every certificate handed on answers an Issue call for its host |
| Reconciliation.CertsIff | core/reconciler/reconciler.go:70-85 | a host has a certificate exactly if some Issue call for it was answered |
| Reconciliation.LastAnswerCounts | core/reconciler/reconciler.go:84 | and it is the last one obtained |
| Reconciliation.LogStoresCertificates | core/reconciler/reconciler.go:70-95 | after a cycle over the log gateway each added route is stored with the host of what its own Issue call obtained, or with none |
| Reconciliation.AddedWithoutBackends | core/reconciler/reconciler.go:104-116 | an addition cannot map exactly if a desired route that is not listed has no backends |
| Reconciliation.InTlsRoutes | core/reconciler/reconciler.go:71-74 | certificates are asked for exactly the TLS routes |
| LogGateway.LogProvisioner.Provision | impl/provisioner-log/provisioner.go:39-82 | stores the route under its identifier, or its host if it has none |
| LogGateway.LogProvisioner.Deprovision | impl/provisioner-log/provisioner.go:85-93 | deletes by identifier |
| LogGateway.LogProvisioner.List | impl/provisioner-log/provisioner.go:96-107 | every stored route once, in any order |
| LogGateway.LogProvisioner.BatchProvision | impl/provisioner-log/provisioner.go:110-122 | provisions one after the other; results line up with requests |
| LogGateway.LogProvisioner.BatchDeprovision | impl/provisioner-log/provisioner.go:125-134 | subtracts the identifiers |
| LogConvergence.OwnGrows | core/reconciler/reconciler.go:51-95 | the number of desired routes stored under their own identifier grows in a cycle by exactly the number of routes added |
| LogConvergence.AfterOneCycle | core/reconciler/reconciler.go:51-95 | after a cycle only desired hosts are left, and all of them if none had to be added |
| LogConvergence.FixedPoint | core/reconciler/reconciler.go:51-95 | once the hosts agree a cycle changes nothing |
| LogConvergence.Converges | core/reconciler/reconciler.go:51-125 | if no effective identifier is desired for two hosts: from any table, after max(1, number of desired routes) cycles the gateway holds exactly the desired hosts, and further cycles write nothing |
| LogConvergence.BoundIsTight | core/reconciler/reconciler.go:51-125 | for any desired routes with hosts of their own there is a table for which one cycle less is not enough |
| LogConvergence.ConvergesIff | core/reconciler/reconciler.go:51-125 | for desired routes with hosts of their own, every run from the empty table converges iff their effective identifiers differ |
| LogConvergence.OrderDecides | core/reconciler/reconciler.go:51-125 | four routes, two hosts under two identifiers: listed in one order no run from empty is ever at the desired hosts, in another every run is after one cycle |
| LogConvergence.NeverBoth | impl/provisioner-log/provisioner.go:39-82 | two desired routes sharing an identifier are never there together |
| LogConvergence.CycleOrder | core/reconciler/reconciler.go:104-125 | the order in which desired routes are listed does not matter |
| LogConvergence.RemovedAreStale | core/reconciler/reconciler.go:118-122 | whatever order the gateway lists in, the identifiers removed are those of unwanted hosts |
| IngressConvergence.HostsAfter | core/reconciler/reconciler.go:36-125 | the hosts after an error-free cycle as a function of those before, on any store |
| IngressConvergence.OneCycleIff | core/reconciler/reconciler.go:36-125 | one error-free cycle reaches the desired hosts iff no wanted host that is there shares an identifier with one to be removed |
| IngressConvergence.TwoCycles | core/reconciler/reconciler.go:36-125 | two error-free cycles always suffice, even with shared identifiers; a third has nothing to add or remove |
| IngressConvergence.ThirdCycle | core/reconciler/reconciler.go:51-95 | over a cluster with exactly the desired hosts a cycle issues and writes nothing |
| IngressConvergence.RemovalPossibleIff | core/reconciler/reconciler.go:62-67 | the removal step of a cycle can report success iff no Ingress without TLS would lose some rules and keep others |
| IngressStuck.StaysIff | core/reconciler/reconciler.go:36-99 | an unwanted host survives every run of cycles, with any failures or none, iff some Ingress holds it that has no TLS entry and would keep another rule |
| IngressStuck.BlocksStep | core/reconciler/reconciler.go:51-95 | in any cycle, whatever its outcome, such an Ingress makes the removal fail, is blocked again afterwards, and the host is still there |
| IngressStuck.BlocksForever | core/reconciler/reconciler.go:36-99 | so over every run of cycles |
| IngressStuck.NeverClean | core/reconciler/reconciler.go:36-99 | no cycle of such a run is error-free and none reaches the desired hosts |
| IngressStuck.CanGo | core/reconciler/reconciler.go:62-67 | any other unwanted host can be gone after one cycle |
| IngressOrder.OneCycleInOrderIff | impl/provisioner-ingress/provisioner.go:313-373 | for an API that lists in a given order: an unwanted host can be gone after one cycle iff no Ingress that holds it resists or is listed after one that does |
| IngressOrder.StaysInOrder | core/reconciler/reconciler.go:36-99 | for such an API a host in an Ingress listed after a blocked one survives every run of cycles |
| IngressOrder.StaysInOrderIff | core/reconciler/reconciler.go:36-99 | where no wanted host shares an identifier with an unwanted one: a host survives every run of cycles iff an Ingress that holds it, or one listed before that, is blocked |
| IngressOrder.OrderedNames | impl/provisioner-ingress/provisioner.go:324-373 | whatever the removal reports, no Ingress is touched that resists or is listed after one that does |
| IngressStuck.RemovalNames | impl/provisioner-ingress/provisioner.go:313-373 | whatever a batch removal reports, it has filtered some Ingresses, none of which resists, and left the others alone; all of them on success |
| IngressStuck.AdditionGrows | impl/provisioner-ingress/provisioner.go:195-309 | whatever a batch addition reports, Ingresses only grow and plain ones stay plain |
| IngressStuck.BatchProvisionIff | impl/provisioner-ingress/provisioner.go:195-309 | on any cluster an answered BatchProvision succeeds iff the names it creates are free and no TLS entry goes to an Ingress without |
| IngressStuck.AdditionPossibleIff | core/reconciler/reconciler.go:87-95 | the addition step of a cycle can report success iff all its routes map and for some listing, sorted by load, every batch is acceptable |
| IngressStuck.SortedOrderRefuses | impl/provisioner-ingress/provisioner.go:223-252 | a route with TLS that another listing order would place is always refused where the plain Ingress is the lighter one |
| IngressStuck.PlainEmptierRun | impl/provisioner-ingress/provisioner.go:123-309 | a run of two successful operations from an empty cluster that leads there |
| IngressStuck.BadRouteBlocksAll | core/reconciler/reconciler.go:87-93 | a desired route without backends whose host is missing stops every addition of every cycle |
| IngressConvergence.BatchHosts | impl/provisioner-ingress/provisioner.go:195-309 | on any store a complete BatchProvision adds exactly the requested hosts |
| IngressConvergence.FilterHosts | impl/provisioner-ingress/provisioner.go:325-370 | on any store filtering leaves exactly the hosts whose identifier is not removed |
| IngressConvergence.ProvisionIsListed | impl/provisioner-ingress/provisioner.go:66-188 | what a successful Provision returns is what a later List shows |
| IngressConvergence.ResultsAreListed | impl/provisioner-ingress/provisioner.go:158-309 | so is each result of a successful BatchProvision |
| HttpSource.HTTPSource.HandlePostEvent | impl/source-http/source.go:109-128 | under the lock: records the event, applies it to the desired state, and notes the open channel; a bad body changes nothing |
| HttpSource.HTTPSource.Send | impl/source-http/source.go:130-137 | after it: the event goes to the channel noted, if it is still open and not full, and never blocks |
| HttpSource.HTTPSource.HandlePostRoute | impl/source-http/source.go:152-171 | stores a route with a host, refuses others |
| HttpSource.HTTPSource.HandleDeleteRoute | impl/source-http/source.go:173-192 | deletes by host; 404 exactly if it was not there |
| HttpSource.HTTPSource.Start | impl/source-http/source.go:70-73 | opens a new, empty channel |
| HttpSource.HTTPSource.Take | impl/source-http/source.go:81-91 | takes the oldest event off the channel |
| HttpSource.HTTPSource.Stop | impl/source-http/source.go:75-79 | closes the channel |
| HttpSource.HTTPSource.List | impl/source-http/source.go:96-105 | every desired route once, in any order |
| HttpSource.BurstFills | impl/source-http/source.go:130-137 | of events sent faster than they are taken the channel keeps the first that find room, in order |
| HttpSource.TakesDrain | impl/source-http/source.go:81-91 | they are taken oldest first |
| HttpSource.ClosedDrops | impl/source-http/source.go:70-79 | a channel opens empty; what is sent to one that is not open is lost |
| HttpSource.LastChangeWins | impl/source-http/source.go:109-192 | the desired state holds for each host what the last accepted change said, whatever the channel dropped |
| HttpSource.NeverMentioned | impl/source-http/source.go:109-192 | a host no change mentioned is not desired |
| HttpSource.FoldKeyed | impl/source-http/source.go:109-192 | desired routes are stored under their own, non-empty hosts |
| HttpSource.Healed | impl/source-http/source.go:96-192 | once changes stop, the reconciled log gateway reaches exactly the hosts left desired, whatever was dropped and whatever order lists come in |
| CertCache.KubeCachingIssuer.IssueCert | impl/certstore-kube/issuer.go:64-92 | hit, miss, read error, inner error and failed store, each with its effect on the store and what the store is asked: a certificate obtained is put away unless the read before that fails |
| CertCache.KubeCachingIssuer.StoreCert | impl/certstore-kube/issuer.go:158-198 | asks whether the Secret is there, then creates or updates it; does neither only if the question fails |
| CertCache.KubeCachingIssuer.RevokeCert | impl/certstore-kube/issuer.go:95-104 | asks for exactly one deletion, of the host's own Secret, which is gone if that is answered; the inner issuer decides the result |
| CertCache.VaultCachingIssuer.IssueCert | impl/certstore-vault/issuer.go:67-95 | the same, a read error counting as a miss, and the write always asked for |
| CertCache.VaultCachingIssuer.RevokeCert | impl/certstore-vault/issuer.go:98-108 | asks for exactly one deletion, of the host's own entry, which is gone if that is answered |
| CertCache.RoundTrip | impl/certstore-kube/issuer.go:124-198 | storing and parsing gives the certificate with times cut to seconds, never later than the true ones, iff both PEM blocks are there |
| CertCache.Provenance | impl/certstore-kube/issuer.go:64-104 | every entry was stored by some call and not replaced or deleted since |
| CertCache.HitIsSound | impl/certstore-kube/issuer.go:64-104 | a hit returns a certificate issued earlier for the same key, not revoked since, truly valid for longer than the margin |
| CertCache.HitIff | impl/certstore-kube/issuer.go:64-92 | what was stored last and not deleted since is handed out exactly if it is complete and, to the second, valid beyond the margin; otherwise the inner issuer is called |
| CertCache.RevokedIsReissued | impl/certstore-kube/issuer.go:64-104 | after a deletion that took effect the next call for the key whose read succeeds reaches the inner issuer |
| CertCache.UnstampedIsStale | impl/certstore-kube/issuer.go:124-155 | an entry without a readable expiry is never handed out |
| CertCache.HitIsOwn | impl/certstore-kube/issuer.go:64-121 | among clean hosts a hit is the host's own certificate |
| CertCache.VaultHitIsOwn | impl/certstore-vault/issuer.go:67-180 | the same for Vault |
| CertCache.WrongHostIff | impl/certstore-kube/issuer.go:64-121 | a certificate just stored for one host is handed to another iff the two share a key |
| CertCache.WrongHost | impl/certstore-kube/issuer.go:64-121 | two such hosts: the certificate of "a-b" is handed to "a.b" |
| CertCache.NextCall | impl/certstore-kube/issuer.go:68-92 | two calls of the inner issuer for a key are more than validity - margin - 1s apart |
| CertCache.IssuanceBound | impl/certstore-vault/issuer.go:67-95 | at most 1 + T / (validity - margin - 1s) inner calls per key in a run of length T |
| CertCache.SecondIsLost | impl/certstore-kube/issuer.go:71-163 | the second in that bound is real |
| MetaFile.EncodeDecodes | impl/certstore-file/issuer.go:137-162 | the metadata file reads back |
| MetaFile.CutIsRejected | impl/certstore-file/issuer.go:143-162 | a metadata file cut short anywhere is not accepted |
| FileCache.CommitPointIff | impl/certstore-file/issuer.go:120-187 | stopping the store anywhere leaves nothing that loads, or exactly the certificate once all is written, iff the directory has no readable metadata and no CA file to inherit |
| FileCache.CommitPoint | impl/certstore-file/issuer.go:120-187 | in particular over a directory that has none of the files |
| FileCache.FullStore | impl/certstore-file/issuer.go:120-187 | what a complete store over any directory loads as |
| FileCache.RoundTripIff | impl/certstore-file/issuer.go:131-176 | the certificate comes back iff it brings its own CA or finds none left over |
| FileCache.StoppedLoads | impl/certstore-file/issuer.go:125-135 | over readable metadata, what loads after any stop before the last write carries the old metadata and PEM files that are old, new, or begun |
| FileCache.MixedDirectory | impl/certstore-file/issuer.go:125-130 | for instance the new certificate with the old key |
| FileCache.HitIsCompleteStore | impl/certstore-file/issuer.go:62-152 | over all runs of Issue and Revoke with stores stopping anywhere, reads that fail, and removals and calls that are harmless, a hit is what one earlier call stored completely, not removed since, but for a CA left over or not read |
| FileCache.PartialRemovalIff | impl/certstore-file/issuer.go:97-103 | over a valid certificate: whatever is stored next and wherever that stops, a hit is still that certificate, iff the removal took the metadata or left both PEM files and the certificate's own CA |
| FileCache.HarmlessIff | impl/certstore-file/issuer.go:62-103 | after harmless removals, one more leaves a run whose hits are all complete stores, however it goes on, iff it takes the metadata, or leaves what the stored certificate needs, or nothing readable and not yet due is there |
| FileCache.CallHarmlessIff | impl/certstore-file/issuer.go:62-152 | and a call with a new certificate leaves one, however its reads and its store fail, iff it overwrites no valid certificate it could not read, or gets as far as the metadata |
| FileCache.PartialRemovalMixes | impl/certstore-file/issuer.go:97-103 | an instance: a removal of the certificate file only, then a store that stops, makes a mixture a hit |
| FileCache.UnreadMixes | impl/certstore-file/issuer.go:66-84 | another: a call that cannot read the metadata of a valid certificate, and a store that stops |
| FileCache.StoredIsHit | impl/certstore-file/issuer.go:62-94 | a certificate just stored is handed out exactly if it is valid beyond the margin |
| FileCache.HostDirInjective | impl/certstore-file/issuer.go:106-110 | hosts without underscore have directories of their own |
| FileCache.HostDirPlain | impl/certstore-file/issuer.go:106-110 | no directory name has an asterisk; a host without one names its directory |
| FileCache.FileCachingIssuer.IssueCert | impl/certstore-file/issuer.go:62-94 | hit exactly if what can be read is not near expiry; otherwise the inner issuer's answer, stored completely unless a request to the disk fails |
| FileCache.FileCachingIssuer.StoreTo | impl/certstore-file/issuer.go:120-152 | writes file after file, metadata last, stopping at the first failure and only there |
| FileCache.FileCachingIssuer.LoadFrom | impl/certstore-file/issuer.go:154-187 | reads metadata first; only the CA may be missing, or its reading fail |
| FileCache.FileCachingIssuer.RevokeCert | impl/certstore-file/issuer.go:97-103 | asks for the removal of exactly the host's directory, which is empty if that succeeds and otherwise keeps some of its files; the inner issuer decides the result |

## Left out

- LeaseProtocol.MutualExclusion: an operation takes effect, if at all, before its caller gives up on it; one that the server applies after the client's timeout is not modelled, and times are exact where the database keeps milliseconds.
- LeaseProtocol.ExclusionIff: the renewal delay is a hypothesis on runs; the renew interval stays at its default of 5s whatever lease duration is configured (`cmd/routes-provisioner/main.go:371-376`), so the delay is never below that.
- Orchestrator.NoStaleSnapshot: one leadership term; a periodic loop still running into the next term is not modelled, nor are writers outside the process.
- IngressGateway.IngressProvisioner.BatchProvision: needs at least one route per Ingress; the configuration does not enforce it and the loop over new Ingresses would not end.
- IngressRuns.TableIsFold: routes are over hosts with distinct identifiers and batches have new, distinct ones, as the design assumes; without that the convergence results on host sets hold all the same.
- IngressConvergence.TwoCycles: speaks of cycles whose calls all succeed; when they can is RemovalPossibleIff and AdditionPossibleIff, and what stays when they cannot is StaysIff.
- IngressOrder.StaysInOrderIff: where a wanted host shares its identifier with an unwanted one, an Ingress may stop resisting as the unwanted one goes, or begin to; what one cycle can do is exact there too (OneCycleInOrderIff), what runs can do is not stated.
- LogConvergence.ConvergesIff: is about desired routes with hosts of their own; otherwise OrderDecides shows that the set of desired routes does not decide.
- CertCache.HitIsSound: years outside 0 to 9999, which RFC 3339 cannot write, and the saturation of time differences at 292 years are not modelled; other writers to the same Secrets are not either.
- MetaFile.EncodeDecodes: times are written as nanosecond counts instead of calendar dates with a zone, and control characters are not escaped as Unicode escapes; the shape of the file is otherwise that of the indented JSON object.
- MetaFile.CutIsRejected: shown for that text; the argument, that the closing brace comes last, is the same for the encoder's.
- FileCache.FileCachingIssuer.LoadFrom: accepts metadata only as the model writes it, not with other spacing or order of members.
- FileCache.HostDirInjective: joining the directory with a base path, and cleaning the path, are not modelled.
- HttpSource.HTTPSource.Start: the trigger's loop is Take, again and again; its blocking hand-over to the orchestrator is not modelled.
- Mapper.SecretNameInjective: hosts are sequences of single-byte characters, so the cut at 253 is the same in bytes and characters.
- Labels, annotations, the ingress class and the path type of created Ingresses, which no property depends on; that the mapper's label is the one listed by is assumed.
- Routes carry no metadata and no creation time, and certificates no parsed content: nothing modelled here reads them.
- ACME, Vault PKI and self-signed issuers and the challenge server: an issuer is an answer given to the call, a certificate or a failure.
- The issuer "none" with TLS routes, which returns no certificate and no error.
- The Kubernetes lease elector, which wraps a library that is not part of this model.
- The Netscaler gateway: straight-line HTTP calls, and its List reports no hosts to reconcile by.
- The MongoDB source, URL parsing, configuration loading, option setters, logging and wiring: I/O or straight-line code.
- Interfaces: the reconciler and the event handler work on a choice of the two modelled gateways instead of an interface.
