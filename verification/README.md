# Verification model of FlowGo Server

FlowGo Server keeps several in-memory tables that have to agree with a persistent publish lifecycle. This project
models those tables and the operations on them in Dafny and proves the agreements, over single calls, over whole runs,
and, where the server is concurrent, over interleavings. `dafny verify dfyconfig.toml` checks everything.

| part | files | what it models |
|---|---|---|
| HTTP routes | `RouteTable`, `RouteSync`, `RouteCheck`, `Restart`, `RouteShape`, `HttpManager` | shared listeners behind a forward and a reverse index, the predictor that runs before publishing, restart |
| publish lifecycle | `FlowDocs`, `PublishLog`, `Groups`, `StoreEffects`, `FlowStore` | drafts, live snapshots, bounded history, versions, trash, groups |
| composition | `Lifecycle`, `MqttLifecycle`, `HandlerEffects`, `Api` | the request handlers over the store and both endpoint managers, with restarts |
| MQTT | `MqttKeys`, `MqttLedger`, `MqttTracks`, `MqttMounts`, `MqttRuns`, `MqttManager` | which node holds which client, and the conservation of clients |
| draft sessions | `Sessions`, `DraftProtocol`, `DraftSafety`, `DraftBridge` | reference-counted open flows, and the concurrent mount, remove and sweep protocol |
| OAuth | `OAuthStore`, `OAuthGrants`, `OAuthChains`, `OAuthEffects`, `OAuthServer` | one-time codes, rotating refresh tokens, lazy purging, audiences (sections 4.1.2, 4.1.3 and 6 of RFC 6749, section 4.6 of RFC 7636, section 2 of RFC 8707) |
| editor replies | `EditorRpc`, `EditorCalls`, `EditorHub` | request and reply correlation over WebSocket connections |
| vocabulary | `Prelude`, `FlowDsl`, `Text` | options, parsed flow documents, string trimming |

Each component is written twice. A value-level specification carries the theorems; a class with the source's own
fields and loops is proved, method by method, to compute that specification, so a theorem about runs of the
specification is a theorem about runs of the methods. What a specification has to do is said again without it: over
nodes and routers (`RouteShape`), over document fields (`StoreEffects`), over the whole server before and after a
request or a restart (`HandlerEffects`), over a DSL and the answers of the network (`MqttMounts`), over the steps of a
run (`EditorCalls`), and over the fields of a request (`OAuthEffects`).

Main results: `Lifecycle.TableShowsPublished` (the mounted routes are those of the published flows, across restarts),
`HandlerEffects.PublishEffect` and `RollbackEffect`, `RouteCheck.PredictorSufficient` and `PredictorExact`,
`RouteSync.InterleavingsKeepInv`, `DraftProtocol.OrphansAreLateSaves`, `DraftSafety.OpenDraftLostExactly` and
`DraftBridge.LedgerDraftsFollowEditors`, `MqttLedger.SyncTrackEffect`, `MqttMounts.SyncSucceedsExactly`,
`MqttRuns.LedgerBalanced` and `MqttLifecycle.MqttServesPublished`, `PublishLog.HistoryRefinesLog` and
`VersionsKeptExactly`, `Groups.GroupsOverRuns`, `OAuthChains.OneLiveTokenPerChain` and `PairsComeFromLogins`,
`OAuthEffects.LoginLeadsToGrant`, `OAuthStore.PurgeInvisible`, `EditorRpc.SendsFindRoom` and `HeardExactly`,
`EditorCalls.OutcomeExactly` and `ReplyIsClaimed`.

The table below lists results and the methods whose loops or sequencing carry proof work. Methods that only follow the
branches of their specification are proved in the same files and not listed.

## Conventions

- A flow document's nodes carry the outcome of configuration parsing, which is deterministic library code.
- Listener, certificate, broker, signing and random-source outcomes, clock readings, fresh ids and the hash of a
  proof key are parameters. Functions such as `nat -> Env` answer the n-th attempt, so every combination is covered.
- A critical section is one method or one step. Handlers are atomic with respect to each other in `Lifecycle`; draft
  sessions, token requests and editor calls are interleaved.
- Request ids are random and never empty; flow ids are not empty, because the store refuses to save a flow without
  one (`internal/store/flow.go:106`).

## Where a plausible statement is false

- Versions repeat when a snapshot is numbered while offline with non-empty history: `PublishLog.VersionRepeats`, with
  the exact condition in `VersionsKeptExactly`. A rollback can then store another DSL than the one it checked:
  `RollbackUnchecked`, with the exact condition in `RollbackAgreesExactly`.
- A failed rebuild can leave routes of its flow mounted: `RouteSync.RejectedNodeLeavesRoutes`, with the exact condition
  in `FailureLeavesExactly`.
- The predictor is stricter than the rebuild in two ways: it refuses a pattern that one DSL binds twice
  (`RouteCheck.DoublePatternRefused`) and holds nodes without routes to their TLS mode (`IdleModesRefused`).
  `RouteCheck.PredictorExact` says that these are all the differences.
- Two MQTT receivers with one id leak a client: `MqttRuns.RepeatedIdLeaks`, exact in `MqttLedger.SyncTrackEffect`.
  A NUL inside a flow id can make node keys clash: exact in `MqttKeys.FlowsClashExactly`.
- A save that mounts after the last editor left orphans a draft: `DraftProtocol.LateSaveOrphans`, exact in
  `OrphansAreLateSaves`; the orphan lasts until the next session call ends, `NextSessionCallSweeps`.
- An open flow can lose its draft: `DraftProtocol.LateCloseUnmounts`, with the exact condition on the calls in flight in
  `DraftSafety.OpenDraftLostExactly`.
- Without a configured public address a token is bound to the host name it was obtained under:
  `OAuthGrants.OtherHostTurnedAway`, exact in `InferredBaseExactly`.
- A repeated request id can make a call deaf: `EditorRpc.RepeatedIdIsUnheard`, exact in `ReachableExactly` for one step
  and `HeardExactly` for a run. Safety does not need distinct ids.

## Model

| member | source | states |
|---|---|---|
| RouteTable.AddRouteEffect | internal/endpoint/manager.go:149-232 | Adding a route succeeds exactly when TLS mode and owner fit and the listener and certificate work; it then changes one table key, keeps the index invariant and every other listener; any refusal leaves the state untouched |
| RouteTable.AddRouteRefusals | internal/endpoint/manager.go:149-223 | Which refusal a route meets, exactly: listener or certificate on a new address, another TLS mode before another owner, and the owner a conflict names |
| RouteTable.RemoveFlowEffect | internal/endpoint/manager.go:124-147 | Removing a flow erases exactly its routes, keeps both indexes in step, opens no listener and changes no TLS mode |
| RouteTable.DropRouteServer | internal/endpoint/manager.go:130-145 | After dropping one route every remaining server still has a route, counts its routes and has exactly their patterns on its mux |
| RouteTable.DropRoutesEffect | internal/endpoint/manager.go:130-145 | Dropping a list of reverse-index entries, duplicates included, removes exactly the listed routes the flow owns |
| RouteSync.MountEffect | internal/endpoint/manager.go:98-121 | For every outcome of mounting a list of routes, the table that results: old table plus the routes, or, after a refusal, old table without the flow; other flows never move |
| RouteSync.MountExact | internal/endpoint/manager.go:98-121 | Mounting succeeds exactly when all configurations parse and all requests fit, up to listener and certificate failures (the other outcomes are in BadExactly) |
| RouteSync.MountTls | internal/endpoint/manager.go:149-200 | Listeners keep their TLS mode throughout a mount and serve everything mounted |
| RouteSync.SyncEffect | internal/endpoint/manager.go:87-121 | A rebuild is a map update: old table minus the flow plus the routes of its published DSL, or minus the flow after a refusal; a rejected configuration keeps the routes mounted before it (when that happens is in FailureLeavesExactly) |
| RouteSync.BadExactly | internal/endpoint/manager.go:98-121 | Mounting ends at a rejected configuration if and only if there is one and every route before it fits |
| RouteSync.FailureLeavesExactly | internal/endpoint/manager.go:96-121 | A failed rebuild leaves routes of its flow if and only if some routes come before the first rejected configuration and all of them fit beside the other flows |
| RouteSync.RejectedNodeLeavesRoutes | internal/endpoint/manager.go:102-105 | Counterexample: a good node followed by a rejected one fails and leaves the first route mounted |
| RouteSync.SyncExact | internal/endpoint/manager.go:87-121 | With a working environment a rebuild succeeds if and only if the DSL parses and fits beside the other flows |
| RouteSync.InterleavingsKeepInv | internal/endpoint/manager.go:124-252 | Every interleaving of the two atomic steps over any flows keeps reference counts, both indexes and muxes consistent |
| RouteSync.RegisterOnce | internal/endpoint/manager.go:207-236 | A pattern that is not routed is not on the mux, so registration never hits a pattern twice |
| RouteShape.RouteLeadsTo | internal/endpoint/manager.go:98-116 | In a DSL that parses, the route of a key leads to the node and the relation of the last router that binds it |
| RouteShape.RouteComesFrom | internal/endpoint/manager.go:98-116 | Every route comes from a router that binds its key last |
| RouteShape.RebuildBinds | internal/endpoint/manager.go:87-121 | After a successful rebuild the flow has exactly the routes of its nodes and routers, each leading to the last router that binds its key, and other flows keep theirs |
| RouteShape.RebuildCors | internal/endpoint/manager.go:207-236 | After a successful rebuild the CORS setting of a route is that of the first node that binds its key |
| RouteShape.DropCors | internal/endpoint/manager.go:130-145 | Dropping a route re-registers every surviving route of its address with CORS on, and touches no other address |
| RouteShape.CheckIs | internal/endpoint/route_check.go:59-160 | The check passes if and only if the nodes parse, agree on TLS per address, no two routers bind one key, and no other flow has taken the mode or the pattern, over nodes and routers |
| HttpManager.SharedServer.Bind | internal/endpoint/manager.go:207-231 | A pattern new to the server is counted and registered; a known one only gets a new target |
| HttpManager.SharedServer.Unbind | internal/endpoint/manager.go:130-137 | The in-place removal of one route equals its specification |
| HttpManager.SharedServer.RebuildMux | internal/endpoint/manager.go:238-244 | The loop rebuilds the mux with exactly the surviving routes, CORS on |
| HttpManager.Manager.AddRoute | internal/endpoint/manager.go:149-232 | The method that updates the shared server and both indexes computes the specified state and outcome and keeps the invariant |
| HttpManager.Manager.DropRoute | internal/endpoint/manager.go:130-145 | One turn of the removal loop, with closing or mux rebuild, equals its specification |
| HttpManager.Manager.RemoveFlow | internal/endpoint/manager.go:124-147 | The whole removal equals its specification and keeps the invariant |
| HttpManager.Manager.MountNode | internal/endpoint/manager.go:107-118 | The inner loop over one node mounts its routes in order and unloads the flow at the first refusal |
| HttpManager.Manager.SyncFlow | internal/endpoint/manager.go:87-121 | The nested loops equal the specified compound step, for every environment |
| HttpManager.Manager.StartAll | internal/endpoint/manager.go:70-84 | Start-up equals folding the compound step over the listing, skipping failures |
| HttpManager.Manager.ForeignRoute | internal/endpoint/route_check.go:118-134 | The search finds a route of another flow on a server if and only if there is one |
| HttpManager.Manager.ScanLocal | internal/endpoint/route_check.go:64-105 | The first pass passes if and only if the nodes parse, agree on TLS per address and bind no pattern twice, and collects exactly the keys and modes |
| HttpManager.Manager.CheckHTTPRoutes | internal/endpoint/route_check.go:59-160 | The predictor with its early returns passes exactly on the specified condition, and names a real foreign owner when it reports one |
| RouteCheck.PassingFits | internal/endpoint/route_check.go:64-158 | A passing check implies that every request fits beside the other flows, also when the flow alone owns an address and changes its TLS mode |
| RouteCheck.PredictorSufficient | internal/endpoint/route_check.go:59-160 | After a passing check a rebuild from the same state never meets a conflict or TLS mismatch, and its resulting table is given |
| RouteCheck.PredictorExact | internal/endpoint/route_check.go:59-160 | The check passes if and only if the rebuild succeeds in a working environment, the DSL binds no pattern twice, and nodes without routes fit by their TLS mode |
| RouteCheck.IdleModesRefused | internal/endpoint/route_check.go:81-90 | Input of the first difference: two nodes without routes in different modes on one address are refused by the check and harmless to the rebuild |
| RouteCheck.DoublePatternRefused | internal/endpoint/route_check.go:91-104 | Input of the second difference: one pattern bound twice by a flow is refused by the check, while the rebuild lets the later binding win |
| Restart.SyncMounts | internal/endpoint/manager.go:87-121 | Whatever the environment does, one rebuild keeps the table equal to the union of the routes of the mounted DSLs |
| Restart.FitsIffClean | internal/endpoint/route_check.go:64-158 | Beside a conflict-free mounted set, fitting is the same as leaving the set conflict-free |
| Restart.SyncClean | internal/endpoint/manager.go:87-121 | A rebuild that keeps the set conflict-free succeeds in a working environment |
| Restart.RepresentsUnique | internal/endpoint/manager.go:47-51 | At most one routing function represents a set of published DSLs |
| Restart.StartAllRepresents | internal/endpoint/manager.go:70-84 | A restart mounts exactly the published set, in whatever order flows are listed |
| Restart.StartAllOrderFree | internal/endpoint/manager.go:70-84 | Two restarts in different orders and the running manager have the same table |
| PublishLog.StepSplitsLog | internal/store/flow_publish.go:70-127 | After one operation the unbounded log is what the cap has cut off followed by the stored history, of at most twenty entries |
| PublishLog.HistoryRefinesLog | internal/store/flow_publish.go:70-322 | Over any run of publish, rollback, offline, online and delete the unbounded log is exactly what the cap has cut off followed by the stored history |
| PublishLog.HistoryIsLog | internal/store/flow_publish.go:95-104 | Until the log outgrows twenty entries the stored history is the whole log |
| PublishLog.VersionsKeptExactly | internal/store/flow_online.go:52-62 | An operation keeps versions strictly increasing below the live one if and only if it does not number a snapshot while offline with non-empty history |
| PublishLog.VersionsOverRuns | internal/store/flow_publish.go:70-275 | Versions stay ordered over every run that numbers snapshots only online or with empty history |
| PublishLog.VersionRepeats | internal/store/flow_online.go:58 | Counterexample: publish, offline, publish gives two snapshots version 1 |
| PublishLog.OfflineThenOnline | internal/store/flow_online.go:21-115 | Online undoes offline: live DSL, version, note and time come back, and the history exactly when it had fewer than twenty entries |
| PublishLog.OnlineThenOffline | internal/store/flow_online.go:21-115 | Offline undoes online up to the publish time that online fills in |
| PublishLog.TrashRestoreOnline | internal/store/flow_trash.go:42-127 | Trash, possible group deletion, restore and online bring back the live snapshot and the original group unless that group was deleted |
| PublishLog.RollbackAgreesExactly | internal/api/flow_publish.go:279-305 | The DSL that the rollback handler checks is the one the store makes live if and only if the version is live or its oldest and newest archived snapshots have the same DSL |
| PublishLog.RollbackCheckedIsStored | internal/api/flow_publish.go:279-305 | They agree whenever the version is live or archived at most once |
| PublishLog.RollbackUnchecked | internal/store/flow_publish.go:207-238 | Counterexample: with a repeated version one DSL is checked and another goes live |
| PublishLog.SameEntryIffUnique | internal/store/flow_publish.go:162-204 | The newest-first and oldest-first searches stop at the same entry if and only if the version occurs once |
| PublishLog.NoChangesLeft | internal/store/flow.go:299-319 | After publish or discard the unpublished-changes flag is off unless the fingerprint cannot be computed |
| StoreEffects.PublishingGoesLive | internal/store/flow_publish.go:70-127 | Exactly when a publish is carried out and how it is refused; the draft is live under the next number, what it replaced is the last of at most twenty archived snapshots, without its note, and no other field changes |
| StoreEffects.RollingBackKeepsDraft | internal/store/flow_publish.go:207-275 | Exactly when a rollback is carried out and how it is refused; the oldest snapshot of the version goes live under the next number, what it replaced is archived with its note, and draft and name stay |
| StoreEffects.DeletingVersionFilters | internal/store/flow_publish.go:278-322 | Exactly when a version is deleted and how that is refused; its snapshots go, and every other version keeps its snapshots, in order |
| StoreEffects.TrashingMovesOrPurges | internal/store/flow_trash.go:42-88 | A live flow goes offline on its way to the trash, an offline one only changes its group; the trash remembers the group; in the trash the flow is deleted; each refusal exactly |
| StoreEffects.RestoringRefiles | internal/store/flow_trash.go:91-127 | Restoring changes only the two group fields, back to the remembered group if it exists; each refusal exactly |
| Groups.StepKeepsGroups | internal/store/group.go:66-174 | No store operation leaves a flow pointing at a missing group, or a previous group outside the trash |
| Groups.GroupsOverRuns | internal/store/group.go:66-174 | Group references never dangle in any run |
| Groups.OpenedIsOk | internal/store/group.go:158-174 | Opening the store creates the trash and breaks no reference |
| Groups.DeleteGroupKeepsFlows | internal/store/group.go:115-155 | Deleting a group loses no flow and changes only references to it |
| FlowStore.Store.ClearFlowsGroup | internal/store/flow.go:232-250 | The loop ungroups exactly the flows of one group |
| FlowStore.Store.PublishFlow | internal/store/flow_publish.go:70-127 | Publishes the draft and archives the live snapshot with an empty note, as specified |
| FlowStore.Store.ListPublishHistory | internal/store/flow_publish.go:162-204 | Lists live first, then newest to oldest |
| FlowStore.Store.FindVersion | internal/store/flow_publish.go:228-237 | The loop finds the oldest entry of a version |
| FlowStore.Store.RollbackPublish | internal/store/flow_publish.go:207-275 | Makes an archived version live under a new number, or does nothing for the live version |
| FlowStore.Store.DeletePublishHistory | internal/store/flow_publish.go:278-322 | Removes every entry of a version and refuses the live one |
| FlowStore.Store.UnpublishFlow | internal/store/flow_online.go:21-65 | Archives the live snapshot with its note and resets the version |
| FlowStore.Store.SoftDeleteOrPurgeFlow | internal/store/flow_trash.go:42-88 | Moves to the trash after going offline, or purges from the trash, and reports which |
| FlowStore.Store.RestoreFlow | internal/store/flow_trash.go:91-127 | Restores to the previous group if it still exists |
| FlowStore.Store.ClearPreviousGroupRefs | internal/store/group.go:140-155 | The loop clears exactly the previous-group references to one group |
| FlowStore.Store.DeleteGroup | internal/store/group.go:115-137 | Clears both kinds of reference, then removes the group |
| Lifecycle.StepKeepsInv | internal/api/flow_publish.go:36-311 | Every handler and restart keeps the table equal to the mounted DSLs, all of them published, under any failure |
| Lifecycle.TableShowsMounted | internal/api/flow_publish.go:36-311 | Over every run with any listener, certificate and broker failures the table has a route for every router of the mounted DSLs that binds its key last, and no other; listeners run in the modes the nodes ask for; and every mounted DSL is the published one |
| Lifecycle.CheckedGoesLive | internal/api/flow_publish.go:67-96 | A checked DSL that is stored as published is also mounted, and the published set stays conflict-free |
| Lifecycle.StaysInStep | internal/api/flow_publish.go:53-311 | Publish, offline, online, rollback, save, delete, restore, discard, group and restart steps keep published, mounted and table in step |
| Lifecycle.TableShowsPublished | internal/endpoint/composite.go:33-48 | Main theorem: over every run in which listeners work and rollbacks name versions that are live or whose oldest and newest archived snapshots agree, each router of a published DSL that binds its key last has a route leading to its flow, node and relation, there is no other route, no two flows bind one key, and listeners run in the modes the nodes ask for, even if MQTT fails |
| MqttLifecycle.MqttShowsMounted | internal/endpoint/composite.go:33-91 | Over every run, whatever fails, each flow's published handles are the managed nodes of the DSL whose MQTT rebuild succeeded last, its receivers subscribed to their topics and its borrowing senders on their receivers' clients; only published flows have any, and every client is accounted for |
| MqttLifecycle.MqttShowsPublished | internal/endpoint/composite.go:33-91 | Over every run in which listeners work, a flow's published handles are exactly the managed nodes of its published DSL if its last MQTT rebuild succeeded, and none otherwise |
| MqttLifecycle.MqttServesPublished | internal/endpoint/composite.go:33-91 | Over every run in which listeners work and every rebuilt DSL can be mounted, each flow's published handles are exactly the managed nodes of its published DSL, receivers subscribed to their topics and borrowing senders on their receivers' clients |
| MqttLifecycle.PublishedHaveNoDraft | internal/mqttendpoint/manager.go:113-158 | Over every run in which listeners work a published flow has no draft handle |
| MqttLifecycle.FailedHttpKeepsMqtt | internal/endpoint/composite.go:33-48 | When the HTTP half fails, the MQTT nodes stay those of the DSL that was live before |
| MqttLifecycle.DoneMountsMqtt | internal/endpoint/composite.go:33-48 | A synchronisation reports success exactly when HTTP mounts the DSL and its nodes can be mounted on MQTT, and then the DSL is the one mounted |
| Lifecycle.FreshServerInStep | internal/endpoint/composite.go:81-91 | A fresh server satisfies the hypothesis of the main theorem |
| Lifecycle.RestartStaysInStep | internal/endpoint/composite.go:81-91 | A restart from the store alone rebuilds the same table |
| Lifecycle.DeleteStaysInStep | internal/api/flow_handlers.go:113-166 | Trashing and purging unload exactly what they take offline |
| HandlerEffects.PublishEffect | internal/api/flow_publish.go:53-96 | A publish whose draft passes the check stores the draft as the next version; its routes are up and the reply is success exactly when MQTT can mount it, or a listener failed and the flow answers nothing; in a working environment the former |
| HandlerEffects.PublishRefusals | internal/api/flow_publish.go:53-96 | When a publish is refused, and with which reply, exactly; a refusal changes nothing |
| HandlerEffects.OnlineEffect | internal/api/flow_publish.go:134-179 | Going online takes the newest snapshot out of the history and puts it live on HTTP and MQTT as a publish does |
| HandlerEffects.OnlineRefusals | internal/api/flow_publish.go:134-179 | When going online is refused, and with which reply, exactly; a refusal changes nothing |
| HandlerEffects.RollbackEffect | internal/api/flow_publish.go:254-311 | A rollback whose checked snapshot passes stores the oldest snapshot of the version and puts it live, surely if it is the one checked; a rollback to the live version rebuilds the endpoints and changes no document |
| HandlerEffects.RollbackRefusals | internal/api/flow_publish.go:254-311 | When a rollback is refused, and with which reply, exactly; a refusal changes nothing |
| HandlerEffects.OfflineEffect | internal/api/flow_publish.go:100-130 | Going offline is refused exactly for a missing, locked or unpublished flow, and else succeeds: no route and no published client is left, and an open flow has the nodes of its draft again |
| HandlerEffects.SaveEffect | internal/api/flow_handlers.go:51-109 | A save is refused exactly for a locked flow, and else stores the draft, touches no route and no published client, and gives the flow exactly the draft nodes it is to have |
| HandlerEffects.DeleteEffect | internal/api/flow_handlers.go:113-166 | Deleting moves a flow to the trash, unloading it if it was live, and deletes a flow in the trash with all its routes and clients; each refusal exactly |
| HandlerEffects.RestartEffect | internal/endpoint/composite.go:81-91 | A restart keeps every document; in a working environment every published flow answers as its nodes and routers say, every one whose DSL can be mounted has its MQTT nodes, and no draft is left |
| HandlerEffects.ReachableReady | internal/api/flow_publish.go:36-311 | In every reachable state the conditions of these statements are met for every stored flow |
| Api.Composite.SyncFlow | internal/endpoint/composite.go:33-48 | HTTP first; MQTT only when HTTP succeeded; the first failure is reported |
| Api.Composite.SyncDraftIfOpen | internal/endpoint/composite.go:51-56 | Rebuilds the draft track exactly when an editor has the flow open |
| Api.Composite.RemoveFlow | internal/endpoint/composite.go:67-78 | Unloads HTTP, published MQTT and draft MQTT |
| Api.Server.AfterOffline | internal/api/flow_publish.go:181-198 | Unloads, then gives open editors their draft back |
| Api.Server.HandleSaveFlow | internal/api/flow_handlers.go:51-109 | Access check, store, the flow joins the user's list, then draft synchronisation; apart from a forbidden request it equals the transition of the run theorems |
| Api.Server.HandlePublishFlow | internal/api/flow_publish.go:53-96 | Check, store, synchronise, in that order; equals the transition of the run theorems |
| Api.Server.HandleUnpublishFlow | internal/api/flow_publish.go:100-130 | Store, then unload |
| Api.Server.HandleGoOnlineFlow | internal/api/flow_publish.go:134-179 | Peek, check, store, synchronise |
| Api.Server.FindListed | internal/api/flow_publish.go:284-294 | The loop finds the first listed snapshot of a version |
| Api.Server.HandleRollbackPublish | internal/api/flow_publish.go:254-311 | Search, check, store, synchronise |
| Api.Server.HandleDeleteFlow | internal/api/flow_handlers.go:113-166 | Trash or purge, with the matching unload |
| MqttKeys.NodeKeyInjective | internal/mqttendpoint/helpers.go:9-11 | With NUL-free flow ids node keys of different nodes differ |
| MqttKeys.FlowKeyInjective | internal/mqttendpoint/helpers.go:13-15 | Flow keys of different tracks or flows differ, for all flow ids |
| MqttKeys.FlowsClashExactly | internal/mqttendpoint/helpers.go:9-11 | Two flows can share a node key if and only if one id followed by NUL begins the other |
| MqttLedger.RemoveTrackEffect | internal/mqttendpoint/manager.go:236-253 | Removing a track drops exactly its handles, disconnects what they own once, and leaks nothing |
| MqttLedger.AddEffect | internal/mqttendpoint/manager.go:349-354 | Registering a handle changes only its own track and accounts for its client |
| MqttLedger.FoldEffect | internal/mqttendpoint/manager.go:113-224 | Adding receivers, then senders, keeps the books for every failure and leaks exactly when a node replaces an owner |
| MqttLedger.SyncTrackEffect | internal/mqttendpoint/manager.go:113-224 | A rebuild touches one track; a failure leaves it empty; a successful one leaks a client if and only if a node id repeats that of an earlier owner |
| MqttTracks.SyncTrackMounts | internal/mqttendpoint/manager.go:113-224 | A successful rebuild mounts exactly the managed nodes of its DSL on its track, a failed one none, and no other track changes |
| MqttTracks.WantedIs | internal/mqttendpoint/manager.go:113-347 | The nodes to mount in closed form: receivers, and managed senders that borrow a receiver or keep a client |
| MqttMounts.SyncSucceedsExactly | internal/mqttendpoint/manager.go:113-347 | A rebuild succeeds if and only if all receivers and senders parse, each mounted receiver and each sender with a client of its own is accepted by the network, and each borrowing sender names a node that then holds a receiver's client; what the ledger held does not matter |
| MqttMounts.ProperDslMounts | internal/mqttendpoint/manager.go:113-347 | In particular a DSL that parses, with distinct ids and borrows that name mounted receivers, goes up when the broker accepts every client |
| MqttMounts.ReceiversComeFirst | internal/mqttendpoint/manager.go:127-157 | A sender can borrow from a receiver that comes later in the DSL |
| MqttMounts.RebuiltHandles | internal/mqttendpoint/manager.go:255-354 | The handle of every node after a rebuild: receivers with their own client and topic, senders with their own client or the very client of their receiver, clients numbered in the order they connect |
| MqttMounts.PublisherFinds | internal/mqttendpoint/manager.go:78-91 | The publisher lookup finds the client of every node that holds one, the published track first, and no other |
| MqttMounts.PublisherAfterRebuild | internal/mqttendpoint/manager.go:78-91 | After a rebuild the lookup gives a borrowing sender the client its receiver subscribes with, and every other node its own |
| MqttRuns.SyncTrackInv | internal/mqttendpoint/manager.go:113-224 | When no node repeats the id of an owner a rebuild keeps: no leak, and every borrowed client is a live receiver of the same track and flow |
| MqttRuns.ClientsConserved | internal/mqttendpoint/manager.go:113-370 | Over every run each client ever connected is connected or was disconnected exactly once, and no client has two owners |
| MqttRuns.LedgerBalanced | internal/mqttendpoint/manager.go:113-370 | Over every run in which no node repeats the id of an owner the connected clients are exactly those owned by handles |
| MqttRuns.PublisherLive | internal/mqttendpoint/manager.go:78-91 | Over every run, whatever the node ids and failures, the publisher lookup returns only connected clients |
| MqttRuns.RepeatedIdLeaks | internal/mqttendpoint/manager.go:255-298 | Counterexample: two receivers with one id leave a connected client that nothing can reach |
| Sessions.UniqueNonEmpty | internal/mqttendpoint/draft_session.go:151-165 | The ids without blanks and duplicates |
| Sessions.DiffFlowSets | internal/mqttendpoint/draft_session.go:167-181 | Exactly the gained and lost flows, gained ones once if the input has no duplicates |
| Sessions.Decrement | internal/mqttendpoint/draft_session.go:35-40 | Each lost flow loses one reference and is forgotten at zero |
| Sessions.Increment | internal/mqttendpoint/draft_session.go:41-43 | Each gained flow gains one reference |
| MqttManager.Manager.AddIn | internal/mqttendpoint/manager.go:255-298 | Connects and subscribes a receiver, hanging up when the subscription fails |
| MqttManager.Manager.AddOut | internal/mqttendpoint/manager.go:300-347 | Borrows a receiver's client or connects one of its own |
| MqttManager.Manager.RemoveTrack | internal/mqttendpoint/manager.go:236-253 | The loop over a track's keys equals its specification |
| MqttManager.Manager.SyncFlow | internal/mqttendpoint/manager.go:113-158 | Drops the draft track, then rebuilds or empties the published one |
| MqttManager.Manager.SyncDraft | internal/mqttendpoint/manager.go:162-224 | Rebuilds the draft track only for an open, unpublished flow |
| MqttManager.Manager.Publisher | internal/mqttendpoint/manager.go:78-91 | Published handle first, then draft |
| MqttManager.Manager.StartAll | internal/mqttendpoint/manager.go:94-110 | Start-up rebuilds every published flow, skips failures, and ends by sweeping exactly the drafts nobody has open |
| MqttManager.Manager.ReplaceSession | internal/mqttendpoint/draft_session.go:16-57 | Replaces a session and returns exactly the flows whose open status changed, with exact counts |
| MqttManager.Manager.DropSession | internal/mqttendpoint/draft_session.go:73-92 | Removes a session and returns exactly the flows that closed, with exact counts |
| MqttManager.Manager.CloseUnopenedDrafts | internal/mqttendpoint/draft_session.go:119-138 | The sweep removes exactly the draft handles of flows that nobody has open |
| MqttManager.Manager.UpdateSessionOpenFlows | internal/mqttendpoint/draft_session.go:16-70 | Run alone, the call mounts the wanted draft nodes of every newly opened flow, and of all other handles removes exactly the drafts of flows nobody has open |
| MqttManager.Manager.ReleaseSession | internal/mqttendpoint/draft_session.go:73-94 | Run alone, the call removes exactly the draft handles of flows nobody has open any more |
| MqttManager.Manager.SyncDraftByID | internal/mqttendpoint/draft_session.go:140-149 | Rebuilds one draft: afterwards the flow has exactly the wanted draft nodes if it is open, and no other handle has changed |
| DraftProtocol.StepKeepsInv | internal/mqttendpoint/draft_session.go:16-138 | Under interleaving, a mounted draft of a closed flow always has a pending remover or a sweep yet to see it, or came from a late save |
| DraftProtocol.OrphansAreLateSaves | internal/mqttendpoint/draft_session.go:107-138 | Once no session call is in flight, the flows with a draft although closed are exactly those for which the run contains a late mount by a save with no removal or opening after it |
| DraftProtocol.DraftsFollowEditors | internal/mqttendpoint/draft_session.go:16-138 | Under every interleaving with saves in time, remaining drafts belong to open flows |
| DraftProtocol.SessionCallsAlone | internal/mqttendpoint/draft_session.go:16-94 | Under every interleaving of session calls alone, remaining drafts belong to open flows |
| DraftProtocol.LateSaveOrphans | internal/mqttendpoint/draft_session.go:107-116 | Counterexample: a save that mounts after the last editor left leaves an orphaned draft when all calls have returned |
| DraftProtocol.NextSessionCallSweeps | internal/mqttendpoint/draft_session.go:119-138 | From any reachable state no orphan outlives the next session call, unless another save comes too late meanwhile |
| DraftProtocol.CallMounts | internal/mqttendpoint/draft_session.go:59-69 | A session call or a save that comes to a flow removes its draft and mounts the new one exactly if the flow was open when the call looked and its draft can be mounted |
| DraftProtocol.SweepSparesOpen | internal/mqttendpoint/draft_session.go:119-138 | The sweep removes the draft of a flow that is closed when it looks and spares an open one |
| DraftSafety.SafeRun | internal/mqttendpoint/draft_session.go:16-138 | An open flow with a draft that no call in flight threatens keeps it over every run in which it stays open and is neither saved nor unloaded anew |
| DraftSafety.ThreatUnmounts | internal/mqttendpoint/draft_session.go:59-67 | A call in flight that threatens a draft can remove it without any new call and without any editor moving |
| DraftSafety.OpenDraftLostExactly | internal/mqttendpoint/draft_session.go:59-69 | An open flow can lose its draft, while it stays open and is neither saved nor unloaded anew, if and only if some call in flight threatens it |
| DraftProtocol.LateCloseUnmounts | internal/mqttendpoint/draft_session.go:59-62 | Counterexample: the delayed removal of one editor unmounts the draft that another has just opened, and the flow stays open without it |
| DraftBridge.RemoveDraftView | internal/mqttendpoint/manager.go:231-253 | Removing the draft track of the ledger is the protocol's removal |
| DraftBridge.StepView | internal/mqttendpoint/manager.go:255-354 | Each ledger step of a rebuild that files a draft handle is the protocol's mount of that node; any other leaves all drafts alone |
| DraftBridge.LedgerDraftsFollowEditors | internal/mqttendpoint/draft_session.go:16-138 | Under every interleaving over the real ledger, once no session call is in flight, draft handles of closed flows are exactly those that some move of a save mounted late with no later removal or opening |
| OAuthStore.StepSimulates | internal/oauth/memory.go:96-154 | One operation on a purging store answers like a store that never purges and stays related to it |
| OAuthStore.PurgeInvisible | internal/oauth/memory.go:96-154 | With a clock that never goes back, every take in every run answers the same without purging |
| OAuthStore.MemoryStore.PurgeLocked | internal/oauth/memory.go:143-154 | The two loops delete exactly the expired entries |
| OAuthStore.MemoryStore.SaveCode | internal/oauth/memory.go:96-102 | Purges, then stores |
| OAuthStore.MemoryStore.TakeCode | internal/oauth/memory.go:104-118 | Purges, removes the code and hands it out unless expired |
| OAuthStore.MemoryStore.SaveRefresh | internal/oauth/memory.go:120-125 | Stores without purging |
| OAuthStore.MemoryStore.TakeRefresh | internal/oauth/memory.go:127-141 | Purges, removes the token and hands it out unless expired |
| OAuthStore.MemoryStore.ClientAllowsRedirect | internal/oauth/memory.go:83-94 | The loop decides membership among the registered redirects |
| OAuthGrants.NewCodeResource | internal/oauth/authorize.go:106-121 | The resource of a new code is always this server's own address up to spaces and slashes |
| OAuthGrants.FixedBase | internal/oauth/server.go:70-90 | With a fixed public address the resource does not depend on the request |
| OAuthGrants.InferredBaseExactly | internal/oauth/server.go:87-104 | Without a fixed address, a token is accepted by a request exactly when both requests infer the same address up to closing slashes |
| OAuthGrants.OtherHostTurnedAway | internal/oauth/server.go:99-103 | Counterexample: a token obtained under one host name is turned away under another |
| OAuthChains.LoginInv | internal/oauth/authorize.go:56-121 | The authorize step saves only codes whose client, redirect, challenge and resource were checked |
| OAuthChains.BeginCodeInv | internal/oauth/token.go:28-64 | Taking a code, refused or not, keeps every chain in one place |
| OAuthChains.BeginRefreshInv | internal/oauth/token.go:67-101 | Taking a refresh token, refused or not, keeps every chain in one place |
| OAuthChains.FinishInv | internal/oauth/token.go:112-149 | Issuing a pair keeps one live token per chain and its provenance |
| OAuthChains.HeldResource | internal/oauth/token.go:118-120 | The default resource of the token endpoint is never used in a reachable state |
| OAuthChains.GrantsUsedOnce | internal/oauth/memory.go:96-141 | Over every interleaving a code is accepted at most once and a refresh token at most once |
| OAuthChains.OneLiveTokenPerChain | internal/oauth/token.go:28-149 | Each code lineage has at most one live refresh token, and live tokens never outnumber successful exchanges |
| OAuthChains.PairsComeFromLogins | internal/oauth/token.go:51-124 | Every pair carries client, user and resource of one login whose registered redirect and challenge were proved at the exchange, where the client presented its own secret unless it is public, as it did again for this pair |
| OAuthChains.PairAccepted | internal/auth/auth.go:118-141 | A pair passes the audience check of a request exactly when the server has one address for it and for the login |
| OAuthChains.FixedBaseAccepts | internal/auth/auth.go:118-141 | With a fixed public address every issued pair passes the audience check |
| OAuthChains.ProceedsAuthenticated | internal/oauth/token.go:103-110 | No token request gets past its checks unless its client is public or presents its own secret, which is not empty |
| OAuthEffects.FormExactly | internal/oauth/authorize.go:137-164 | The authorize form is accepted if and only if everything in it is right, and an error names the first thing that is wrong |
| OAuthEffects.LoginEarnsCode | internal/oauth/authorize.go:56-121 | A login through a good form saves a code that holds for ten minutes and carries what the form said; live grants stay, expired ones go; anything else saves nothing |
| OAuthEffects.CodeGrantExactly | internal/oauth/token.go:28-64 | A code is exchanged if and only if the request is complete, the client authenticates, the code is live and made for this client and redirect, the verifier proves its challenge and the user exists; the grant, and each error |
| OAuthEffects.CodeGrantUses | internal/oauth/token.go:28-64 | An incomplete or unauthenticated request leaves the store alone, any other uses up its code and no other live grant, and drops expired ones |
| OAuthEffects.RefreshGrantExactly | internal/oauth/token.go:67-101 | A refresh token is exchanged if and only if it is live, belongs to the client named, that client authenticates and the user exists; the grant, and each error |
| OAuthEffects.RefreshGrantUses | internal/oauth/token.go:67-101 | Every request with a refresh token uses it up, and no other live grant, and drops expired ones |
| OAuthEffects.CodeWaits | internal/oauth/memory.go:96-154 | Over every run a code stays in the store until an authenticated request presents it or the clock has passed its end |
| OAuthEffects.LoginLeadsToGrant | internal/oauth/token.go:28-64 | From login to tokens: whatever comes in between, presenting the code in time with the right secret, redirect and verifier earns a grant for the user, scope and resource of the login |
| OAuthEffects.PairRefreshes | internal/oauth/token.go:112-149 | The refresh token of a pair earns the next grant, for the same client, user, scope and resource |
| OAuthEffects.BearerCases | internal/auth/auth.go:118-141 | A token without an audience passes, and so does any where no address is expected; otherwise some audience is the expected address up to spaces and closing slashes |
| OAuthServer.AudienceContains | internal/auth/auth.go:133-141 | The loop finds a matching audience if and only if there is one |
| OAuthServer.AcceptBearer | internal/auth/auth.go:118-125 | The bearer branch lets a token through exactly as specified |
| OAuthServer.Server.HandleAuthorizePost | internal/oauth/authorize.go:56-135 | Validate, log in, save a code; equals the transition of the run theorems |
| OAuthServer.Server.TokenFromCode | internal/oauth/token.go:28-65 | Take, check, issue; equals the two transitions of the run theorems |
| OAuthServer.Server.TokenFromRefresh | internal/oauth/token.go:67-101 | The token is taken before the client is looked at; equals the two transitions |
| EditorRpc.StepKeepsInv | internal/ws/active_query.go:83-144 | Every step of every interleaving keeps: own replies only, one accepted reply per call, room for every send |
| EditorRpc.OwnReplyOnly | internal/ws/active_query.go:103-144 | Over every interleaving a call returns only a reply of its kind bearing its id, and at most one reply is accepted for it |
| EditorRpc.SendsFindRoom | internal/ws/active_query.go:97-100 | A reply that took a channel always finds it empty, so the default branch is dead |
| EditorRpc.NothingLeft | internal/ws/active_query.go:121-125 | Every entry belongs to a call of its key that has not returned, so once all have returned both tables are empty |
| EditorRpc.RegisteredCanBeClaimed | internal/ws/active_query.go:83-101 | A reply of the kind and id of a registered call claims its channel |
| EditorRpc.ReachableExactly | internal/ws/active_query.go:115-125 | One step makes an open call deaf if and only if, before its channel is taken, another call begins with its key or cleans that key up |
| EditorRpc.HeardExactly | internal/ws/active_query.go:103-144 | In every run an open call can still be answered, or has its reply under way or in its channel, if and only if no such step fell between its beginning and the taking of its channel |
| EditorRpc.WaitingCallsAreHeard | internal/ws/active_patch.go:62-108 | With no reply under way, a waiting call has its reply or is registered if and only if it was never disturbed |
| EditorRpc.FreshIdsSuffice | internal/ws/active_query.go:50-55 | Ids that differ among calls under way disturb no open call |
| EditorRpc.RepeatedIdIsUnheard | internal/ws/active_query.go:115-125 | Counterexample: a repeated id lets one call unregister another |
| EditorCalls.OutcomeExactly | internal/ws/active_query.go:127-142 | Over every run a call ends with a reply if and only if it received one, as timed out if and only if its timer expired, and for want of an editor if and only if its message reached nobody |
| EditorCalls.ReplyIsClaimed | internal/ws/active_query.go:83-144 | A call that ends with a reply got the whole reply of the handler that took its channel; until then the reply is with that handler or in the channel |
| EditorCalls.ClaimedOnce | internal/ws/active_patch.go:42-60 | At most one reply of a run takes the channel of a call |
| EditorCalls.FilledIsReceived | internal/ws/active_patch.go:101-107 | A waiting call whose channel was taken and filled can receive, and ends with that very reply |
| EditorHub.Hub.ClaimChannel | internal/ws/active_query.go:87-96 | The critical section of a reply removes its entry or ignores the reply |
| EditorHub.Hub.Complete | internal/ws/active_patch.go:42-60 | A reply fills the empty channel registered under its id and changes no other |
| EditorHub.SendToAll | internal/ws/active_query.go:66-79 | The counting loop queues the event on exactly the connections of the user that have room and returns their number |

## Left out

- Clover, JSON and timestamps: a document is a record in a map and each store operation is atomic; database errors are not modelled.
- Migration of legacy published documents: runs start from migrated ones.
- Sockets, overlap rules of `http.ServeMux`, TLS parsing, the MQTT client library, the flow engine and message handling: distinct patterns are independent mux entries.
- CORS over runs: `RouteShape.RebuildCors` and `DropCors` say what one rebuild and one removal do to the flag; the run theorems cover where a route leads, not its flag.
- Two MQTT rebuilds of one flow at the same time: the ledger is sequential; the draft protocol interleaves at the granularity of one registered handle.
- Handlers at the same time: run theorems take HTTP handlers one after another; what interleaved route steps keep is in `RouteSync.InterleavingsKeepInv`.
- User accounts, and per-user access checks other than in the save handler: a forbidden request changes nothing.
- Handlers for discard, history deletion, restore, lock and group moves: they are one store call, and the run theorems include them as store steps.
- The insertion sort of group listings, documentation catalogues, settings, templates, API keys and configuration: easy members.
- Plugin host, MCP tool handlers, login page, metadata documents and dynamic client registration beyond adding a client.
- OAuth scope along a chain: a refresh may change it (`internal/oauth/token.go:96-99`), so no constancy is claimed; JWT encoding, password hashing and token lifetimes of access tokens.
- A redirect address that parses at registration but not after login: the code is saved in either case, and the response is not modelled.
- WebSocket pumps, pings, broadcast contents, cache invalidation and UI notifications.
- Timers: a timeout may happen at any moment while a call waits.
- NUL bytes in flow ids: the MQTT run theorems assume their absence.
