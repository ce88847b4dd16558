# FlowForge core, modelled in Dafny

FlowForge is a visual editor for TwinCAT PLC programs. Users draw flow graphs of
nodes and connections in the browser. A backend queues build jobs. Build servers
claim the jobs and run a pipeline of steps. A monitor server streams live PLC
variable values back to the editor.

This project models the parts of that system that hold its decisions. It proves
properties of each:

- **Execution order** (`execution_order.dfy`, `flow_graph.dfy`). This covers the
  editor's numbering of exec chains.
  - Connections into an `EN` port form a lookup keyed by `"<node>:<port>"`. A later
    connection with the same key wins.
  - From each `entry` node, a breadth-first walk follows the `ENO`, `TRUE` and `DO`
    links. It numbers the nodes it meets 1, 2, 3, … in that chain.
  - The chains share one order map, so a node keeps the first number it gets.
  - `WalkChain` is proved to produce exactly a breadth-first walk: discovery order,
    first discoverer, and closure under the links. `ComputeExecutionOrder` is
    proved to number exactly the nodes reachable from the entries.
- **Build pipeline** (`build_pipeline.dfy`). Steps run in order against one build
  context. Each step's elapsed time is stored under its name. The first step that
  throws adds one `"<name>: <message>"` error and stops the run.
- **Build job queue** (`build_job_repository.dfy`).
  - A claim marks one pending job of the requested TwinCAT version as claimed.
    That job has the least creation time.
  - The per-project listing is the project's jobs, newest first, as a permutation
    of them.
- **PLC state** (`plc_state.dfy`). The 17 ADS states with their codes, and the
  running, config-mode and safe-for-deploy classifications.
- **Variable naming** (`node_variable_mapping.dfy`, `strings.dfy`).
  - A port table gives each node type its variables `MAIN.<node>.<port>`.
  - The parser recovers the node id from a path. Parsing is proved to invert
    building for ids without a dot.
- **Online monitor store and handlers** (`online_store.dfy`, `online_mode.dfy`).
  - The store is a class whose actions each replace their own fields.
  - The watch list stays free of duplicates.
  - A batch of variable values is stored per path, with the last value winning.
  - Node states are derived from the truthiness of values, and only for paths that
    name a node.
  - Connection-status messages are filtered against the four known texts.
  - `goOnline` and `goOffline` make their store updates around the API calls.
- **Subscription table** (`subscription_manager.dfy`). The monitor server keeps a
  set of variable paths per hub connection.
- **Token table** (`user_token_repository.dfy`). The backend keeps one provider
  token per (user, provider) pair, with insert-or-update and delete.
- **Small validators and formatters**:
  - role permissions (`permissions.dfy`);
  - the monitor token check (`token_validator.dfy`);
  - MQTT topic names (`mqtt_topics.dfy`).
- **Declaration rewrite** (`text_control.dfy`). The version-info plugin sample
  rewrites a POU declaration one line at a time, on an array of its non-empty
  lines:
  - a line with `VERSION` or `AUTHOR` is replaced;
  - a text with neither gets a `VAR CONSTANT` block appended.

  The block is reproduced as the sample writes it. Its AUTHOR line starts with
  a tab and a space, and it has no closing `;`.

## Execution order as the code computes it

Three points of `computeExecutionOrder` are easy to misread. The model follows the
code on each:

- **Entry nodes are numbered.** The walk starts its queue with the entry node
  itself (executionOrder.ts:33-34). So the entry gets 1 and the first node after
  it gets 2; entries are not skipped. `ComputeExecutionOrder` numbers entries.
- **Only `entry` nodes are roots.** The roots are the nodes whose type is exactly
  `entry` (executionOrder.ts:19). A `methodEntry` node starts no chain of its own.
  It is numbered only if some chain reaches it.
- **Cycles are not rejected.** Nothing checks the exec links for cycles. A node
  already in the order map is skipped (executionOrder.ts:38). Targets already
  numbered are not queued (executionOrder.ts:45, 52). So a cycle ends the walk
  rather than looping, and the model needs no acyclicity assumption.

## Model

| member | source | states |
|---|---|---|
| ExecutionOrder.ExecLinks | src/frontend/src/features/editor/utils/executionOrder.ts:22-29 | every entry of the lookup comes from a connection into `EN` that leaves that key and enters that target |
| ExecutionOrder.BuildExecLinks | src/frontend/src/features/editor/utils/executionOrder.ts:22-29 | the loop builds exactly the lookup `ExecLinks`: every connection into `EN`, keyed by source node and port, in list order |
| ExecutionOrder.ExecLinksKeys | src/frontend/src/features/editor/utils/executionOrder.ts:23-29 | a key is present iff some `EN` connection leaves it |
| ExecutionOrder.ExecLinksLastWins | src/frontend/src/features/editor/utils/executionOrder.ts:23-29 | the target stored under a key is that of the last `EN` connection leaving the key |
| ExecutionOrder.EntryIds | src/frontend/src/features/editor/utils/executionOrder.ts:18-19 | the roots are exactly the ids of the nodes of type `entry` |
| ExecutionOrder.EntryIdsAppend | src/frontend/src/features/editor/utils/executionOrder.ts:19 | collecting entry ids distributes over concatenation of node lists, so the roots keep node-list order and multiplicity |
| ExecutionOrder.EntryIdsSingle | src/frontend/src/features/editor/utils/executionOrder.ts:19 | a single node contributes its id exactly when its type is `entry` |
| ExecutionOrder.WalkChain | src/frontend/src/features/editor/utils/executionOrder.ts:32-56 | one entry's walk is a breadth-first walk that skips already numbered nodes: ENO, TRUE, DO order, each node credited to its first discoverer, closed under the links; it numbers the walk's nodes 1, 2, … and keeps earlier numbers |
| ExecutionOrder.VisitHead | src/frontend/src/features/editor/utils/executionOrder.ts:37-41 | visiting the queue head gives it the next number and appends it to the walk, keeping the walk invariant |
| ExecutionOrder.FollowExecPorts | src/frontend/src/features/editor/utils/executionOrder.ts:43-55 | following ENO, then TRUE, then DO of the node just numbered keeps the walk invariant, with all three ports followed |
| ExecutionOrder.FollowPort | src/frontend/src/features/editor/utils/executionOrder.ts:44-47 | following one port queues a non-empty, not yet numbered target and keeps the walk invariant |
| ExecutionOrder.WalkDone | src/frontend/src/features/editor/utils/executionOrder.ts:36 | an empty queue means the walk is complete: distinct nodes, closed under the links |
| ExecutionOrder.ComputeExecutionOrder | src/frontend/src/features/editor/utils/executionOrder.ts:12-60 | no entry gives the empty map; the map is exactly the chains walked in entry order, each numbered from 1, a node keeping its first chain's number; a node is numbered iff it is reachable from an entry; every number is at least 1 and every key is an entry or a link target |
| ExecutionOrder.ChainsReach | src/frontend/src/features/editor/utils/executionOrder.ts:32-56 | the nodes of the walked chains are exactly those reachable from the entries |
| ExecutionOrder.WalkPath | src/frontend/src/features/editor/utils/executionOrder.ts:36-55 | every node of a walk is at the end of an exec path from the entry |
| ExecutionOrder.ChainsClosed | src/frontend/src/features/editor/utils/executionOrder.ts:32-56 | the covered set holds every entry and is closed under the links |
| ExecutionOrder.ReachableIsEntryOrTarget | src/frontend/src/features/editor/utils/executionOrder.ts:18-29 | a reachable node is an entry or the target of some exec link |
| ExecutionOrder.NumbersPositive | src/frontend/src/features/editor/utils/executionOrder.ts:33-41 | every number handed out is at least 1 |
| BuildPipeline.FirstFailure | src/build-server/src/FlowForge.BuildServer/Pipeline/BuildPipeline.cs:21-40 | none iff every step completes; otherwise the index of a throwing step with every earlier step completing |
| BuildPipeline.Execute | src/build-server/src/FlowForge.BuildServer/Pipeline/BuildPipeline.cs:19-44 | timings are recorded for exactly the steps that ran; the errors gain just the first failure's line; the generated files are untouched; the result is true iff no step threw and there were no earlier errors |
| BuildPipeline.RanIsPrefix | src/build-server/src/FlowForge.BuildServer/Pipeline/BuildPipeline.cs:21-40 | the steps that run are a prefix; all but the last completed; a run cut short ends at the step that threw |
| BuildPipeline.OneErrorAtMost | src/build-server/src/FlowForge.BuildServer/Pipeline/BuildPipeline.cs:33-39 | a run adds at most one error, exactly when some step throws; that error is `"<name>: <message>"` and contains the message |
| BuildPipeline.TimingsKeys | src/build-server/src/FlowForge.BuildServer/Pipeline/BuildPipeline.cs:30-36 | a name has a timing iff it had one or some run bears it |
| BuildPipeline.TimingsLastWins | src/build-server/src/FlowForge.BuildServer/Pipeline/BuildPipeline.cs:30-36 | a name's timing is the duration of its last run |
| BuildPipeline.TimingsUntouched | src/build-server/src/FlowForge.BuildServer/Pipeline/BuildPipeline.cs:30-36 | names no run bears keep their timing |
| BuildPipeline.EmptyPipeline | src/build-server/src/FlowForge.BuildServer/Pipeline/BuildPipeline.cs:21-43 | an empty pipeline runs nothing and adds no error |
| BuildJobRepository.OldestClaimable | src/backend/src/FlowForge.Backend.Infrastructure/Repositories/BuildJobRepository.cs:40-43 | none iff no pending job has the version; otherwise a pending job of that version with the least creation time |
| BuildJobRepository.ClaimAt | src/backend/src/FlowForge.Backend.Infrastructure/Repositories/BuildJobRepository.cs:47-49 | the chosen job becomes claimed, with the claimant and start time set; every other job is unchanged |
| BuildJobRepository.OfProject | src/backend/src/FlowForge.Backend.Infrastructure/Repositories/BuildJobRepository.cs:22 | the filter keeps exactly the project's jobs, each as often as the table holds it |
| BuildJobRepository.InsertNewestFirst | src/backend/src/FlowForge.Backend.Infrastructure/Repositories/BuildJobRepository.cs:22 | inserting into a newest-first list keeps it newest first and adds exactly the job |
| BuildJobRepository.SortNewestFirst | src/backend/src/FlowForge.Backend.Infrastructure/Repositories/BuildJobRepository.cs:22 | the result is newest first and a permutation of the input |
| BuildJobRepository.ProjectListing | src/backend/src/FlowForge.Backend.Infrastructure/Repositories/BuildJobRepository.cs:21-22 | the listing is newest first and holds exactly the project's jobs, with their multiplicities |
| BuildJobRepository.ClaimRemovesOne | src/backend/src/FlowForge.Backend.Infrastructure/Repositories/BuildJobRepository.cs:40-49 | after a claim, a job is claimable iff it was before and is not the claimed one |
| BuildJobRepository.SecondClaimDiffers | src/backend/src/FlowForge.Backend.Infrastructure/Repositories/BuildJobRepository.cs:37-52 | two claims in a row never hand out the same job |
| BuildJobRepository.JobTable.GetByProjectId | src/backend/src/FlowForge.Backend.Infrastructure/Repositories/BuildJobRepository.cs:21-22 | returns the project's jobs newest first |
| BuildJobRepository.JobTable.Add | src/backend/src/FlowForge.Backend.Infrastructure/Repositories/BuildJobRepository.cs:24-29 | appends the job and returns it |
| BuildJobRepository.JobTable.ClaimNext | src/backend/src/FlowForge.Backend.Infrastructure/Repositories/BuildJobRepository.cs:37-52 | none (and no change) iff nothing is claimable; otherwise one oldest claimable job is claimed in place and returned as stored |
| PlcState.FromCode | src/shared/FlowForge.Shared/Models/Ads/PlcAdsState.cs:11-30 | a code names a state iff it is 0..16, and that state has the code |
| PlcState.CodeRoundTrip | src/shared/FlowForge.Shared/Models/Ads/PlcAdsState.cs:11-30 | every state's code names it back |
| PlcState.IsRunning | src/shared/FlowForge.Shared/Models/Ads/PlcStateDto.cs:12 | running iff the state code is 5 (`Run`) |
| PlcState.IsInConfigMode | src/shared/FlowForge.Shared/Models/Ads/PlcStateDto.cs:13 | config mode iff the state code is 15 or 16 (`Config`, `Reconfig`) |
| PlcState.IsSafeForDeploy | src/shared/FlowForge.Shared/Models/Ads/PlcStateDto.cs:14 | safe for deploy iff the state code is 6 or 15 (`Stop`, `Config`) |
| PlcState.RunningIsNotSafe | src/shared/FlowForge.Shared/Models/Ads/PlcStateDto.cs:12-14 | a running controller is neither safe for deploy nor in config mode |
| PlcState.ConfigStates | src/shared/FlowForge.Shared/Models/Ads/PlcStateDto.cs:13-14 | Config is config mode and safe; Reconfig is config mode, not safe; Stop is safe, not config mode |
| PlcState.OtherStatesSatisfyNone | src/shared/FlowForge.Shared/Models/Ads/PlcStateDto.cs:12-14 | the other 13 states satisfy none of the three |
| NodeVariableMapping.NodePorts | src/frontend/src/features/editor/utils/nodeVariableMapping.ts:10-21 | exactly the ten listed node types have an entry; `entry` has no ports; every port name is a non-empty segment without a dot |
| NodeVariableMapping.VariablePathsForNode | src/frontend/src/features/editor/utils/nodeVariableMapping.ts:27-31 | an unknown type has no paths; a known type has one `MAIN.<id>.<port>` per port, in port order |
| NodeVariableMapping.PathsFor | src/frontend/src/features/editor/utils/nodeVariableMapping.ts:30 | one path per port, in port order |
| NodeVariableMapping.AllVariablePaths | src/frontend/src/features/editor/utils/nodeVariableMapping.ts:36-38 | a path is collected iff some node of the list owns it |
| NodeVariableMapping.NodeIdFromPath | src/frontend/src/features/editor/utils/nodeVariableMapping.ts:43-49 | a parsed id has no dot and the path is `MAIN.<id>.<rest>` for some rest |
| NodeVariableMapping.NoPathsWithoutPorts | src/frontend/src/features/editor/utils/nodeVariableMapping.ts:10-29 | entry nodes and unknown types own no variables |
| NodeVariableMapping.AllPathsAppend | src/frontend/src/features/editor/utils/nodeVariableMapping.ts:36-38 | collecting paths distributes over concatenation of node lists |
| NodeVariableMapping.AllPathsSingle | src/frontend/src/features/editor/utils/nodeVariableMapping.ts:36-38 | a single node contributes exactly its own paths |
| NodeVariableMapping.ParsesExactly | src/frontend/src/features/editor/utils/nodeVariableMapping.ts:43-49 | a path parses to `id` iff `id` has no dot and the path is `MAIN.<id>.<rest>` |
| NodeVariableMapping.RoundTrip | src/frontend/src/features/editor/utils/nodeVariableMapping.ts:27-49 | parsing a built path gives back an id without a dot |
| NodeVariableMapping.NodePathsTraceBack | src/frontend/src/features/editor/utils/nodeVariableMapping.ts:27-49 | every path of a node traces back to that node |
| NodeVariableMapping.EmptyMiddleSegment | src/frontend/src/features/editor/utils/nodeVariableMapping.ts:45-46 | `MAIN..X` parses to the empty id, not to none |
| Strings.SplitJoin | src/frontend/src/features/editor/utils/nodeVariableMapping.ts:44 | splitting undoes joining pieces free of the separator |
| Strings.JoinSplit | src/frontend/src/features/editor/utils/nodeVariableMapping.ts:44 | joining undoes splitting |
| Strings.SplitAfter | src/frontend/src/features/editor/utils/nodeVariableMapping.ts:44 | the first piece of `a + sep + b` is `a` when `a` has no separator |
| OnlineStore.Store.constructor | src/frontend/src/features/editor/stores/useOnlineStore.ts:34-45 | a new store holds the initial state |
| OnlineStore.Store.SetSession | src/frontend/src/features/editor/stores/useOnlineStore.ts:47 | only the session changes |
| OnlineStore.Store.SetOnline | src/frontend/src/features/editor/stores/useOnlineStore.ts:49 | only the online flag changes |
| OnlineStore.Store.UpdateVariableValues | src/frontend/src/features/editor/stores/useOnlineStore.ts:51-58 | only the values change, to the batch stored in order |
| OnlineStore.Store.UpdateNodeState | src/frontend/src/features/editor/stores/useOnlineStore.ts:60-65 | only the one node's state entry changes |
| OnlineStore.Store.UpdateConnectionStatus | src/frontend/src/features/editor/stores/useOnlineStore.ts:67 | only the connection status changes |
| OnlineStore.Store.SetError | src/frontend/src/features/editor/stores/useOnlineStore.ts:69 | only the error changes |
| OnlineStore.Store.AddToWatchList | src/frontend/src/features/editor/stores/useOnlineStore.ts:71-75 | only the watch list changes: the path is appended when absent |
| OnlineStore.Store.RemoveFromWatchList | src/frontend/src/features/editor/stores/useOnlineStore.ts:77-80 | only the watch list changes: it is filtered of the path |
| OnlineStore.Store.Reset | src/frontend/src/features/editor/stores/useOnlineStore.ts:82 | the store is back to the initial state exactly |
| OnlineStore.WithValues | src/frontend/src/features/editor/stores/useOnlineStore.ts:53-57 | no path loses its value; every entry is the old one or a value that arrived for that very path |
| OnlineStore.ValuesKeys | src/frontend/src/features/editor/stores/useOnlineStore.ts:51-58 | a path has a value iff it had one or the batch carries it |
| OnlineStore.ValuesLastWins | src/frontend/src/features/editor/stores/useOnlineStore.ts:54-56 | the last value of the batch for a path wins |
| OnlineStore.ValuesUntouched | src/frontend/src/features/editor/stores/useOnlineStore.ts:51-58 | paths not in the batch keep their value |
| OnlineStore.Added | src/frontend/src/features/editor/stores/useOnlineStore.ts:73-74 | the entries are the old ones and the path; the old list is kept as a prefix and at most one entry is added |
| OnlineStore.AddedOnce | src/frontend/src/features/editor/stores/useOnlineStore.ts:71-75 | the path ends up on the list; a present path leaves it unchanged, an absent one is appended; adding twice is adding once |
| OnlineStore.Without | src/frontend/src/features/editor/stores/useOnlineStore.ts:79 | the filtered list holds exactly the other entries and is no longer |
| OnlineStore.WithoutKeepsOrder | src/frontend/src/features/editor/stores/useOnlineStore.ts:77-80 | removing distributes over concatenation, so the other entries keep their order |
| OnlineStore.WithoutAbsent | src/frontend/src/features/editor/stores/useOnlineStore.ts:77-80 | removing an absent path changes nothing |
| OnlineStore.RemoveUndoesAdd | src/frontend/src/features/editor/stores/useOnlineStore.ts:71-80 | removing undoes adding an absent path |
| OnlineStore.WithoutNoDuplicates | src/frontend/src/features/editor/stores/useOnlineStore.ts:77-80 | removing keeps a duplicate-free list duplicate-free |
| OnlineStore.AddedNoDuplicates | src/frontend/src/features/editor/stores/useOnlineStore.ts:71-75 | adding keeps a duplicate-free list duplicate-free |
| OnlineStore.WatchListNeverDuplicates | src/frontend/src/features/editor/stores/useOnlineStore.ts:71-80 | any run of adds and removes keeps a duplicate-free list duplicate-free |
| OnlineStore.FromInitialNoDuplicates | src/frontend/src/features/editor/stores/useOnlineStore.ts:71-80 | a watch list built from the initial state never holds a path twice |
| OnlineMode.NodeOf | src/frontend/src/features/editor/hooks/useOnlineMode.ts:26-27 | a value names a node only when its path parses to a non-empty id |
| OnlineMode.DeriveNodeStates | src/frontend/src/features/editor/hooks/useOnlineMode.ts:25-32 | no node loses its state; every entry is the old one or a derived active or idle state, never the error state |
| OnlineMode.ReceiveVariableValues | src/frontend/src/features/editor/hooks/useOnlineMode.ts:21-33 | the batch is stored in the values, node states are derived from it value by value, nothing else changes |
| OnlineMode.NodeStatesKeys | src/frontend/src/features/editor/hooks/useOnlineMode.ts:25-32 | a node has a state iff it had one or some value names it |
| OnlineMode.NodeStatesLastWins | src/frontend/src/features/editor/hooks/useOnlineMode.ts:25-32 | a named node is active iff the last value naming it is truthy, idle otherwise |
| OnlineMode.NodeStatesUntouched | src/frontend/src/features/editor/hooks/useOnlineMode.ts:25-32 | a node no value names keeps its state |
| OnlineMode.UnnamedValueIgnored | src/frontend/src/features/editor/hooks/useOnlineMode.ts:26-27 | a value whose path gives no non-empty node id, anywhere in the batch, does not change the node states |
| OnlineMode.ParseConnectionStatus | src/frontend/src/features/editor/hooks/useOnlineMode.ts:35-41 | a status is parsed iff the text is one of the four status texts, and the parsed status has that text |
| OnlineMode.StatusRoundTrip | src/frontend/src/features/editor/hooks/useOnlineMode.ts:35-40 | exactly the four status texts parse, each to its own status |
| OnlineMode.ReceiveConnectionStatus | src/frontend/src/features/editor/hooks/useOnlineMode.ts:34-43 | a known text sets the status; any other text changes nothing |
| OnlineMode.ReceiveError | src/frontend/src/features/editor/hooks/useOnlineMode.ts:44-46 | only the error changes, to the message |
| OnlineMode.FailureMessage | src/frontend/src/features/editor/hooks/useOnlineMode.ts:94-96 | an `Error` gives its own message; any other thrown value gives the fixed default, which is not empty |
| OnlineMode.GoOnline | src/frontend/src/features/editor/hooks/useOnlineMode.ts:81-99 | a missing or empty project or target changes nothing; success clears the error, sets connecting, the session and online; failure sets the error message (or the default) and the error status |
| OnlineMode.GoOffline | src/frontend/src/features/editor/hooks/useOnlineMode.ts:101-112 | the store is reset to the initial state; the stop request is due iff a session with a non-empty id was open, for that id |
| SubscriptionManager.Subscribed | src/monitor-server/src/FlowForge.MonitorServer/Services/SubscriptionManager.cs:12-16 | the connection's set gains the path (created empty if missing); other connections are unchanged |
| SubscriptionManager.Unsubscribed | src/monitor-server/src/FlowForge.MonitorServer/Services/SubscriptionManager.cs:18-24 | the connection's set loses just the path; an unknown connection leaves the table as it is; others are unchanged |
| SubscriptionManager.Dropped | src/monitor-server/src/FlowForge.MonitorServer/Services/SubscriptionManager.cs:35-38 | the connection's set is empty afterwards; others are unchanged |
| SubscriptionManager.Subscriptions.AddSubscription | src/monitor-server/src/FlowForge.MonitorServer/Services/SubscriptionManager.cs:12-16 | the table becomes `Subscribed` of the old table |
| SubscriptionManager.Subscriptions.RemoveSubscription | src/monitor-server/src/FlowForge.MonitorServer/Services/SubscriptionManager.cs:18-24 | the table becomes `Unsubscribed` of the old table |
| SubscriptionManager.Subscriptions.GetSubscriptions | src/monitor-server/src/FlowForge.MonitorServer/Services/SubscriptionManager.cs:26-33 | returns the connection's set as a value, empty for an unknown connection |
| SubscriptionManager.Subscriptions.RemoveAllSubscriptions | src/monitor-server/src/FlowForge.MonitorServer/Services/SubscriptionManager.cs:35-38 | the table becomes `Dropped` of the old table |
| SubscriptionManager.AddTwice | src/monitor-server/src/FlowForge.MonitorServer/Services/SubscriptionManager.cs:10-16 | adding the same path twice is adding it once |
| SubscriptionManager.RemoveUndoesAdd | src/monitor-server/src/FlowForge.MonitorServer/Services/SubscriptionManager.cs:12-24 | removing undoes adding a path the connection did not have |
| SubscriptionManager.AddThenGet | test/FlowForge.MonitorServer.Tests/SubscriptionManagerTests.cs:12-21 | after one add to a fresh table the connection holds exactly that path |
| SubscriptionManager.RemoveAllClears | test/FlowForge.MonitorServer.Tests/SubscriptionManagerTests.cs:23-33 | two adds, then removing the connection, leave it with nothing |
| UserTokenRepository.FirstMatch | src/backend/src/FlowForge.Backend.Infrastructure/Repositories/UserTokenRepository.cs:17-18 | none iff no row has the pair; otherwise the first row with it |
| UserTokenRepository.Upserted | src/backend/src/FlowForge.Backend.Infrastructure/Repositories/UserTokenRepository.cs:20-35 | without a match the token is appended; with one, only that row's token bytes and expiry change, its id, pair and creation time stay, the row count stays and every other row is unchanged |
| UserTokenRepository.Deleted | src/backend/src/FlowForge.Backend.Infrastructure/Repositories/UserTokenRepository.cs:37-45 | without a match nothing changes; with one, exactly that row is removed |
| UserTokenRepository.TokenTable.GetByUserAndProvider | src/backend/src/FlowForge.Backend.Infrastructure/Repositories/UserTokenRepository.cs:17-18 | none iff no row has the pair; otherwise the first row with it |
| UserTokenRepository.TokenTable.AddOrUpdate | src/backend/src/FlowForge.Backend.Infrastructure/Repositories/UserTokenRepository.cs:20-35 | the table becomes `Upserted`; the result is the updated existing row or the new token |
| UserTokenRepository.TokenTable.Delete | src/backend/src/FlowForge.Backend.Infrastructure/Repositories/UserTokenRepository.cs:37-45 | the table becomes `Deleted` |
| UserTokenRepository.UpsertReturnsStoredRow | src/backend/src/FlowForge.Backend.Infrastructure/Repositories/UserTokenRepository.cs:34 | the returned row is in the table, has the pair, and carries the new bytes and expiry |
| UserTokenRepository.UpsertKeepsKeysUnique | src/backend/src/FlowForge.Backend.Infrastructure/Repositories/UserTokenRepository.cs:22-32 | an update keeps at most one row per pair and leaves one for the token's pair |
| UserTokenRepository.DeleteRemovesPair | src/backend/src/FlowForge.Backend.Infrastructure/Repositories/UserTokenRepository.cs:37-45 | a delete keeps pairs unique and leaves no row with the pair |
| UserTokenRepository.UpsertLeavesOthers | src/backend/src/FlowForge.Backend.Infrastructure/Repositories/UserTokenRepository.cs:20-35 | rows under other pairs survive an update unchanged |
| UserTokenRepository.DeleteLeavesOthers | src/backend/src/FlowForge.Backend.Infrastructure/Repositories/UserTokenRepository.cs:37-45 | rows under other pairs survive a delete unchanged |
| Permissions.RolePermissions | src/frontend/src/auth/permissions.ts:16-40 | exactly the five defined roles have an entry; each lists project view and monitor; `admin` lists every permission; only `admin` lists an administration permission |
| Permissions.HasPermission | src/frontend/src/auth/permissions.ts:42-49 | true iff some role of the list maps to a permission list containing the permission |
| Permissions.UnknownRolesGrantNothing | src/frontend/src/auth/permissions.ts:46-48 | no roles, or only unknown ones, grant nothing |
| Permissions.AdminHasAll | src/frontend/src/auth/permissions.ts:28-39 | an admin has every permission |
| Permissions.Monotone | src/frontend/src/auth/permissions.ts:46-48 | more roles never take a permission away |
| Permissions.AdminOnly | src/frontend/src/auth/permissions.ts:16-40 | project create, project delete and both admin permissions are granted by `admin` alone |
| Permissions.DeployerOrAdminOnly | src/frontend/src/auth/permissions.ts:16-40 | deploy and target management are granted by `deployer` and `admin` alone |
| TokenValidator.TokenValidator.Validate | src/monitor-server/src/FlowForge.MonitorServer/Auth/TokenValidator.cs:15-19 | a token is accepted iff it is the expected token and that token is not empty |
| TokenValidator.MissingOrEmptyRejected | src/monitor-server/src/FlowForge.MonitorServer/Auth/TokenValidator.cs:19 | a missing or empty token is rejected |
| TokenValidator.DifferentRejected | src/monitor-server/src/FlowForge.MonitorServer/Auth/TokenValidator.cs:19 | any other token is rejected |
| TokenValidator.EmptyExpectedRejectsAll | src/monitor-server/src/FlowForge.MonitorServer/Auth/TokenValidator.cs:10-19 | a validator built with the empty token accepts nothing |
| MqttTopics.BuildNotify | src/shared/FlowForge.Shared/Mqtt/MqttTopics.cs:14-15 | the topic is `flowforge/build/notify/` followed by the argument |
| MqttTopics.BuildProgress | src/shared/FlowForge.Shared/Mqtt/MqttTopics.cs:17-18 | the topic is `flowforge/build/progress/` followed by the argument |
| MqttTopics.DeployRequest | src/shared/FlowForge.Shared/Mqtt/MqttTopics.cs:20-21 | the topic is `flowforge/deploy/request/` followed by the argument |
| MqttTopics.DeployStatus | src/shared/FlowForge.Shared/Mqtt/MqttTopics.cs:23-24 | the topic is `flowforge/deploy/status/` followed by the argument |
| MqttTopics.UnderPrefix | src/shared/FlowForge.Shared/Mqtt/MqttTopics.cs:12-24 | every topic starts with `flowforge/` |
| MqttTopics.Injective | src/shared/FlowForge.Shared/Mqtt/MqttTopics.cs:14-24 | each builder gives different topics for different arguments |
| MqttTopics.Disjoint | src/shared/FlowForge.Shared/Mqtt/MqttTopics.cs:14-24 | topics from different builders never coincide |
| TextControl.SplitNonEmpty | src/build-server/samples/PluginSample_PlcVersionInfo/PluginSample_PlcVersionInfo/TextControl.cs:103 | the pieces are non-empty and free of newlines |
| TextControl.NonEmpty | src/build-server/samples/PluginSample_PlcVersionInfo/PluginSample_PlcVersionInfo/TextControl.cs:103 | dropping empty pieces keeps exactly the non-empty ones |
| TextControl.NonEmptyAppend | src/build-server/samples/PluginSample_PlcVersionInfo/PluginSample_PlcVersionInfo/TextControl.cs:103 | dropping empty pieces distributes over concatenation, so the kept pieces keep their order and multiplicity |
| TextControl.NonEmptySingle | src/build-server/samples/PluginSample_PlcVersionInfo/PluginSample_PlcVersionInfo/TextControl.cs:103 | a single piece is kept exactly when it is not empty |
| TextControl.RewriteLine | src/build-server/samples/PluginSample_PlcVersionInfo/PluginSample_PlcVersionInfo/TextControl.cs:107-116 | an untagged line is kept; a tagged one becomes the VERSION or the AUTHOR line, which is tagged again |
| TextControl.RewriteLines | src/build-server/samples/PluginSample_PlcVersionInfo/PluginSample_PlcVersionInfo/TextControl.cs:105-116 | each line is rewritten on its own, at its own position |
| TextControl.RewriteLineAt | src/build-server/samples/PluginSample_PlcVersionInfo/PluginSample_PlcVersionInfo/TextControl.cs:107-116 | the line at `i` gets the VERSION line if it mentions VERSION, else the AUTHOR line if it mentions AUTHOR, else stays; no other line changes; a tag was found iff the line has one |
| TextControl.Rewritten | src/build-server/samples/PluginSample_PlcVersionInfo/PluginSample_PlcVersionInfo/TextControl.cs:102-129 | nothing is written iff the declaration consists of newlines only |
| TextControl.RewriteDeclaration | src/build-server/samples/PluginSample_PlcVersionInfo/PluginSample_PlcVersionInfo/TextControl.cs:102-129 | writes the joined rewritten lines if some line has a tag, the text with the block appended if none has, and nothing if there are no non-empty lines |
| TextControl.NothingLeft | src/build-server/samples/PluginSample_PlcVersionInfo/PluginSample_PlcVersionInfo/TextControl.cs:103 | splitting leaves no non-empty piece iff every character is the separator |
| TextControl.Resplit | src/build-server/samples/PluginSample_PlcVersionInfo/PluginSample_PlcVersionInfo/TextControl.cs:103-127 | with newline-free version and author, splitting the joined result gives back the rewritten lines: no blank line survives |
| TextControl.ReplacementsTagged | src/build-server/samples/PluginSample_PlcVersionInfo/PluginSample_PlcVersionInfo/TextControl.cs:107-116 | the replacement lines carry the tags they replace |
| TextControl.StableLine | src/build-server/samples/PluginSample_PlcVersionInfo/PluginSample_PlcVersionInfo/TextControl.cs:107-116 | a rewritten line rewrites to itself when the author line does not mention VERSION |
| TextControl.RewriteIdempotent | src/build-server/samples/PluginSample_PlcVersionInfo/PluginSample_PlcVersionInfo/TextControl.cs:102-129 | rewriting again a declaration whose tags were replaced writes the same text |
| TextControl.IsPou | src/build-server/samples/PluginSample_PlcVersionInfo/PluginSample_PlcVersionInfo/TextControl.cs:158-164 | function blocks, functions and programs are POUs, and no other item is |
| TextControl.RewriteItem | src/build-server/samples/PluginSample_PlcVersionInfo/PluginSample_PlcVersionInfo/TextControl.cs:158-164 | only function blocks, functions and programs are rewritten |

## Left out

- Concurrency. The subscription table's `ConcurrentDictionary` and locks, simultaneous claims of build jobs (the code has a TODO for row locking), and interleavings of the editor's async handlers are not modelled. All operations are sequential.
- Clocks. The pipeline's stopwatch readings are given per step as a `Duration`, and the claim time `now` is a parameter. Instants are integers.
- Network and I/O. The monitor API's start and stop calls are not modelled: their outcome is a parameter, and the stop call is returned as the session id to stop. Also left out are the SignalR connection, its status effect, the two effects that subscribe paths over the hub, database saves, logging, and the plugin's UI text.
- The work of build steps. A step is its name, its outcome and its duration. Changes a step makes to the build context itself are not modelled.
- BuildPipeline.Execute: steps are taken not to add errors themselves, so the result is stated in terms of the errors present before the run and the steps' outcomes.
- The EF Core pass-throughs `GetByIdAsync` and `UpdateAsync` of the job repository. They carry no logic.
- The ordering among jobs with equal creation times. SQL leaves it open. `OldestClaimable` picks the first in table order, and `ClaimNext` promises only some oldest job.
- BuildJobRepository.JobTable.GetByProjectId: the model fixes one order among jobs with equal creation times, the one `SortNewestFirst` produces, where the database may return them in any order. `ProjectListing` proves only the facts the source guarantees: newest first, with exactly the project's jobs.
- JavaScript prototype keys. A role such as `constructor`, or a node type such as `toString`, reaches `Object.prototype` members in the lookup tables and would throw. The model treats every name outside the tables as absent.
- The primary-key uniqueness of a token row's `Id` is not modelled. Only the unique (UserId, Provider) index is modelled.
- Guids are their text form, and `DateTimeOffset` values are integers. PLC values are JSON values with JavaScript truthiness.
- `IsPOU` compares numeric tree-item codes from the TwinCAT automation library. The model names the three POU kinds, and any other code stands for the rest.
- The plugin's COM tree walk that finds the POUs, and its error handling.
- ExecutionOrder.FollowPort: its contract keeps only the walk invariant. It does not state the exact queue it leaves. `WalkChain` and `ComputeExecutionOrder` state the full result.
- TextControl.RewriteIdempotent: it requires that version and author hold no newline, and that the author line does not itself mention VERSION. Otherwise a second run can change the text.
