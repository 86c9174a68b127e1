# SmartMemory MCP: the protocols and algorithms, proved

A Dafny model of the stateful parts of the SmartMemory MCP server and of its exact text and arithmetic: what
every interleaving of a workspace switch with a backend migration keeps, which workspace a request names, what a crash
leaves of a stored key, what a cache, a rate limiter and a hint table promise over whole runs, and what the printed
timestamps, path segments, pages and code edges mean. `dafny verify dfyconfig.toml` checks everything.

| files | what they hold |
|---|---|
| `ProcessBackend`, `MigrationProtocol`, `MigrationTheorems`, `MigrationTools`, `MigrationEndings`, `Process` | the two backend caches, mode, config mode and parked workspace; one migration interleaved with any switches and tool calls as a state machine; the same code as objects on the heap, proved against it |
| `HeaderRule`, `HeaderSends`, `RoutingStore`, `SessionRouting`, `MigrationHeaders`, `WorkspaceSelect` | the session of the remote backend and what each request names, the routing sessions of the service, where the two together send a write, and how the session follows a migration |
| `CredentialDisk`, `CredentialFaults`, `CredentialStore` | the Windows credential files with a fault, a torn write or a crash at any step, and which faults end a call how |
| `ExchangeCache`, `ExchangeHistory` | the LRU cache of exchanged identities and runs of `get_sm_identity` |
| `RateLimit`, `RequestLimits`, `HintTable` | the fixed-window limiter over real time and which requests it limits to how many, the first-run hint queue |
| `Calendar`, `IsoText`, `SearchWindow` | UTC dates and instants, their printed text and its order, the search window |
| `Percent`, `PathGuard` | UTF-8, percent-encoding, and the id that stays one path segment |
| `LocalListing`, `CodeParser`, `CodeWritten`, `CodeBundle` | local pages, the bundled parser from a syntax tree on and what a file must hold for each edge, the published bundle |
| `Text`, `Sets`, `Wrappers` | the `str` operations used, a cardinality lemma, and `Option` |

State is modelled twice where the source mutates it: a function on values says what one locked section does, a class
does it in place and is proved equal to that function, and the theorems are about runs of the function. Everything the
outside world decides (a server answer, a failing build, a clock, an access-list change that fails) is an argument. What
a step must do is also said apart from the functions that say how, with names, numbers and formats written out
(`HeaderSends`, `RequestLimits`, `CodeWritten`, `MigrationEndings`, `WorkspaceSelect.ChoosesWhatIsNamed` and the like).

## What the proofs found

- The caches stay coherent in every interleaving, but a rebuild that raises leaves the common cache on the old object
  with the dispatch cache empty (`StaleOnlyByRaisedBuild`). After a failing migration a tool gets a backend of another
  kind than the mode selects exactly when the last rebuild raised in a process that was not hosted
  (`FailedMigrationLeavesTheModesBackendIff`); `RaisingRevertKeepsTheLocalBackend` is such a run: both modes say remote,
  every tool is on the local object.
- "A migration that fails after its config save ends with both modes restored" is false: a remote process whose import
  raises and whose `revert` cannot save the config stays on local in both (`UnsavedRevertStrands` is that run). A failing
  migration has both modes back if and only if some config save of a revert returned during it
  (`FailingMigrationRestoresIffSavedBack`). A `revert` that raises while it reports an all-failed import is caught by the
  same `try` and run a second time, so either of two saves can be the one.
- The suggested default never reaches a header over stdio. A hosted call with neither a routed nor an active workspace
  is refused before it sends data, so there the two runs agree exactly when both are admitted or both refused
  (`DefaultNeverReachesAHeader`; `DefaultAdmitsAHostedCall` is one user with and without an account default).
- 23 hours is the exact gap for session writes: any larger one admits a run that loses the pick.
- A stored key reads back as its stripped text exactly when that text has no carriage return, because the file is read
  with universal newlines (`CarriageReturnIsLost`).
- In one window's length the limiter admits at most 2 * limit - 1 hits, and reaches that.
- The truncated `Retry-After` is enough exactly for refusals in the last second of the window or a whole number of
  seconds before its end; at every other moment the client comes back too early, once (`HeaderFallsShort`).
- A credential call leaves its temporary file behind exactly when its first fault is a publication step after the file
  was made and the very next attempt, the removal, fails too (`StoreEndings`, `ReadEndings`; `TwoFaultsLeaveAFile` is one).
- A local page is wrong exactly when the scan held too few matches and the rest of the ranking holds a needed one; it is
  then always a prefix of the right page, and warned about (`MatchPastTheScanIsMissed`).

## Model

| member | source | states |
|---|---|---|
| `ProcessBackend.ModeNameRoundTrip` | smartmemory_mcp/backends/dispatch.py:62-92 | a mode written to the environment is the mode the next `requested_mode` answers, whatever was there before |
| `ProcessBackend.RequestedModeIff` | smartmemory_mcp/backends/dispatch.py:62-76 | for every value, whitespace and letter case aside: `local` and `hosted` select their modes, anything else and nothing at all is remote |
| `ProcessBackend.BuiltOn` | smartmemory_mcp/backends/dispatch.py:130-181 | a remote backend is refused exactly without a key and a config, and starts on the carried workspace, else the environment's, else the saved team; a local one is always built |
| `MigrationProtocol.GetBackendKeeps` | smartmemory_mcp/tools/common.py:15-30 | a tool's `get_backend` keeps the caches coherent, only ever adds an object, never replaces a cached one and touches no setting |
| `MigrationProtocol.RebuildKeeps` | smartmemory_mcp/tools/portability_tools.py:46-57 | a rebuild that returns leaves both caches empty or the eager object current with the carried pick; one that raises changes neither the objects nor the common cache, and happens only on the eager remote build |
| `MigrationProtocol.StepKeepsInv` | smartmemory_mcp/tools/portability_tools.py:309-432 | every locked section and every lock-free step, in any order, keeps the invariant: caches coherent and of the mode's kind, every object's pick the last one recorded for it, and the migration's source current until the forward rebuild |
| `MigrationTheorems.RunKeepsInv` | smartmemory_mcp/tools/portability_tools.py:309-432 | the invariant holds after any finite interleaving |
| `MigrationTheorems.CachesStayCoherent` | smartmemory_mcp/tools/common.py:15-53 | from a fresh process, whenever the lock is free the common cache is empty, or the dispatch cache is empty, or they are the same object, and a cached process backend is of the kind the mode selects |
| `MigrationTheorems.StaleOnlyByRaisedBuild` | smartmemory_mcp/backends/dispatch.py:79-92 | the state with only the common cache left is entered by a raising rebuild alone and left by a returning rebuild alone |
| `MigrationTheorems.SwitchedIsLive` | smartmemory_mcp/server.py:126-156 | a commit answers "Switched" exactly when its object is still the one every tool gets and is remote; then a listed workspace id is the pick of that object, and otherwise no pick changed |
| `MigrationTheorems.SwitchedPickHolds` | smartmemory_mcp/tools/common.py:33-47 | the pick a switch wrote is what every tool gets until the next landed commit or rebuild, through any other events |
| `MigrationTheorems.OnlySwitchedChangesAPick` | smartmemory_mcp/server.py:143-156 | no event changes the pick of an existing object except a commit answered "Switched", and that one changes its own object only: a refused switch changes nothing |
| `MigrationTheorems.OrphanIsFrozen` | smartmemory_mcp/tools/portability_tools.py:377-392 | an object in neither cache is never written again and never returns to a cache, so the pick `revert` reads is final |
| `MigrationTheorems.MigrationStep` | smartmemory_mcp/tools/portability_tools.py:309-432 | where a migration stands relative to its start, after each of its steps and anything interleaved, up to how it ends |
| `MigrationTheorems.MigrationEnds` | smartmemory_mcp/tools/portability_tools.py:309-432 | every complete migration ends in one of the described outcomes: settings unchanged, restored, stranded or at the target |
| `MigrationTheorems.FailedMigrationRestores` | smartmemory_mcp/tools/portability_tools.py:374-432 | a reverted migration leaves config mode, process mode and parked workspace as before the call; a remote source's last committed pick is the one it names and the one the fresh backend starts on |
| `MigrationTheorems.FailingMigrationRestoresIffSavedBack` | smartmemory_mcp/tools/portability_tools.py:374-432 | a migration that fails after its config save, with anything interleaved, has config mode and process mode at their values before the call if and only if some config save of its revert returned; else both are at the target's; the parked workspace is untouched |
| `MigrationTheorems.UnsavedRevertStrands` | smartmemory_mcp/tools/portability_tools.py:374-376 | the failing input: a remote process, an import that raises and a revert that cannot save end with both modes local |
| `MigrationTools.FailedMigrationLeavesTheModesBackendIff` | smartmemory_mcp/tools/portability_tools.py:374-432 | after a failing migration, with anything interleaved, the next tool call gets a backend of another kind than the process mode selects if and only if the last rebuild raised and the process was not hosted; then it is the object from before that rebuild, else one of the mode's kind or none; once a revert saved the config that mode is the one from before the call |
| `MigrationTools.RaisingRevertKeepsTheLocalBackend` | smartmemory_mcp/tools/portability_tools.py:386-392 | the failing input: a revert that saves the config and finds nothing to build from leaves both modes remote and every tool on the local object |
| `MigrationTools.StaleIffLastRebuildRaised` | smartmemory_mcp/backends/dispatch.py:79-92 | a run that rebuilds ends with only the common cache left exactly when its last rebuild raised |
| `MigrationEndings.MigrationEndsIff` | smartmemory_mcp/tools/portability_tools.py:309-432 | a running migration ends at exactly these events, with anything interleaved: no source to be had, an export that brings nothing, a config that cannot be saved, an import of at least one item, a revert that saves and rebuilds, or one that does not and is not tried again; each with its outcome, and only an all-failed import has its revert tried twice |
| `MigrationEndings.MigrationStartsIff` | smartmemory_mcp/tools/portability_tools.py:311-324 | a call for the mode the process is in, or for hosted, does nothing; every other call starts |
| `MigrationEndings.SuccessMovesThePickItRead` | smartmemory_mcp/tools/portability_tools.py:326-350 | from a remote source a migration that succeeds moved the workspace last picked on the source object when the call read it, whatever switches committed during the export, and going local parks that one |
| `MigrationTheorems.ParkedChangesOnlyByCompletion` | smartmemory_mcp/tools/portability_tools.py:60-104 | parking is set or cleared only by the import that completes a migration |
| `MigrationTheorems.ParkedHolds` | smartmemory_mcp/tools/portability_tools.py:60-104 | through any run without a completed migration the parked workspace stays parked, and a pending move to remote carries it |
| `MigrationTheorems.RoundTripReturnsHome` | smartmemory_mcp/tools/portability_tools.py:326-426 | remote to local and back, with any switches and failed migrations between: the rebuilt remote backend starts on exactly the workspace the first export read, and every tool then gets it |
| `Process.BackendObject.SetActiveWorkspace` | smartmemory_mcp/backends/remote.py:840-842 | the pick becomes the given workspace on a remote backend; a local backend keeps none; nothing else of the object changes |
| `Process.BackendObject.LiveWorkspace` | smartmemory_mcp/tools/portability_tools.py:36-43 | answers the explicit pick of a remote backend and nothing for a local one |
| `Process.ProcessState.constructor` | smartmemory_mcp/backends/dispatch.py:45-51 | a process starts with both caches empty and nothing parked |
| `Process.ProcessState.BuildInto` | smartmemory_mcp/backends/dispatch.py:130-181 | caches a fresh object with the first set of carried, environment and saved workspace, or changes nothing when there is neither key nor config |
| `Process.ProcessState.ResolveBackend` | smartmemory_mcp/backends/dispatch.py:184-205 | refines the specified step: the cached object, else a new one of the mode's kind cached |
| `Process.ProcessState.GetBackend` | smartmemory_mcp/tools/common.py:15-30 | refines the specified step; objects already handed out stay the same objects |
| `Process.ProcessState.SetProcessMode` | smartmemory_mcp/backends/dispatch.py:79-92 | refines the specified step: the mode is written and the cache dropped even when the eager build raises |
| `Process.ProcessState.Rebuild` | smartmemory_mcp/tools/portability_tools.py:46-57 | refines the specified step: the sibling cache is dropped only when the mode change returned |
| `Process.ProcessState.CommitIfCurrent` | smartmemory_mcp/tools/common.py:33-47 | writes onto the object if and only if it is the one in the common cache, by identity, and changes no other object |
| `Process.ProcessState.SwitchWorkspace` | smartmemory_mcp/server.py:126-156 | alone, the tool reaches the state and the answer of the protocol's take, look-up and commit events; and, in the listing itself: on a remote object it answers moved to a workspace if and only if a logged-in caller's reference names it, which is then the object's pick; on a local one `default` alone is accepted; any other answer leaves every pick as it was |
| `Process.LookupFindsWhatIsNamed` | smartmemory_mcp/backends/remote.py:815-855 | the look-up of the protocol finds a workspace if and only if the reference names it in the listing: the id of a row, else the id of the only row of that name |
| `Process.ProcessState.Switch` | smartmemory_mcp/server.py:126-156 | take, look up and commit in one: what the look-up finds on the object every tool gets is that object's pick afterwards; otherwise no pick changes |
| `Process.ProcessState.Prepare` | smartmemory_mcp/tools/portability_tools.py:309-372 | alone, the tool up to the config save reaches exactly the state of the run of the fixed opening events of its target and world, and ends early exactly when that run does |
| `Process.ProcessState.Cross` | smartmemory_mcp/tools/portability_tools.py:399-426 | alone, the forward rebuild and the import reach exactly the state of their three events, whichever fails |
| `Process.ProcessState.Revert` | smartmemory_mcp/tools/portability_tools.py:374-397 | alone, `revert` reaches exactly the state of its save event followed by its rebuild event in the given environment, also when either raises |
| `Process.ProcessState.MemoryMigrate` | smartmemory_mcp/tools/portability_tools.py:309-432 | alone, the tool ends in exactly the state and the outcome of the run of the one script its target and world fix, for every combination of failures |
| `Process.EndsEarly` | smartmemory_mcp/tools/portability_tools.py:311-364 | once a migration is over the rest of its script changes nothing |
| `Process.SwitchAlone` | smartmemory_mcp/server.py:139-156 | without interleaving a switch never finds itself outrun: it comes down to one look-up and one commit |
| `WorkspaceSelect.Resolve` | smartmemory_mcp/workspace_select.py:51-75 | only an id of the listing can come back |
| `WorkspaceSelect.Usable` | smartmemory_mcp/backends/remote.py:804-813 | exactly the listed rows that have an id are matched against |
| `WorkspaceSelect.ResolutionIsUnambiguous` | smartmemory_mcp/workspace_select.py:60-75 | a listed id wins over any name; any other reference resolves if and only if exactly one row bears it as its name, case folded, and then to that row's id |
| `WorkspaceSelect.Choose` | smartmemory_mcp/backends/remote.py:815-855 | only a workspace of the caller's listing can be chosen, and none without a reference, a credential and a listing; which one is the next row |
| `WorkspaceSelect.ChoosesWhatIsNamed` | smartmemory_mcp/workspace_select.py:51-75 | a switch takes a workspace if and only if the caller is logged in, has a listing and the stripped reference names it: the id of a row with an id, else the id of the one row with an id whose name, case folded, is the reference |
| `HeaderRule.StepHidesDefault` | smartmemory_mcp/backends/remote.py:246-292 | one event of two runs that differ only in the suggested default keeps that so, and sends the same headers exactly when hosted admission agrees |
| `HeaderRule.DefaultNeverReachesAHeader` | smartmemory_mcp/backends/remote.py:230-292 | two runs of the same user events, differing only in the default workspace the server suggests, send identical headers on every request if and only if every hosted call that sends data is admitted in both or refused in both |
| `HeaderRule.DefaultAdmitsAHostedCall` | smartmemory_mcp/hosted/identity.py:124-129 | the failing input: one user's hosted call sends its data request with an account default and is refused without one |
| `HeaderRule.StdioRunsNeverShowTheDefault` | smartmemory_mcp/backends/remote.py:715-749 | bootstrap, login, switch, export, rebuild and park: identical headers without condition |
| `HeaderRule.HeadersCarryOnlyPicks` | smartmemory_mcp/backends/remote.py:277-292 | every workspace header of a whole run names a workspace held at its start or given by a person in it |
| `HeaderRule.RemoteSession.constructor` | smartmemory_mcp/backends/remote.py:221-242 | the pick starts as the argument, else the environment's workspace; no default is known yet |
| `HeaderRule.RemoteSession.BootstrapFromApiKey` | smartmemory_mcp/backends/remote.py:246-267 | refines the specified bootstrap; only the flag and the displayed default can change |
| `HeaderRule.RemoteSession.Request` | smartmemory_mcp/backends/remote.py:277-292 | refines one call of the run model; what that sends is `CallNames` |
| `HeaderRule.RemoteSession.Export` | smartmemory_mcp/backends/remote.py:652-666 | refines the export of the run model; what that sends is `ExportNames` |
| `HeaderRule.RemoteSession.LogIn` | smartmemory_mcp/backends/remote.py:715-749 | refines login: a team argument becomes the pick, the account default never does |
| `HeaderRule.RemoteSession.SwitchWorkspace` | smartmemory_mcp/backends/remote.py:844-855 | refines the switch of the run model, whose pick is that of `SwitchTakesWhatIsNamed`; on any refusal the previous pick stays |
| `HeaderSends.CallNames` | smartmemory_mcp/backends/remote.py:277-292 | the request of a call carries exactly its workspace argument when it has one, else the pick, else no workspace header, after at most one `/auth/me` |
| `HeaderSends.ExportNames` | smartmemory_mcp/backends/remote.py:652-666 | a pinned export carries exactly its pin, and no workspace header for an empty pin, whatever the pick; an unpinned one carries the pick |
| `HeaderSends.QuestionsNameNothing` | smartmemory_mcp/backends/remote.py:787-813 | the routing question and the workspace listing carry no workspace, with or without a pick |
| `HeaderSends.PickDoesNotReachAPinnedRequest` | smartmemory_mcp/backends/remote.py:652-666 | two clients that differ only in their pick send the same for a call with an argument and for a pinned export: a switch that commits during the export cannot change what is read |
| `HeaderSends.DefaultIsDisplayedOnly` | smartmemory_mcp/backends/remote.py:639-650 | a session without a pick displays the suggested default and sends no workspace |
| `HeaderSends.LoginNames` | smartmemory_mcp/backends/remote.py:715-749 | after a login requests carry the new key, and the team argument as workspace exactly when the service knew the key; the account default never |
| `HeaderSends.LoginWithoutAKeyDoesNothing` | smartmemory_mcp/backends/remote.py:715-722 | a login with an empty key sends nothing and changes nothing |
| `HeaderSends.ClientKeyIsSent` | smartmemory_mcp/backends/remote.py:269-275 | the client key set last is the one sent, `mcp:stdio` for an empty one |
| `HeaderSends.RebuildNames` | smartmemory_mcp/backends/dispatch.py:130-181 | what a rebuilt session sends names the carried pick, else the environment's workspace, else the saved one |
| `HeaderSends.AskedOnce` | smartmemory_mcp/backends/remote.py:246-267 | over any run that keeps the key a session that has asked `/auth/me` never asks again |
| `HeaderSends.SwitchTakesWhatIsNamed` | smartmemory_mcp/backends/remote.py:815-855 | after a switch the pick is what the reference names in the caller's listing, and changes to nothing else; the listing request names no workspace |
| `RoutingStore.HeldStep` | tests/_hosted_fixtures.py:370-426 | less than 23 hours after the last session write any event keeps the saved pick, and a session write is answered with it and renews the claim |
| `RoutingStore.WritesKeepThePickAlive` | tests/_hosted_fixtures.py:342-426 | after a saved pick every header-less write of an unbounded run, each less than 23 hours after the one before, is routed to that pick by "session", whatever else the run holds |
| `RoutingStore.LargerGapsLoseThePick` | tests/_hosted_fixtures.py:342-345 | for every larger gap there is a run within it whose last write is no longer routed to the pick |
| `RoutingStore.ReadsNeverExtend` | tests/_hosted_fixtures.py:412-420 | a read extends no lease and drops at most a lapsed row |
| `RoutingStore.LapsedStaysLapsed` | tests/_hosted_fixtures.py:370-379 | a lapsed row never answers again in any run without a new save |
| `RoutingStore.RequestIsAnsweredBy` | tests/_hosted_fixtures.py:389-426 | who answers a request, for every store: its own header; else the unlapsed pick of a client that names itself; else the floor, with each flag that switches it; else nobody; and with which workspace |
| `RoutingStore.ExplainForetells` | tests/_hosted_fixtures.py:521-545 | an explain answers what a request of that client without a header would be answered |
| `RoutingStore.SavedForADay` | tests/_hosted_fixtures.py:500-520 | a save is a conflict for a bound bearer, else refused for a forbidden workspace, and then changes nothing; else it replaces that client's pick alone for 86,400 seconds |
| `RoutingStore.LeasePushedOn` | tests/_hosted_fixtures.py:412-420 | a write the pick answers renews its lease for a day exactly when the last renewal is more than an hour ago; no other request does |
| `RoutingStore.RoutingSessionStore.constructor` | tests/_hosted_fixtures.py:347-368 | no rows, no leases, clock at zero |
| `RoutingStore.RoutingSessionStore.TakeLiveSession` | tests/_hosted_fixtures.py:370-379 | refines the specified look-up; a lapsed row and its lease are dropped |
| `RoutingStore.RoutingSessionStore.ResolveRequest` | tests/_hosted_fixtures.py:389-426 | refines the specified resolver and records exactly its answer |
| `RoutingStore.RoutingSessionStore.PutSession` | tests/_hosted_fixtures.py:500-520 | refines the specified save: bound and forbidden callers change nothing |
| `SessionRouting.HostedWritesFollowTheSavedPick` | smartmemory_mcp/hosted/identity.py:131-148 | a hosted write without an argument lands in the workspace the client saved, whatever default the service suggests; one with an argument lands in the argument |
| `SessionRouting.StdioWritesFollowTheOwnPick` | smartmemory_mcp/backends/remote.py:277-292 | a stdio write with an explicit pick lands in it "by call", whatever the service has stored |
| `SessionRouting.HostedCallReaches` | smartmemory_mcp/hosted/identity.py:131-148 | an admitted hosted call reaches the store as one request for each of its arguments, naming that argument and nothing else, whatever the service suggested for display |
| `SessionRouting.HostedRunLandsInTheSavedPick` | tests/_hosted_fixtures.py:389-426 | over a client's whole run, with anything else going on: while its argument-less writes come less than 23 hours apart every one lands in the saved pick, and every write with an argument in the argument |
| `MigrationHeaders.RebuiltObjectShowsRebuiltSession` | smartmemory_mcp/backends/dispatch.py:79-92 | after a remote rebuild that returns the next tool gets an object with the pick of the session rebuilt around the carried workspace |
| `MigrationHeaders.RevertIsRebuild` | smartmemory_mcp/tools/portability_tools.py:386-392 | a session that shows the source object shows, after the revert, the object every tool then gets |
| `MigrationHeaders.CompletionIsLeaveRemote` | smartmemory_mcp/tools/portability_tools.py:60-69 | a completed move to local parks the pick of a session that shows what the export read |
| `MigrationHeaders.ForwardIsReturnRemote` | smartmemory_mcp/tools/portability_tools.py:366-404 | the forward rebuild of a move back gives every tool an object with the pick of the session returned to |
| `MigrationHeaders.ArrivalClearsParking` | smartmemory_mcp/tools/portability_tools.py:98-104 | the completed move back clears what was parked |
| `MigrationHeaders.CommitIsSwitch` | smartmemory_mcp/server.py:139-148 | a look-up and its landed commit change the object's pick as the session's own switch does |
| `CredentialDisk.KeyOfKey` | smartmemory_mcp/windows_credentials.py:213-218 | a key that was read, published and read again is the same key |
| `CredentialDisk.StoredKeyReadsBack` | smartmemory_mcp/windows_credentials.py:227-246 | a stored key reads back as its stripped text if and only if that text holds no carriage return |
| `CredentialDisk.LineEndsAreNewlines` | smartmemory_mcp/windows_credentials.py:213-218 | what a text read makes of each line end |
| `CredentialDisk.CarriageReturnIsLost` | smartmemory_mcp/windows_credentials.py:227-246 | the failing input: a key with a carriage return inside reads back with a newline there |
| `CredentialDisk.EffectiveKeyIsTheNewer` | smartmemory_mcp/windows_credentials.py:209-224 | in the times and contents of the two files: the key is the canonical one when the legacy file is missing, not newer or blank, else the legacy one |
| `CredentialDisk.MigratingKeepsKey` | smartmemory_mcp/windows_credentials.py:209-224 | every state on the way of publishing a newer legacy key, before and after the rename, stands for the same key |
| `CredentialDisk.StoringGivesKey` | smartmemory_mcp/windows_credentials.py:186-201 | with no legacy key pending, publishing changes the key exactly at the rename |
| `CredentialFaults.PublishEnds` | smartmemory_mcp/windows_credentials.py:186-201 | a publication is done exactly when none of its five steps fails and leaks exactly when a step after the first and the next attempt fail |
| `CredentialFaults.StoreEndings` | smartmemory_mcp/windows_credentials.py:239-246 | for every file state and fault schedule: `store_key` is done if and only if none of the attempts it takes without faults fails, and leaves a file if and only if its first fault is inside one of its publications and is followed by another |
| `CredentialFaults.TwoFaultsLeaveAFile` | smartmemory_mcp/windows_credentials.py:186-201 | the failing input: a first store whose new file can be neither guarded nor removed leaves it behind |
| `CredentialFaults.ReadEndings` | smartmemory_mcp/windows_credentials.py:227-236 | the same for `read_key`, whose only publication is that of a newer legacy key |
| `CredentialStore.Store.constructor` | smartmemory_mcp/windows_credentials.py:227-246 | starting from any file state, with any temporary files an earlier crash left |
| `CredentialStore.Store.Lock` | smartmemory_mcp/windows_credentials.py:138-178 | taking the lock changes no credential file and fails exactly when one of its attempts does |
| `CredentialStore.Store.Release` | smartmemory_mcp/windows_credentials.py:179-183 | the release is attempted however the work ended, and a failing one turns only a success into a raise |
| `CredentialStore.Store.MakeTemp` | smartmemory_mcp/windows_credentials.py:186-194 | a new temporary file is empty until its access list has been replaced and read back |
| `CredentialStore.Store.WriteTemp` | smartmemory_mcp/windows_credentials.py:195-197 | the secret is written to a guarded file only, and the file is reported ready exactly when the write and the flush both succeed |
| `CredentialStore.Store.FillTemp` | smartmemory_mcp/windows_credentials.py:186-197 | the file is ready with the whole key exactly when its four attempts succeed; all the while the canonical file is the old one |
| `CredentialStore.Store.Rename` | smartmemory_mcp/windows_credentials.py:198 | the canonical file becomes the temporary one exactly when the rename succeeds |
| `CredentialStore.Store.Cleanup` | smartmemory_mcp/windows_credentials.py:199-201 | the temporary file goes exactly when its removal succeeds |
| `CredentialStore.Store.Publish` | smartmemory_mcp/windows_credentials.py:186-201 | through every fault the canonical file is the old one up to the rename and the whole new key, guarded, from it on; the temporary file stays if and only if a step after it was made and the removal right after it fail, and then it is one new file, empty or guarded |
| `CredentialStore.Store.TakeLegacy` | smartmemory_mcp/windows_credentials.py:213-215 | the legacy file is guarded before it is read, and its content stays |
| `CredentialStore.Store.RetireLegacy` | smartmemory_mcp/windows_credentials.py:204-206 | removing the legacy file of a state whose canonical file gives the key keeps that key |
| `CredentialStore.Store.MigrateLegacy` | smartmemory_mcp/windows_credentials.py:209-224 | at every recorded state the effective key is the one before; the legacy file goes only when the canonical file already gives that key; the ending and what is left behind are those the fault schedule fixes; done, a canonical file at least as new stays and the legacy file goes, a newer legacy key replaces it and its file goes, a blank newer one changes neither content |
| `CredentialStore.Store.StoreKey` | smartmemory_mcp/windows_credentials.py:239-246 | at every recorded state of every faulty run the effective key is the old one up to the final rename and the new one after it; it succeeds if and only if no attempt it needs fails; a temporary file stays if and only if the first fault is inside a publication and the removal after it fails; done, the canonical file holds the whole key, guarded |
| `CredentialStore.Store.ReadKey` | smartmemory_mcp/windows_credentials.py:227-236 | a successful read answers the effective key from before the call, and no step of any read changes that key; success and a leftover file are characterised as for a store; done with a legacy path, key and files are those the modification times from before the call decide, in the words of `EffectiveKeyIsTheNewer` |
| `ExchangeCache.LargerCacheIncludesSmaller` | smartmemory_mcp/hosted/exchange.py:46-66 | LRU inclusion: fed the same gets, puts and invalidations at the same times, with expiry in the mix, the larger cache keeps every entry of the smaller with the same value and in the same order |
| `ExchangeCache.LargerCacheHitsMore` | smartmemory_mcp/hosted/exchange.py:46-66 | from empty caches every hit of the smaller cache is the same hit in the larger one, and both stay within their bounds |
| `ExchangeCache.ExchangeCache.constructor` | smartmemory_mcp/hosted/exchange.py:36-38 | an empty cache with its bound |
| `ExchangeCache.ExchangeCache.Lookup` | smartmemory_mcp/hosted/exchange.py:46-56 | refines the specified get: an entry within 60 s of expiry is dropped, a live one becomes the newest |
| `ExchangeCache.ExchangeCache.Store` | smartmemory_mcp/hosted/exchange.py:58-62 | the eviction loop leaves exactly the newest entries within the bound |
| `ExchangeCache.ExchangeCache.Invalidate` | smartmemory_mcp/hosted/exchange.py:64-66 | the key is gone and nothing else changed; an unknown key changes nothing |
| `ExchangeHistory.CacheIsInTouchOrder` | smartmemory_mcp/hosted/exchange.py:46-62 | after any run the entries stand in the order of their last touch, without duplicates, within the bound |
| `ExchangeHistory.EvictedIsLeastRecent` | smartmemory_mcp/hosted/exchange.py:58-62 | an entry leaves by capacity only when at least `max_size` distinct other keys were touched after it |
| `ExchangeHistory.EvictedInAnyRun` | smartmemory_mcp/hosted/exchange.py:58-62 | after any run from an empty cache, whatever a put pushes out has at least `max_size` distinct other keys touched in the run since its own last touch |
| `ExchangeHistory.CachedAnswerIsLatestExchange` | smartmemory_mcp/hosted/exchange.py:117-131 | after any run an answer given without an exchange equals the latest exchange for that fingerprint and is more than 60 s from expiry |
| `ExchangeHistory.AskIsAnsweredBy` | smartmemory_mcp/hosted/exchange.py:117-131 | after any run an ask is answered by the standing exchange exactly when one stands more than 60 s from expiry; else by its own exchange, and by nothing exactly when that fails |
| `ExchangeHistory.AskGetsTheLatestExchange` | smartmemory_mcp/hosted/exchange.py:117-131 | after any run every answer is the latest exchange for the fingerprint, the one just made included |
| `ExchangeHistory.FreshExchangeIsCached` | smartmemory_mcp/hosted/exchange.py:126-131 | with room for at least one entry, an ask right after an exchange that is more than 60 s from expiry gets the same identity without exchanging |
| `ExchangeHistory.ExchangesAreSeparated` | smartmemory_mcp/hosted/exchange.py:117-131 | between two exchanges for one fingerprint lies an expiry, an invalidation or a capacity eviction of it |
| `ExchangeHistory.GetSmIdentity` | smartmemory_mcp/hosted/exchange.py:117-131 | refines the specified step on the cache object; a call that exchanged nothing and had nothing cached answers nothing |
| `RateLimit.StartsKeepTheirDistance` | smartmemory_mcp/hosted/ratelimit.py:60-72 | over any run the window starts of a bucket are equal or at least a window apart |
| `RateLimit.AdmissionsPerInterval` | smartmemory_mcp/hosted/ratelimit.py:60-72 | any interval no longer than k windows holds at most limit * (k + 1) - 1 admissions, for every non-decreasing run: 2 * limit - 1 in one window's length |
| `RateLimit.AdmissionsInAnyRun` | smartmemory_mcp/hosted/ratelimit.py:60-72 | the same bound for one rule and key inside any time-ordered run of hits on any rules and keys, from an empty table |
| `RateLimit.TwiceTheLimitLessOneIsReached` | smartmemory_mcp/hosted/ratelimit.py:60-72 | that bound is attained for every rule |
| `RateLimit.FullWaitSuffices` | smartmemory_mcp/hosted/ratelimit.py:68-70 | a refusal changes nothing, and after the unrounded wait the bucket admits |
| `RateLimit.HeaderSufficesIff` | smartmemory_mcp/hosted/ratelimit.py:142-151 | after the truncated header the bucket admits if and only if the refusal came in the last second of the window or a whole number of seconds before its end |
| `RateLimit.HeaderFallsShort` | smartmemory_mcp/hosted/ratelimit.py:142-151 | the failing input: refused half a second into a minute's window and told 59 seconds, the client is refused again |
| `RateLimit.TwoWaitsSuffice` | smartmemory_mcp/hosted/ratelimit.py:142-151 | a client that obeys the truncated header is admitted after at most two waits, wherever in the window it was refused |
| `RateLimit.BucketDependsOnItsOwnHits` | smartmemory_mcp/hosted/ratelimit.py:60-72 | a bucket's state after any mixed run is that of its own hits alone |
| `RateLimit.AdmittedToIsAdmitted` | smartmemory_mcp/hosted/ratelimit.py:60-72 | how many hits of a mixed run a bucket admits depends on its own hits alone |
| `RateLimit.BucketsAreDistinct` | smartmemory_mcp/hosted/ratelimit.py:62 | different rules or keys never share a bucket |
| `RateLimit.ChargeStopsAtTheFirstRefusal` | smartmemory_mcp/hosted/ratelimit.py:109-136 | charging distinct budgets passes if and only if each alone would admit, and leaves those after the first refusal alone |
| `RateLimit.PassesIffEveryBudgetAdmits` | smartmemory_mcp/hosted/ratelimit.py:103-138 | a request passes if and only if each of its budgets would admit it on its own; a registration the global budget refuses leaves the caller's budget uncharged |
| `RateLimit.FixedWindowCounter.constructor` | smartmemory_mcp/hosted/ratelimit.py:54-58 | no buckets |
| `RateLimit.FixedWindowCounter.Record` | smartmemory_mcp/hosted/ratelimit.py:60-72 | refines the specified hit on the bucket table |
| `RateLimit.FixedWindowCounter.Dispatch` | smartmemory_mcp/hosted/ratelimit.py:103-138 | charges what the specified step charges, in order, and answers the first refusal; which requests those are is `BudgetsOf` |
| `RequestLimits.BudgetsOf` | smartmemory_mcp/hosted/ratelimit.py:103-138 | what each request is charged to, by its spelling, with the numbers written out: registrations to 200 an hour over all and 10 a minute by address, OAuth endpoints to 30 a minute by endpoint and address, requests without a bearer to paths ending in `/mcp` to 60 a minute by address, and nothing else to anything |
| `RequestLimits.OthersAlwaysPass` | smartmemory_mcp/hosted/ratelimit.py:130-136 | any other request passes and changes no bucket |
| `RequestLimits.BearersAlwaysPass` | smartmemory_mcp/hosted/ratelimit.py:128-136 | a request with a bearer to a path ending in `/mcp` passes and changes no bucket |
| `RequestLimits.AnonymousIsLimited` | smartmemory_mcp/hosted/ratelimit.py:103-138 | in any time-ordered run of any requests at most 119 requests without a bearer of one address pass in any 60 seconds |
| `RequestLimits.RegistrationIsLimited` | smartmemory_mcp/hosted/ratelimit.py:103-138 | at most 19 registrations of one address pass in any 60 seconds |
| `RequestLimits.AllRegistrationIsLimited` | smartmemory_mcp/hosted/ratelimit.py:103-138 | at most 399 registrations of all addresses together pass in any hour |
| `RequestLimits.OAuthIsLimited` | smartmemory_mcp/hosted/ratelimit.py:103-138 | at most 59 requests of one address to one OAuth endpoint pass in any 60 seconds |
| `RequestLimits.OAuthEndpointsAreApart` | smartmemory_mcp/hosted/ratelimit.py:123-127 | a request to one OAuth endpoint does not change the answer to another endpoint or address |
| `RequestLimits.AnonymousBurst` | smartmemory_mcp/hosted/ratelimit.py:128-129 | of equal requests at one instant exactly the first 60 pass on an idle limiter, and after any run the 61st is refused |
| `RequestLimits.OAuthBurst` | smartmemory_mcp/hosted/ratelimit.py:123-127 | the same with 30 for an OAuth endpoint |
| `RequestLimits.RegistrationBurst` | smartmemory_mcp/hosted/ratelimit.py:109-122 | the same with 10 for the registrations of one address |
| `RequestLimits.CrowdIsLimited` | smartmemory_mcp/hosted/ratelimit.py:109-122 | of registrations at one instant from as many addresses exactly the first 200 pass |
| `HintTable.TableIsTailOfLog` | smartmemory_mcp/hosted/middleware.py:62-99 | the table is always exactly the last 4096 hints given, so it never exceeds the bound |
| `HintTable.HintedAgainOnlyAfterOthers` | smartmemory_mcp/hosted/middleware.py:91-99 | between two hints for one session at least as many distinct other sessions were hinted as the table holds |
| `HintTable.FewSessionsAreHintedOnce` | smartmemory_mcp/hosted/middleware.py:91-99 | while no more sessions call than the table holds, a call is hinted if and only if it is its session's first |
| `HintTable.Hints.constructor` | smartmemory_mcp/hosted/middleware.py:81 | nothing hinted yet |
| `HintTable.Hints.Evict` | smartmemory_mcp/hosted/middleware.py:97-98 | the loop leaves exactly the last 4096 sessions |
| `HintTable.Hints.ClaimFirstRunHint` | smartmemory_mcp/hosted/middleware.py:91-99 | a hint if and only if the session is named and not among the last 4096 hinted; the loop forgets exactly the oldest |
| `Calendar.FieldsOrderInstants` | smartmemory_mcp/tools/search_window.py:21-33 | comparing the fields of two dates, most significant first, is comparing the instants, across month lengths and leap years |
| `Calendar.DaysFollow` | smartmemory_mcp/tools/search_window.py:21-33 | at one time of day each calendar date is exactly a day after the one before it, over month ends, leap days and centuries |
| `Calendar.ClockStartsAtMidnight` | smartmemory_mcp/tools/search_window.py:21-33 | a time of day is its hours, minutes, seconds and microseconds after midnight |
| `Calendar.FromInstant` | smartmemory_mcp/tools/search_window.py:21-33 | date arithmetic lands on a valid date with exactly that instant, and fails exactly outside years 1 to 9999 |
| `Calendar.FromInstantOfInstant` | smartmemory_mcp/tools/search_window.py:31-33 | a UTC date converted to UTC is itself |
| `IsoText.PrintedOrderIsTimeOrder` | smartmemory_mcp/tools/search_window.py:33-38 | string order of two printed timestamps is their time order, for all valid dates, though the fraction has 0 or 6 digits |
| `IsoText.ReadPrintedOfPrint` | smartmemory_mcp/tools/search_window.py:29-33 | a printed timestamp reads back as itself |
| `SearchWindow.ResolveSearchWindow` | smartmemory_mcp/tools/search_window.py:11-39 | the loop over the two names computes the specified window or refusal |
| `SearchWindow.RefusedIffStartIsLater` | smartmemory_mcp/tools/search_window.py:37-38 | the string test refuses a window if and only if both bounds resolve and the start is the later moment |
| `SearchWindow.RelativeBoundIsThatLongAgo` | smartmemory_mcp/tools/search_window.py:21-30 | a relative bound is exactly its days, hours or minutes before now, and is refused exactly when that is before year 1 |
| `SearchWindow.UnitsAreDaysHoursMinutes` | smartmemory_mcp/tools/search_window.py:21-28 | a number and `d`, `h` or `m` is that many days, hours or minutes before now, in microseconds |
| `SearchWindow.NumbersAreDecimal` | smartmemory_mcp/tools/search_window.py:21-28 | the number of a relative bound is read in decimal, the last digit least |
| `SearchWindow.OtherBoundsAreIso` | smartmemory_mcp/tools/search_window.py:29-33 | every other text, `Z` standing for `+00:00`, is the moment the ISO reader gives less its UTC offset, at UTC without one, and refused exactly when unreadable or outside years 1 to 9999 |
| `SearchWindow.OneMomentOneBound` | smartmemory_mcp/tools/search_window.py:29-33 | two texts that name one moment in different zones are one bound |
| `SearchWindow.WindowNamesTheGivenBounds` | smartmemory_mcp/tools/search_window.py:14-39 | every outcome: the first unreadable bound is the one complained of; else the window names exactly the bounds given, each by the printed form of its moment |
| `SearchWindow.EchoedWindowIsFixed` | smartmemory_mcp/tools/search_window.py:61-85 | an echoed window, fed back at any later time and through either flag, resolves to the same window |
| `SearchWindow.PrintedReaderReadsPrints` | smartmemory_mcp/tools/search_window.py:29 | what the echo theorem asks of the ISO reader can be met |
| `Percent.DecodeOfEncode` | smartmemory_mcp/backends/path_guard.py:72 | UTF-8 decoding undoes encoding, for every text |
| `Percent.EncodeOfDecode` | smartmemory_mcp/backends/path_guard.py:72 | only encoded text decodes: no overlong forms, no surrogates |
| `Percent.UnquoteInPlace` | smartmemory_mcp/backends/path_guard.py:3-13 | a quoted id between plain path text decodes to itself, in place |
| `Percent.QuoteIsInjective` | smartmemory_mcp/backends/path_guard.py:72 | no two ids are quoted alike |
| `Percent.QuoteUnchangedIff` | smartmemory_mcp/backends/path_guard.py:72 | an id is sent as it is if and only if all its characters are unreserved (section 2.3 of RFC 3986) |
| `Percent.QuotedIsWellFormed` | smartmemory_mcp/backends/path_guard.py:72 | quoted text is unreserved characters and percent triplets only (sections 2.1 and 2.3 of RFC 3986) |
| `Percent.KeptIff` | smartmemory_mcp/backends/path_guard.py:72 | a character is sent as it is if and only if it is a letter, a digit or one of `-._~` |
| `Percent.QuotedExamples` | smartmemory_mcp/backends/path_guard.py:72 | a slash and a two-byte character as they are sent |
| `PathGuard.AcceptedIdStaysInItsRoute` | smartmemory_mcp/backends/path_guard.py:46-72 | after decoding, prefix + id + suffix is the prefix, then exactly the id as one segment, then the suffix; and that segment is no reserved sibling and no dot segment |
| `PathGuard.SlashLeavesTheRoute` | smartmemory_mcp/backends/path_guard.py:61-62 | an encoded id stays one segment after decoding if and only if it holds no slash, which is why encoding alone is not enough |
| `PathGuard.AcceptedIff` | smartmemory_mcp/backends/path_guard.py:46-72 | under a known prefix an id is accepted if and only if, decoded, it is one segment of its own route that is no reserved sibling and no dot segment, and it holds no backslash or control character |
| `PathGuard.AcceptedIdsStayApart` | smartmemory_mcp/backends/path_guard.py:46-72 | accepted ids are sent alike if and only if they are equal, in unreserved characters and triplets only |
| `PathGuard.RefusalsInOrder` | smartmemory_mcp/backends/path_guard.py:46-72 | for every id, None included, and every prefix: which refusal it gets, in order, or that it is quoted |
| `PathGuard.ClearAllIsARoute` | smartmemory_mcp/backends/path_guard.py:3-13 | `clear-all` is refused beside a memory and an id beside a decision; `teams/T1` is refused |
| `LocalListing.MetadataMatches` | smartmemory_mcp/backends/local.py:19-37 | the cursor loop computes the walk along the dotted key |
| `LocalListing.DottedKeyDescends` | smartmemory_mcp/backends/local.py:19-37 | a dotted key is the walk to its first half followed by the walk from there |
| `LocalListing.BoolIsNotANumber` | smartmemory_mcp/backends/local.py:22-28 | no filter value matches both a stored bool and a stored whole number, negative ones included |
| `LocalListing.BoolMatchesItsName` | smartmemory_mcp/backends/local.py:35-37 | a stored bool matches exactly its own name in any letter case, whitespace around it aside |
| `LocalListing.NamesOfBools` | smartmemory_mcp/backends/local.py:26-28 | `" True "` and `"FALSE"` match their bools, `"1"` matches none, and text is matched exactly |
| `LocalListing.KeysAreLookedUp` | smartmemory_mcp/backends/local.py:30-37 | a key without a dot is looked up as it is, `a.b` in the dictionary at `a` alone, and other values match their own text only |
| `LocalListing.ListMemories` | smartmemory_mcp/backends/local.py:437-471 | one metadata argument without the other is refused; else the answer is the cut page and the warning |
| `LocalListing.PageIsPrefixOfTruePage` | smartmemory_mcp/backends/local.py:456-471 | every page, filtered or not, is a prefix of the page of the whole ranking |
| `LocalListing.WrongPageIsWarned` | smartmemory_mcp/backends/local.py:456-471 | a page that differs from the true one carries the warning, which is given exactly when the ranking fills the scan |
| `LocalListing.PageIsWrongIff` | smartmemory_mcp/backends/local.py:456-471 | the page is right if and only if the scan held enough matches, the rest holds none, the page lies beyond all matches or has no room |
| `LocalListing.MatchPastTheScanIsMissed` | smartmemory_mcp/backends/local.py:456-471 | the failing input: the one match stands just past the scan of 200, and the page is empty |
| `LocalListing.ListedItemsMatch` | smartmemory_mcp/backends/local.py:459-471 | a filtered page holds at most `limit` items, matching ones only, and a first page as long as the ranking holds every match |
| `LocalListing.PagesTile` | smartmemory_mcp/backends/local.py:437-471 | unfiltered pages one after another are the ranking itself: nothing repeated, nothing skipped |
| `CodeParser.ParsedFileIsATree` | smartmemory_mcp/code_parser.py:97-130 | for every tree the DEFINES edges are one fewer than the entities, one for each entity after the module, in order, from an earlier entity; TESTS edges are at most one for each test entity; both stay inside the file |
| `CodeParser.TestEdgeIff` | smartmemory_mcp/code_parser.py:244-281 | a test entity gets an edge if and only if a code entity bears the name it was given after, alone or as a method; one edge, to one of exactly that name if there is one |
| `CodeParser.TopLevelTestIsLinked` | smartmemory_mcp/code_parser.py:97-281 | in every file a top-level `test_x` that is no route is linked to the function or class `x` the file defines, wherever the two stand |
| `CodeParser.TestEdgesLink` | smartmemory_mcp/code_parser.py:244-281 | at most one TESTS edge for each test entity, from it, to an entity of the file |
| `CodeParser.ParseResult.constructor` | smartmemory_mcp/code_parser.py:67-72 | an empty result |
| `CodeParser.ParseResult.ExtractCalls` | smartmemory_mcp/code_parser.py:227-242 | appends a CALLS edge for each named, public callee and nothing else |
| `CodeParser.ParseResult.ExtractFunction` | smartmemory_mcp/code_parser.py:169-199 | appends one entity, its DEFINES edge and its calls |
| `CodeParser.ParseResult.ExtractBases` | smartmemory_mcp/code_parser.py:132-161 | appends an INHERITS edge for each named base |
| `CodeParser.ParseResult.ExtractClass` | smartmemory_mcp/code_parser.py:132-167 | appends the class, its bases, then its methods |
| `CodeParser.ParseResult.ExtractImport` | smartmemory_mcp/code_parser.py:201-213 | appends an IMPORTS edge for each module a plain import names |
| `CodeParser.ParseResult.Extract` | smartmemory_mcp/code_parser.py:122-225 | one top-level node adds what the specified step adds: a class, a function, the edges of a plain import, one edge for a `from` import that names a module, else nothing |
| `CodeParser.ParseResult.LinkTests` | smartmemory_mcp/code_parser.py:244-281 | appends the edges of the test entities, in order, and changes no entity |
| `CodeParser.ParseResult.ParseFile` | smartmemory_mcp/code_parser.py:97-130 | refines the specified parse of the tree |
| `CodeWritten.KindIff` | smartmemory_mcp/code_parser.py:169-181 | a function is a route if and only if one decorator is a router verb called with a text first, else a test if and only if its name starts with `test_` |
| `CodeWritten.EdgesAreThoseWritten` | smartmemory_mcp/code_parser.py:132-242 | for every tree the DEFINES, CALLS, INHERITS and IMPORTS edges are exactly those its definitions, public named calls, named bases and imports write down, ids spelt out |
| `CodeWritten.EntitiesAreThoseDefined` | smartmemory_mcp/code_parser.py:113-189 | for every tree the entities are exactly the module, its functions and classes and, as `class.method`, the methods, each of its kind |
| `CodeWritten.TestsAreLinkedByName` | smartmemory_mcp/code_parser.py:244-281 | for every tree the TESTS edges are exactly those from each test, in a class or not, to the first entity called as the test says, or the first method called so where there is none |
| `CodeWritten.ModulesAreNamedByPath` | smartmemory_mcp/code_parser.py:111-112 | how paths, packages and dotted bases are named |
| `CodeBundle.IngestCode` | smartmemory_mcp/backends/remote.py:489-542 | one failed file refuses the whole bundle; an empty or oversized one is refused; else all entities and exactly the edges between them are published |
| `CodeBundle.CollectedIsClosed` | smartmemory_mcp/backends/remote.py:489-500 | over all files every DEFINES and TESTS edge joins two collected entities, and each parsed file has one DEFINES edge fewer than entities |
| `CodeBundle.PublishedBundleIsClosed` | smartmemory_mcp/backends/remote.py:518-527 | a published edge is a parsed edge with both ends published, all of those are kept, and no DEFINES or TESTS edge is lost |

## Left out

- HTTP, FastMCP, Starlette, OAuth, Clerk, Redis and Fernet wiring: server answers, exchanges and imports are arguments.
- The smartmemory core (search ranking, decisions, evolution, embeddings): a search is the first n of a fixed ranking.
- Two migrations at once, and where an import lands when a switch commits during it.
- The config file beyond its `mode`: its `team_id` and `save_as_default`, which reads and rewrites the file without the lock.
- A config save that raises after writing, and an interrupt inside a locked section: a save returns or changes nothing.
- Object attributes other than the pick: bootstrap answers are in `HeaderRule`, not in the migration protocol.
- `casefold()` and `lower()` beyond ASCII letters; `\d` in relative bounds beyond ASCII digits; lone surrogates.
- The lock file and its ten-second retries are one attempt that may fail; directory times and the unlocked legacy
  writers of other programs are not modelled.
- Reading a credential file that is not UTF-8 is a read that fails; the `unlink` of the temporary name after a rename
  that worked finds nothing and is not an attempt.
- `CredentialStore.Store.ReadKey`: the existence test before the lock is one step, so a legacy file that another writer
  removes between its two checks is not covered; runs without a legacy path or with an existing canonical file are.
- SHA-256 is the fingerprint string itself; exchanges for one cache run one after another.
- Where the limiter finds the address of a request (the connection, or the first forwarded one behind a trusted proxy).
- The policy table of the routing store is reduced to whether a route is user-only, and its context hint is left out.
- `SearchWindow.ResolveSearchWindow`: the general ISO reader is an argument, of which only validity and reading printed
  UTC timestamps is assumed; `hop_strategy` checks and the rendering of the echo are left out.
- `Percent.UnquoteInPlace`: decoded bytes that are not UTF-8 give no text where `unquote` gives replacement characters;
  quoted text never has any.
- `LocalListing.ListMemories`: negative limits and offsets, and how `str()` renders a nested value, which is given.
- `CodeParser.ParseResult.ParseFile`: the order in which calls are walked is given with the tree; docstrings, line
  numbers, decorator names and edge properties are not kept.
- The archive extraction of a bundle, OKF contents, tool texts, log lines and annotations.
