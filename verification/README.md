# Verification of the agent registry, the graph engine and the identity layer

A Dafny model of the parts of this repository where a mistake is easy to make and hard to see: the
agent registry's compare-and-set protocol, the graph engine and its durable (replayed) form, the
identity package's shared state and canonical forms, and two loops with sharp specifications. Code that
changes things step by step is modelled by classes and methods with loops; the mathematics it is
proved against is functions and lemmas beside it. Check everything with `dafny verify dfyconfig.toml`.

## What is modelled

**Registry.** `StateStore` is the versioned store; `Registry` is the registry object with its retry
loop. The other clients appear as a parameter: before each of our store calls they may turn the store
into anything (`Interference`). `RegistryProtocol` is the same protocol as a step machine, in which any
number of clients take one store call at a time in any order, fail, and start again;
`RegistryRefinement` proves that the object's loop is a client of that machine. `RegistrySafety` proves
that no successful index update is lost, `RegistryAgreement` that records and index agree.
`RegistryLaws` are laws between the object's operations, as small clients of it.

**Engine.** `Values` and `Channels` are channel values, their JSON trip and the reducers; `Graphs` and
`Description` are the builder, validation, routing and the static description; `Engine` is the in-process
interpreter. `Builders` says what a compiled graph holds in terms of the builder calls, and `Traces` what
a run and a replay do in terms of the graph's own functions, routers and mappings. `Durable` is the workflow, replayed from recorded activity results, with crashes at any
point. `Refinement` and `RunAgreement` say exactly how far the two ways of running a graph agree, and
`PartingRuns` gives graphs on which they part.

**Identity.** `Verifier` (life of the background key refresher), `RefreshLimiter` (rate of forced
refetches), `Gate` (the verifier built once), `Scopes` with `Whitespace` and `Ordering` (canonical
scopes), `Origin` (redirect chains and the origin order).

**Loops.** `Utf8` and `Dimension` (cutting a string between runes; UTF-8 as in sections 3 and 4 of
RFC 3629), `ToolLoop` (the bounded model/tool loop and its message history).

## Where the code and its comments differ

The model follows the code.

- `registry/store.go:13-15` says an empty etag means "first write only". `MemoryStore.Set` writes
  unconditionally on an empty etag, and `Register` relies on it to overwrite a record. So two clients
  that both find no index both succeed, and the second write hides the first: no update is lost exactly
  if the index is already there (`RegistrySafety.NoLostUpdateIffIndexPresent`).
- `registry/registry.go:17-18` promises safety under concurrent use. Besides the first write, an update
  can run out of attempts: only after ten index writes by others (`GivingUpCostsTenForeignWrites`), and
  ten writes by one other client can be enough (`TenForeignWritesSuffice`).
- `agent/engine.go:29-32` says interpreter and durable backend behave the same. Durably a node's updates
  make a JSON trip, and three things keep that from being invisible.
  - A native Go array or null (a typed slice, a nil map) on an appending channel: it is one element in
    process and spread out, or nothing, durably (`TypedSliceParts`). On graphs whose nodes and routers
    cannot tell a value from its JSON form and whose reducers append, the two runs have the same JSON at
    every node if and only if no executed node appends such a value or appends to one
    (`WorkflowKeepsUpIffSteady`); and a run that completes in process completes durably with the same
    JSON under the same condition, if and only if, as long as none of these values encodes as null or as
    the empty array (`WorkflowAgreesIffSteady`). Without that restriction a later node can make up for
    the difference (`BlankRejoins`).
  - A node that can tell a value from its JSON form. It needs no native value for that: appending an
    empty list to nothing leaves a nil slice, which is not nil in process and null durably
    (`EmptyAppendParts`, a run of JSON-normal answers that is steady in the sense above).
  - So JSON-normal answers are not enough. The runs agree exactly as long as all values, the merged ones
    included, are JSON-normal (`DurableRunIsInProcessRun`), which for appending channels excludes just
    that case, appending nothing to nothing (`MergeStaysNormalIff`).
- `registry/registry.go:32-38` keeps keys apart by position only. Two teams' record keys can coincide if
  and only if one team is the other up to a colon (`RecordKeysCollideIff`), and likewise for a record on
  another team's index key (`RecordHitsIndexIff`).
- `analytics.go:184` cleans a value once. Cleaning the result again can cut more (`SecondCleaningCuts`),
  exactly if the value did not fit and the last rune that did is white space (`CleaningTwice`).

## Assumptions

- One store call is one atomic step (`MemoryStore` locks per call). Fault events stand for a store call
  that fails without effect.
- No team contains a colon and no agent is called `_index`. `ColonInTeamCollides`,
  `DeregisteringIndexErasesIt` and `RegisteringIndexBlocksIt` show what happens otherwise; the code
  checks neither. That records and index agree also needs operations on one agent not to overlap
  (`OverlapParts`).
- Recorded activity results survive a crash. Node functions and routers are pure functions of the state,
  except where a theorem says "whatever the nodes answered". A compiled graph's builder is not called
  again, and reducers are not nil.
- The models, tools and argument decoder of the tool loop are functions, the model one of the turn too.

## Model

| member | source | states |
|---|---|---|
| `StateStore.EtagInjective` | registry/store.go:76-83 | Two version counters share an etag only if they are equal, and only version 0 has the empty etag. |
| `StateStore.EtagIsDecimal` | registry/store.go:76-83 | An etag is its version in decimal without leading zeros. |
| `StateStore.TrySetWrites` | registry/store.go:57-66 | A compare-and-set stores its value at its key and touches nothing else, or changes nothing; it is refused exactly if it carries an etag that is not the stored version's. |
| `StateStore.TrySetSucceedsIffCurrent` | registry/store.go:57-66 | A compare-and-set carrying the etag of version v succeeds exactly if v is 0 or still the stored version, and raises the version by one only then. |
| `StateStore.MemoryStore.constructor` | registry/store.go:38-43 | A new store is empty and named "memory" if no name is given. |
| `StateStore.MemoryStore.Get` | registry/store.go:47-55 | Returns the stored value and the etag of its version; nothing and the empty etag for a missing key. |
| `StateStore.MemoryStore.Set` | registry/store.go:57-66 | The two maps stay in step and change as one compare-and-set: the value is stored at its key and no other key changes, or nothing changes at all. |
| `StateStore.MemoryStore.Delete` | registry/store.go:68-74 | Forgets value and version counter of that key and nothing else. |
| `Registry.KeysRead` | registry/registry.go:25-38 | How record and index keys read, the team without a name being the team "default". |
| `Registry.RecordKeysCollideIff` | registry/registry.go:32-38 | For two different teams, some record keys coincide if and only if one team is the other up to a colon. |
| `Registry.RecordHitsIndexIff` | registry/registry.go:32-38 | For two different teams, some record of the first can sit on the second's index key if and only if the first is the second up to a colon. |
| `Registry.KeysOfOneTeam` | registry/registry.go:32-38 | Within one team the record key determines the name, and index keys always tell teams apart. |
| `Registry.KeysAreApart` | registry/registry.go:32-38 | For teams neither of which is the other up to a colon, a record key determines team and name, and is an index key only for the name `_index`. |
| `Registry.KeysAreInjective` | registry/registry.go:32-38 | In particular for colon-free teams: a record key determines team and name, and is an index key only for the name `_index`. |
| `Registry.ColonInTeamCollides` | registry/registry.go:32-38 | The shortest instance: agent `b:_index` of team `a` sits on the index key of team `a:b`. |
| `Registry.MutationEffect` | registry/registry.go:71-94 | On a duplicate-free list registering or deregistering changes the membership of its own name only and brings in no duplicate. |
| `Registry.RemoveUndoesAdd` | registry/registry.go:71-94 | Deregistering a newly registered name restores the list, order included. |
| `Registry.NoChangeNoEffect` | registry/registry.go:71-94 | If a mutation reports no change it would not have changed the list, duplicates or not. |
| `Registry.Registry.Mutate` | registry/registry.go:71-94 | The two search loops: a new name goes to the end of the list, a known one leaves it alone; removing cuts out the first occurrence and nothing else; a change is reported exactly if there is one. |
| `Registry.Registry.LoadIndex` | registry/registry.go:120-136 | The stored list with the etag of its version; the empty list if the index is missing (then without etag) or blank, an error if it cannot be decoded. |
| `Registry.Registry.TryUpdate` | registry/registry.go:141-162 | One attempt (load, mutate, compare-and-set, with the others acting before each store call) ends the update or is refused, exactly as the specification attempt of that number. |
| `Registry.Registry.Retry` | registry/registry.go:140-164 | The retry loop makes at most ten attempts, stops at the first that is not refused, and returns its error or that the retries ran out. |
| `Registry.Registry.UpdateIndex` | registry/registry.go:138-164 | Final store and error of an index update under any behaviour of the other clients. |
| `Registry.UpdateAlone` | registry/registry.go:138-164 | Alone on the store an update of a readable index succeeds, applies its mutation once and touches no other key. |
| `Registry.UpdateTouchesOnlyItsKey` | registry/registry.go:138-164 | Whatever its outcome and whatever the others do elsewhere, an update leaves every key but its index alone. |
| `Registry.Registry.Register` | registry/registry.go:48-79 | A nameless record is refused without effect. Otherwise a team or resource name given on the caller's record is kept and a blank or missing one becomes "default" or the store's name, the record so completed is written unconditionally, and the name is added to the team's index. |
| `Registry.Registry.Deregister` | registry/registry.go:81-95 | The record is deleted, then the name is removed from the index of the effective team. |
| `Registry.Registry.List` | registry/registry.go:97-104 | The names in the index, or the error of loading it. |
| `Registry.Registry.Get` | registry/registry.go:106-118 | Found exactly if the record key is present, with the record's content if it is a record document. |
| `RegistryLaws.RegisterAlone` | registry/registry.go:48-79 | With nobody else at work: the record is stored under its completed reference, and the name is in the index, last if it is new. |
| `RegistryLaws.GetAfterRegister` | registry/registry.go:106-118 | What Get finds after Register is the record as Register left it with the caller: name, body and completed reference. |
| `RegistryLaws.RegisterWhatGetReturned` | registry/registry.go:48-118 | Registering what Get returned changes neither the record nor the list of names. |
| `RegistryLaws.ListAfterRegister` | registry/registry.go:97-104 | List after Register is the list before with a new name at its end, or the same list. |
| `RegistryLaws.DeregisterAfterRegister` | registry/registry.go:81-95 | Deregistering a newly registered agent restores the list, and Get no longer finds it. |
| `RegistryProtocol.ConflictWasForeign` | registry/registry.go:154-161 | A refused write means another client wrote the index between this client's load and its compare-and-set; these stretches are disjoint. |
| `RegistryProtocol.InvHolds` | registry/registry.go:140-164 | In every reachable state of every interleaving the version of every index counts its successful writes, and each client holds the etag of the version it loaded. |
| `RegistryProtocol.GivingUpCostsTenForeignWrites` | registry/registry.go:138-164 | An update that gives up lost exactly ten times, to ten index writes by other clients in disjoint load-to-write stretches of its run. |
| `RegistrySafety.SuccessIsLoggedOnce` | registry/registry.go:138-164 | The log used below is right: an operation finishes without error in exactly the step that logs it, once, under its own client. |
| `RegistrySafety.SuccessMeansUnchanged` | registry/store.go:57-66 | With the index present, a compare-and-set succeeds only if nobody wrote the index since the load. |
| `RegistrySafety.IndexOkHolds` | registry/registry.go:138-164 | For any number of clients and any interleaving, the index equals its first list folded through the mutations of the successful operations in the order they took effect. |
| `RegistrySafety.FirstWriteRace` | registry/store.go:57-66 | Two clients that both find no index both succeed and only the second name is in the index. |
| `RegistrySafety.NoLostUpdateIffIndexPresent` | registry/registry.go:17-21 | From a given start no run ever loses a successful update, if and only if the index key is present at the start. |
| `RegistryAgreement.IndexAndRecordsAgree` | registry/registry.go:48-95 | With at most one operation under way per agent, from an agreeing store with the index present: every reachable index is duplicate-free, and a name whose last operation finished without error is in the index exactly if its record exists. |
| `RegistryAgreement.DeregisteringIndexErasesIt` | registry/registry.go:82-86 | Deregistering an agent called `_index` deletes the team's index. |
| `RegistryAgreement.RegisteringIndexBlocksIt` | registry/registry.go:67-70 | Registering an agent called `_index` puts its record in the place of the team's index, which cannot be read from then on. |
| `RegistryAgreement.OverlapParts` | registry/registry.go:48-95 | If a deregistration falls between the two halves of a registration of the same agent, both finish without error and the name stays in the index without a record. |
| `RegistryAgreement.TenForeignWritesSuffice` | registry/registry.go:14-15 | The bound of ten is tight: there is a run in which one other client's ten index writes make a registration give up. |
| `RegistryRefinement.AttemptIsDriveOnce` | registry/registry.go:141-162 | One attempt of the loop and one attempt of the machine's client leave the same store and both end alike or both go on. |
| `RegistryRefinement.LoopIsMachineClient` | registry/registry.go:138-164 | The whole loop is a client of the step machine: same final store, same outcome, under the same behaviour of the others. |
| `RegistryRefinement.OperationIsMachineClient` | registry/registry.go:67-95 | The same from the record call on: writing or deleting the record and then updating the index, as Register and Deregister do, is an operation of the machine's client. |
| `RegistryRefinement.EveryScheduleCanBeFollowed` | registry/registry.go:138-164 | For every behaviour of the other clients in the machine there is an interference that does the same to the store, so the two theorems above speak of every schedule. |
| `RegistryRefinement.EveryOperationIsSomeObjectRun` | registry/registry.go:67-95 | Hence every operation in the machine, under any schedule, is one of the object with the same store and outcome. |
| `Values.NormalIffFixed` | agent/state.go:11-15 | The values that come back unchanged from the JSON trip are exactly those without nil slices and without native Go values. |
| `Values.AppendIsConcatenation` | agent/state.go:58-75 | Under the list view the append reducer is concatenation: associative, with null as unit, and nil exactly if both lists are empty. |
| `Values.SteadyIffSameList` | agent/state.go:58-75 | A value contributes the same elements to a list before and after the JSON trip if and only if it is not a native value that encodes as an array or as null. |
| `Values.AppendCommutesIffSteady` | agent/state.go:58-75 | Appending commutes with the JSON trip if and only if neither operand is a native value that encodes as an array or as null. |
| `Channels.Clone` | agent/state.go:77-85 | A fresh map with the same entries, whatever order they are copied in. |
| `Channels.Merge` | agent/state.go:87-100 | For every visiting order: a written channel holds the update, or what its reducer makes of its old value (nil if absent) and the update; all others stay; each update key is reported once. |
| `Channels.ApplyUpdates` | agent/graph.go:207-216 | The same merge on a fresh copy; the given state is unchanged. |
| `Channels.MergedIsTheMerge` | agent/state.go:87-100 | The merge used in all specifications is the only state that fits this description. |
| `Channels.LastUpdateStays` | agent/state.go:94-96 | After any sequence of merges a channel without a reducer holds the last update that names it, or its first value if none does. |
| `Channels.ReducerFolds` | agent/state.go:92-93 | After any sequence of merges a channel with a reducer holds its first value reduced by all its updates in order. |
| `Channels.AppendChannelAccumulates` | agent/state.go:58-100 | After any sequence of merges an appending channel is its first list followed by the lists of all its updates in order. |
| `Graphs.BuildersAreShaped` | agent/graph.go:58-118 | After any builder calls the order lists the node names once each, no reserved name is a node, and no source routes both statically and conditionally. |
| `Graphs.CompiledGraphsAreSound` | agent/graph.go:120-166 | Whatever was called on the builder, if it compiles then the entry and every target exist, sources are nodes, and mappings are not empty. |
| `Builders.ErrorIsFirstMistake` | agent/graph.go:58-118 | In terms of the calls alone: the builder remembers an error exactly if some call is a mistake because of earlier calls, and it is the first one's. |
| `Builders.LastCallIsHeld` | agent/graph.go:65-118 | Without a mistake, what the builder holds at a place is what the last call about it asked for. |
| `Builders.CompiledGraphHoldsTheCalls` | agent/graph.go:120-166 | A compiled graph holds the functions, edges, mappings and reducers of the last calls about them and no others, the nodes in the order of their calls, and the entry set last or else the first node added. |
| `Graphs.Graph.AddNode` | agent/graph.go:65-79 | The builder's content changes as the specification builder call: reserved, repeated and nil nodes are only remembered as the first mistake. |
| `Graphs.Graph.AddEdge` | agent/graph.go:81-93 | Likewise; an edge from START sets the entry, a conditional source is refused. |
| `Graphs.Graph.AddConditionalEdge` | agent/graph.go:95-106 | Likewise; a missing router or mapping and a static source are refused. |
| `Graphs.Graph.Compile` | agent/graph.go:120-166 | Succeeds exactly on compilable content, with that content as result; otherwise the error names a mistake that is really there, the recorded one if there is one. |
| `Graphs.NextFollowsTheRouter` | agent/graph.go:218-236 | Routing leads along the static edge, or to what the very key the router answers is mapped to, or to END if there is no edge; it fails exactly if the router fails or its key is not mapped, with that reason or key. |
| `Graphs.NextStaysInside` | agent/graph.go:218-236 | In a sound graph routing leads to a node or END, by an edge or by some routing key. |
| `Description.BagInAnyOrder` | agent/config.go:51-56 | Collecting a mapping's targets gives the same collection in whatever order its keys are visited. |
| `Description.CollectTargets` | agent/config.go:51-56 | The sorted targets, each once for every key that leads to it, and the finish flag do not depend on the map's iteration order. |
| `Description.Describe` | agent/config.go:32-67 | Name, entry and node order are the graph's, and the two loops compute the description, with finish flags for exactly the nodes that can finish. |
| `Description.FinishPointsAreExact` | agent/config.go:61-65 | Finish points are exactly the nodes from which some routing answer leads to END, in insertion order. |
| `Description.DescriptionIsExact` | agent/config.go:32-67 | The description announces a move if and only if some routing key makes it. |
| `Description.EveryTransitionIsAnnounced` | agent/graph.go:218-236 | Every successful routing of any state is announced by the description. |
| `Ordering.AtMostIsLexicographic` | agent/config.go:56 | Strings compare by their first difference, and a prefix comes first. |
| `Ordering.SortSorts` | agent/config.go:56 | Sorting strings gives an ascending permutation. |
| `Ordering.SortedIsUnique` | agent/config.go:56 | Two ascending lists with the same members and multiplicities are equal. |
| `Engine.Execute` | agent/engine.go:33-69 | The loop over one map changed in place returns the state, error and step records of the specification run, for every merge order. |
| `Traces.RunIsARun` | agent/engine.go:44-67 | In every run each step's updates are its node's own answer to the state so far, each next node is where its router's own key leads on the merged state, and the run stops for exactly the reason it reports. |
| `Traces.RunsAreUnique` | agent/engine.go:44-67 | Whatever fits that description is the interpreter's result: state, error and step records. |
| `Traces.BoundIsAskedForOrHundred` | agent/engine.go:34-36 | The bound is the one asked for, or 100 if that is not positive. |
| `Traces.CompletedRunHoldsTheWrites` | agent/engine.go:57 | When a run completes, a channel without a reducer holds what the last step naming it wrote, or its input; one with a reducer holds its input reduced by all its updates in order. |
| `Engine.RunIsPrefixOfUnboundedRun` | agent/engine.go:44-67 | A bounded run is a prefix of the unbounded one; it stops at END, at the bound, or at the first node or routing that fails. |
| `Engine.SucceedsIffEndWithinBound` | agent/engine.go:44-68 | At most max nodes run, and the run succeeds if and only if the unbounded run is at END within max nodes (exactly max suffices), with the same state. |
| `Engine.LargerBoundSameRun` | agent/engine.go:44-47 | Unless the bound was hit, any larger bound gives the same result and records. |
| `Engine.StepsChain` | agent/engine.go:63-66 | Step records are numbered from one and chain from the entry, each starting where the previous one led, to END on success. |
| `Engine.CompiledRunsNeverMissAFunction` | agent/engine.go:48-51 | For any builder calls that compile, any state and any bound, the "no function registered" exit is never taken. |
| `Engine.StateIsMergedUpdates` | agent/engine.go:53-57 | The state after any number of nodes is the initial one with the nodes' updates merged in order. |
| `Engine.AppendChannelOnlyGrows` | agent/state.go:58-75 | Over any run an appending channel is its initial list followed by all updates in execution order, and each earlier list is a prefix of every later one. |
| `Durable.Worker.RegisterActivities` | durable/dapr.go:57-66 | Registers each nonblank node name once. |
| `Durable.Worker.GraphWorkflow` | durable/dapr.go:149-199 | The workflow loop on recorded results computes the replay specification, on copies of the state; an unknown graph is refused. |
| `Durable.Worker.ExecuteNode` | durable/dapr.go:203-217 | The activity runs the one node on the decoded state and encodes its answer. |
| `Traces.ActivityAnswers` | durable/dapr.go:203-217 | An activity runs its node's own function on the decoded state, channel by channel, and answers in JSON. |
| `Traces.ProgressIsAReplay` | durable/dapr.go:168-198 | On any recorded results each step's updates are the recorded ones of its node, each next node is where its router's own key leads on the state merged so far, and the workflow waits, ends or fails for exactly the reason it reports. |
| `Traces.ReplaysAreUnique` | durable/dapr.go:168-198 | Whatever fits that description is the workflow's progress. |
| `Durable.ReplayContinues` | durable/dapr.go:168-197 | Feeding one more recorded result continues exactly where the workflow was waiting, and the step counts the results consumed. |
| `Durable.ReplayRestoresTheWorkflow` | durable/dapr.go:146-149 | After any run with crashes anywhere, another crash and a replay restore the same node, state and step, whatever the nodes answered; replay never diverges. |
| `Durable.WorkerAwaitsFirstUnrecorded` | durable/dapr.go:168-185 | In every reachable state a live worker waits for exactly the first step that is not recorded, and that is the step it executes. |
| `Durable.RecordedNodesAreNotExecutedAgain` | durable/dapr.go:183-187 | Executions are marked with the step the worker was at: once the result of a step is recorded it stays, and no later execution, by whatever worker and whatever the nodes answered, is for that step. |
| `Durable.CrashesDoNotChangeTheOutcome` | durable/dapr.go:149-199 | However often it crashed, a finished run has the recorded results and the outcome of the crash-free run, and an unfinished one a prefix. |
| `Durable.EveryRunCanBeFinished` | durable/dapr.go:149-199 | From any run with crashes there is a continuation that ends like the crash-free run. |
| `Refinement.DurableRunIsInProcessRun` | agent/engine.go:29-32 | As long as every state, merged ones included, and every update of the in-process run is JSON-normal, interpreter and workflow give the same state, or the same error at the same step and node. |
| `Refinement.MergeStaysNormalIff` | agent/state.go:58-75 | Where reducers append, merging JSON-normal updates into a JSON-normal state stays JSON-normal if and only if nothing is never appended to nothing. |
| `Refinement.AppendsNormallyIffSomething` | agent/state.go:58-75 | An update keeps an appending channel JSON-normal whatever it holds if and only if it contributes some element. |
| `Refinement.WorkflowIsExecute` | durable/dapr.go:149-199 | Exact agreement of whole runs, for any JSON-normal input and bound, on graphs whose nodes answer JSON-normal states with updates that keep them so. |
| `Refinement.DurableRunAgreesAsJson` | agent/engine.go:29-32 | With any reducers that respect JSON, on graphs that cannot tell a value from its JSON form and send reducers no native array or null, the two agree up to JSON, errors and steps included. |
| `Refinement.WorkflowAgreesWithExecute` | durable/dapr.go:149-199 | The same for whole runs, the workflow starting from the JSON of the interpreter's input and both with the same default bound. |
| `RunAgreement.MergeAgreesIffSteady` | agent/state.go:58-100 | With appending reducers and from states with the same JSON, one merge and its durable form give the same JSON if and only if no written appending channel holds or is sent a native array or null. |
| `RunAgreement.WorkflowKeepsUpIffSteady` | agent/engine.go:29-32 | On every graph with appending reducers that cannot tell a value from its JSON form, and for every input and bound, the two runs have the same JSON at every node if and only if no executed node appends a native array or null or appends to one. |
| `RunAgreement.WorkflowAgreesIffSteady` | agent/engine.go:29-32 | On such graphs a run that completes in process completes durably with the same JSON if and only if no executed node appends a native array or appends to one; native nulls and empty native arrays on these channels are set aside. |
| `RunAgreement.SteadyWorkflowAgrees` | agent/engine.go:29-32 | One direction for all runs, failing ones included: then the outcomes agree, errors with their step and node. |
| `RunAgreement.UnsteadyAppendDiffers` | agent/state.go:58-75 | Appending a native array, or to one, leaves an element at which the in-process list and the durable list differ. |
| `PartingRuns.TypedSliceParts` | agent/state.go:69-73 | A one-node graph whose node sends a `[]string` to an appending channel completes both ways, in different JSON. |
| `PartingRuns.EmptyAppendParts` | agent/state.go:58-75 | A two-node graph with JSON-normal answers only completes in different JSON: the first node appends an empty list, the second asks whether the channel is nil. |
| `PartingRuns.EmptyAppendIsSteady` | agent/state.go:58-75 | That run appends no native value, so it is the second node's sight of nil that parts it. |
| `PartingRuns.BlankRejoins` | agent/state.go:69-73 | Why native nulls are set aside: after a nil map is appended, a later node can make up for it and the outcomes agree. |
| `PartingRuns.MessagesAgree` | agent/state.go:58-59 | A node that appends a message meets the conditions, so its runs agree up to JSON for every bound and every input without native arrays or nulls on the channel. |
| `Refinement.AwaitedNodesAreRegistered` | durable/dapr.go:183-187 | For a graph that compiled and a backend given its node names, every node a workflow asks for has a function and a registered activity. |
| `RefreshLimiter.RefetchesAreSpaced` | identity/verifier.go:245-256 | Forced refetches are at least 30 seconds apart from each other and from the last one. |
| `RefreshLimiter.RefetchesAreRateLimited` | identity/verifier.go:224-256 | Any lookups by any callers start at most T/30s + 1 forced refetches in a closed window of length T. |
| `RefreshLimiter.RefusedOnlyAfterRecentRefetch` | identity/verifier.go:245-256 | An unknown key is refused a refetch if and only if one ran less than 30 seconds before. |
| `Verifier.JWKSVerifier.AllowForcedRefresh` | identity/verifier.go:245-256 | Grants and remembers exactly as the limiter does. |
| `Verifier.JWKSVerifier.SigningKey` | identity/verifier.go:314-336 | A known key costs no refetch, an unknown one at most one granted by the limiter; the key is found in the cached set or in what the refetch brought. |
| `Verifier.JWKSVerifier.Close` | identity/verifier.go:149-163 | Whatever is live is cancelled and nothing is live or cached afterwards; the verifier is closed. |
| `Verifier.JWKSVerifier.JwksCache` | identity/verifier.go:189-220 | Closed: refused without effect. Cached: that cache. Otherwise a new refresher is started; if its registration succeeds it is the one live, cached and returned, and if not it is cancelled, nothing is cached and the failure is returned. |
| `Verifier.AtMostOneRefresherLives` | identity/verifier.go:149-220 | However lookups and closes interleave, refreshers started are cancelled or live, at most one is live, none after Close, and all successful lookups get the same one. |
| `Verifier.NothingStartsAfterClose` | identity/verifier.go:149-163 | After Close none is live and none ever starts, and no lookup is served, even one already past its first check. |
| `Verifier.LookupIsServed` | identity/verifier.go:193-220 | In every reachable world that is not closed, a lookup whose registration succeeds is served with a live refresher: the cached one, or a new one if there was none. |
| `Verifier.FailedRegistrationLeavesNothing` | identity/verifier.go:212-215 | A failed registration is reported, leaves nothing cached or live and nobody served, and the next lookup can still succeed. |
| `Verifier.ClosedLookupIsRefused` | identity/verifier.go:197-208 | Once closed every lookup is refused without effect, also one already past its first check. |
| `Gate.OauthGate.GetVerifier` | identity/middleware.go:199-220 | A stored verifier is served; otherwise a successful build is stored and served, and a failed one leaves the gate empty. |
| `Gate.SoloRequestIsGetVerifier` | identity/middleware.go:199-220 | A request's steps in the interleaved machine, with nobody in between, do what the method does. |
| `Gate.OneVerifierForAll` | identity/middleware.go:192-220 | Over any interleaving at most one verifier is ever stored, it never changes, and every served request gets it. |
| `Gate.FailedBuildLeavesNoTrace` | identity/middleware.go:213-216 | A failed build stores and serves nothing and frees the lock for the next request. |
| `Scopes.SortedUnique` | identity/middleware.go:261-275 | Each member once, strictly ascending, from a slice that is only read. |
| `Scopes.ExtractScopes` | identity/middleware.go:232-259 | The canonical form of the first of scp, scope and scopes that gives any scope, or nothing. |
| `Scopes.ChosenByPrecedence` | identity/middleware.go:238-259 | A scope is among the result exactly if scp gives it, or scope does and scp gives none, or scopes does and the others give none; a list gives its strings, a text its words, anything else nothing. |
| `Scopes.CanonicalFormsAreUnique` | identity/middleware.go:232-237 | Equal sets of scopes have equal canonical forms, whatever the order and the repeats. |
| `Scopes.EqualSetsEqualScopes` | identity/middleware.go:232-259 | Two whole tokens whose chosen claims hold the same set give identical results, whatever the form of the claims. |
| `Scopes.ListAndStringAgree` | identity/middleware.go:238-259 | A list claim of either Go type under any scope name and a text claim under any name give the same result if and only if the list holds exactly the words of the text, in any order, with any repeats and any white space. |
| `Scopes.MissingScopes` | identity/middleware.go:277-288 | True exactly if the required set is not a subset of the granted one. |
| `Whitespace.FieldsAreExactlyTheWords` | identity/middleware.go:251-252 | Splitting finds exactly the stretches without white space that have white space or an end on both sides. |
| `Whitespace.FieldsOfJoin` | identity/middleware.go:251-252 | Splitting undoes joining words with spaces. |
| `Origin.OriginRelatesIff` | identity/http.go:159-184 | A token may go from one URL to another exactly if their hosts agree up to case and scheme and port are the same, or it is the upgrade from http on 80 to https on 443; a port left out is 443 for https and 80 otherwise. |
| `Origin.DifferentPortsDiffer` | identity/http.go:174-184 | Ports that are spelled out and differ keep origins apart, but for that upgrade. |
| `Origin.OriginsArePreordered` | identity/http.go:159-184 | The origin relation is reflexive and transitive, for any folding of cases. |
| `Origin.OneWayPairsAreUpgrades` | identity/http.go:159-172 | Its one-way pairs are exactly http on port 80 to https on port 443 of one host; both-way pairs share scheme, host and port; for any folding of cases. |
| `Origin.OriginalRequestUrl` | identity/http.go:139-157 | The bounded loop computes the walk of 64 steps, and halts on every chain. |
| `Origin.WalkFindsTheStart` | identity/http.go:139-157 | The walk finds a URL if and only if fewer hops than its steps lead back to a first request with that URL. |
| `Origin.CyclicChainsAreRefused` | identity/http.go:129-130 | A chain that comes back to itself yields no original URL, for any number of steps. |
| `Origin.RoundTrip` | identity/http.go:78-137 | The token header goes out if and only if there is a token and the chain starts, at most 63 redirects back, at an origin related to this request's; other headers are untouched and a stale token header is cleared. |
| `Utf8.DecodeFirst` | analytics.go:193 | Decoding the front of an encoding gives back its first rune and length. |
| `Utf8.DecodeLast` | analytics.go:193 | Decoding the end of an encoding gives back its last rune and length. |
| `Utf8.DecodeLastOfPart` | analytics.go:193 | The end of a cut-off rune decodes as an error of length one. |
| `Utf8.DecodesIffEncoded` | analytics.go:193 | Decoding finds a rune in front of any bytes exactly if its encoding is there, and otherwise an error of length one. |
| `Utf8.DecodedEndIsARune` | analytics.go:193 | Bytes whose end does not decode as an error end with the encoding of the rune decoded. |
| `Dimension.TrimmingDropsWhiteSpace` | analytics.go:187 | Trimming drops the white space at both ends, all of it and nothing else. |
| `Dimension.CleanDimension` | analytics.go:184-200 | The loop drops bytes until the end decodes. |
| `Dimension.CleanedIsLongestWholeRunePrefix` | analytics.go:184-200 | On valid UTF-8 the result is the longest prefix of the trimmed value of at most 64 bytes that ends between runes; at least 61 bytes remain if anything was cut. |
| `Dimension.CleanedIsBoundedPrefix` | analytics.go:184-200 | On any bytes the result is the trimmed value if that fits into 64 bytes, and otherwise its longest prefix of at most 64 bytes that is empty or ends with a whole rune. |
| `Dimension.CleaningTwice` | analytics.go:184-200 | Cleaning again changes nothing if and only if the trimmed value fits into 64 bytes or the last of its runes that fits is not white space. |
| `Dimension.SecondCleaningCuts` | analytics.go:184-200 | It does change 63 letters, a space and a letter: the first cleaning drops the letter, the second the space. |
| `ToolLoop.IndexTools` | adapters/langchaingo/tools.go:26-38 | The names are those of the tools, and each leads to the last tool that carries it. |
| `ToolLoop.RunTools` | adapters/langchaingo/tools.go:73-96 | Either every call is answered, in order, with its ID, its name and what the last tool of that name returned on the call's own arguments, and these are appended; or the error is that of the first call that is unknown, does not decode or fails. |
| `ToolLoop.RunTurn` | adapters/langchaingo/tools.go:54-96 | One turn: model failure, no choices, final answer, tool error, or a longer history. |
| `ToolLoop.TurnIsTheTools` | adapters/langchaingo/tools.go:54-96 | In terms of model and tools: a turn fails with the model, has no choices, ends with the first choice's content, fails with the first call that cannot be answered, or adds exactly the request and its answers. |
| `ToolLoop.ToolTurnStopsIff` | adapters/langchaingo/tools.go:73-87 | A turn that asks for tools stops exactly if some of its calls is unknown, does not decode or fails. |
| `ToolLoop.AnswersAreUnique` | adapters/langchaingo/tools.go:73-95 | A call is answered in one way or fails in one way, never both. |
| `ToolLoop.ToolModelNode` | adapters/langchaingo/tools.go:40-99 | The node's result and the histories its model was called with are those of the specification loop. |
| `ToolLoop.HistoriesAreWellFormed` | adapters/langchaingo/tools.go:40-99 | At every model call the history is the opening (system message if any, then prompt) and as many complete tool-call turns as calls before; each is the previous one with what the model asked for on it and what the last tools of those names returned on the calls' arguments; one to eight calls are made. |
| `ToolLoop.ResultIsTheLastAnswer` | adapters/langchaingo/tools.go:53-99 | How the node ends, by the model's answer to the last history: with its content if it asks for no tool, with the model's failure, with the first call that cannot be answered, or out of turns after eight answers that asked for tools and got them. |
| `ToolLoop.SuccessIsTheFinalAnswer` | adapters/langchaingo/tools.go:61-64 | Success is exactly a last answer whose first choice asks for no tool, and its content. |

## Left out

- Machine integers: version counters, steps and times are unbounded here; 64-bit overflow is not modelled.
- JSON text: documents and states are values, JSON numbers are integers without loss of precision, a native Go value is known by its Go type and its JSON only, values that cannot be encoded are absent, and an index document that decodes to `null` (which would leave a nil map to write to) is not among the documents.
- The final JSON trip of a workflow's output to its client, and `ToState`/`Into`.
- Aliasing: changes made through a builder after `Compile`, nodes that write to the state map they are given, and a `RegistryRef` shared by two records.
- A nil reducer or a nil input map (a nil map reads as an empty one).
- `DaprStore`, the workflow client, scheduling, waiting, instance attach and status decoding: foreign services.
- The retry policy of a node: a result is recorded once, however many tries the workflow library made.
- Store calls that take effect and still report an error.
- Token parsing, signatures, claim validation and the key cache's internals: a key set is a set of key IDs.
- Metadata discovery, coordinate precedence and transport checks.
- Which characters are cases of one another (the folding is a parameter, and the theorems hold for each), URL parsing and header canonicalisation; requests are numbered values, not heap objects.
- `RunAgreement.WorkflowAgreesIffSteady`: for graphs whose nodes or routers can tell a value from its JSON form, or whose reducers do not append, agreement is proved one way only (`Refinement`), because whether such a graph notices the difference is a matter of its own code.
- `Origin.RoundTrip`: a redirected request without a URL whose chain does lead back to a start is not modelled; the code stops with a nil dereference there.
- The tool list handed to the model, JSON decoding of tool arguments beyond whether it succeeds, and where the node reads its prompt and writes its output in the state.
- Error texts, logging, status codes, usage reporting apart from `cleanDimension`, the other model adapters, `runner.go` and the examples.
