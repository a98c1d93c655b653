# Verified model of the mock-agents server core

This project models the algorithms and concurrent protocols inside the mock LLM server and proves what they keep
over every input, every run and every interleaving. `dafny verify dfyconfig.toml` checks all of it.

| file | what it models |
|---|---|
| `PipelineGraph.dfy`, `PipelineKahn.dfy`, `PipelineExecutor.dfy` | graph pipelines, the executor's Kahn pass and its guarded walk |
| `PipelineValidator.dfy`, `PipelineAgreement.dfy` | the load-time depth-first and breadth-first checks, and their agreement with the executor |
| `LogWorker.dfy`, `LogShutdown.dfy` | the bounded log queue with its workers, counters and hard-stop shutdown, as a transition system |
| `LogBroadcaster.dfy` | fan-out to tenant-scoped subscribers with drop accounting |
| `OutboundQueue.dfy`, `RequestCorrelation.dfy` | the bidirectional MCP transport: outbound queue, and request/response correlation |
| `StreamSession.dfy`, `StreamResume.dfy` | resumable streamable-HTTP sessions, and what a client gets by resuming |
| `CanonicalJson.dfy`, `RequestKey.dfy`, `RecordReplay.dfy` | canonical JSON, request and match keys, cassettes and sequenced replay |
| `ToolSchema.dfy`, `ContractDiff.dfy` | the parameter validator, and contract comparison measured against it |
| `SchemaSynth.dfy` | bounded synthesis of instances from JSON Schemas |
| `AgentRegistry.dfy` | the multi-tenant registry and its cached indexes |
| `Quota.dfy` | the token bucket and the delay it advertises |
| `WordChunker.dfy`, `ArgumentPieces.dfy`, `ResponsesStream.dfy` | the word chunker, byte-bounded argument pieces, the Responses event ladder and a client that folds it |
| `Strings.dfy`, `Wrappers.dfy` | string order, decimal rendering, `Option` |

Objects that the source updates in place are classes whose methods are proved against a function of the old
state; the theorems are about those functions. Where goroutines interleave, each step of the transition system is
one atomic action (a lock-protected section, an atomic counter operation, or a channel operation), and the
theorems hold for every sequence of enabled steps.

Parameters stand for what the model does not look into: the agent engine (any function of agent and input), JSON
decoding (any decoder for which the canonical text of a decoded value is JSON again), the digest, the clock,
and whether a store write succeeds.

## Where the code and its documentation disagree

- `AgentRegistry.Registry.GetByModel`: the source says it returns nothing only if no agent uses the model. After the
  latest registrant of a model is removed it returns nothing although another agent may still declare that model
  (`RemovalHidesSurvivor`). The method's contract gives the exact answer.
- Node budget of schema synthesis: the source says it bounds the total work. It bounds synthesized nodes, not the
  merging of `allOf` branches: a definition whose `allOf` names itself twice makes one merge look at 16382 branches
  (`MergeExceedsNodeBudget`). `MergeKeepsBudgetIff` says for which list lengths and nesting depths every merge stays
  within the budget, and `SynthesizeFromSchema` bounds the total work by the length of the longest list.
- Advertised retry delay: it is truncated to whole nanoseconds, and again to whole seconds in the HTTP header, so a
  client that waits exactly that long can be refused again (`TruncatedDelayTooShort`, `RetryAfterHeaderTooShort`).
  `AdvertisedDelaySucceedsIff` and `RetryAfterSucceedsIff` say when it is not.
- "Not breaking": closing an object schema, or giving an untyped schema the object type, is not reported although it
  rejects calls that were accepted. `StillAcceptedIff` says exactly which accepted calls stay accepted.
- Outbound order: overflow, stealing, and receiving while one's own cancel drains each let a later message overtake an
  earlier one (`OverflowReorders`, `StealReorders`, `ReceiveDuringCancelReorders`). `OrderKeptIff` characterises the
  steps that do not, `OrderKeptThroughoutIff` the runs.
- Request keys: a newline in a decoded path together with non-JSON bodies makes two requests share a preimage
  (`NewlineInPathCollides`). `AnyPathPreimageIff` says exactly when this happens.
- Empty node ids: the validator's graph pass skips such nodes and the executor does not, so a cycle through one is seen
  by the executor only (`EmptyIdHidesCycle`). `CheckBoth` says exactly when the two agree on cycles, `RootsAgreeIff` on
  roots. The validator's spec pass rejects empty ids separately (internal/config/pipeline_validator.go, lines 126-129),
  so a document with one never passes validation as a whole.
- Cyclic nodes: the source describes them as in, or reachable only through, a cycle. A node that a root also reaches is
  left over too (`RootedNodeIsListed`); `CyclicNodes` lists every node downstream of a cycle.
- Unreachable nodes: the load-time check for them can never report one, because it is reached only without a cycle
  (`ValidateGraph`).
- Resuming a stream: an id from the future is followed by events at or before it (`FutureIdGetsStaleEvent`);
  `NeverStaleIff` says for which ids a new stream never hands over such an event.
- Skipped events: the source says a subscriber whose channel was full gets the event on reconnecting. It does not when a
  later event was read after the skip (`SkippedEventIsNeverReplayed`); `ReconnectRecoversIff` says exactly when it does.
- Streamed text: the chunker is meant to preserve word spacing when its pieces are reassembled. It rejoins words with
  single spaces, so line breaks, tabs and repeated spaces are lost (`LineBreakReachesClientAsSpace`);
  `ChunksConcatIff` says exactly when they are not.
- Streamed arguments: a piece may end inside a character, whose bytes are then replaced one by one
  (`SplitCharacterDoesNotReachClient`); `ReceivedIff` says exactly when no character is lost.
- Lowering an override: tokens saved under a larger burst can still be spent at the instant of the change
  (`LoweredBurstStillSpends`). `InstantBoundIff` says exactly when a tenant is held to its capacity at one instant;
  over any window `RateBoundAnywhere` gives capacity plus rate times the window as soon as the bucket is new, within
  capacity, or was last touched before the window, and `FixedConfigBound` gives it without condition when the config
  does not change.

## Model

| member | source | states |
|---|---|---|
| `PipelineKahn.BuildTables` | internal/engine/pipeline.go:158-188 | outgoing edges per source in document order; in-degree counts exactly the edges between declared, distinct nodes; for a repeated id the last agent wins |
| `PipelineKahn.InitialQueue` | internal/engine/pipeline.go:257-262 | for any map order the queue starts with exactly the nodes of count zero, each once |
| `PipelineKahn.PeelEdges` | internal/engine/pipeline.go:267-278 | peeling one node keeps every working count equal to the arcs still unpeeled and queues exactly the nodes that reached zero |
| `PipelineKahn.Peel` | internal/engine/pipeline.go:253-279 | for any map order: peeled nodes admit a topological rank, and every node left has a predecessor that is also left |
| `PipelineKahn.CyclicNodes` | internal/engine/pipeline.go:252-291 | the result is exactly the declared nodes in or downstream of a cycle, in definition order without repeats; empty if and only if there is no cycle |
| `PipelineKahn.RootedNodeIsListed` | internal/engine/pipeline.go:246-251 | a node that a root reaches directly is listed because a cycle reaches it too; the root is not |
| `PipelineKahn.FirstSeenInDefinitionOrder` | internal/engine/pipeline.go:283-290 | the listed ids are the kept declared ids, strictly ordered by first occurrence |
| `PipelineGraph.BackwardWalkClosesCycle` | internal/engine/pipeline.go:246-251 | a node of a finite set without sources lies in or downstream of a cycle |
| `PipelineGraph.AcyclicIsRooted` | internal/engine/pipeline.go:230-235 | in an acyclic graph every declared node is reachable from a root |
| `PipelineExecutor.GraphWalk.Walk` | internal/engine/pipeline.go:201-228 | entering a node keeps the history sound; without error the node is entered and everything newly invoked has all its firing edges followed; with an error the stop reason is real |
| `PipelineExecutor.GraphWalk.Follow` | internal/engine/pipeline.go:215-227 | every edge whose guard the output satisfies is followed |
| `PipelineExecutor.WalkRoots` | internal/engine/pipeline.go:236-243 | all in-degree-zero nodes are entered with the user message |
| `PipelineExecutor.RunGraph` | internal/engine/pipeline.go:157-244 | a cycle error if and only if a cycle exists, and then nothing is invoked; otherwise each node is invoked at most once, on the last agent with its id, with the user message or the output of an earlier result along a fired edge; complete unless stopped by a named error |
| `PipelineExecutor.InvokedIsLeast` | internal/engine/pipeline.go:198-243 | the invoked set of an error-free run is the least set holding the roots and closed under fired edges |
| `PipelineExecutor.UnguardedRunInvokesAll` | internal/engine/pipeline.go:230-243 | with unguarded edges between declared nodes an error-free run invokes every node exactly once |
| `PipelineValidator.BuildForward` | internal/config/pipeline_validator.go:240-263 | the adjacency lists are exactly the arcs, and in-degree zero is exactly being a root |
| `PipelineValidator.CycleSearch.Dfs` | internal/config/pipeline_validator.go:331-352 | gray nodes are the recursion path, black nodes lead only to nodes finished earlier; a found cycle is real and is reported once |
| `PipelineValidator.CycleSearch.VisitSuccessors` | internal/config/pipeline_validator.go:336-350 | unless a cycle is found every successor is finished |
| `PipelineValidator.CycleSearch.Visit` | internal/config/pipeline_validator.go:337-350 | a gray successor yields a real cycle and one error; otherwise the successor is finished |
| `PipelineValidator.DetectCycle` | internal/config/pipeline_validator.go:322-368 | true if and only if the graph has a cycle, with exactly one error naming a node on it |
| `PipelineValidator.MarkReachable` | internal/config/pipeline_validator.go:290-300 | marks exactly the nodes reachable from the sources |
| `PipelineValidator.CollectSources` | internal/config/pipeline_validator.go:276-281 | the sources are exactly the in-degree-zero nodes, for any map order |
| `PipelineValidator.ReportUnreachable` | internal/config/pipeline_validator.go:301-312 | reports nothing if and only if every node with an id is marked |
| `PipelineValidator.ValidateGraph` | internal/config/pipeline_validator.go:228-313 | rejects exactly the cyclic documents, always with a cycle error; the unreachable-node error never occurs |
| `PipelineAgreement.CheckBoth` | internal/engine/pipeline.go:163-168 | for every document: whatever the validator rejects, Kahn's pass leaves over, including the node the validator names; the two agree if and only if there is no cycle or some cycle avoids the empty id, so always when no id is empty |
| `PipelineAgreement.ValidatorCycleIff` | internal/config/pipeline_validator.go:243-263 | the validator's cycles are exactly the executor's cycles that avoid the empty id |
| `PipelineAgreement.RootsAgreeIff` | internal/engine/pipeline.go:163-168 | the two passes have the same roots if and only if the empty id is no root and every node it points to has another predecessor |
| `PipelineAgreement.EmptyIdHidesCycle` | internal/config/pipeline_validator.go:243-250 | a two-node cycle through an empty id is cyclic for the executor and not for the validator |
| `LogWorker.StartInv` | internal/server/log_worker.go:89-112 | the initial state, with its default sizes, satisfies the invariant |
| `LogWorker.SubmitPreserves` | internal/server/log_worker.go:126-156 | every atomic step of Submit keeps conservation, the lock discipline and the join facts |
| `LogWorker.WorkPreserves` | internal/server/log_worker.go:235-272 | so does every step of a worker |
| `LogWorker.TearDownPreserves` | internal/server/log_worker.go:169-202 | so does every step of the caller that tears down |
| `LogWorker.JoinPreserves` | internal/server/log_worker.go:183-186 | so does every step of a later Shutdown call |
| `LogWorker.FirePreserves` | internal/server/log_worker.go:191-198 | so does the deadline timer |
| `LogWorker.CountersAccount` | internal/server/log_worker.go:119-156 | in every interleaving submitted equals queued, in flight, written, failed and not yet settled; finished calls are counted once in submitted or dropped |
| `LogWorker.NeverPanics` | internal/server/log_worker.go:55-61 | no interleaving sends on the closed queue or closes a channel twice |
| `LogWorker.ShutdownDrains` | internal/server/log_worker.go:158-202 | when any Shutdown has returned all workers have exited; without a hard stop everything submitted was written or failed, with one exactly the queued entries are lost |
| `LogWorker.NothingAfterShutdown` | internal/server/log_worker.go:161-166 | after a return no continuation writes to the store or accepts an entry |
| `LogShutdown.ShutdownNeverStuck` | internal/server/log_worker.go:169-202 | a tear-down in progress always has its own next step enabled, or one of a Submit call or worker it waits for |
| `LogShutdown.StepMeasure` | internal/server/log_worker.go:126-202 | every step of every goroutine but the start of a new Submit call decreases a measure, and such a start raises it by eight |
| `LogShutdown.ShutdownReturns` | internal/server/log_worker.go:158-202 | under every scheduling a run has at most measure plus nine steps per new Submit call, and when only new Submit calls are possible every Shutdown call has returned |
| `LogBroadcast.LogBroadcaster.SubscribeTenant` | internal/server/log_broadcaster.go:83-103 | registers a new subscription, or hands back a closed one after shutdown |
| `LogBroadcast.LogBroadcaster.CancelSubscription` | internal/server/log_broadcaster.go:105-112 | closes and deregisters once |
| `LogBroadcast.LogBroadcaster.PublishEntry` | internal/server/log_broadcaster.go:121-140 | for any map order every registered matching subscriber buffers the entry or counts one drop |
| `LogBroadcast.LogBroadcaster.CloseBroadcaster` | internal/server/log_broadcaster.go:147-161 | closes exactly the registered channels and empties the registry |
| `LogBroadcast.TenantsDoNotInterfere` | internal/server/log_broadcaster.go:40-44 | a tenant-scoped subscription is the same as in the run with all other tenants' publishes deleted |
| `LogBroadcast.PublishedIsReceivedBufferedDropped` | internal/server/log_broadcaster.go:116-140 | the matching entries published while the subscription was registered, read off the operations alone, equal received plus buffered plus dropped; what arrives is that sequence minus exactly the drops |
| `LogBroadcast.OpenExactlyWhileRegistered` | internal/server/log_broadcaster.go:142-161 | in every run a channel is open exactly while registered, so it is closed once |
| `OutboundQueue.Bidirectional.Send` | internal/mcp/bidirectional.go:122-134 | delivers to a channel with room, else buffers at the tail |
| `OutboundQueue.Bidirectional.Attach` | internal/mcp/bidirectional.go:72-98 | closes a previous channel, attaches a new one and replays the longest prefix that fits |
| `OutboundQueue.Bidirectional.Detach` | internal/mcp/bidirectional.go:100-114 | an attached channel is closed and its unread messages return to the head in order; otherwise nothing changes |
| `OutboundQueue.CancelCompletes` | internal/mcp/bidirectional.go:100-114 | the single steps of an undisturbed cancel add up to the sequential result |
| `OutboundQueue.StepPlaces` | internal/mcp/bidirectional.go:72-134 | each step of any caller or reader moves a message without losing or copying it |
| `OutboundQueue.NothingLost` | internal/mcp/bidirectional.go:66-134 | in every interleaving each message is in exactly as many places as it was enqueued, and no channel is misused |
| `OutboundQueue.StolenStaysWithItsReader` | internal/mcp/bidirectional.go:77-80 | unread messages of a stolen channel leave it only through its own reader |
| `OutboundQueue.OrderKeptIff` | internal/mcp/bidirectional.go:72-134 | from an ordered state a step keeps delivery order if and only if it is not one of the three overtaking steps |
| `OutboundQueue.OrderKeptThroughoutIff` | internal/mcp/bidirectional.go:72-134 | every state of a run is in delivery order if and only if no step of it overtakes |
| `OutboundQueue.PoliteReaderSeesFifo` | internal/mcp/bidirectional.go:66-71 | with one reader at a time that stops before cancelling, and no full channel, what is received is a prefix of what was enqueued |
| `OutboundQueue.ReceiveDuringCancelReorders` | internal/mcp/bidirectional.go:103-112 | a reachable run in which the second message is received first |
| `OutboundQueue.OverflowReorders` | internal/mcp/bidirectional.go:122-134 | a reachable run in which the third message is received while the second is still buffered |
| `OutboundQueue.StealReorders` | internal/mcp/bidirectional.go:76-98 | a reachable run in which the new subscriber receives the second message while the first sits in the stolen channel |
| `Strings.DecimalInjective` | internal/mcp/bidirectional.go:136-142 | different counter values render to different ids |
| `RequestCorrelation.StepPreserves` | internal/mcp/bidirectional.go:144-221 | every step of a sender or deliverer keeps ids unique, entries owned and answers matched |
| `RequestCorrelation.ResponsesCorrelate` | internal/mcp/bidirectional.go:187-221 | in every interleaving ids are distinct and a call returns only a response with its own id |
| `RequestCorrelation.DeliveredOnceWithoutBlocking` | internal/mcp/bidirectional.go:160-185 | each call accepts at most one delivery, and the accepted response can always be sent at once |
| `RequestCorrelation.CleanupTouchesOwnEntry` | internal/mcp/bidirectional.go:144-158 | cleanup removes the caller's own entry and no other |
| `RequestCorrelation.DeliveryAcceptedIff` | internal/mcp/bidirectional.go:160-185 | a response is accepted if and only if some registered call that was neither answered nor cleaned up has its id, and then for that call |
| `RequestCorrelation.LateDeliveryRefused` | internal/mcp/bidirectional.go:160-179 | a repeated or unknown id, and one whose caller timed out and cleaned up, is refused without effect on any call |
| `StreamableSession.PushToSubscribers` | internal/mcp/streamable.go:584-589 | for any map order every live channel gets the event or is marked as having skipped it |
| `StreamableSession.CollectReplay` | internal/mcp/streamable.go:614-618 | the replay is exactly the logged events after the given id |
| `StreamableSession.StreamSession.BroadcastNotification` | internal/mcp/streamable.go:567-591 | next id, trimmed log and offered channels in one step; nothing when closed |
| `StreamableSession.StreamSession.SubscribeStream` | internal/mcp/streamable.go:600-620 | snapshot and registration happen together; closed and full sessions hand back a closed channel |
| `StreamableSession.StreamSession.CancelStream` | internal/mcp/streamable.go:622-628 | deregisters and changes nothing else |
| `StreamableSession.StreamSession.CloseSession` | internal/mcp/streamable.go:633-645 | closes exactly the live channels, once |
| `StreamableSession.ReplayIsHistorySlice` | internal/mcp/streamable.go:579-583 | replay after an id is the retained part of the history from that id |
| `StreamableSession.LogIsContiguousBlock` | internal/mcp/streamable.go:577-583 | in every run the log is the contiguous id block ending at the counter, of length min(counter, 1024); no closed channel is used |
| `StreamableSession.StreamsAreGapless` | internal/mcp/streamable.go:593-630 | replay plus live events strictly increase; until the channel overflows they are an unbroken stretch of the history, also after a cancel or close, and reach the newest event while subscribed; a refused stream gets nothing |
| `StreamableSession.NoStaleEventsIff` | internal/mcp/streamable.go:614-618 | at every point of every run a stream, overflowed or not, has handed over no event at or before the client's id if and only if that id was not from the future or nothing arrived since |
| `StreamResume.NeverStaleIff` | internal/mcp/streamable.go:600-618 | subscribing to an open session with room, every continuation of the run hands the stream only later events if and only if the id named is not beyond the newest one |
| `StreamResume.FutureIdGetsStaleEvent` | internal/mcp/streamable.go:614-618 | naming id 5 in a new session is followed by event 1 |
| `StreamResume.ReconnectRecoversIff` | internal/mcp/streamable.go:564-589 | reconnecting with the last id read yields every event published since the first subscription if and only if as many events were read as that id says and it is within the retained window |
| `StreamResume.SkippedEventIsNeverReplayed` | internal/mcp/streamable.go:69-71 | a run in which event 65 is skipped, event 66 is read, and reconnecting does not bring event 65 |
| `StreamableSession.ResumeIsGaplessIff` | internal/mcp/streamable.go:579-583 | resuming loses nothing if and only if the id is within the last 1024 |
| `CanonicalJson.SortedKeys` | internal/recording/cassette.go:245-249 | whatever order the map yields, the keys come out as the sorted sequence |
| `CanonicalJson.WriteCanonical` | internal/recording/cassette.go:242-274 | appends exactly the canonical text of the value |
| `CanonicalJson.WriteArray` | internal/recording/cassette.go:261-269 | brackets, elements in order, commas between |
| `CanonicalJson.WriteObject` | internal/recording/cassette.go:244-260 | braces, members in sorted key order, commas between |
| `CanonicalJson.QuoteUnique` | internal/recording/cassette.go:255-256 | an encoded string is self-delimiting and determines the string |
| `CanonicalJson.CanonUnique` | internal/recording/cassette.go:234-274 | a printed value followed by a delimiter determines the value and the rest |
| `CanonicalJson.CanonInjective` | internal/recording/cassette.go:234-240 | two values print alike if and only if they are equal |
| `RequestKey.CanonicalBodyIff` | internal/recording/cassette.go:214-224 | canonical bodies are equal if and only if the bodies are equal JSON values or identical non-JSON bytes |
| `RequestKey.PreimageIff` | internal/recording/cassette.go:211-232 | with one-line methods and paths, preimages are equal if and only if method, path and body agree |
| `RequestKey.NewlineInPathCollides` | internal/recording/cassette.go:225-230 | two requests that differ in path and body share a preimage |
| `RequestKey.LossyDecoderRereads` | internal/recording/cassette.go:214-224 | a decoder of arrays and objects that rounds numbers and refuses malformed ones meets, for every set of ignored fields, what the key theorems ask of decoding |
| `RequestKey.LossyDecoderRounds` | internal/recording/cassette.go:214-224 | it reads `1.0` as `1` and refuses `+` |
| `RequestKey.LossyDecoderMatches` | internal/recording/matcher.go:42-62 | it matches any two printed values that it rounds alike up to ignored fields |
| `RequestKey.AnyPathPreimageIff` | internal/recording/cassette.go:211-232 | for arbitrary paths and bodies the preimage identifies the request if and only if neither request is the other with leading body lines moved into the path |
| `RequestKey.JsonPreimageIff` | internal/recording/cassette.go:214-232 | with JSON bodies, whatever the paths, preimages are equal if and only if method, path and decoded body agree |
| `RequestKey.MatchKeyIff` | internal/recording/matcher.go:34-62 | relaxed keys are equal if and only if method and path agree and the bodies agree up to the ignored top-level fields |
| `RequestKey.StripIdempotent` | internal/recording/matcher.go:42-62 | stripping twice is stripping once |
| `RequestKey.FullKeyImpliesMatchKey` | internal/recording/matcher.go:38-40 | equal full keys imply equal relaxed keys |
| `RecordReplay.Cassette.Append` | internal/recording/cassette.go:128-140 | a blank hash is filled in and the index stays the grouping of all interactions |
| `RecordReplay.Cassette.AppendAll` | internal/recording/cassette.go:152-166 | the same as appending one by one |
| `RecordReplay.Cassette.LookupSequence` | internal/recording/cassette.go:190-200 | the interactions with that hash in insertion order |
| `RecordReplay.Replay.Advance` | internal/recording/replay.go:78-96 | serves the next recording or repeats the last; other cursors untouched |
| `RecordReplay.Replay.ExtendMatchIndex` | internal/recording/replay.go:104-114 | the extended index equals a from-scratch regrouping of the whole cassette |
| `RecordReplay.Replay.NextFromMatchIndex` | internal/recording/replay.go:67-75 | cursors and answer are those of the two steps of one reader over the full regrouping, however little was re-keyed |
| `RecordReplay.Replay.Next` | internal/recording/replay.go:59-61 | cursors and answer are those of the two steps of one reader over the stored hashes |
| `RecordReplay.LookUpInContext` | internal/recording/replay.go:55-96 | those two steps do the same in every state of a run, whatever other readers hold |
| `RecordReplay.ServedInOrderOnce` | internal/recording/replay.go:32-38 | under every interleaving of recording and replaying, what is served anew for a key is exactly its first recordings in order |
| `RecordReplay.RepeatsLastOnly` | internal/recording/replay.go:55-61 | an up-to-date lookup repeats if and only if everything was served, and then the last recording |
| `RecordReplay.NthLookup` | internal/recording/replay.go:55-58 | replaying a finished cassette with lookups of any readers and keys interleaved, the n-th request served under a key gets its n-th recording, later ones the last |
| `RecordReplay.RelaxedMatchKeepsHits` | internal/recording/replay.go:125-133 | on an unredacted recording, barring a digest collision, an exact hit is also a relaxed hit |
| `ToolSchema.ValidateParameters` | internal/engine/tool_validator.go:27-44 | no errors if and only if the schema accepts the arguments; only object-typed schemas constrain |
| `ToolSchema.ValidateObjectAt` | internal/engine/tool_validator.go:59-114 | no errors if and only if required fields are present, declared fields conform and a closed object has no others |
| `ToolSchema.CheckRequired` | internal/engine/tool_validator.go:66-79 | no errors if and only if every listed string names a present field |
| `ToolSchema.ValidateFields` | internal/engine/tool_validator.go:84-98 | no errors if and only if each present field conforms to its well-formed sub-schema |
| `ToolSchema.CheckClosed` | internal/engine/tool_validator.go:102-111 | no errors if and only if all fields are declared |
| `ToolSchema.ValidateValue` | internal/engine/tool_validator.go:119-165 | no errors if and only if type, enumeration, length in bytes and nested constraints hold |
| `ToolSchema.ValidateArray` | internal/engine/tool_validator.go:171-185 | no errors if and only if every element conforms to the item schema, when there is one |
| `ContractDiff.Diff` | internal/contract/contract.go:104-129 | has a breaking change if and only if the contracts are not compatible; empty if and only if they show the same surface; the rows are exactly the differences, with their severity and path |
| `ContractDiff.DiffTools` | internal/contract/contract.go:141-171 | the same for the tools by name |
| `ContractDiff.DiffTool` | internal/contract/contract.go:173-233 | breaking if and only if something is newly required or a declared property is gone or changed; one row per difference |
| `ContractDiff.DiffProperties` | internal/contract/contract.go:206-231 | breaking if and only if an old property is missing or different; empty if and only if equal |
| `ContractDiff.DiffScenarios` | internal/contract/contract.go:235-265 | breaking if and only if a scenario disappeared; empty if and only if the sets agree |
| `ContractDiff.DiffStreaming` | internal/contract/contract.go:267-285 | breaking if and only if streaming was enabled and no longer is |
| `ContractDiff.CompatibleReflexive` | internal/contract/contract.go:102-139 | a contract is compatible with itself |
| `ContractDiff.CompatibleTransitive` | internal/contract/contract.go:102-139 | compatible steps compose |
| `ContractDiff.StillAcceptedIff` | internal/contract/contract.go:183-231 | for any old schema: an accepted call stays accepted under a compatible one if and only if the new one is not enforced, or the call has the required arguments, its declared ones conform and its undeclared ones are tolerated |
| `ContractDiff.CompatibleCallsStillAccepted` | internal/contract/contract.go:104-139 | without a breaking change every accepted call with declared arguments stays accepted |
| `ContractDiff.ClosingIsNotReported` | internal/contract/contract.go:183-184 | closing an object is not reported although it rejects an accepted call |
| `ContractDiff.TypingIsNotReported` | internal/contract/contract.go:183-184 | giving a schema the object type is not reported although it rejects an accepted call |
| `SchemaSynth.CollectAllOfProps` | internal/adapter/structured_output.go:257-282 | terminates on cyclic references, merges the branches in order with later ones winning, and looks at exactly the counted number of branches |
| `SchemaSynth.NextShape` | internal/adapter/structured_output.go:184-252 | the keywords are tried in the source's order |
| `SchemaSynth.SynthContext.Synth` | internal/adapter/structured_output.go:175-253 | every visit spends budget that never goes negative, at depth at most 12; with budget to spare the value is the order-independent instance |
| `SchemaSynth.SynthContext.SynthObject` | internal/adapter/structured_output.go:325-338 | one value per declared property while budget lasts, independent of map order when it does |
| `SchemaSynth.SynthContext.SynthTuple` | internal/adapter/structured_output.go:340-356 | one value per positional schema while budget lasts |
| `SchemaSynth.SynthContext.SynthRepeated` | internal/adapter/structured_output.go:358-377 | the item instance repeated while budget lasts |
| `SchemaSynth.SynthesizeFromSchema` | internal/adapter/structured_output.go:148-158 | at most 5000 visits on every schema, and at most 5000 full merges of a document whose lists have at most the given length; below the visit bound the unlimited instance |
| `SchemaSynth.InstanceAcceptedIff` | internal/adapter/structured_output.go:144-147 | on plain schemas above the depth limit the validator accepts the instance if and only if constants and enumerations are well typed, default strings meet their length bounds and required fields are declared |
| `SchemaSynth.SynthesizeAccepted` | internal/adapter/structured_output.go:144-158 | the bounded synthesizer's output for such a schema of fewer than 5000 nodes passes the validator |
| `SchemaSynth.MergeBound` | internal/adapter/structured_output.go:257-282 | a merge over lists of at most w entries nested at most n deep looks at no more than w + w^2 + ... + w^n branches |
| `SchemaSynth.NestReachesBound` | internal/adapter/structured_output.go:257-282 | that bound is reached for every w and n |
| `SchemaSynth.MergeKeepsBudgetIff` | internal/adapter/structured_output.go:28-38 | for every list length and nesting depth, all such merges stay within the node budget if and only if that sum, cut at the depth limit, does |
| `SchemaSynth.MergeExceedsNodeBudget` | internal/adapter/structured_output.go:28-38 | one definition that lists itself twice costs 16382 branches |
| `AgentRegistry.BestInBucket` | internal/engine/agent_registry.go:64-71 | for any map order the smallest name with the model wins |
| `AgentRegistry.RebuildModelBucket` | internal/engine/agent_registry.go:58-78 | the model's entries equal a full scan and no other model's entry changes |
| `AgentRegistry.BestUnique` | internal/engine/agent_registry.go:372-374 | the scan result is determined |
| `AgentRegistry.Registry.Register` | internal/engine/agent_registry.go:90-156 | stores the definition under its key and keeps all indexes exact |
| `AgentRegistry.Registry.RegisterWithSource` | internal/engine/agent_registry.go:107-124 | the same, recording a known source |
| `AgentRegistry.Registry.RemoveForTenant` | internal/engine/agent_registry.go:272-297 | removes exactly that entry and its source, or reports it absent; indexes stay exact |
| `AgentRegistry.Registry.Remove` | internal/engine/agent_registry.go:233-268 | removes the name from every tenant and nothing else; indexes stay exact |
| `AgentRegistry.Registry.GetByModel` | internal/engine/agent_registry.go:170-176 | the latest registrant of the model if that definition is still registered, else nothing |
| `AgentRegistry.Registry.GetByModelForTenant` | internal/engine/agent_registry.go:375-388 | equals a full scan: the tenant's smallest name, else the global one |
| `AgentRegistry.Registry.GetForTenant` | internal/engine/agent_registry.go:343-359 | the tenant's own agent, else the global one |
| `AgentRegistry.Registry.MergedForTenant` | internal/engine/agent_registry.go:423-434 | the merged view agrees with the single lookup on every name |
| `AgentRegistry.RemovalHidesSurvivor` | internal/engine/agent_registry.go:170-176 | a run after which the agnostic lookup misses an agent that the tenant-aware one finds |
| `Quota.Enforcer.AllowRequest` | internal/quota/quota.go:147-178 | the empty tenant and unlimited rates are allowed without effect; otherwise the decision and new bucket follow from the tenant's bucket, config and clock, and nothing else changes |
| `Quota.Enforcer.SetOverride` | internal/quota/quota.go:111-120 | the next request of that tenant, and of no other, sees the new config; the empty tenant keeps the defaults |
| `Quota.RateBound` | internal/quota/quota.go:147-178 | whatever requests and overrides of other tenants are interleaved, over a window under one config a limited tenant is allowed at most its level plus rate times the window, hence capacity plus rate times the window when its bucket is new, within capacity or older than the window |
| `Quota.RateBoundAnywhere` | internal/quota/quota.go:113-178 | that bound for every window of every run from a new enforcer, overrides included; only a bucket touched at the very start of the window and above capacity counts for the largest capacity it was used with |
| `Quota.FixedConfigBound` | internal/quota/quota.go:137-178 | under a fixed config, in every run and every window, at most capacity plus rate times the window |
| `Quota.AllowedAtOnce` | internal/quota/quota.go:165-174 | of n requests at one instant exactly as many are allowed as there are whole tokens |
| `Quota.InstantBoundIff` | internal/quota/quota.go:157-174 | at one instant any number of requests is held to the capacity if and only if the bucket was not touched at that instant with more whole tokens than the capacity now in force |
| `Quota.ReachedIsDated` | internal/quota/quota.go:152-174 | every run keeps buckets at or above zero, dated no later than the clock and below the largest capacity used |
| `Quota.LoweredBurstStillSpends` | internal/quota/quota.go:111-120 | after an override lowers the burst to one, two requests at one instant are allowed |
| `Quota.ExemptAlwaysAllowed` | internal/quota/quota.go:144-150 | the empty tenant, and one without a positive rate, is allowed every request |
| `Quota.RefusalLeaves` | internal/quota/quota.go:165-177 | every refusal leaves a bucket with less than one token dated now and advertises its delay truncated to nanoseconds |
| `Quota.NextSucceedsIff` | internal/quota/quota.go:165-177 | after a refusal a request succeeds if and only if the exact delay has passed |
| `Quota.AdvertisedDelaySucceedsIff` | internal/quota/quota.go:175-177 | waiting the advertised delay succeeds if and only if it was not truncated; one nanosecond more always does |
| `Quota.TruncatedDelayTooShort` | internal/quota/quota.go:175-177 | at three requests per second waiting the advertised delay is refused |
| `Quota.RetryAfterSucceedsIff` | internal/server/quota_middleware.go:61-66 | waiting the header's seconds succeeds if and only if they cover the exact delay |
| `Quota.RetryAfterHeaderTooShort` | internal/server/quota_middleware.go:61-66 | at 0.4 requests per second honouring the header is refused |
| `WordChunker.Chunk` | internal/streaming/chunker.go:16-51 | groups of the given number of words, each but the last followed by a space; default size when not positive |
| `WordChunker.ChunksRespace` | internal/streaming/chunker.go:25-51 | the pieces concatenate to the words joined with single spaces, or to the text itself when it has no words |
| `WordChunker.ChunksConcatIff` | internal/streaming/chunker.go:25-51 | the pieces concatenate to the text if and only if it is blank or its only white space is one plain space between words |
| `WordChunker.LineBreakIsLost` | internal/streaming/chunker.go:35-49 | a line break between two words becomes a space |
| `ArgumentPieces.ChunkedPieces` | internal/adapter/responses_stream.go:218-235 | no byte is lost, no piece exceeds the size, only the empty text gives an empty piece |
| `ArgumentPieces.ChunkArguments` | internal/adapter/responses_stream.go:222-235 | the loop produces those byte-bounded pieces |
| `ArgumentPieces.CutIff` | internal/streaming/sse_writer.go:46-50 | with each piece encoded on its own, characters only get more, and stay the same if and only if none runs over the end of a piece |
| `ArgumentPieces.ReceivedIff` | internal/adapter/responses_stream.go:194-207 | the appended pieces give the arguments if and only if no byte at a multiple of twenty continues a character |
| `ArgumentPieces.DecodeUtf8` | internal/streaming/sse_writer.go:46-50 | a text that is not cut is read back as it was |
| `ArgumentPieces.AsciiIsReceived` | internal/adapter/responses_stream.go:194-207 | ASCII arguments always arrive whole |
| `ArgumentPieces.SplitCharacterIsLost` | internal/adapter/responses_stream.go:218-235 | nineteen ASCII characters and an accented one do not arrive |
| `ResponsesStream.Emitter.Emit` | internal/adapter/responses_stream.go:54-60 | event numbers are consecutive from zero |
| `ResponsesStream.Emitter.StreamPart` | internal/adapter/responses_stream.go:117-172 | the part events of the first content part |
| `ResponsesStream.Emitter.StreamMessage` | internal/adapter/responses_stream.go:98-175 | the events of a message item |
| `ResponsesStream.Emitter.StreamFunctionCall` | internal/adapter/responses_stream.go:179-216 | the events of a function call |
| `ResponsesStream.Emitter.StreamOutput` | internal/adapter/responses_stream.go:72-86 | the items' events follow one another in output order, each under its own index |
| `ResponsesStream.StreamResponses` | internal/adapter/responses_stream.go:30-93 | the whole ladder with consecutive numbers |
| `ResponsesStream.LadderRebuildsOutput` | internal/adapter/responses_stream.go:13-29 | for every response and chunk size, a client folding openings, deltas and closing states gets each item as far as it survives: the first content part, respaced, and the received arguments |
| `ResponsesStream.ClientSeesOutputIff` | internal/adapter/responses_stream.go:13-29 | the client ends with exactly the output if and only if every message has at most one part whose text is blank or single-spaced, and no argument piece ends inside a character |
| `ResponsesStream.LineBreakReachesClientAsSpace` | internal/adapter/responses_stream.go:124-139 | a one-part message with a line break arrives with a space |
| `ResponsesStream.SplitCharacterDoesNotReachClient` | internal/adapter/responses_stream.go:194-207 | a call whose character straddles byte twenty does not arrive |

## Left out

- Sequential and parallel topologies: a fold and a map over the agents, with no graph reasoning.
- Spec-level document checks (missing ids, duplicate edges, topology names) and the text of validator errors.
- The session table of the streamable transport (first-in-first-out eviction) and the POST side of that transport.
- Broadcaster snapshots and their sort, contract extraction, listing functions of the registry.
- Spend accounting, and floating-point rounding of token levels.
- Fairness of locks and the scheduler, including the write-lock preference that keeps new Submit calls from starving a tear-down.
- Wrap-around of 64-bit counters and event ids; the log worker's subtraction is shown never to go below zero.
- File persistence, redaction, proxying and miss diagnostics of the recorder; hash collisions are excluded by hypothesis.
- Number formatting and decoding: numbers are their printed form in `CanonicalJson` and exact reals in `ToolSchema`.
- Texts that are not valid UTF-8 to begin with: strings are sequences of characters, encoded to bytes where the source cuts or counts bytes.
- Client disconnects in the middle of a Responses stream: what was written is then a prefix of the ladder.
- ContractDiff.Diff: does not state the order and repetition of rows or their messages, because map order makes the order before sorting arbitrary and the verdict does not depend on it.
- ToolSchema.ValidateObjectAt: does not state which error texts are returned, only when there are none, because the source's error order follows map order.
- RequestCorrelation.ResponsesCorrelate: the id counter is unbounded, because 64-bit wrap-around needs more requests than a server lifetime holds.
- AgentRegistry.Registry.Register: definitions are values, so later mutation of a registered definition through its pointer is not modelled; under the proved invariant pointer and value comparison agree.
- SchemaSynth.SynthContext.Synth: once the node budget is exhausted the result depends on map order; only termination, the visit bound and the spent budget are stated for that case.
- OutboundQueue.OrderKeptIff: assumes the enqueued messages are pairwise distinct, because the order of two equal messages cannot be observed.
- Quota.RateBound: needs a clock that does not run backwards, because the source reads a monotonic clock under its lock.
