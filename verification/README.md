# Verification model of the iiLocalLLM inference service

This project models the single-worker inference service of iiLocalLLM in Dafny and proves what it
keeps over whole runs: the state that serial jobs share, the concurrent protocols around the worker,
and the streaming and caching algorithms that must agree with simpler ones. `dafny verify
dfyconfig.toml` checks everything.

## What is modelled

**The service run.** `Service.dfy` holds the jobs (chat, one-shot completion, structured
conversation, embedding, measuring, loading, unloading, removing, sessions, maintenance) with every
early exit. They work on `ModelManager.dfy`, which keeps four books in step (runtime models,
residency entries, the loaded table, the remembered configurations), on `Residency.dfy`,
`Runtimes.dfy` and `ContextCache.dfy` below it, and on `Sessions.dfy`. Catalog, tokenizer, runtimes,
model output, available RAM, cancellation and clock answer arbitrarily. Between two jobs no model is
leased, the books agree, every reservation covers its live contexts, and every cached context has a
living owner; a run may evict what it likes, a model still comes back as it was.

**Concurrent protocols.** `Scheduler.dfy`, `HttpServer.dfy` and `IpcServer.dfy` are step systems: one
action is what one thread does inside a lock section or between two. Their theorems hold for every
interleaving, by an invariant that each action keeps.

**Streaming.** `StopFilter.dfy`, `ToolTurn.dfy` and `IpcFraming.dfy` relate incremental loops to
one-shot readings of the whole text, for every way of cutting it up.

**Fast forms and simple ones.** `KvReuse.dfy` and `MlxCache.dfy` compare cache reuse with a cold run;
`Conversation.dfy` compares the validator's two sets with a grammar over blocks; `SchemaSpec.dfy` and
`Parameters.dfy` compare the indexed, depth-bounded schema check with unbounded conformance, and
`ParameterObjects.dfy` shows what can be stored under it and that documents survive a round trip;
`Redaction.dfy` says exactly which differences a redacted export hides;
`DevicePolicy.dfy` characterises the device order by the set of devices alone. `MemoryEstimates.dfy`
relates overflow-checked 64-bit products to exact ones.

Text is a sequence of UTF-16 code units, as in QString. Doubles that are no finite numbers are an
absent value in generation options; JSON numbers are reals. Exceptions are results; `Foreign` stands
for any exception that is not the service's own.

## What came out differently from what one might expect

- Stop strings: the visible text depends on the chunking exactly when some beginning of a stop string
  contains a stop string without starting with one (`StopFilters.ChunkIndependence`); stops `abc` and
  `b` are the smallest example. Stop strings none of which lies strictly inside another are fine.
- Size bounds of a schema are read with a 32-bit conversion that turns larger numbers into zero, so a
  minimum above 2147483647 asks for nothing and such a maximum allows only what is empty
  (`SchemaSpec.SizeBoundsMeanWhatTheySay`, with inputs in `Parameters.LargeSizeBoundsInput`).
- Asking a parameter object for its mandatory fields also asks for read-only ones, which can never be set;
  a reference to the same group does not. The two agree exactly when no mandatory field is read-only
  (`ParameterObjects.ParameterObject.CompleteExactly`); seven fields of the built-in catalog are, for
  instance `device_type` of `vllm.DeviceConfig` (`ParameterObjects.LockedFieldInput`).
- Defaults inserted on export are not checked, so such an export reads back exactly when they happen to
  be acceptable (`ParameterObjects.ParameterObject.DefaultsReadBack`); those of
  `accelerate.MegatronLMPlugin` do not (`ParameterObjects.DefaultInput`).
- A function name followed by one newline passes the name pattern, because its dollar also matches
  before a final newline (`Conversations.NameWithNewlineInput`); the valid names that end otherwise are the
  plain ones (`Conversations.ValidNames`).
- An IPC request whose handler answers with an unusable handle, for example a request id of more than
  128 characters, is settled at once although its operation may still emit events, which are then sent
  behind the terminal line (`IpcServer.RefusedHandleMixesEvents`). It still gets one terminal line, and
  `IpcServer.OrderIsLostExactly` says when its lines stay in order. All other requests end properly.
- A frame that repeats an id in flight is refused with an error line carrying that same id, so a client
  sees a second error-shaped line for it (`IpcServer.RepeatedIdIsRefused`). On a live connection,
  once the id is free again, the lines with an id are those of one request exactly when it was sent in one
  frame (`IpcServer.IdTrailIsTrail`).

## Assumptions about the surroundings

- Random identifiers drawn for sessions have 36 characters, are distinct and new; the digest in a
  conversation's cache key has 64 characters.
- The catalog resolves a reference to a model id; for the canonical reference of an id that is the id.
- A runtime's estimate is linear in the number of contexts, as its weights, bytes per context and
  overhead; an embedding context needs no more than one ordinary context.
- RPC handlers finish a call's events before its result becomes ready.
- Counters (use stamps, loads, evictions) do not wrap.

## Model

| member | source | states |
|---|---|---|
| Services.Service.Run | src/service/Service.cpp:264-420 | any sequence of jobs, each with any outcome and followed by maintenance, keeps the invariant: no lease is left, the books agree, contexts have owners; for every model the specification remembered survives unless a job removes or explicitly reconfigures that model, and the lifetime unless a job addressed to that model asks for one |
| Services.Service.RunThenReload | src/service/ModelManager.cpp:57-62 | after any run that neither removes nor reconfigures a model a default load gives it the specification it had when the run began, and the lifetime too unless a job addressed to that very model asked for another |
| Services.Service.Step | src/service/Scheduler.cpp:48-50 | one job, whatever becomes of it, and the maintenance after it keep the invariant and create at most one session |
| Services.Service.ChatTurn | src/service/Service.cpp:336-420 | on success the history becomes the fitted history, the prompt and the shown reply, on failure or cancellation it is as before; leases balance either way; the streamed pieces make up the result's text; no context stays after a failure or once a stop string was met |
| Services.Service.Complete | src/service/Service.cpp:346-418 | a one-shot conversation leaves the sessions as they were and answers its own messages; a limit on sessions, a bad message list or any failure changes nothing but evictions and the model's use |
| Services.Service.Converse | src/service/Service.cpp:264-318 | a structured conversation: its context is gone after a failure, once a stop string was met, or when it names no context id; failures carry no calls; a success is the parse of exactly the text the stop strings let through |
| Services.Service.Turned | src/service/Service.cpp:296-306 | a turn cut off by the output limit is refused; a listener that throws leaves the text but no call |
| Services.Service.Embed | src/service/Service.cpp:185-221 | an embedding succeeds only with an admissible, nonzero vector, and gives its lease back on every path |
| Services.Service.MakeRoomToEmbed | src/service/Service.cpp:201-203 | after the model's cached contexts are dropped, everything live and the embedding context together stay within the memory budget |
| Services.Service.Measure | src/service/Service.cpp:227-251 | returns the token count together with the context size remembered for the model; takes and gives back a lease and caches nothing |
| Services.Service.CheckEmbedding | src/service/Service.cpp:204-213 | lets through exactly the vectors of admissible length that are not zero throughout, and passes failures on |
| Services.Service.Take | src/service/ModelManager.cpp:123-129 | taking a lease: afterwards it is the only one, or, on failure, there is none and nothing is forgotten |
| Services.Service.Return | src/service/ModelManager.cpp:130-136 | giving it back: no lease is left, and exactly the contexts of evicted models go |
| Services.Service.Respond | src/service/Service.cpp:375-402 | prepare, obtain a context, stream, commit: sessions change only by the whole turn |
| Services.Service.Attempt | src/service/Service.cpp:371-411 | a failed request leaves no context cached under its session |
| Services.Service.Obtain | src/service/Service.cpp:285 | the context obtained, new or cached, belongs to the loaded instance of the leased model |
| Services.Service.OpenTemporary | src/service/Service.cpp:346-370 | a one-shot conversation opens a well-formed session of its own, or changes nothing |
| Services.Service.CloseTemporary | src/service/Service.cpp:413-416 | closing a session drops its context first and touches no other |
| Services.Service.CreateSession | src/service/Service.cpp:140-148 | succeeds exactly within the limits on sessions and input; a session starts with the system prompt, if any |
| Services.Service.ResetSession | src/service/Service.cpp:154-157 | resetting keeps the system message only and drops exactly this session's context; an unknown session changes nothing |
| Services.Service.CloseSession | src/service/Service.cpp:161-164 | closing removes exactly the session and its context |
| Services.Service.LoadModel | src/service/Service.cpp:111-116 | loading one model changes what is remembered of no other, and takes no lease |
| Services.Service.UnloadModel | src/service/Service.cpp:117-123 | succeeds exactly for a resident model no session uses; the books are then those of the other models, and as before otherwise |
| Services.Service.RemoveModel | src/service/Service.cpp:99-104 | succeeds exactly when no session uses the model, it is not resident and the catalog removes it; it alone forgets |
| Services.Service.Maintain | src/service/ModelManager.cpp:146-157 | maintenance keeps the invariant, forgets nothing and only evicts idle models |
| Services.Service.WithinBudget | src/service/ModelManager.cpp:75-83 | in every state between jobs weights, live contexts and overhead of all models stay within the budget |
| Services.Service.ClosedSessionHasNoContext | src/service/Service.cpp:402-416 | no context is cached for a session that is not open |
| Services.Service.ResidentAsRemembered | src/service/ModelManager.cpp:88-90 | a resident model's specification and lifetime are the remembered ones |
| Services.Service.constructor | src/service/Service.cpp:15-22 | accepted options give a service that satisfies the invariant |
| Services.ConversationKeysAreDistinct | src/service/Service.cpp:279-280 | a conversation's cache key determines its model and digest and is no session id |
| Services.OwnerNamesModel | src/service/Service.cpp:378 | whoever owns a key, session or conversation, determines the model of its context |
| Services.Stream | src/service/Service.cpp:286-303 | what one generation shows is what the stop strings let through; only two ways of ending count as success |
| ModelManagers.ModelManager.Load | src/service/ModelManager.cpp:37-96 | a resident model is renewed, or refused if another configuration is asked for; any other is placed by the device policy and entered with the configuration completed from what is remembered; an error leaves the books as evictions alone would |
| ModelManagers.ModelManager.EvictUntilFits | src/service/ModelManager.cpp:78-83 | the admission loop evicts idle models, least recently used first, one for each refused RAM reading, and stops at the first reading with which the model fits; it fails only when cancelled or nothing idle is left |
| ModelManagers.ModelManager.AdmitOrEvict | src/service/ModelManager.cpp:78-83 | one round of that loop |
| ModelManagers.ModelManager.Appraise | src/service/ModelManager.cpp:63-77 | the context size, the integrity check and a reservation that covers every runtime that may be selected |
| ModelManagers.ModelManager.Place | src/service/ModelManager.cpp:84-90 | after admission no guard of the runtime load refuses the model; failure changes nothing, success enters all books |
| ModelManagers.ModelManager.Register | src/service/ModelManager.cpp:87-93 | the residency check cannot fail after admission, and the books stay coherent |
| ModelManagers.ModelManager.LoadFresh | src/service/ModelManager.cpp:57-95 | a model that is not resident: the books after the admission loop, and the entry made on success |
| ModelManagers.ModelManager.Renew | src/service/ModelManager.cpp:54-56 | a resident model gets a new stamp and lifetime, remembered too |
| ModelManagers.ModelManager.Acquire | src/service/ModelManager.cpp:123-129 | load and lease: other models are kept or evicted, never changed; a remembered model returns as it was |
| ModelManagers.ModelManager.Release | src/service/ModelManager.cpp:130-136 | succeeds exactly on a leased model; then only idle models may go |
| ModelManagers.ModelManager.Evict | src/service/ModelManager.cpp:137-145 | only an idle model goes, with its contexts and all its records but what is remembered |
| ModelManagers.ModelManager.Maintain | src/service/ModelManager.cpp:146-157 | exactly the stale idle models go first, then idle ones in order of use while memory is short; no stale model is left |
| ModelManagers.ModelManager.DropExpired | src/service/ModelManager.cpp:148 | exactly the expired idle models are evicted |
| ModelManagers.ModelManager.RelievePressure | src/service/ModelManager.cpp:149-156 | evicts in order of use while the reading is below the reserve; ends short of memory only with nothing idle |
| ModelManagers.ModelManager.Unload | src/service/ModelManager.cpp:97-102 | succeeds exactly on a resident idle model |
| ModelManagers.ModelManager.Remove | src/service/ModelManager.cpp:17-23 | succeeds exactly on a model that is not resident and that the catalog removes; what is remembered goes with it |
| ModelManagers.ModelManager.Context | src/service/Managers.cpp:127-147 | a cached or new context of a loaded model keeps the books coherent and belongs to the instance that is loaded now |
| ModelManagers.ModelManager.ForgetModel | src/service/Service.cpp:201-203 | drops exactly the model's contexts: every other one stays as it was |
| ModelManagers.ContextFor | src/service/ModelManager.cpp:64-71 | a context size is within manifest and cache limits, and is the one asked for if any |
| ModelManagers.ReservationCoversCost | src/service/Managers.cpp:20-33 | the estimate of the hungriest runtime covers the one selected later |
| ModelManagers.LiveWithinSlots | src/service/ModelManager.cpp:75 | a model's live contexts, an embedding one included, are at most the slots it was charged for |
| ModelManagers.LiveWithinBudget | src/service/ModelManager.cpp:75-83 | weights, live contexts and overhead of all models together are within reservations and budget |
| ModelManagers.AdmitCoherent | src/service/ModelManager.cpp:86-90 | entering a model whose records agree keeps the books coherent |
| ModelManagers.Forgotten | src/service/ModelManager.cpp:139-143 | dropping one model narrows every book to the others |
| ModelManagers.ModelManager.ShrunkBy | src/service/ModelManager.cpp:146-157 | expiry and pressure together only evict idle models and leave none that is stale |
| Residency.ModelResidencyManager.constructor | src/service/ModelResidencyManager.cpp:6-14 | the budget is the smaller of the given one and physical memory, the automatic one leaves 2 GiB and a quarter of it, or half on short machines; the default lifetime is 300 seconds, or none up to 8 GiB |
| Residency.ModelResidencyManager.Bytes | src/service/ModelResidencyManager.cpp:15-20 | the 64-bit sum is exact, because it stays within the budget |
| Residency.ModelResidencyManager.Fits | src/service/ModelResidencyManager.cpp:21-26 | true exactly when a place is free, the budget has room and the RAM reserve is kept |
| Residency.ModelResidencyManager.OldestIdle | src/service/ModelResidencyManager.cpp:27-34 | the idle entry used longest ago, or none when nothing is idle |
| Residency.ModelResidencyManager.Expired | src/service/ModelResidencyManager.cpp:35-40 | exactly the idle entries whose time is over, each once |
| Residency.ModelResidencyManager.Loaded | src/service/ModelResidencyManager.cpp:41-48 | registers exactly when the id is new and the budget has room |
| Residency.ModelResidencyManager.Touch | src/service/ModelResidencyManager.cpp:49-55 | a new stamp and expiry, and a new lifetime only if one is given |
| Residency.ModelResidencyManager.Acquire | src/service/ModelResidencyManager.cpp:56 | one more lease |
| Residency.ModelResidencyManager.Release | src/service/ModelResidencyManager.cpp:57-63 | one lease less, refused exactly when there is none |
| Residency.ModelResidencyManager.Erased | src/service/ModelResidencyManager.cpp:64-71 | a leased entry stays |
| Residency.DropOldestIsLru | src/service/ModelResidencyManager.cpp:27-34 | evicting by oldest idle takes only idle entries, each used before every idle entry that stays |
| Runtimes.RuntimeManager.LoadOnFirstDevice | src/service/Managers.cpp:55-87 | the first device and runtime, in policy order, that load after recoverable accelerator failures only; exactly those failures are recorded; an error publishes nothing |
| Runtimes.RuntimeManager.Walk | src/service/Managers.cpp:59-87 | the nested loops decide by the first pair that is no recoverable failure |
| Runtimes.RuntimeManager.Load | src/service/Managers.cpp:34-88 | the guards refuse without a trace; past them the device policy alone decides, and success names a runtime that supports the model |
| Runtimes.RuntimeManager.Unload | src/service/Managers.cpp:95 | removes the model, or reports that it is not loaded |
| Runtimes.RuntimeManager.EstimateMemory | src/service/Managers.cpp:20-33 | the largest of the estimates, none of which failed; otherwise the failure of the first runtime that failed, no runtime at all, or nothing but zeros |
| DevicePolicy.OrderExecutionDevices | src/hardware/Hardware.cpp:57-84 | the result is the canonical list of the set of supported devices |
| DevicePolicy.CanonicalIsUnique | src/hardware/Hardware.cpp:57-84 | a set has one canonical list: order and duplication of the input do not matter |
| DevicePolicy.CpuComesLast | src/hardware/Hardware.cpp:70-79 | no duplicates; Metal before CUDA before Vulkan before the CPU |
| DevicePolicy.PrecedesIsTotal | src/hardware/Hardware.cpp:76-80 | on placed devices the comparator is a strict total order |
| DevicePolicy.Place | src/hardware/Hardware.cpp:63-74 | a device is placed exactly when it is the CPU, or a known GPU offers the backend and vendor and platform support it; its rank says its backend |
| MemoryEstimates.KvReservation | src/runtimes/MemoryEstimate.h:6-18 | the exact product, or an error exactly when it or a dimension is too large |
| MemoryEstimates.KvIsLinearInSlots | src/runtimes/MemoryEstimate.h:12 | the reservation is that of one context times the slots |
| MemoryEstimates.MemoryEstimate.TotalBytes | src/hardware/Memory.cpp:22-28 | the exact sum, or an error exactly when it exceeds 64 bits |
| MemoryEstimates.Slots | src/service/ModelManager.cpp:75 | the largest number of contexts within both cache limits |
| MemoryEstimates.DefaultEstimateIsExact | src/hardware/Memory.cpp:81-93 | for the slots charged the wrapping fallback product is exact and linear in the slots |
| ContextCache.ContextCacheManager.Acquire | src/service/Managers.cpp:127-147 | a hit renews the stamp; a miss leaves the largest most recently used part that makes room, also when creating the context fails, and enters the new context |
| ContextCache.ContextCacheManager.MakeRoom | src/service/Managers.cpp:135-141 | the eviction loop ends with exactly that part and counts its evictions |
| ContextCache.ContextCacheManager.Erase | src/service/Managers.cpp:148-154 | removes exactly one entry and its charge |
| ContextCache.ContextCacheManager.EraseModel | src/service/Managers.cpp:155-161 | removes exactly the model's entries |
| ContextCache.LruCutUnique | src/service/Managers.cpp:135-141 | there is one such part |
| ContextCache.ContextsWithinSlots | src/service/Managers.cpp:133-141 | contexts of one model are at most the count limit and the token limit divided by their size |
| Sessions.CheckConversation | src/service/Service.cpp:351-365 | accepts exactly nonblank, alternating messages that end with the user, within the input limit |
| Sessions.ConversationIsTurns | src/service/Service.cpp:366-370 | all but the newest message are complete turns |
| Sessions.Prepare | src/service/Managers.cpp:168-194 | the fewest oldest whole turns are dropped that make the prompt fit; overflow is reported only when system and newest message alone do not |
| Sessions.Trim | src/service/Managers.cpp:183-193 | the trimming loop, with cancellation and tokenizer failures at any round |
| Sessions.CommitKeepsTurns | src/service/Managers.cpp:181-193 | system and newest message are kept, and prompt and reply appended leave complete turns |
| Sessions.SessionManager.Create | src/service/Managers.cpp:102-109 | a new session within the limit |
| Sessions.SessionManager.Reset | src/service/Managers.cpp:116-121 | only the system message stays |
| Sessions.SessionManager.Close | src/service/Managers.cpp:122 | removes exactly that session |
| Schedulers.SettledExactlyOnce | src/service/Scheduler.cpp:8-53 | in every interleaving each submitted item is settled once or outstanding; settlement follows acceptance; the queue keeps its capacity; nothing taken after the shutdown is run |
| Schedulers.StepKeepsInvariant | src/service/Scheduler.cpp:19-53 | every step of every thread keeps order, conservation, capacity and draining |
| Schedulers.ExitHookIsLast | src/service/Scheduler.cpp:52 | the exit hook runs once, after the last accepted item was settled; nothing is accepted later |
| Schedulers.ShutdownDrains | src/service/Scheduler.cpp:8-18 | after the shutdown the exit hook has run exactly when the worker took the remaining steps, whatever other threads do |
| Schedulers.WorkerMayStep | src/service/Scheduler.cpp:31-51 | after the shutdown the worker is never stuck, and each of its steps brings the exit nearer |
| Schedulers.QueuedIsNotSettled | src/service/Scheduler.cpp:40-46 | an item in the queue has not been settled |
| HttpAdmission.CountersAreExact | src/service/HttpApiServer.cpp:261-275 | however threads interleave, each counter is the number of its live leases and within its limit |
| HttpAdmission.KindsAreIndependent | src/service/HttpApiServer.cpp:266-270 | in every interleaving: one kind's actions, taken out of the run, are a run of their own and end with the same counter, leases and requests of that kind, whatever the other kind did |
| HttpAdmission.RejectionIsWarranted | src/service/HttpApiServer.cpp:268-270 | a rejected request: at some moment of the run the live leases of its kind were as many as the limit |
| HttpStream.DoneComesLast | src/service/HttpApiServer.cpp:353-383 | however a stream ends, it carries the acceptance and the events in order up to some point and at most one closing line; one that ends in done carries all events emitted; the buffer keeps its limit until it overflows |
| HttpStream.StepKeepsInvariant | src/service/HttpApiServer.cpp:313-385 | no step loses, duplicates or reorders an accepted event |
| IpcServer.OneTerminalLast | src/service/LocalIpcServer.cpp:178-286 | each request has at most one terminal line, and while the connection lasts it has one exactly when its id is free again; unless its handle was refused that line comes last, after all its events and its acceptance, and until then something is still to settle it; ids and bytes keep their limits |
| IpcServer.StepKeepsInvariant | src/service/LocalIpcServer.cpp:178-286 | every step of the main thread and the workers keeps this |
| IpcServer.RefusedHandleMixesEvents | src/service/LocalIpcServer.cpp:424-434 | an input: an operation whose handle is refused sends an event behind its terminal line |
| IpcServer.OrderIsLostExactly | src/service/LocalIpcServer.cpp:424-434 | between two frames the lines of a request stay in order in every future exactly when its handle was not refused, or the refused operation has nothing more to send and sent nothing behind the terminal line |
| IpcServer.IdTrailIsTrail | src/service/LocalIpcServer.cpp:262-286 | over any run: under an id that one frame carried, a client sees exactly its request's lines; once the id is free again on a live connection, it does so only then, because every further frame has left a line of its own |
| IpcServer.OneIdIsProper | src/service/LocalIpcServer.cpp:178-286 | under an id that one frame carried, a client sees an acceptance and events, then one terminal line and nothing more, unless the handle was refused; once the id is free again on a live connection, it does so exactly when there was one frame and no refused operation has spoken behind its terminal line |
| IpcServer.RepeatedIdIsRefused | src/service/LocalIpcServer.cpp:262-286 | an input: a frame that repeats an id in flight gets an error line with that id |
| IpcFraming.FrameReader.OnReadyRead | src/service/LocalIpcServer.cpp:254-286 | one arrival yields exactly the frames that become complete |
| IpcFraming.ReadConnection | src/service/LocalIpcServer.cpp:254-286 | every fragmentation of a byte stream dispatches the same frames and aborts alike |
| IpcFraming.ReadContinues | src/service/LocalIpcServer.cpp:256-261 | reading resumes where it stopped, and an abort is final |
| IpcFraming.FramesAreLines | src/service/LocalIpcServer.cpp:258-262 | frames are the lines of the stream; nothing is lost or invented |
| IpcFraming.LimitsAreKept | src/service/LocalIpcServer.cpp:261-285 | a frame never exceeds the limit; the connection is aborted exactly when the next line would |
| StopFilters.StopFilter.Push | src/service/Managers.cpp:195-219 | hands out the text before the earliest match, or all but what a match may still need and half a surrogate pair |
| StopFilters.Deliver | src/service/Service.cpp:387-394 | the pieces of any chunking make up the visible text, no piece splits a surrogate pair, and errors have no other causes than those named |
| StopFilters.VisibleIsCleanPrefix | src/service/Managers.cpp:199-209 | the visible text is a prefix of the input without any stop string, and all of it when nothing matches |
| StopFilters.ChunkIndependence | src/service/Managers.cpp:195-219 | the visible text is the text before the earliest match for every chunking exactly when the stop strings are guarded |
| StopFilters.NotInsideIsGuarded | src/service/Managers.cpp:195-219 | stop strings none of which lies strictly inside another are guarded |
| StopFilters.GuardedIgnoresChunks | src/service/Managers.cpp:195-219 | guarded stop strings: any chunking shows the text before the earliest match |
| StopFilters.UnguardedSeesChunks | src/service/Managers.cpp:195-219 | unguarded stop strings: a text with two chunkings that show different things |
| StopFilters.InnerStopCounterexample | src/service/Managers.cpp:199-209 | stops abc and b show different text for one chunk and for two |
| StopFilters.PushStep | src/service/Managers.cpp:211-218 | every suffix that may become a match is withheld, so local matches are the global ones |
| StopFilters.PieceKeepsPairs | src/service/Managers.cpp:214-216 | a piece never ends in a high surrogate |
| Texts.IndexOf | src/service/Managers.cpp:201 | the first occurrence at or after a position, or none |
| ToolTurns.CompleteSingleToolTurn | src/runtimes/ToolTurn.h:11-24 | finds exactly the end of the first complete envelope |
| ToolTurns.BoundaryIsStable | src/runtimes/ToolTurn.h:11-24 | appending text does not move a boundary, and a new one needs a closing bracket in what was appended |
| ToolTurns.CompleteIsStable | src/runtimes/ToolTurn.h:13-22 | a complete envelope stays complete |
| ToolTurns.TurnGate.Feed | src/runtimes/LlamaRuntime.cpp:112-120 | what is passed on so far is the turn of what was generated so far |
| ToolTurns.GenerateTurn | src/runtimes/LlamaRuntime.cpp:112-120 | for any split into pieces a willing consumer gets exactly the text up to its first complete envelope, and no piece after it is asked for; one that refuses gets a beginning of it |
| ToolTurns.TurnIsMonotone | src/runtimes/ToolTurn.h:11-24 | the turn of a longer text extends that of a shorter one |
| KvReuse.LlamaContext.Generate | src/runtimes/LlamaRuntime.cpp:123-251 | a request's tokens are those a fresh context generates, whatever the context was used for, failed at, or refused before; the remembered tokens stay at the front of the memory and the memory within its size on every path |
| KvReuse.LlamaContext.Prefill | src/runtimes/LlamaRuntime.cpp:143-163 | afterwards the memory is exactly the prompt's cells at their positions |
| KvReuse.LlamaContext.Rewind | src/runtimes/LlamaRuntime.cpp:146-156 | reuses exactly the longest common prefix short of the whole prompt, or nothing when removal is refused |
| KvReuse.LlamaContext.Decode | src/runtimes/LlamaRuntime.cpp:257-273 | evaluates all tokens in order, or leaves any part of them behind the remembered ones |
| KvReuse.LlamaContext.Continue | src/runtimes/LlamaRuntime.cpp:226-247 | the sampling loop agrees with the cold run token by token |
| Common.CommonPrefix | src/runtimes/LlamaRuntime.cpp:146 | the longest common prefix within a limit |
| KvReuse.BelowIsPrefix | src/runtimes/LlamaRuntime.cpp:148 | removing positions from a memory in order leaves its front |
| MlxCache.CountShared | src/runtimes/mlx_worker.py:10-16 | the counting loop finds the longest common prefix |
| MlxCache.PrepareCache | src/runtimes/mlx_worker.py:51-62 | the cache handed out holds exactly the first tokens of the prompt, fewer than all: as many as the remembered cache shares with them, or none when it is missing, cannot be cut or refuses to be |
| MlxCache.HistoryProcessor.Complete | src/runtimes/mlx_worker.py:65-83 | the first history must be an end of the prompt; every history is completed with the same front |
| MlxCache.Worker.Generate | src/runtimes/mlx_worker.py:110-190 | tokens are those of a fresh cache; a context is remembered only with the tokens its cache holds, and dropped on failure |
| MlxCache.Worker.Steps | src/runtimes/mlx_worker.py:159-179 | processors see the whole history although cached and prefilled tokens are left out of it |
| MlxCache.Worker.GenerateAfterDrop | src/runtimes/mlx_worker.py:114-131 | a dropped context is gone: the next generation under its key reuses nothing and gives the tokens of a fresh cache; no other context is touched |
| Conversations.ValidateRequest | src/service/Conversation.cpp:34-88 | accepts exactly requests within limits, with distinct valid functions and an acceptable message list |
| Conversations.CheckMessages | src/service/Conversation.cpp:52-87 | the two sets accept exactly the lists of the grammar: system first only, distinct call ids, calls answered at once by a permutation of results, user or tool last |
| Conversations.GrammarIsContinues | src/service/Conversation.cpp:70-82 | owed results and whole blocks accept the same lists |
| Conversations.PaidByPermutation | src/service/Conversation.cpp:72-74 | the owed set is paid exactly by that many tool messages whose ids are a permutation of it |
| Conversations.FreshIsDistinct | src/service/Conversation.cpp:79-81 | the id set accepts exactly globally distinct ids |
| Conversations.CheckMessage | src/service/Conversation.cpp:54-84 | one round of the loop and what it does to the sets |
| Conversations.TakeCalls | src/service/Conversation.cpp:75-82 | accepts exactly valid calls with new, distinct ids, which are then owed |
| Conversations.CheckTools | src/service/Conversation.cpp:43-51 | accepts exactly distinct, valid function names |
| Conversations.ValidNames | src/service/Conversation.cpp:19 | a valid function name is a plain one exactly when it does not end in a newline |
| Conversations.NameWithNewlineInput | src/service/Conversation.cpp:19 | an input: `f` and a newline is a valid name and no plain one |
| Conversations.ValidateReply | src/service/Conversation.cpp:89-108 | accepts exactly allowed calls of known functions with new, distinct ids, missing ones filled in; whatever the request |
| Conversations.NextRequestIsValid | src/service/Conversation.cpp:34-108 | a valid request, a validated reply with calls and one result per call in any order are a valid request again, within the size limits |
| Parameters.Catalog.Accepts | src/core/Parameters.cpp:171-254 | the early-exit checks through indexes and compiled patterns are the keyword rules with that many levels left |
| Parameters.Catalog.FromJson | src/core/Parameters.cpp:269-310 | builds a catalog exactly when the groups are regular and distinct and every field and schema checks; then every group has its index and every schema its compiled patterns |
| Parameters.Catalog.CheckSchema | src/core/Parameters.cpp:118-170 | accepts exactly schemas all of whose keywords are as they must be within the nesting limit, and compiles every pattern in them |
| Parameters.Catalog.AcceptsReference | src/core/Parameters.cpp:231-244 | index lookup and mandatory positions agree with the linear rule |
| Parameters.Catalog.AcceptsString | src/core/Parameters.cpp:246-251 | the pattern that is looked up has been compiled |
| Parameters.Catalog.AcceptsAny | src/core/Parameters.cpp:175-181 | accepts exactly when some branch does |
| Parameters.BuildIndex | src/core/Parameters.cpp:297-304 | the index maps every name to its position and lists the mandatory ones |
| Parameters.IndexIsLinearSearch | src/core/Parameters.cpp:238-243 | looking a name up is searching for it |
| Parameters.RequiredIsMandatory | src/core/Parameters.cpp:236-237 | the listed positions are those of mandatory fields |
| Parameters.AcceptanceIsMonotone | src/core/Parameters.cpp:173 | what is accepted at a depth conforms and is accepted at any smaller depth |
| SchemaSpec.ConformsIffAccepted | src/core/Parameters.cpp:171-254 | conformance is acceptance with some number of levels, although references may be cyclic |
| SchemaSpec.AcceptedConforms | src/core/Parameters.cpp:171-254 | bounded acceptance implies unbounded conformance and survives more levels |
| SchemaSpec.LocalMonotone | src/core/Parameters.cpp:171-254 | judging the parts more generously never refuses the whole |
| SchemaSpec.SizeBoundsMeanWhatTheySay | src/core/Parameters.cpp:206-249 | checked size bounds mean what they say exactly when they are below 2^31 |
| Parameters.LargeSizeBoundsInput | src/core/Parameters.cpp:206-249 | inputs: a minimum of 2^31 elements passes the check and takes the empty array; a maximum of 2^31 characters passes it and refuses one |
| ParameterObjects.ParameterObject.Set | src/core/Parameters.cpp:347-352 | stores a value exactly when a writable field of the group takes it, and changes nothing otherwise |
| ParameterObjects.ParameterObject.Judge | src/core/Parameters.cpp:329-336 | the field found through the index is the one that decides |
| ParameterObjects.ParameterObject.Unset | src/core/Parameters.cpp:358 | removes exactly one value of a known field |
| ParameterObjects.ParameterObject.Validate | src/core/Parameters.cpp:359-371 | stored values never cause an issue; only excluded flags and, if asked for, unset mandatory fields do |
| ParameterObjects.ParameterObject.CompleteExactly | src/core/Parameters.cpp:359-371 | nothing mandatory is missing exactly when a reference with these members would meet the mandatory rule and no mandatory field is read-only |
| ParameterObjects.LockedFieldInput | src/core/Parameters.cpp:236-237 | an input: `vllm.DeviceConfig` with its mandatory read-only field; a reference takes the empty object, which is not complete |
| ParameterObjects.ParameterObject.ToNativeJson | src/core/Parameters.cpp:372-383 | exports the stored values, with defaults for unset writable fields and with secrets hidden if asked for, unless excluded flags are both set |
| ParameterObjects.ParameterObject.DefaultsReadBack | src/core/Parameters.cpp:372-391 | what is exported with defaults reads back exactly when every default added is itself acceptable and a trainer group does not end up with both flags, set or by default |
| ParameterObjects.DefaultInput | src/core/Parameters.cpp:378 | an input: `accelerate.MegatronLMPlugin`, whose field `is_train_batch_min` is a text with the default true: the empty object is storable, its export with defaults is not |
| ParameterObjects.SecretsStayHidden | src/core/Parameters.cpp:372-383 | two objects that differ in one place export alike with secrets hidden when the place lies in a sensitive field, or below one, or too deep; elsewhere different plain values show |
| Redaction.RedactValue | src/core/Parameters.cpp:45-76 | the loops over branches, fields, members and elements compute the redaction of the value under its schema |
| Redaction.ShownFate | src/core/Parameters.cpp:45-76 | redaction removes a difference between two values exactly where some schema that applies says sensitive, or beyond the nesting limit, and leaves everything beside that place alone |
| Redaction.NestedSecretInput | tests/parameter_tests.cpp:179-193 | an input: a sensitive field of a group that the elements of an array refer to is hidden |
| ParameterObjects.FromNativeJson | src/core/Parameters.cpp:384-391 | builds an object exactly when every value is allowed and no flags exclude each other, holding exactly those values |
| ParameterObjects.ControlParameters.Set | src/core/Parameters.cpp:401-404 | stores a copy exactly when the object exports |
| ParameterObjects.ReadDocument | src/core/Parameters.cpp:418-430 | reads exactly the regular documents all of whose groups can be stored, and what was read is written as it was |
| ParameterObjects.RoundTrip | src/core/Parameters.cpp:412-430 | what is stored is written to a document that reads back as it was |

## Left out

- Publishing loaded-model snapshots to observers, statistics, model listing, installing, pulling and verifying: no shared state beyond the books.
- Filesystem catalog, manifests, digests, registry and downloads: the catalog is an oracle from references to ids and answers.
- llama.cpp, libmtmd, MLX, samplers, grammars and chat templates: foreign calls with arbitrary answers; the next token is a function of memory, accepted history and request.
- Sockets, cpp-httplib, the Qt event loop, JSON text, base64 and media decoding: bytes, JSON values and abstract verdicts instead.
- Wall-clock time: expiry and deadlines are arbitrary readings; timeouts of HTTP requests appear as failures of a stream.
- Exceptions from promise setters and from publishing: they do not happen here.
- Usage counters and reasoning text of a result: only text, finish reason, error and calls are modelled.
- Floating point: temperatures and bounds are reals; the embedding norm is computed without rounding, so its overflow to infinity is not modelled.
- JSON numbers that are infinite or not numbers: only finite ones occur in parsed JSON.
- The bridges from and to generation options: they rename, convert and range-check single options.
- The chat-completions stream of the HTTP server: it repeats the ready-then-drain order of the RPC stream.
- Services.Service.Run: takes the identifiers drawn for sessions as distinct, new and 36 characters long, as random identifiers are.
- Sessions.SessionManager.Create: requires the identifier drawn to be new; the source does not check this either.
- KvReuse.LlamaContext.Generate: numerical differences between batch splits are not modelled, and a media prompt is charged one cell for each of its tokens.
- MlxCache.Worker.Steps: the foreign loop that evaluates tokens is modelled by what it has evaluated whenever it samples.
- Services.Service.Converse: parsing and reply validation are one oracle here; the validator itself is in `Conversation.dfy`.
- IpcServer.OneTerminalLast: covers a connection that is up; when it is lost nothing more is sent.
