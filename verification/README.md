# milpbooklm: verified model

A Dafny model of the parts of milpbooklm that carry state, concurrency or arithmetic, with proofs of
what they promise. `dafny verify dfyconfig.toml` checks everything.

| file | models |
|---|---|
| `GpuResidency.dfy` | the GPU residency protocol of the local inference process manager, as a step machine over any number of models and sessions, and the manager as a class whose code between two awaits refines one step |
| `ArtifactLifecycle.dfy` | generate, edit, regenerate, cancel and mark-out-of-date racing on one row through a compare-and-swap store |
| `MultipartStream.dfy` | the streaming extraction of the one uploaded file |
| `ChatStream.dfy` | the chat client's read loop and the server's frame printer |
| `TextWindows.dfy`, `CanonicalTree.dfy`, `Chunking.dfy` | word counting and token windows, the walk of a canonical document, and structural chunking |
| `IndexBuild.dfy` | the resumable build of an index generation, with a crash between any two transactions |
| `BlobGc.dfy` | blob reconciliation and delayed garbage collection |
| `RateLimit.dfy` | the sliding-window limiter and the active-users tracker |
| `Grounding.dfy` | evidence selection, citation validation and publication of grounded answers |
| `Census.dfy` | the requirement census |
| `Common.dfy`, `Decimals.dfy` | shared vocabulary |

Code that changes fields in place is a class or a method with loops, and each is proved equal to a
specification function or to a step of a machine; what the system promises is then proved of that
function or of every run of that machine. Sequences stand for lists, maps for tables and
dictionaries, and one method of a store for one transaction.

Six places where the code does not do what its comments or its callers might expect are stated as
lemmas rather than assumed away:

- An unload drops its reference before its media process has ended, and waits for it without the
  gate: a hot model may start, run or be evicted beside it. That is the only overlap of the two groups
  (`OverlapExactly`, `EvictionIsAlone`; `OverlapHappens` and `EvictionOverlapHappens` are runs).
- An edit compares the etag with an earlier read, and its swap compares only the status
  (`StaleEditIsAccepted`). An edit that wins its swap was overtaken exactly when another version was
  published since that read (`FreshEditIsAccepted`, `OvertakenExactly`).
- A call that won its claim leaves the artifact generating or validating for good, unless somebody
  cancels it, when its base was not published, when its recipe raises, or when it dies, and in no other
  case (`StrandsExactly`): `ArtifactNotFoundError` is raised inside the handlers that do not catch it
  (`MissingBaseAlone`), and so is any error of a store (`AbandonedExactlyByCrash`).
- The header limit of an upload is tested only at chunk ends, so whether a message with long headers
  is accepted depends on how it is cut (`SplitInvarianceExact`).
- Chunk rows stored before a crash are not pending on resume, so a generation can become ready with
  chunks that have no vector (`AllEmbeddedExactly`, `InterruptedLeavesUnembedded`); and a re-run of a
  superseded generation takes the ready one of its source version down without replacing it
  (`ReadyExactly`).
- The id of a generation names neither the canonical document nor the token limit. An attempt with
  others resumes the same generation, and leaves exactly its own chunks stored if and only if no other
  ones were before (`ResumedExactly`, `OtherChunksStay`).

## Model

| member | source | states |
|---|---|---|
| `GpuResidency.GpuExclusion` | workers/src/milpbooklm_workers/inference.py:143-155 | In every state of every run, a reference of a media model excludes every reference, and every process in the table or starting, of a model that is not media, and the other way round; processes in the table or starting are all of one group. |
| `GpuResidency.OverlapExactly` | workers/src/milpbooklm_workers/inference.py:157-168 | Counting also the processes that have left the table but not ended: while a model that is not media is on the GPU, a media model is too if and only if an unload is still ending its process, which is then neither in the table nor starting. |
| `GpuResidency.EvictionIsAlone` | workers/src/milpbooklm_workers/inference.py:203-210 | While an eviction ends a hot process no media model is referenced, running or starting; a media process is then on the GPU if and only if an unload is ending it. |
| `GpuResidency.OverlapHappens` | workers/src/milpbooklm_workers/inference.py:82-86 | For each hot workload, a run of two sessions that ends with a media process being ended by its unload and the hot one starting. |
| `GpuResidency.EvictionOverlapHappens` | workers/src/milpbooklm_workers/inference.py:203-210 | For each hot workload, a run that ends with such a media process and the hot one under eviction. |
| `GpuResidency.RunStarts` | workers/src/milpbooklm_workers/inference.py:124-137 | Runs start with every table empty. |
| `GpuResidency.Hot` | workers/src/milpbooklm_workers/inference.py:26-28 | The hot workloads are exactly those that are not media. |
| `GpuResidency.ParksExactly` | workers/src/milpbooklm_workers/inference.py:143-145 | A load waits exactly for a reference of the other group: of a media model, unless it loads one itself. |
| `GpuResidency.TableMoves` | workers/src/milpbooklm_workers/inference.py:139-178 | A process enters the table exactly when its start returns; a media one leaves it exactly with its last reference, another one only unreferenced and for a media load. |
| `GpuResidency.SingleFlight` | workers/src/milpbooklm_workers/inference.py:151-166 | `references` is the number of tasks between reservation and release; no model is started while it runs or is already starting; an operation finds its process running and is alone on its model. |
| `GpuResidency.ReleaseIsPaired` | workers/src/milpbooklm_workers/inference.py:157-168 | Under `serial_session` the early return of unload is never taken and stop is called only on a running process. |
| `GpuResidency.ParkedIsJustified` | workers/src/milpbooklm_workers/inference.py:143-145 | No lost wake-up: a parked load has a conflicting reference, or some unload has yet to notify. |
| `GpuResidency.NobodyLeftParked` | workers/src/milpbooklm_workers/inference.py:160-168 | Once all references are released and all unloads have notified, nobody is parked. |
| `GpuResidency.NoDeadlock` | workers/src/milpbooklm_workers/inference.py:139-178 | While any session is open some task can take a step: gate, model locks and serial queues never block each other in a cycle. |
| `GpuResidency.StepsAreBounded` | workers/src/milpbooklm_workers/inference.py:139-178 | Every step other than a new session strictly decreases a well-founded measure. |
| `GpuResidency.DrainLeavesNothing` | workers/src/milpbooklm_workers/inference.py:139-178 | Any scheduler that only picks tasks that can move finishes all sessions and leaves no reference, no lock and no media process. |
| `GpuResidency.RunGrows` | workers/src/milpbooklm_workers/inference.py:139-178 | Every step possible in the last state of a run continues it, so runs reach every interleaving. |
| `GpuResidency.RunKeeps` | workers/src/milpbooklm_workers/inference.py:124-210 | The whole invariant holds in every state of every run, for any number of models and tasks. |
| `GpuResidency.EvictExcludes` | workers/src/milpbooklm_workers/inference.py:203-210 | Stopping an idle hot model in the eviction loop, with the gate held across the suspension, keeps the exclusion. |
| `GpuResidency.ReserveExcludes` | workers/src/milpbooklm_workers/inference.py:144-151 | A reservation made after the conflict test and the evictions keeps the exclusion before the process has started. |
| `GpuResidency.InferenceProcessManager.HasActiveConflict` | workers/src/milpbooklm_workers/inference.py:190-201 | True exactly when a model is referenced that is media where the requested one is not, or the other way round. |
| `GpuResidency.InferenceProcessManager.LeaveGate` | workers/src/milpbooklm_workers/inference.py:146-151 | The eviction loop up to its next suspension, or the reservation, is the machine's step. |
| `GpuResidency.InferenceProcessManager.Resume` | workers/src/milpbooklm_workers/inference.py:139-178 | The code between two awaits changes the manager's fields exactly as the machine's step. |
| `ArtifactLifecycle.OnePipelinePerArtifact` | packages/application/src/milpbooklm_application/artifact_lifecycle.py:269-282 | Over all interleavings of generate, edit, regenerate, cancel and mark-out-of-date at most one pipeline runs per artifact, pipelines of a cancelled artifact included. |
| `ArtifactLifecycle.RunGrows` | packages/application/src/milpbooklm_application/artifact_lifecycle.py:243-465 | Every step possible in the last state of a run continues it: the arrival of a call, one transaction of a call, its death before the next one, or a new artifact. |
| `ArtifactLifecycle.NumbersNeverCollide` | packages/application/src/milpbooklm_application/artifact_lifecycle.py:189-217 | Version numbers are exactly 1..n, and a number computed by max-plus-one is still the next one when it is inserted. |
| `ArtifactLifecycle.ReadyPointsAtNewest` | packages/application/src/milpbooklm_application/artifact_lifecycle.py:139-147 | A ready or out-of-date artifact points at its highest-numbered version. |
| `ArtifactLifecycle.LineageEnds` | packages/application/src/milpbooklm_application/artifact_lifecycle.py:149-160 | The parent chain of a version's manifest stays within the earlier versions of its artifact and ends at a manifest without parent. |
| `ArtifactLifecycle.LineageOfRun` | packages/application/src/milpbooklm_application/artifact_lifecycle.py:149-160 | The same for every version in every state of every run. |
| `ArtifactLifecycle.StatusFollowsTable` | packages/domain/src/milpbooklm_domain/artifacts.py:74-97 | Every step of a run that changes the status or the revision of a row follows an edge of the transition table, although the store's swap does not consult it. |
| `ArtifactLifecycle.CasIsLegal` | packages/application/src/milpbooklm_application/artifact_lifecycle.py:234-240 | Each swap of a use case goes along an edge of the transition table. |
| `ArtifactLifecycle.EtagIdentifiesRow` | packages/adapters/src/milpbooklm_adapters/artifact_store.py:83-103 | Between any two states of a run versions are only appended, the etag is the decimal revision, and equal etags mean the same revision, status and current version. |
| `ArtifactLifecycle.RowsEvolve` | packages/adapters/src/milpbooklm_adapters/artifact_store.py:158-219 | Along a run a row only gains versions, its revision never falls, and an equal revision means the same status, current version and etag. |
| `ArtifactLifecycle.AbandonedExactlyByCrash` | packages/application/src/milpbooklm_application/artifact_lifecycle.py:274-282 | A generating or validating artifact that no pipeline owns is one whose pipeline ended by an error that the use cases do not catch (missing base, recipe, store) or died with its process, and each such end leaves one. |
| `ArtifactLifecycle.CrashIsFinal` | packages/application/src/milpbooklm_application/artifact_lifecycle.py:274-282 | After such an error a row can only be cancelled. |
| `ArtifactLifecycle.StrandsExactly` | packages/application/src/milpbooklm_application/artifact_lifecycle.py:269-282 | In every run, a generate, edit or regenerate that won its claim and has ended strands its artifact if and only if it died, or named a base that was not published at its claim, or its recipe raises. |
| `ArtifactLifecycle.FirstHasNoBase` | packages/application/src/milpbooklm_application/artifact_lifecycle.py:149-160 | A generate that names a base at all misses it. |
| `ArtifactLifecycle.MissingBaseStrands` | packages/application/src/milpbooklm_application/artifact_lifecycle.py:154-160 | A regenerate fails after its claim exactly when the base number is not one of 1..n. |
| `ArtifactLifecycle.MissingBaseAlone` | packages/application/src/milpbooklm_application/artifact_lifecycle.py:396-417 | An uninterrupted regenerate from such a number leaves a settled artifact generating, and changes nothing else. |
| `ArtifactLifecycle.CallsEnd` | packages/application/src/milpbooklm_application/artifact_lifecycle.py:243-465 | Each use case ends after at most twelve of its own steps, whatever happens in between. |
| `ArtifactLifecycle.PipelineAlone` | packages/application/src/milpbooklm_application/artifact_lifecycle.py:101-147 | The effect of an uninterrupted pipeline on store and outcome, for each outcome of the recipe. |
| `ArtifactLifecycle.EditPublishes` | packages/application/src/milpbooklm_application/artifact_lifecycle.py:302-349 | An uninterrupted edit of a settled artifact with its etag publishes version n+1 whose manifest descends from version n, keeps all prior versions, leaves the artifact ready and changes the etag. |
| `ArtifactLifecycle.EditRuns` | packages/application/src/milpbooklm_application/artifact_lifecycle.py:302-349 | The same for every recipe: what it leaves after published content, reported problems or an exception. |
| `ArtifactLifecycle.EditRefused` | packages/application/src/milpbooklm_application/artifact_lifecycle.py:314-330 | It is a conflict exactly when the etag is another one, not ready exactly outside ready and out-of-date, and a refusal changes nothing. |
| `ArtifactLifecycle.GeneratePublishes` | packages/application/src/milpbooklm_application/artifact_lifecycle.py:254-282 | An uninterrupted generate of a draft without a base publishes version 1, its manifest without parent, leaves the artifact ready and changes the etag. |
| `ArtifactLifecycle.GenerateRuns` | packages/application/src/milpbooklm_application/artifact_lifecycle.py:254-282 | The same for every recipe. |
| `ArtifactLifecycle.GenerateRefused` | packages/application/src/milpbooklm_application/artifact_lifecycle.py:254-270 | It is a conflict exactly when the artifact is no draft, and then changes nothing. |
| `ArtifactLifecycle.GenerateMissesBase` | packages/application/src/milpbooklm_application/artifact_lifecycle.py:149-160 | One that names a base leaves the draft generating. |
| `ArtifactLifecycle.RegeneratePublishes` | packages/application/src/milpbooklm_application/artifact_lifecycle.py:373-417 | An uninterrupted regenerate from version k publishes version n+1 whose manifest descends from the manifest of version k, and changes the etag. |
| `ArtifactLifecycle.RegenerateRuns` | packages/application/src/milpbooklm_application/artifact_lifecycle.py:373-417 | The same for every recipe. |
| `ArtifactLifecycle.RegenerateRefused` | packages/application/src/milpbooklm_application/artifact_lifecycle.py:373-417 | It is not ready exactly outside ready and out-of-date, and misses its base exactly outside 1..n. |
| `ArtifactLifecycle.CancelAlone` | packages/application/src/milpbooklm_application/artifact_lifecycle.py:427-441 | A cancel moves the artifact to cancelled exactly from draft, generating and validating, and changes nothing otherwise. |
| `ArtifactLifecycle.StaleAlone` | packages/application/src/milpbooklm_application/artifact_lifecycle.py:451-465 | A mark-out-of-date moves the artifact exactly from ready, and changes nothing otherwise. |
| `ArtifactLifecycle.PublishedOnce` | packages/application/src/milpbooklm_application/artifact_lifecycle.py:184-217 | In every run a reported version number is that of a stored version of the artifact, and no two calls report the same one. |
| `ArtifactLifecycle.FinalStays` | packages/domain/src/milpbooklm_domain/artifacts.py:74-97 | In every run failed and cancelled artifacts stay as they are, and no artifact becomes a draft again. |
| `ArtifactLifecycle.LostSwap` | packages/application/src/milpbooklm_application/artifact_lifecycle.py:269-282 | A call that loses a swap changes nothing and reports the conflict. |
| `ArtifactLifecycle.StaleEditIsAccepted` | packages/application/src/milpbooklm_application/artifact_lifecycle.py:314-338 | The etag is compared with an earlier read only: an edit overtaken by a complete edit after its read still claims the artifact. |
| `ArtifactLifecycle.FreshEditIsAccepted` | packages/application/src/milpbooklm_application/artifact_lifecycle.py:336-340 | A swap that expects the status of an earlier read wins whenever the etag is unchanged; when it wins on a settled artifact, the etag is unchanged if and only if no version was published since that read. |
| `ArtifactLifecycle.OvertakenExactly` | packages/application/src/milpbooklm_application/artifact_lifecycle.py:314-340 | An edit that presented the etag it read and later wins its swap finds another etag there if and only if another version was published in between. |
| `ArtifactLifecycle.NextVersionNumber` | packages/application/src/milpbooklm_application/artifact_lifecycle.py:229-231 | One past the highest number; the count plus one when numbers are 1..n. |
| `ArtifactLifecycle.ArtifactStore.CasStatus` | packages/adapters/src/milpbooklm_adapters/artifact_store.py:74-103 | The swap happens exactly on the expected status and sets status, revision, etag and, if given, the current version. |
| `ArtifactLifecycle.ArtifactStore.CreateVersion` | packages/adapters/src/milpbooklm_adapters/artifact_store.py:158-176 | Appends one version with a fresh id and changes nothing else. |
| `ArtifactLifecycle.ArtifactStore.GetVersion` | packages/adapters/src/milpbooklm_adapters/artifact_store.py:178-193 | Finds the version of a number, or says that there is none. |
| `ArtifactLifecycle.ArtifactStore.MarkFailed` | packages/application/src/milpbooklm_application/artifact_lifecycle.py:234-240 | Moves to failed exactly from generating and validating. |
| `ArtifactLifecycle.ArtifactStore.RunPipeline` | packages/application/src/milpbooklm_application/artifact_lifecycle.py:101-147 | The pipeline as code equals the steps of the machine run without interruption. |
| `ArtifactLifecycle.ArtifactStore.Generate` | packages/application/src/milpbooklm_application/artifact_lifecycle.py:254-282 | The same for generate, with or without a base version, and with each of its refusals. |
| `ArtifactLifecycle.ArtifactStore.Edit` | packages/application/src/milpbooklm_application/artifact_lifecycle.py:302-349 | The same for edit. |
| `ArtifactLifecycle.ArtifactStore.Regenerate` | packages/application/src/milpbooklm_application/artifact_lifecycle.py:373-417 | The same for regenerate. |
| `ArtifactLifecycle.ArtifactStore.CancelArtifact` | packages/application/src/milpbooklm_application/artifact_lifecycle.py:427-441 | The same for cancel. |
| `ArtifactLifecycle.ArtifactStore.MarkStale` | packages/application/src/milpbooklm_application/artifact_lifecycle.py:451-465 | The same for mark-out-of-date. |
| `MultipartStream.ExtractFile` | apps/api/src/milpbooklm_api/multipart_stream.py:42-71 | Run over any chunks, the generator yields the payload, or raises the error, of one pass over the whole message, but for the header limit. |
| `MultipartStream.SplitInvariance` | apps/api/src/milpbooklm_api/multipart_stream.py:42-99 | A message whose header block ends within the limit has one outcome, however it is cut. |
| `MultipartStream.SplitInvarianceExact` | apps/api/src/milpbooklm_api/multipart_stream.py:74-79 | The outcome is independent of the cutting if and only if the message has no blank line or one whose index plus 3 is within 16384. |
| `MultipartStream.WrapRoundTrip` | apps/api/src/milpbooklm_api/multipart_stream.py:46-71 | Extracting a wrapped payload that does not contain the marker returns it for every cutting that is not cut late in the headers. |
| `MultipartStream.FormRoundTrip` | apps/api/src/milpbooklm_api/multipart_stream.py:42-99 | An upload written out byte by byte, with a capitalised Content-Disposition, any file name, content type and boundary free of CR and any payload free of the marker, comes back for every cutting that is not cut late in the headers. |
| `MultipartStream.HeaderErrorExact` | apps/api/src/milpbooklm_api/multipart_stream.py:81-88 | A header block is accepted if and only if it starts with the opening and both field texts stand in the rest in whatever letter case; which of the two refusals the others get. |
| `MultipartStream.NoBlankLine` | apps/api/src/milpbooklm_api/multipart_stream.py:74-79 | A message without a blank line is incomplete up to 16384 bytes, and too long beyond. |
| `MultipartStream.BadHeaderDecides` | apps/api/src/milpbooklm_api/multipart_stream.py:81-88 | A bad header block is refused whatever follows it, and in no other case. |
| `MultipartStream.BodyDecides` | apps/api/src/milpbooklm_api/multipart_stream.py:50-71 | After an accepted header block the body decides, and an undecided one was cut short. |
| `MultipartStream.MarkerDecides` | apps/api/src/milpbooklm_api/multipart_stream.py:90-99 | The file is what comes before the first marker if two dashes follow it; any other two bytes are a second part. |
| `MultipartStream.FirstMarkerIsLast` | apps/api/src/milpbooklm_api/multipart_stream.py:46-48 | With a boundary free of CR (section 5.1.1 of RFC 2046) the first marker after such a payload is the one written there. |
| `MultipartStream.LateCutIsRefused` | apps/api/src/milpbooklm_api/multipart_stream.py:74-79 | A header block that ends beyond the limit is refused when a chunk ends in it past the limit. |
| `MultipartStream.FileExtraction.Feed` | apps/api/src/milpbooklm_api/multipart_stream.py:51-68 | After each chunk everything yielded is a prefix of the payload, the retained tail is at most the marker plus 2, and a final answer is that of the bytes received. |
| `MultipartStream.FileExtraction.Drain` | apps/api/src/milpbooklm_api/multipart_stream.py:57-68 | The inner loop ends at the closing boundary, at another part, or with a boundary-sized tail. |
| `MultipartStream.FileExtraction.StripHeaders` | apps/api/src/milpbooklm_api/multipart_stream.py:74-87 | Header refusals are exactly those of the text before the first blank line. |
| `MultipartStream.TailDecides` | apps/api/src/milpbooklm_api/multipart_stream.py:90-99 | Scanning the retained tail decides what scanning the whole body would. |
| `ChatStream.StreamChat` | apps/web/src/api/chat-stream.ts:44-62 | The handlers see, in order, what splitting the whole text at once would give them, whatever the cutting. |
| `ChatStream.SplitAppend` | apps/web/src/api/chat-stream.ts:49-51 | Splitting the buffered remainder with the next chunk continues the split of the whole text. |
| `ChatStream.EndedEarly` | apps/web/src/api/chat-stream.ts:52-58 | Frames after the first terminal, cancelled or error frame never reach a handler. |
| `ChatStream.Events` | apps/api/src/milpbooklm_api/conversation_routes.py:280-304 | One frame a token and exactly one ending frame. |
| `ChatStream.ChatRoundTrip` | apps/api/src/milpbooklm_api/conversation_routes.py:280-304 | However the printed text is cut, the client recovers exactly the tokens and the single ending printed. |
| `ChatStream.TokensOnly` | apps/web/src/api/chat-stream.ts:60-61 | A stream that ends after its tokens gives them to the handlers and fails for want of an ending frame. |
| `ChatStream.UnterminatedEnds` | apps/web/src/api/chat-stream.ts:60 | An ending frame counts though the blank line after it never came. |
| `ChatStream.FrameMeans` | apps/web/src/api/chat-stream.ts:64-82 | A payload that does not parse ends the stream, an unknown event does nothing. |
| `ChatStream.FieldsOfFrame` | apps/web/src/api/chat-stream.ts:64-67 | The line patterns read back both fields of a printed frame. |
| `ChatStream.DispatchFrames` | apps/web/src/api/chat-stream.ts:52-58 | The frame loop stops at the frame that ends the stream. |
| `TextWindows.WordsOfCut` | packages/domain/src/milpbooklm_domain/indexing.py:31-33 | The word estimate of a cut text is the sum of the parts, less one exactly when the cut falls inside a word. |
| `TextWindows.WindowEnd` | packages/application/src/milpbooklm_application/chunking.py:272-279 | The end of the limit-th match from the start, at least one character on. |
| `TextWindows.WindowIsOk` | packages/application/src/milpbooklm_application/chunking.py:272-279 | A window cuts no word, holds at most the limit and fewer only when no word is left, and always advances. |
| `TextWindows.WindowsTile` | packages/application/src/milpbooklm_application/chunking.py:251-256 | The windows cut the whole text into consecutive nonempty pieces of whole words within the limit. |
| `TextWindows.WindowsKeepWords` | packages/application/src/milpbooklm_application/chunking.py:251-256 | No word is lost or counted twice by the windows. |
| `CanonicalTree.ChildrenExact` | packages/application/src/milpbooklm_application/chunking.py:88-93 | The children of a node are exactly the nodes naming it, each once, by child order. |
| `CanonicalTree.ChildrenStable` | packages/application/src/milpbooklm_application/chunking.py:92-93 | Siblings of equal child order stay in document order. |
| `CanonicalTree.PathDistinct` | packages/application/src/milpbooklm_application/chunking.py:112-135 | No path of the walk meets a node twice, although the table may hold cycles, so its depth is bounded. |
| `CanonicalTree.WalkIsExact` | packages/application/src/milpbooklm_application/chunking.py:86-167 | The walk emits each node that containers lead to and that has text exactly once, as one whole-text unit with its own or else the document's first language, and nothing else. |
| `CanonicalTree.Container` | packages/application/src/milpbooklm_application/chunking.py:117-148 | The kinds that are not walked into, one by one. |
| `CanonicalTree.TableReads` | packages/application/src/milpbooklm_application/chunking.py:170-182 | The text of a table with rows has one line for each row and on it the texts of its cells, in order, each at its place between the bars. |
| `CanonicalTree.KidsOfKind` | packages/application/src/milpbooklm_application/chunking.py:172-180 | Its rows and cells are exactly the child nodes of those kinds, in child order. |
| `CanonicalTree.PlainTableReads` | packages/application/src/milpbooklm_application/chunking.py:183-184 | Without rows it has one line for each child text that is not empty. |
| `CanonicalTree.DocumentOrder` | packages/application/src/milpbooklm_application/chunking.py:97-135 | Units come in document order: of an earlier root, or under an earlier sibling where their paths part. |
| `CanonicalTree.DocumentAncestry` | packages/application/src/milpbooklm_application/chunking.py:128-145 | A unit's ancestry is the sections, pages, slides and sheets on its path, and a heading's own id. |
| `CanonicalTree.WalkContext.WalkUnits` | packages/application/src/milpbooklm_application/chunking.py:112-167 | The recursive procedure appends exactly the walk of its node to the shared list. |
| `CanonicalTree.CollectUnits` | packages/application/src/milpbooklm_application/chunking.py:86-99 | All roots in order. |
| `Chunking.GroupUnits` | packages/application/src/milpbooklm_application/chunking.py:187-232 | The nested loops produce the chunk drafts of the plan. |
| `Chunking.Absorb` | packages/application/src/milpbooklm_application/chunking.py:215-231 | The inner loop merges exactly the greedy run of following units. |
| `Chunking.PlanIsValid` | packages/application/src/milpbooklm_application/chunking.py:187-232 | The groups' units in order are the input units; every group is one table, a cut unit, or fits the budget; no heading follows a non-heading and a heading brings at most one unit, no table; no group could have taken the next unit. |
| `Chunking.PlanIsUnique` | packages/application/src/milpbooklm_application/chunking.py:187-232 | The plan is the only grouping with those properties. |
| `Chunking.WordsOfMerge` | packages/application/src/milpbooklm_application/chunking.py:226-228 | The estimate of a merged text is the sum of its units' estimates. |
| `Chunking.SpansConserved` | packages/application/src/milpbooklm_application/chunking.py:235-269 | The spans of all chunks, split windows rejoined, are exactly the units' spans in order. |
| `Chunking.GroupConserves` | packages/application/src/milpbooklm_application/chunking.py:235-269 | Whatever the units, a merged group keeps its members' spans in order and the pieces of a cut unit put together are its text. |
| `Chunking.DraftsWithin` | packages/application/src/milpbooklm_application/chunking.py:187-232 | Every chunk is within the budget or is one table exactly as it was. |
| `Chunking.DraftsCite` | packages/application/src/milpbooklm_application/chunking.py:235-269 | A chunk cites its first span, its text is what its spans point at line by line, and language and ancestry are those of the cited unit. |
| `Chunking.KeysDistinct` | packages/application/src/milpbooklm_application/chunking.py:61-63 | No two chunks share node, start and end, so their ids differ. |
| `Chunking.ChunkDocument` | packages/application/src/milpbooklm_application/chunking.py:51-83 | Refuses a budget below one; otherwise returns the drafts numbered and linked to their neighbours, with all that `ChunksOfDocument` says of them. |
| `Chunking.FollowVisits` | packages/application/src/milpbooklm_application/chunking.py:78-83 | Following `next` from any chunk meets the rest, each once and in order, and ends. |
| `Chunking.PrevInvertsNext` | packages/application/src/milpbooklm_application/chunking.py:78-83 | `next` leads exactly to the following chunk and `prev` is its inverse. |
| `Chunking.ChunksOfDocument` | packages/application/src/milpbooklm_application/chunking.py:51-83 | For the chunks of every well-formed document: the rejoined spans are the shown nodes' texts, each once; each chunk reads as its own spans do, its id is its first span under the profile's revision, its tokens are the words of its text, its order is its position, and it is within the budget or one whole table; ids are distinct, next and prev link one chain. |
| `IndexBuild.BuildSourceIndex.Run` | packages/application/src/milpbooklm_application/indexing.py:272-320 | A run that dies before any of its transactions leaves the store after exactly those before it; one that ends by itself returns the scripted outcome. |
| `IndexBuild.BuildSourceIndex.EmbedPending` | packages/application/src/milpbooklm_application/indexing.py:299-309 | The batch loop attaches the vectors of the scripted batches, up to the crash or the provider's failure. |
| `IndexBuild.IndexTables.InsertChunks` | packages/adapters/src/milpbooklm_adapters/indexing/pg_chunks.py:49-127 | Adds the missing rows only, without a vector, and returns how many. |
| `IndexBuild.IndexTables.SwapReady` | packages/adapters/src/milpbooklm_adapters/indexing/pg_generations.py:74-105 | Supersedes the ready generations of the source version and promotes this one only if it is building. |
| `IndexBuild.IndexTables.CreateGeneration` | packages/adapters/src/milpbooklm_adapters/indexing/pg_generations.py:41-72 | Creates a building row, or puts a failed one back to building. |
| `IndexBuild.WritesKeepOneReady` | packages/adapters/src/milpbooklm_adapters/indexing/pg_generations.py:74-105 | However the transactions of any builds interleave, a source version has at most one ready generation. |
| `IndexBuild.HistoryKeeps` | packages/application/src/milpbooklm_application/indexing.py:272-320 | Over any history of crashed, failed and completed builds in which every attempt of the generation yields the same chunks, the stored chunk ids are a subset of them, and all of them once the generation has been ready. |
| `IndexBuild.HistoryWithin` | packages/application/src/milpbooklm_application/indexing.py:150-163 | Over any history at all, the stored chunk ids are among those its attempts yielded, and a source version has at most one ready generation. |
| `IndexBuild.AttemptKeeps` | packages/application/src/milpbooklm_application/indexing.py:292-312 | The same for one attempt cut anywhere; at a completed attempt they are equal and the count is returned. |
| `IndexBuild.ResumableBuild` | packages/application/src/milpbooklm_application/indexing.py:279-281 | After a history whose attempts yield the same chunks every completed attempt returns their number with exactly those stored. |
| `IndexBuild.ResumedExactly` | packages/application/src/milpbooklm_application/indexing.py:150-163 | After any history, with other documents or token limits among its attempts: a completed attempt leaves exactly its own chunks stored, and returns the number of stored chunks, if and only if no other ones were stored before; on a ready generation it stores nothing and returns the number stored. |
| `IndexBuild.OtherChunksStay` | packages/application/src/milpbooklm_application/indexing.py:293-312 | An attempt that crashed after storing its chunks and one with other chunks that resumes it end ready with the chunks of both and the count of the second. |
| `IndexBuild.BatchesCoverOnce` | packages/application/src/milpbooklm_application/indexing.py:300-309 | A completed embedding loop writes one vector for each pending chunk, once and in order. |
| `IndexBuild.BatchesMatchTexts` | packages/application/src/milpbooklm_application/indexing.py:302-308 | Each chunk gets the provider's vector for its own text. |
| `IndexBuild.VectorsOfNew` | packages/application/src/milpbooklm_application/indexing.py:293-309 | After a completed run the row of each chunk that was not stored before holds the vector of its own text (none for a negative batch size). |
| `IndexBuild.VectorsStay` | packages/application/src/milpbooklm_application/indexing.py:293-309 | And the row of each chunk that was stored before keeps what it held. |
| `IndexBuild.FreshBuild` | packages/application/src/milpbooklm_application/indexing.py:272-320 | An uninterrupted first build whose provider answers every batch in full returns the number of chunks and ends ready under its source version with exactly those rows, each holding the vector of its own text. |
| `IndexBuild.DoneExactly` | packages/application/src/milpbooklm_application/indexing.py:299-312 | A run that is not refused completes if and only if the batch size is negative, or positive with every batch of pending chunks answered in full; a zero size and an incomplete answer each raise their own error. |
| `IndexBuild.RefusedExactly` | packages/application/src/milpbooklm_application/indexing.py:285-292 | It is refused exactly without a document, with one of another source version, or with a token limit below one, in this order, and has then written no chunk row. |
| `IndexBuild.AllEmbeddedExactly` | packages/application/src/milpbooklm_application/indexing.py:293-307 | A completed run leaves every stored chunk embedded if and only if all chunks stored before it were, and it takes batches or has nothing to add (a negative batch size takes none). |
| `IndexBuild.InterruptedLeavesUnembedded` | packages/application/src/milpbooklm_application/indexing.py:293-307 | A crash right after the rows are stored makes the resumed run end ready with no chunk embedded. |
| `IndexBuild.ReadyExactly` | packages/adapters/src/milpbooklm_adapters/indexing/pg_generations.py:84-105 | A completed run leaves its generation ready if and only if it was not superseded or stale, and never another one of the version; so re-running a superseded generation leaves the version without a ready one. |
| `IndexBuild.GenerationAfter` | packages/adapters/src/milpbooklm_adapters/indexing/pg_generations.py:41-105 | All generation rows after a completed run: source version, status and count of its own; only ready ones of that version change among the others. |
| `IndexBuild.FailedIsRebuilt` | packages/adapters/src/milpbooklm_adapters/indexing/pg_generations.py:41-72 | A generation marked failed is built again to ready, its stored chunks kept. |
| `BlobGc.Reconcile` | packages/application/src/milpbooklm_application/blob_usecases.py:72-190 | The scan reads only and reports temporaries, files and records in order. |
| `BlobGc.CollectBlobGarbage.Collect` | packages/application/src/milpbooklm_application/blob_usecases.py:227-261 | A pass keeps exactly the young temporaries and the files that are protected or young; swept plus deleted plus pending are the temporaries plus the unprotected files. |
| `BlobGc.CollectBlobGarbage.SweepTemps` | packages/application/src/milpbooklm_application/blob_usecases.py:234-242 | The loop over temporaries removes exactly the old ones and counts both kinds. |
| `BlobGc.CollectBlobGarbage.DeleteFinals` | packages/application/src/milpbooklm_application/blob_usecases.py:243-253 | The loop over unreferenced finals deletes exactly the eligible files and skips settled records. |
| `BlobGc.CollectExactly` | packages/application/src/milpbooklm_application/blob_usecases.py:227-267 | Which files are removed, as an if-and-only-if; files of referenced finalized records survive, and so does every file inside the backup window. |
| `BlobGc.SweepExactly` | packages/application/src/milpbooklm_application/blob_usecases.py:227-267 | Which temporaries are removed, as an if-and-only-if; none inside the backup window. |
| `BlobGc.CollectTwice` | packages/application/src/milpbooklm_application/blob_usecases.py:227-267 | A later pass after an earlier one removes what it would have removed alone; at the same instant, nothing. |
| `BlobGc.ClassifiedLoose` | packages/application/src/milpbooklm_application/blob_usecases.py:98-134 | A file is a sweepable finding exactly when no finalized referenced record protects it, with its age anchor. |
| `BlobGc.IncidentsStay` | packages/application/src/milpbooklm_application/blob_usecases.py:254-255 | A pass neither makes nor hides a missing or damaged referenced object. |
| `BlobGc.ReportsIncidents` | packages/application/src/milpbooklm_application/blob_usecases.py:136-190 | Every referenced finalized record whose file is missing or damaged is reported. |
| `BlobGc.OnlyIncidents` | packages/application/src/milpbooklm_application/blob_usecases.py:136-190 | And nothing else is reported as one. |
| `BlobGc.ReportsSweepable` | packages/application/src/milpbooklm_application/blob_usecases.py:98-190 | A sweepable finding, with all its fields, is reported exactly for a file without a finalized and referenced record, and for a finalized unreferenced record without a file. |
| `BlobGc.ReportsTemporaries` | packages/application/src/milpbooklm_application/blob_usecases.py:83-96 | A temporary is reported for each staged file and nothing else. |
| `BlobGc.WireCollector` | packages/application/src/milpbooklm_application/blob_usecases.py:208-225 | A safety delay that does not exceed the backup window cannot be wired. |
| `RateLimit.SlidingWindowLimiter.Allow` | apps/api/src/milpbooklm_api/security.py:76-86 | The pruned deque decides as the full history of the key would, holds exactly the accepted attempts inside the window, and no other key is touched. |
| `RateLimit.WindowBound` | apps/api/src/milpbooklm_api/security.py:76-86 | Every half-open window of the configured length holds at most `max_events` accepted attempts of a key. |
| `RateLimit.RefusedOnlyWhenFull` | apps/api/src/milpbooklm_api/security.py:83-84 | An attempt is refused exactly when that many accepted ones are in the window before it. |
| `RateLimit.SlidingWindowLimiter.RetryAfter` | apps/api/src/milpbooklm_api/security.py:88-95 | The least positive number of whole seconds after which the oldest remembered attempt has left the window; an attempt of the key is then admitted, and when the deque is full at no earlier whole second. Without attempts the whole window. |
| `RateLimit.RetryIsLeast` | apps/api/src/milpbooklm_api/security.py:88-95 | After a refusal with nothing in between, waiting the advice is admitted and no smaller positive number of whole seconds is. |
| `RateLimit.ActiveUsersTracker.CountActive` | apps/api/src/milpbooklm_api/security.py:111-120 | Counts the users seen strictly inside the window, as if none had been forgotten. |
| `RateLimit.ActiveUsersTracker.Touch` | apps/api/src/milpbooklm_api/security.py:107-109 | Records the last activity. |
| `Grounding.Assemble` | packages/application/src/milpbooklm_application/grounding.py:310-340 | Refuses a budget below one; otherwise the greedy selection with ids e1, e2, ... in order. |
| `Grounding.PickedIsSubsequence` | packages/application/src/milpbooklm_application/grounding.py:318-339 | The selection is an order-preserving subsequence of the results. |
| `Grounding.PositionsAreTaken` | packages/application/src/milpbooklm_application/grounding.py:318-339 | A result is selected exactly when at its turn fewer than two of its source are, and its tokens fit what is left of the budget. |
| `Grounding.PickedWithin` | packages/application/src/milpbooklm_application/grounding.py:320-324 | Within the token budget, and at most two from one source. |
| `Grounding.PickedMaximal` | packages/application/src/milpbooklm_application/grounding.py:320-324 | For each result that is skipped, at the end two of its source are selected or its tokens do not fit. |
| `Grounding.Validate` | packages/adapters/src/milpbooklm_adapters/grounding.py:326-349 | Returns the first error in the order the loops meet it. |
| `Grounding.ValidationExact` | packages/adapters/src/milpbooklm_adapters/grounding.py:326-396 | A draft validates if and only if the notes still resolve to the frozen ones, every span has text and citations, and every cited id is a frozen note or evidence in the manifest that stands in the notebook, is covered by a locator and readable. |
| `Grounding.CheckIdErrors` | packages/adapters/src/milpbooklm_adapters/grounding.py:337-396 | Which check an id fails first, as an if-and-only-if for each error. |
| `Grounding.SelectedNotes` | packages/adapters/src/milpbooklm_adapters/grounding.py:258-298 | Selected notes resolve exactly when distinct and readable, to those revisions in order. |
| `Grounding.IdsNameOne` | packages/adapters/src/milpbooklm_adapters/grounding.py:337-349 | Evidence and note ids are distinct and disjoint: a known id names exactly one item. |
| `Grounding.CitationPayload` | packages/adapters/src/milpbooklm_adapters/grounding.py:426-482 | One entry for each cited id in order; a lookup fails exactly when some id does not resolve. |
| `Grounding.ValidatedCitations` | packages/adapters/src/milpbooklm_adapters/grounding.py:326-482 | After validation every cited id resolves to exactly one item inside the frozen manifest, no lookup fails, and the entry has the fields of that item. |
| `Grounding.Publish` | packages/application/src/milpbooklm_application/grounding.py:252-275 | A completed draft ends as a refusal, a limitation, or an answer with a citation for each cited id. |
| `Grounding.PublishesOnce` | packages/application/src/milpbooklm_application/grounding.py:252-275 | A draft has only one way to end. |
| `Grounding.PublishedCites` | packages/adapters/src/milpbooklm_adapters/grounding.py:426-482 | Each citation of a published answer has the id cited there, the title, version, node and extent of that evidence or the revision of that note, and that id was permitted. |
| `Grounding.Generate` | packages/application/src/milpbooklm_application/grounding.py:195-200 | Without evidence and notes the answer is a limitation and no draft is looked at. |
| `Grounding.StreamGenerate` | packages/application/src/milpbooklm_application/grounding.py:202-226 | Tokens are yielded up to the first check that finds the turn cancelled; only an uncancelled turn is published, and it ends as the plain generation would. |
| `Grounding.PublishedSpansCite` | packages/adapters/src/milpbooklm_adapters/grounding.py:339-341 | Every span of a published answer has text and evidence. |
| `Census.CheckCensus` | tools/spec/extract_requirements.py:277-302 | The findings and the matched count of the four passes and the narrative check. |
| `Census.LedgerFingerprintIndex` | tools/spec/extract_requirements.py:169-187 | The index gives the first entry of a fingerprint; later ones are reported. |
| `Census.GuideOccurrenceIndex` | tools/spec/extract_requirements.py:190-207 | The same for occurrences, in insertion order. |
| `Census.MatchLedgerToGuide` | tools/spec/extract_requirements.py:210-237 | Each entry is removed, renumbered or matched. |
| `Census.UnmappedOccurrences` | tools/spec/extract_requirements.py:240-255 | Indexed occurrences without an entry are reported. |
| `Census.FindNarrativeDrift` | tools/spec/extract_requirements.py:258-274 | Narrative ids that are missing or classified otherwise are reported. |
| `Census.CensusExact` | tools/spec/extract_requirements.py:277-302 | No duplicated, removed, renumbered or added finding if and only if entries and occurrences are in one-to-one correspondence by fingerprint with equal anchors. |
| `Census.ReportsExactly` | tools/spec/extract_requirements.py:169-302 | Each finding, by its kind and all its fields, is reported exactly for a later entry of a fingerprint, a later occurrence, an entry without occurrence, one whose first occurrence has another anchor, a first occurrence without entry, or a narrative id whose last entry is not classified so. |
| `Census.EntriesAccountedFor` | tools/spec/extract_requirements.py:210-237 | Matched plus removed plus renumbered is the number of entries. |
| `Census.SilentMatchesAll` | tools/spec/extract_requirements.py:277-302 | Without such findings every entry is matched and the two sides have the same size. |

## Left out

- GpuResidency.RunKeeps: covers `AnyioProcessController.stop`, which clears the process entry before its first suspension; `FakeProcessController.stop` suspends first and is not covered. Starts succeed, processes do not die on their own, tasks are not cancelled while they wait, and which waiter goes first is left open.
- GpuResidency.ReleaseIsPaired: callers are `serial_session`; an unload without a completed load is not modelled.
- `InteractivePreemptor`, model health reports and real-time timing.
- ArtifactLifecycle.PipelineAlone: a recipe is one of its outcomes (content, reported problems, an exception, a refused request); plans, renditions, blobs, manifest items and version metadata are not modelled, nor is an unregistered recipe.
- Deleting artifacts, user state and study snapshots.
- MultipartStream.ExtractFile: starts from the boundary; parsing it out of the Content-Type header is left out.
- ChatStream.ChatRoundTrip: JSON encoding and decoding are arbitrary functions that agree with each other and print on one line; UTF-8 decoding and the request itself are left out.
- Chunking.ChunkDocument: requires unique node ids and distinct roots without a parent, as the persisted contract has them; cycles are allowed. Node and chunk ids are an injective function of their parts, checksums are left out. A split window can be a single blank character when a text ends in spaces.
- IndexBuild.HistoryKeeps: assumes that the attempts of a generation yield the same chunks, which its id (indexing.py:150-163) does not force: it contains neither the document id nor `max_tokens`. `HistoryWithin` says what holds without that.
- IndexBuild.ResumableBuild: the same; `ResumedExactly` has the exact condition.
- IndexBuild.BuildSourceIndex.Run: one run of a generation at a time; runs of different generations may interleave by transactions only in `WritesKeepOneReady`. Text search columns, restriction stamps, manifests, progress reports and purging are left out, and the provider is an arbitrary function that may fail or return too few vectors.
- BlobGc.CollectBlobGarbage.Collect: no write happens during a pass, and file names and digests of records are unique. Files whose record is not finalized count as unreferenced whatever their references, as in the code.
- RateLimit.SlidingWindowLimiter.Allow: the clock does not run backwards and time stamps are real numbers without rounding.
- Grounding.Validate: the database is one consistent view during a publication; retrieval, freezing of manifests, prompt assembly and the wording of limitations are left out. A draft without spans validates.
- Census.CheckCensus: starts from parsed entries and occurrences; scanning chapters, hashing and the schema check are left out.
- SQL, HTTP routing, authentication, the job lease repository and its worker loop, custody and login use cases, React components, migrations and configuration.
