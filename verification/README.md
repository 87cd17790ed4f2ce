# Verified models of the AIOS-Tools cores

Dafny models of the parts of AIOS-Tools whose behaviour is hardest to settle by tests, each with proofs over all
inputs, all runs or all interleavings. One module follows one source file or one of its parts. Code that updates
state in place is a method with loops or a class, proved against a specification; what the source promises is then
proved about that specification.

- `Raster`, `PngExport`: the integer line algorithm, clipped pixel writes, painter's order, PNG rows and chunks.
- `MutationLedger`, `MutationProtocol`, `MutationSafety`, `MutationApproval`, `MutationOutcomes`: one-shot grants, the
  durable ledger, the request and reversible executors as step machines, what every run keeps, the approvals behind
  it, and what each run comes to, read off its schedule and network log. A schedule picks the executor, the network's
  answer, and a crash at any step.
- `DebriefAdapter`, `DebriefStore`, `DebriefProjection`, `DebriefRecovery`: payloads to content-addressed events,
  the append-only store, the folded projection, checkpoint recovery and ingestion.
- `Wav`: the WAV writer, the chunk parser over arbitrary bytes, the stereo and length checks (RIFF/WAVE, chapters 2
  and 3 of "Multimedia Programming Interface and Data Specifications 1.0").
- `MindMapTree`, `MindMapLayout`, `MindMap`, `MindMapStable`: the breadth-first tree, leaf counts, wedges over exact
  reals, the compilation that puts them together, and that the view leaves it no choice.
- `Completion`: the completion evaluator and which contracts can be passed.
- `Downloads`: the quarantine's budgets over every exit path.
- `SessionLeases`, `SealedStores`: who holds a session, and how long its secret can be opened.
- `Hierarchy`: the parent-cycle detector.
- `Trajectory`, `Receipts`, `ContextWorkflow`: the trajectory builder, the receipt validator, and the workflow
  that replays one into the other.
- `Trust`: the step-by-step trust evaluator and the rule table it amounts to.
- `Arithmetic`, `Bytes`, `Collections`, `Text`, `Wrappers`: shared helpers.

`dafny verify dfyconfig.toml` checks the project.

SHA-256 over canonical JSON and UUIDs are datatype wrappers, so they are injective. CRC-32 and zlib are arbitrary
functions; only the decoding theorems assume that inflating undoes compressing. Clocks, network answers, calls that
fail, random names and the contents of files are parameters.

## What the proofs found

- The event validator strips an event id before it compares it with the digest, while the store keys on the id as
  given. Offered beside its bare form, a content is stored once exactly when the id carries no white space
  (`StoredOnceIffUnpadded`). Runs over unpadded ids, as adapted ids are, never store a content twice, and every padded
  id has a run that does (`UnpaddedRunStoresOnce`, `PaddedIdStoresTwice`).
- An explicit `null` for a test-id list passes validation and is stored, but the projection iterates over it and
  raises. Rebuilding succeeds exactly when no stored event has such a list (`RebuildSucceeds`,
  `NullListBlocksReplay`). Adapted events never have one.
- Leases compare by value. The same owner leasing the same session twice at one clock reading gets equal leases, and
  releasing the first session a second time frees the second one's lease (`DoubleReleaseSharesSession`). The runs that
  never come to share a session are exactly those in which no release takes another holder's lease away
  (`HarmlessIffNeverShared`), and callers that release a session once only have such runs.
- A download can raise after its bytes were charged, without a record: when an exception that is not caught breaks the
  transfer off, when moving the finished file raises, or when reading the partial file back does. The aggregate equals
  the recorded bytes exactly when no call does so after bytes went in (`RecordsTellTheTotal`, `LossMeans`), and one
  call is enough to break the equality (`SingleCallLosesBytes`).
- In the keyring store, a put that raised can leave its secret openable: exactly when the record was written and not
  taken back (`PutLeaves`, `RaisedPutLeavesSecret`).
- `write_float32_wav` leaves a file of the four bytes `RIFF` exactly when everything but the RIFF size fits
  (`WriteFloat32Wav`, `LongMonoLeavesStub`).
- A packet decision without a packet id is not always refused: it passes exactly when an earlier event considered a
  packet of the explicit id null (`MissingNameIsNull`).
- Two checks of the receipt validator can never fire: a duplicate event id, and an answer without a composed packet
  (`ValidateCognitionReceipt`). Two conjuncts of the trust receipt's authorizations never matter
  (`EvaluateTrustBinding`).

## Model

| member | source | states |
|---|---|---|
| Raster.SetPixel | src/aios_tools/cartography/png.py:13-16 | A pixel outside the canvas changes nothing; one inside changes exactly its own four bytes. |
| Raster.DrawLine | src/aios_tools/cartography/png.py:19-35 | The loop ends for all integer endpoints and paints exactly the clipped points of the line, nothing else. |
| Raster.LineEndpoints | src/aios_tools/cartography/png.py:19-35 | The line's points run from the first endpoint to the second in max(\|dx\|,\|dy\|) steps. |
| Raster.LineIsConnected | src/aios_tools/cartography/png.py:28-35 | Consecutive points differ and are 8-connected. |
| Raster.LineNeverRevisits | src/aios_tools/cartography/png.py:28-35 | No point is visited twice, so the line has max(\|dx\|,\|dy\|)+1 points. |
| Raster.LineIsClose | src/aios_tools/cartography/png.py:28-35 | Every point is within half a pixel of the true line: 2·\|b·\|dx\| − a·\|dy\|\| ≤ max(\|dx\|,\|dy\|). |
| Raster.LineIsNearest | src/aios_tools/cartography/png.py:28-35 | No other pixel of the same column (or row, on steep lines) is nearer to the true line. |
| Raster.ErrorDecidesStep | src/aios_tools/cartography/png.py:28-35 | Comparing the doubled error term with dy and dx is the decision to step across and down. |
| Raster.FillSpan | src/aios_tools/cartography/png.py:40-44 | One row's slice assignment paints exactly the pixels of the row between the bounds. |
| Raster.FillBox | src/aios_tools/cartography/png.py:40-44 | The clipped fill paints exactly the box's pixels inside the canvas. |
| Raster.DrawRect | src/aios_tools/cartography/png.py:38-48 | Fill, then four strokes on top; later strokes win where they meet. |
| Raster.PixelsDetermineBuffer | src/aios_tools/cartography/png.py:13-16 | The pixels are the whole buffer: equal pixels, equal bytes. |
| Raster.LookIsLastCover | src/aios_tools/cartography/png.py:63-87 | Painter's order: a pixel has the colour of the last primitive covering it, or keeps what was under it. |
| Raster.StraightLine | src/aios_tools/cartography/png.py:45-48 | A horizontal or vertical line covers exactly the pixels between its ends, whichever way it is drawn. |
| PngExport.DrawScene | src/aios_tools/cartography/png.py:58-87 | The canvas depicts the scene: background, edges, then nodes, scaled and clipped; its length never changes. |
| PngExport.PictureOfScene | src/aios_tools/cartography/png.py:58-87 | Each pixel, apart from any list of primitives: the last node there shows its accent on its outline and left bar, else its fill; else an edge its colour; else the background. |
| PngExport.OnePicture | src/aios_tools/cartography/png.py:58-87 | A scene has one picture: two buffers that depict it are equal. |
| PngExport.FilterRows | src/aios_tools/cartography/png.py:89-93 | The row loop yields each scanline preceded by filter type 0. |
| PngExport.UnfilterScanlines | src/aios_tools/cartography/png.py:89-93 | Stripping the filter bytes gives the pixels back; the image data has height·(4·width+1) bytes. |
| PngExport.ScanlineAt | src/aios_tools/cartography/png.py:89-93 | Row r of the image data, at r·(stride+1), is a zero byte followed by row r of the pixels. |
| PngExport.ReadsWhatWasWritten | src/aios_tools/cartography/png.py:9-10 | Parsing any emitted chunks, with their lengths and CRCs, gives exactly those chunks. |
| PngExport.ReadChunksAreWhole | src/aios_tools/cartography/png.py:9-10 | The chunks read from any bytes are the whole of those bytes. |
| PngExport.ChunkLayout | src/aios_tools/cartography/png.py:9-10 | A chunk byte by byte: big-endian length, type, data, and the CRC of type and data. |
| PngExport.DecodesWhatWasFramed | src/aios_tools/cartography/png.py:94-98 | Signature, IHDR, tEXt, IDAT and IEND decode to the width, height and pixels written. |
| PngExport.RenderPng | src/aios_tools/cartography/png.py:51-98 | Scales outside 1 to 4 are refused, and a file is refused exactly when a size, the metadata or the compressed picture does not fit its field. Every file is the signature and the four chunks IHDR, tEXt with AIOS, a zero byte and the metadata, IDAT with the one picture of the scene, and IEND; it decodes to that picture. |
| MutationLedger.ConsumedMeansApproved | src/aios_tools/browser/mutation.py:123-192 | A grant that can be consumed was approved, one-shot, for exactly this target, method and key, unexpired. |
| MutationLedger.GrantedExactlyWhen | src/aios_tools/browser/mutation.py:123-209 | A grant is built exactly when a mutating request is covered, field by field, by an approval that expires within the next 900 seconds; what it carries; and when the only fault is that the approval expired. |
| MutationLedger.MutationGrant.Consume | src/aios_tools/browser/mutation.py:92-106 | Consuming succeeds once, for the bound target, method and key before expiry, and a failure changes nothing. |
| MutationLedger.ConsumeTwice | src/aios_tools/browser/mutation.py:92-106 | Of any two attempts on one grant at most one succeeds. |
| MutationLedger.MutationLedger.Reserve | src/aios_tools/browser/mutation.py:237-260 | A key is reserved once, as STARTED; a duplicate is blocked and changes nothing. |
| MutationLedger.MutationLedger.Mark | src/aios_tools/browser/mutation.py:262-272 | Only the named row's status changes; a missing key or STARTED is an error. |
| MutationLedger.MutationLedger.StatusOf | src/aios_tools/browser/mutation.py:274-280 | The status of the recorded row, or none. |
| MutationLedger.StatusIsLastSet | src/aios_tools/browser/mutation.py:237-280 | Over any ledger calls, a key has a status exactly when it was ever reserved, and then that of its last valid mark, or STARTED before any. |
| MutationSafety.EveryRunIsSafe | src/aios_tools/browser/effects_runtime.py:232-317 | Over every interleaving with crashes anywhere: one forward and one rollback send per key, sent keys recorded and never FAILED_NO_EFFECT, every send granted, rollback only after a matching forward answer, statuses earned by what was seen, reports agree with the ledger; what each finished run comes to is FinishedMeans. |
| MutationApproval.EverySendWasApproved | src/aios_tools/browser/mutation.py:123-192 | Over every run whose grants were built from approvals, each forward send was named by an approval: approved, one-shot, for exactly this target, method and key, and unexpired when its grant was used up. |
| MutationApproval.ConsumedWhileFresh | src/aios_tools/browser/mutation.py:92-106 | A grant consumed in a run was used up at one step, before its expiry, by an executor that sends exactly what it names; no failing attempt uses it up. |
| MutationSafety.StatusChangesOnce | src/aios_tools/browser/effects_runtime.py:401-534 | Once a key's status has left STARTED, no later step of any executor changes its row. |
| MutationSafety.StepKeeps | src/aios_tools/browser/effects_runtime.py:401-534 | Every step of every executor, whatever the answer, keeps the protocol's invariant. |
| MutationSafety.RunKeeps | src/aios_tools/browser/effects_runtime.py:401-534 | The invariant holds after every schedule of any executors and grants. |
| MutationSafety.InvIsSafe | src/aios_tools/browser/effects_runtime.py:401-534 | The invariant implies each of the safety properties. |
| MutationSafety.UndisturbedRun | src/aios_tools/browser/effects_runtime.py:401-534 | Undisturbed, a request ends SUCCEEDED and a reversible mutation ROLLED_BACK, after the full exchange in order. |
| MutationOutcomes.FaultIsALedgerFault | src/aios_tools/browser/effects_runtime.py:401-534 | Only a ledger call that raised sets the flag that excuses an executor's status. |
| MutationOutcomes.FinishedMeans | src/aios_tools/browser/effects_runtime.py:401-534 | When no ledger call of a finished executor raised, its row has the status its network events call for: FAILED_NO_EFFECT when nothing was sent, unknown when what was sent got no or another answer, and so on; it raised exactly when its forward request was never answered. |
| MutationOutcomes.EveryRunFinishes | src/aios_tools/browser/effects_runtime.py:401-534 | Whatever the others do, an executor whose awaited operations all end, one way or another, is finished after 14 steps of its own. |
| MutationOutcomes.NetworkErrorSettles | src/aios_tools/browser/effects_runtime.py:313-317 | A request or check that raises leads, in two more steps of its executor among any steps of others, to a raised outcome with the row unknown once the forward request was sent, and without effect before. |
| MutationOutcomes.OthersCannotSpoilIt | src/aios_tools/browser/effects_runtime.py:232-317 | In the midst of any other executors, failing, crashing and interleaved, one whose key and grant are its own and whose answers are as expected succeeds. |
| Text.SortedIgnoresOrder | src/aios_tools/experimental/daily_debrief_adapter.py:54-67 | Sorting depends on the elements only, not on their order. |
| Text.StripTrims | src/aios_tools/experimental/daily_debrief_adapter.py:34-37 | Stripping removes white space at both ends only, all of it, and nothing is left exactly when the text was blank. |
| Text.LeMeans | src/aios_tools/experimental/daily_debrief_projection.py:50-92 | The order of texts is code-point order: a prefix, or smaller at the first difference. |
| DebriefAdapter.RequireIdentifierList | src/aios_tools/experimental/daily_debrief_adapter.py:54-67 | The loop accepts exactly a missing list, or a list of identifiers that differ once stripped, and returns them sorted. |
| DebriefAdapter.IdentifiersAcceptedIff | src/aios_tools/experimental/daily_debrief_adapter.py:54-67 | Acceptance apart from the loop: all items are identifiers and no two agree once stripped. |
| DebriefAdapter.IdentifiersFacts | src/aios_tools/experimental/daily_debrief_adapter.py:54-67 | Accepted ids are distinct and are the stripped items, one for one. |
| DebriefAdapter.CheckFindings | src/aios_tools/experimental/daily_debrief_adapter.py:103-132 | The loop accepts exactly findings that are each well-formed with ids that differ. |
| DebriefAdapter.FindingsAcceptedIff | src/aios_tools/experimental/daily_debrief_adapter.py:103-132 | Acceptance apart from the loop, and the seen ids are the ids of the findings. |
| DebriefAdapter.ValidateStructuredDebrief | src/aios_tools/experimental/daily_debrief_adapter.py:84-132 | Accepts exactly payloads of the schema with no authority claim, well-formed source fields, and well-formed findings with ids that differ. |
| DebriefAdapter.AdaptedExactlyWhen | src/aios_tools/experimental/daily_debrief_adapter.py:84-182 | A payload becomes events exactly when it validates and no finding lists a test id both as remaining and as resolved. |
| DebriefAdapter.AdaptStructuredDebrief | src/aios_tools/experimental/daily_debrief_adapter.py:174-182 | All findings become events or the whole payload is refused. |
| DebriefAdapter.AdaptedSaysWhatWasFound | src/aios_tools/experimental/daily_debrief_adapter.py:134-182 | The i-th event carries the i-th finding's texts and test ids and the payload's own source fields. |
| DebriefAdapter.AdaptedEventsAreValid | src/aios_tools/experimental/daily_debrief_adapter.py:174-228 | Every adapted event passes the event validator, and all of them differ. |
| DebriefAdapter.ListOrderIsForgotten | src/aios_tools/experimental/daily_debrief_adapter.py:54-67 | Listing the same test ids in another order gives the same list, so the same event. |
| DebriefStore.EventStore.AppendEvent | src/aios_tools/experimental/daily_debrief_event_store.py:116-189 | The transaction either appends at last+1, answers with the stored sequence, or changes nothing. |
| DebriefStore.ReadingResumes | src/aios_tools/experimental/daily_debrief_event_store.py:200-212 | A reader that resumes after the last sequence it saw gets exactly the events appended since, numbered on without a gap. |
| DebriefStore.AppendNew | src/aios_tools/experimental/daily_debrief_event_store.py:137-189 | A new event is appended at last+1 unless the expected sequence is another; then nothing changes. |
| DebriefStore.AppendDuplicate | src/aios_tools/experimental/daily_debrief_event_store.py:137-160 | A stored event is a no-op that answers its own sequence, whatever sequence was expected. |
| DebriefStore.AppendKeeps | src/aios_tools/experimental/daily_debrief_event_store.py:116-189 | Appends only extend the store, keep ids distinct and events valid, and never report corruption. |
| DebriefStore.ReachableStoreOk | src/aios_tools/experimental/daily_debrief_event_store.py:116-189 | The same over any sequence of append attempts, including refused ones. |
| DebriefStore.UnpaddedBodiesDiffer | src/aios_tools/experimental/daily_debrief_event_store.py:116-189 | When ids carry no white space, no content is stored twice. |
| DebriefStore.StoredOnceIffUnpadded | src/aios_tools/experimental/daily_debrief_event_store.py:116-189 | Offered beside its bare form, a valid event leaves its content stored once exactly when its id is unpadded. |
| DebriefStore.UnpaddedRunStoresOnce | src/aios_tools/experimental/daily_debrief_event_store.py:116-189 | Over any attempts whose ids are unpadded, no content is stored twice. |
| DebriefStore.PaddedIdStoresTwice | src/aios_tools/experimental/daily_debrief_event_store.py:116-189 | Every padded id, whatever its white space, has a run that stores its content twice. |
| DebriefProjection.ListAllFacts | src/aios_tools/experimental/daily_debrief_projection.py:50-92 | Listing remaining ids moves each out of resolved, without duplicates. |
| DebriefProjection.SettleAllFacts | src/aios_tools/experimental/daily_debrief_projection.py:50-92 | Listing resolved ids moves each out of remaining, without duplicates. |
| DebriefProjection.ListAllOrder | src/aios_tools/experimental/daily_debrief_projection.py:50-92 | Newly remaining ids come last, in the order listed; the resolved ones that are left keep their order. |
| DebriefProjection.SettleAllOrder | src/aios_tools/experimental/daily_debrief_projection.py:50-92 | Newly resolved ids come last, in the order listed; the remaining ones that are left keep their order. |
| DebriefProjection.ApplyKeepsOrder | src/aios_tools/experimental/daily_debrief_projection.py:50-92 | One event's effect on the order of both lists of its lineage. |
| DebriefProjection.ProjectionState.ProjectPayload | src/aios_tools/experimental/daily_debrief_projection.py:50-92 | One event updates its own lineage and no other; a null list raises after the fields before it were updated. |
| DebriefProjection.TouchedMeans | src/aios_tools/experimental/daily_debrief_projection.py:50-92 | An event that raises on a null list leaves its lineage as one that passes nothing and lists nothing from that field on. |
| DebriefProjection.ProjectionState.ProjectEvent | src/aios_tools/experimental/daily_debrief_projection.py:94-110 | Each error with its exact cause; sequence gaps and duplicates change nothing, a null list leaves the lineage touched and the rest alone, and otherwise the event is folded in. |
| DebriefProjection.ProjectionState.ProjectAll | src/aios_tools/experimental/daily_debrief_projection.py:113-119 | Replaying events is the fold of the single steps, stopping at the first error. |
| DebriefProjection.FoldSucceeds | src/aios_tools/experimental/daily_debrief_projection.py:113-119 | A replay succeeds on exactly the valid events that are numbered on from the state without a gap, have no null list, and have ids new to it and distinct; and it processes them in order. |
| DebriefProjection.LatestMeans | src/aios_tools/experimental/daily_debrief_projection.py:50-92 | The recursive notion of a test's latest state is: some event lists it so and no later event of the lineage lists it. |
| DebriefProjection.AdvanceReflects | src/aios_tools/experimental/daily_debrief_projection.py:50-110 | Each step keeps the description of the whole state: last-writer-wins tests, texts once each in the order of first appearance, first and last dates, as many live and simulated passes as events that say PASS with and without LIVE, event ids per lineage. |
| DebriefRecovery.LastWriterWins | src/aios_tools/experimental/daily_debrief_projection.py:50-119 | After replay a test is remaining (resolved) in a lineage exactly when the latest event mentioning it lists it so, and never both. |
| DebriefRecovery.LineagesPartitionEvents | src/aios_tools/experimental/daily_debrief_projection.py:94-110 | Each processed event is in exactly its own lineage, and pass counters sum to at most the lineage's events. |
| DebriefRecovery.EnvelopeRoundTrip | src/aios_tools/experimental/daily_debrief_projection.py:122-182 | Reading a written projection back, lineage dictionaries included, gives it exactly when it is restorable; what is read is restorable and writes back as it was when its payload was complete. |
| DebriefRecovery.AcceptedMeans | src/aios_tools/experimental/daily_debrief_projection.py:145-182 | The reader returns a projection exactly when the digest is absent or that of the payload, and the payload, missing keys standing for their defaults, has schema and revision, distinct ids as many as its last sequence, and every lineage under its own name; a wrong digest is always reported as one. |
| DebriefRecovery.TamperingIsCaught | src/aios_tools/experimental/daily_debrief_projection.py:139-154 | Any other payload put beside the digest of a written one is refused for its digest. |
| DebriefRecovery.ReachableIsRestorable | src/aios_tools/experimental/daily_debrief_projection.py:139-182 | Every projection reachable by replay is restorable. |
| DebriefRecovery.RebuildSucceeds | src/aios_tools/experimental/daily_debrief_projection.py:113-119 | Replaying a reachable store succeeds exactly when no event has a null id list; sequence and duplicate errors never occur. |
| DebriefRecovery.NullListBlocksReplay | src/aios_tools/experimental/daily_debrief_adapter.py:185-228 | Any valid event without remaining tests can be stored with a null list instead, and then replay fails. |
| DebriefRecovery.RecoverProjection | src/aios_tools/experimental/daily_debrief_recovery.py:76-99 | The method restores the checkpoint, or starts empty, and folds the events after it; a digest that differs from the payload is reported exactly then. |
| DebriefRecovery.RecoveryStartsFrom | src/aios_tools/experimental/daily_debrief_recovery.py:76-99 | Recovery from a checkpoint succeeds with a state exactly when the digest, if any, is that of the payload and folding the rest of the store onto the projection the payload describes gives that state; and when it fails for the digest, or for being ahead of the store. |
| DebriefRecovery.RecoveryEqualsRebuild | src/aios_tools/experimental/daily_debrief_recovery.py:76-99 | From the checkpoint of any prefix, recovery equals rebuilding from all events, errors included. |
| DebriefRecovery.RecoveryNeverFails | src/aios_tools/experimental/daily_debrief_recovery.py:76-99 | On stores of adapted events, recovery from any prefix succeeds with the full state. |
| DebriefRecovery.IngestStructuredDebrief | src/aios_tools/experimental/daily_debrief_recovery.py:38-73 | A quarantined payload adds nothing; an accepted one is offered event by event beside any other writers, and either all are acknowledged at their true sequences or a conflict is raised with nothing stored lost. |
| DebriefRecovery.OfferAll | src/aios_tools/experimental/daily_debrief_recovery.py:57-73 | The append loop is the specified offers, stops at the first conflict, and alone reports NothingNew exactly when the store is unchanged. |
| DebriefRecovery.OfferMeans | src/aios_tools/experimental/daily_debrief_recovery.py:57-64 | An offer conflicts exactly when its event is new and somebody appended between the sequence read and the append. |
| DebriefRecovery.IngestBesideStores | src/aios_tools/experimental/daily_debrief_recovery.py:57-64 | Beside any other writers, an ingest that goes through has each of its events stored exactly once. |
| DebriefRecovery.IngestAlone | src/aios_tools/experimental/daily_debrief_recovery.py:57-64 | With nobody else writing, an ingest always goes through. |
| DebriefRecovery.IngestAddsNewOnes | src/aios_tools/experimental/daily_debrief_recovery.py:57-64 | Ingestion appends exactly the events not stored before, in order. |
| DebriefRecovery.ExactlyOnce | src/aios_tools/experimental/daily_debrief_recovery.py:38-73 | After any history of attempts, one undisturbed ingest leaves each event stored exactly once, and a further ingest changes nothing. |
| DebriefRecovery.ExactlyOnceInterleaved | src/aios_tools/experimental/daily_debrief_recovery.py:38-73 | The same for any interleaving: once each event of a payload was appended with success at some point of a history, it is stored exactly once and ingesting again changes nothing. |
| DebriefRecovery.RetryAfterCrash | src/aios_tools/experimental/daily_debrief_recovery.py:57-64 | Ingesting again after a crash partway ends where an uninterrupted ingest ends. |
| Wav.SplitIsSound | src/aios_tools/audio_native_demucs.py:112-142 | The chunks cut off are padded chunks making up the bytes but for fewer than 8. |
| Wav.SplitIsComplete | src/aios_tools/audio_native_demucs.py:112-142 | Any such decomposition is the one found, so it is unique. |
| Wav.WalkChunks | src/aios_tools/audio_native_demucs.py:110-142 | The cursor loop ends, stays within the file, and finds the last fmt and data sizes, or the first chunk that is cut short, is a short fmt, or lacks its pad byte. |
| Wav.InspectWavFormat | src/aios_tools/audio_native_demucs.py:104-150 | Acceptance, the values returned, and which error is raised, on any byte string. |
| Wav.AcceptedExactlyWhen | src/aios_tools/audio_native_demucs.py:104-150 | Accepted exactly when the body splits into padded chunks, fmt chunks are long enough, both kinds occur and the last data size is a multiple of the last block_align. |
| Wav.EmitRecording | scripts/audio_model_lock_common.py:243-257 | Fields are written in order; the size field's overflow leaves only RIFF behind. |
| Wav.WriteFloat32Wav | scripts/audio_model_lock_common.py:227-257 | When a file is opened, when it is a recording, which error is raised, and that only the four bytes RIFF remain exactly when everything but the RIFF size fits. A recording is stated byte by byte: every header field as a number, and every sample of every channel at its place. |
| Wav.RecordingBytes | scripts/audio_model_lock_common.py:240-257 | The bytes of a recording without any packing function: little-endian code 3, channels, rate, rate·channels·4 bytes per second, channels·4 per frame, 32 bits, sample count and sizes, then the samples frame by frame. |
| Wav.LongMonoLeavesStub | scripts/audio_model_lock_common.py:239-247 | Any mono array from 0x3FFFFFF4 samples up leaves that stub. |
| Wav.FrameAt | scripts/audio_model_lock_common.py:240-257 | Frame i stands at its place in the interleaved data. |
| Wav.FrameHolds | scripts/audio_model_lock_common.py:240-257 | A frame holds each channel's sample of that frame, in channel order. |
| Wav.InspectsWhatWasWritten | scripts/audio_model_lock_common.py:227-257 | For every rate and both channel counts the parser reads a written file as code 3, its channels, rate, rate·channels·4 bytes per second, channels·4 per frame, 32 bits, samples·channels·4 data bytes, and as many frames as samples. |
| Wav.RiffSizeField | scripts/audio_model_lock_common.py:243-247 | The RIFF size field is the file length minus 8. |
| Wav.RequireFloat32StereoWav | src/aios_tools/audio_native_demucs.py:153-179 | Accepts exactly float32 stereo at 44100 Hz of the expected length, and says when only the length differs. |
| Wav.StereoAt44100 | src/aios_tools/audio_native_demucs.py:153-179 | A written file is accepted exactly when it is stereo at 44100 Hz. |
| Wav.ValidateOutputWavs | src/aios_tools/audio_native_demucs.py:182-191 | Accepts exactly four present stems that all meet the format with one common length. |
| MindMapTree.BuildGraph | src/aios_tools/cartography/mindmap.py:57-66 | Neighbours are exactly the linked nodes, and every linked pair has the last edge joining it. |
| MindMapTree.Expand | src/aios_tools/cartography/mindmap.py:75-78 | Expanding a node adds exactly its new neighbours, one level deeper, in the order in which they first occur among its neighbours; none of them is a neighbour of a node expanded before. |
| MindMapTree.BreadthFirst | src/aios_tools/cartography/mindmap.py:67-78 | The search ends with a tree over exactly the nodes within max_depth, depth is the shortest distance, every node's parent is the first expanded node it is a neighbour of, and nodes are queued by their parents' turn and then by their first place among its neighbours. |
| MindMapTree.AllWalksFound | src/aios_tools/cartography/mindmap.py:67-78 | When every found node is expanded, every walk of allowed length ends at a found node no deeper than the walk. |
| MindMapTree.TreeEdgesAreGraphEdges | src/aios_tools/cartography/mindmap.py:132-134 | Every tree edge has an entry in the pair table: the last edge that joins the two nodes. |
| MindMap.CompileMindMap | src/aios_tools/cartography/mindmap.py:50-134 | From the snapshot to the positions: exists exactly when the root is included, and is then the first-come shortest-path tree of the kept edges, kept in their order, with sorted neighbours and children, every node in the middle of its wedge, and for every tree pair the last edge joining it. |
| MindMap.MapHolds | src/aios_tools/cartography/mindmap.py:57-134 | What each stage establishes is together what the compiled map promises. |
| MindMapStable.TreeIsDetermined | src/aios_tools/cartography/mindmap.py:64-78 | The search has no choice: two graphs with the same neighbours in the same order give one tree, found in one order. |
| MindMapStable.MapIsDetermined | src/aios_tools/cartography/mindmap.py:50-107 | When label and id tell the nodes apart, the compiled tree, its children lists and all positions are determined by the nodes and the set of kept edges, in whatever order the edges come. |
| MindMapLayout.CollectChildren | src/aios_tools/cartography/mindmap.py:80-85 | The children lists invert the parent map, each child once. |
| MindMapLayout.SortingKeepsShape | src/aios_tools/cartography/mindmap.py:84-85 | Reordering children, as the sort does, keeps the tree's shape. |
| MindMapLayout.LeafCountIsCardinality | src/aios_tools/cartography/mindmap.py:87-92 | leaf_count is the number of leaves of the subtree. |
| MindMapLayout.RadialLayout.LeafCount | src/aios_tools/cartography/mindmap.py:87-92 | The memoizing recursion returns the leaf count and never remembers a wrong one. |
| MindMapLayout.RadialLayout.Place | src/aios_tools/cartography/mindmap.py:96-106 | The recursion places exactly the proper descendants, each in the middle of its wedge. |
| MindMapLayout.RadialLayout.LayOut | src/aios_tools/cartography/mindmap.py:93-107 | Every node but the root ends in the middle of its wedge on the ring of its depth. |
| MindMapLayout.WedgeIsProportional | src/aios_tools/cartography/mindmap.py:96-106 | A node's wedge is the whole circle times its leaves over the root's. |
| MindMapLayout.SiblingsTile | src/aios_tools/cartography/mindmap.py:96-106 | Sibling wedges tile the parent's: the first starts, the last ends with it, and each starts where the one before ends. |
| MindMapLayout.WedgesNest | src/aios_tools/cartography/mindmap.py:96-106 | A child's wedge lies inside its parent's. |
| MindMapLayout.SameDepthApart | src/aios_tools/cartography/mindmap.py:96-106 | Different nodes of equal depth have disjoint wedges. |
| MindMapLayout.StandsInTheMiddle | src/aios_tools/cartography/mindmap.py:93-106 | A node is as far from the start of its wedge as from its end, on the ring 190 times its depth. |
| MindMapLayout.PositionsDiffer | src/aios_tools/cartography/mindmap.py:93-106 | Different nodes stand at different places. |
| Completion.CheckContract | src/aios_tools/experimental/execution_completion.py:50-87 | The validator, with its set of seen pairs, accepts exactly valid contracts. |
| Completion.FindOrderViolation | src/aios_tools/experimental/execution_completion.py:148-155 | The scan finds a violated pair exactly when there is one. |
| Completion.EvaluateCompletion | src/aios_tools/experimental/execution_completion.py:116-184 | The early-return evaluation is the specified evaluation, reasons and lists included. |
| Completion.VerdictMeans | src/aios_tools/experimental/execution_completion.py:116-184 | The verdicts without the order of the checks: BLOCKED iff not comparable, PASS iff terminal with all met and nothing breached, PARTIAL iff unbroken and not terminal. |
| Completion.ReportMeans | src/aios_tools/experimental/execution_completion.py:116-184 | Each of the eleven reasons with its exact cause, and each of the four lists with its exact members. |
| Completion.PassMeansCompatible | src/aios_tools/experimental/execution_completion.py:137-184 | A passed contract forbids nothing it requires and its order has no cycle. |
| Completion.TopologicalOrder | src/aios_tools/experimental/execution_completion.py:70-87 | An acyclic order has a sequence of all events that respects it. |
| Completion.CompatibleCanPass | src/aios_tools/experimental/execution_completion.py:137-184 | Every compatible contract has a passing trajectory. |
| Completion.PassableIffCompatible | src/aios_tools/experimental/execution_completion.py:50-87 | A valid contract can be passed iff its order is acyclic and it forbids nothing it requires. |
| Completion.FailureIsFinal | src/aios_tools/experimental/execution_completion.py:137-184 | A FAIL by forbidden event, order or step budget stays one under more events and steps, whatever else is reported. |
| Downloads.DownloadQuarantine.Allocate | src/aios_tools/browser/downloads.py:146-157 | Succeeds exactly when a well-formed free name comes within 32 attempts before an ill-formed one, and is refused as ill-formed exactly in the other case. |
| Downloads.RefusalForesees | src/aios_tools/browser/downloads.py:198-269 | A call refused for a size budget could not have completed; one let through completes whenever it brings just the declared bytes undisturbed. |
| Downloads.RefusalMeans | src/aios_tools/browser/downloads.py:188-269 | Each refusal before a slot is taken with its exact cause, unsafe names and late starts included; exactly the others are let through; a refused call changes nothing but the record it returns. |
| Downloads.DownloadQuarantine.RunTransfer | src/aios_tools/browser/downloads.py:283-304 | The chunk loop writes a prefix within both budgets and counts exactly what it wrote. |
| Downloads.ReceivedMeans | src/aios_tools/browser/downloads.py:271-353 | After admission: quarantined exactly when the transfer completes and its promotion goes through, with the chunks joined; the exact cause of each error; an incomplete file holds a prefix. |
| Downloads.IncompleteMeans | src/aios_tools/browser/downloads.py:279-353 | Why a download stays incomplete, by the turn that stopped it: the reason recorded, and the exact bytes left in its partial file, charged and digested. |
| Downloads.LostTailMeans | src/aios_tools/browser/downloads.py:311-353 | A download whose close loses the tail of its file is incomplete and charged just what the disk holds. |
| Downloads.DownloadQuarantine.QuarantineChunks | src/aios_tools/browser/downloads.py:188-353 | The call is the specified one, on every exit path, raising ones included, and keeps the account sound. |
| Downloads.HandledKeeps | src/aios_tools/browser/downloads.py:188-353 | Every call keeps budgets and conservation; a returned record carries exactly the bytes charged. |
| Downloads.TransferBounds | src/aios_tools/browser/downloads.py:283-304 | Neither budget is exceeded, even by a chunk whose write fails partway. |
| Downloads.CompleteIffFits | src/aios_tools/browser/downloads.py:283-304 | A transfer completes exactly when nothing disturbs it and all chunks fit, and then writes their concatenation. |
| Downloads.StopsAtTurn | src/aios_tools/browser/downloads.py:283-310 | What the chunk loop makes of the turn it reaches: how it ends, by what that turn brings, with exactly the chunks before it written. |
| Downloads.AttemptedIsPrefix | src/aios_tools/browser/downloads.py:283-304 | What reaches the file is a prefix of the chunks' concatenation. |
| Downloads.BytesAreConserved | src/aios_tools/browser/downloads.py:188-353 | Over any calls, the aggregate is the observed bytes of all records plus the sum of what raising calls charged, within the limit. |
| Downloads.RecordsTellTheTotal | src/aios_tools/browser/downloads.py:188-353 | The aggregate equals the recorded bytes exactly when no call charged bytes and then raised. |
| Downloads.LossMeans | src/aios_tools/browser/downloads.py:279-353 | A call loses bytes exactly when an uncaught exception breaks it off, its promotion raises, or its read-back or end raises, after bytes went in. |
| Downloads.SingleCallLosesBytes | src/aios_tools/browser/downloads.py:279-353 | Calls that lose a chunk of any size, one for each cause. |
| Downloads.RunCalls | src/aios_tools/browser/downloads.py:188-353 | Any calls on one quarantine are the specified calls one after the other. |
| SessionLeases.SessionLeaseRegistry.AcquireLease | src/aios_tools/browser/session.py:191-214 | A lease is given exactly to a compact owner, for a positive time, when the ref has none or its lease lapsed; it replaces that one and ends after the time asked for. |
| SessionLeases.SessionLeaseRegistry.Release | src/aios_tools/browser/session.py:216-221 | Only an equal current lease is removed. |
| SessionLeases.SessionLeaseRegistry.RecoverStale | src/aios_tools/browser/session.py:223-228 | Exactly the expired leases go, and they are counted. |
| SessionLeases.ValidationMeans | src/aios_tools/browser/auth.py:54-136 | A validation hands out a session and its lease exactly when everything goes through; it leaves the lease behind when the store raises, and else the registry as it was but for a lapsed lease. |
| SessionLeases.LeasesAreExclusive | src/aios_tools/browser/auth.py:54-136 | Over every run with a forward clock in which no release takes away another holder's lease, no two validated sessions hold one ref. |
| SessionLeases.HarmlessIffNeverShared | src/aios_tools/browser/auth.py:54-154 | Over every run: its releases take no other holder's lease exactly when no prefix of it, followed by validations, lets two callers hold one session. |
| SessionLeases.ReleaseKeepsIffHarmless | src/aios_tools/browser/auth.py:144-154 | A release keeps the registry right exactly when no other holder has an equal lease. |
| SessionLeases.ReleasingOnceIsHarmless | src/aios_tools/browser/auth.py:144-154 | Callers that release a session at most once meet that condition. |
| SessionLeases.DoubleReleaseSharesSession | src/aios_tools/browser/session.py:216-221 | Releasing a session twice can let two callers hold the same session. |
| SealedStores.SecretIsGone | src/aios_tools/browser/secret_store.py:127-154 | After a terminal mark, opening fails in every later state until a new put, whatever is marked in between. |
| SealedStores.OpensLastPut | src/aios_tools/browser/secret_store.py:110-158 | After any run, opening returns a payload exactly when it was the last accepted put and no delete or terminal mark came after. |
| SealedStores.NoSecretStays | src/aios_tools/browser/secret_store.py:141-154 | Without a put, a ref without a secret stays without. |
| SealedStores.InMemoryStore.PutSealed | src/aios_tools/browser/secret_store.py:110-125 | A put is taken exactly when ref and backend fit, the payload is not empty and the state is none of the four terminal ones; it replaces the record, and a refused one changes nothing. |
| SealedStores.InMemoryStore.OpenSealed | src/aios_tools/browser/secret_store.py:127-134 | The payload of a usable record, or unavailable. |
| SealedStores.InMemoryStore.MarkLifecycle | src/aios_tools/browser/secret_store.py:141-154 | The lifecycle is replaced, and a terminal one drops the payload. |
| SealedStores.InMemoryStore.DeleteRecord | src/aios_tools/browser/secret_store.py:156-158 | The record goes. |
| SealedStores.PutLeaves | src/aios_tools/browser/keyring_store.py:171-199 | For each way the backend takes the calls: what a put leaves, and that its secret stays openable exactly when the record was written and not taken back. |
| SealedStores.RaisedPutLeavesSecret | src/aios_tools/browser/keyring_store.py:182-199 | On any keyring, a put whose index write and take-back both fail raises and leaves its secret openable. |
| SealedStores.KeyringStore.OpenSealed | src/aios_tools/browser/keyring_store.py:201-217 | The same open over the keyring's records. |
| SealedStores.MarkLeaves | src/aios_tools/browser/keyring_store.py:228-245 | For each way the backend takes the calls: a mark is applied exactly when its write is, and returns exactly when no call raised. |
| SealedStores.DeleteLeaves | src/aios_tools/browser/keyring_store.py:247-265 | A delete that returns true removed the record and its own index entry; other sessions' entries stay; false means no record or a refused call. |
| SealedStores.FaultFreeRunsAgree | src/aios_tools/browser/keyring_store.py:171-265 | Without faults, every run of the keyring store agrees with the in-memory one. |
| SealedStores.SecretIsGoneUnderFaults | src/aios_tools/browser/keyring_store.py:201-245 | After a terminal mark that returned, opening fails in every later state of every run until a new put, whatever the backend does to the later calls. |
| SealedStores.OpensOnlyWhatWasOffered | src/aios_tools/browser/keyring_store.py:171-265 | In every state of every run with faults, what opens was offered by a put that passed its checks, with no succeeding put, terminal mark or delete of the ref since. |
| Hierarchy.WalkFrom | src/aios_tools/cartography/graph_ir.py:85-103 | One walk ends on every parent map: in a reported cycle, closed at its first repeated node, exactly when the chain never ends. |
| Hierarchy.FindParentCycles | src/aios_tools/cartography/graph_ir.py:82-104 | Exactly the nodes whose parent chain never ends, those on a cycle among them, have an error whose walk starts at them; no error twice; none at all iff no node reaches itself by parents. |
| Hierarchy.AcyclicIffRanked | src/aios_tools/cartography/graph_ir.py:82-104 | No node reaches itself iff some rank falls at every parent step. |
| Hierarchy.ChainsEnd | src/aios_tools/cartography/graph_ir.py:82-104 | Without cycles, every parent chain ends within as many steps as there are nodes. |
| Trajectory.ValidateRetrievalTrajectory | src/aios_tools/retrieval_trajectory.py:144-181 | The loop with its seen sets accepts exactly read-only trajectories without authority or content fields, of distinct decided candidates, whose packet holds exactly the selected ones. |
| Trajectory.ValidMeans | src/aios_tools/retrieval_trajectory.py:144-181 | Acceptance candidate by candidate: each decided with a reason under its own id, ids distinct, and a packet that lists an id exactly when its candidate is selected, missing only when none is. |
| Trajectory.RetrievalTrajectoryBuilder.Consider | src/aios_tools/retrieval_trajectory.py:29-56 | A new packet with a known role and rank is added undecided; anything else changes nothing. |
| Trajectory.RetrievalTrajectoryBuilder.Decide | src/aios_tools/retrieval_trajectory.py:58-67 | Succeeds exactly for a known disposition, a reason and an undecided candidate, and then decides that candidate only. |
| Trajectory.RetrievalTrajectoryBuilder.Compose | src/aios_tools/retrieval_trajectory.py:69-84 | Composed once, exactly from distinct selected packets. |
| Trajectory.RetrievalTrajectoryBuilder.Finalize | src/aios_tools/retrieval_trajectory.py:86-142 | Succeeds exactly when all candidates are decided and the packet holds exactly the selected ones, and then validates. |
| Trajectory.OrderedStaysValid | src/aios_tools/retrieval_trajectory.py:86-142 | Sorting the candidates keeps them distinct and valid. |
| Receipts.CheckEvent | src/aios_tools/cognition_receipt.py:124-157 | One branch of the validator passes exactly when what the event relies on was established before it. |
| Receipts.ValidateCognitionReceipt | src/aios_tools/cognition_receipt.py:89-169 | Accepts exactly well-headed receipts of numbered, sealed, grounded events with an intent and at most one terminal event; two of its checks never fire. |
| Receipts.AnswersFollowPackets | src/aios_tools/cognition_receipt.py:148-165 | A grounded answer always has a composed packet before it. |
| Receipts.GroundedByName | src/aios_tools/cognition_receipt.py:124-157 | A resolution, selection, rejection or tool end needs an earlier consideration or invocation of the same thing; a name left out stands for null in the one and for the empty text in the other. |
| Receipts.GroundedMeans | src/aios_tools/cognition_receipt.py:124-157 | A composition needs the selections of all its packets and an answer the composition of its context; an unknown kind never passes, and the other kinds need nothing. |
| Receipts.MissingNameIsNull | src/aios_tools/cognition_receipt.py:137-147 | A selection that leaves its packet out passes exactly when a packet named null was considered before. |
| Receipts.CognitionReceiptBuilder.Append | src/aios_tools/cognition_receipt.py:55-67 | Appends one event with the next number, the builder's scope and a matching id. |
| Receipts.CognitionReceiptBuilder.Finalize | src/aios_tools/cognition_receipt.py:69-86 | Returns the receipt exactly when it is valid. |
| ContextWorkflow.FinalizedReplays | src/aios_tools/retrieval_trajectory.py:115-142 | In every finalized trajectory each event finds what it relies on before it. |
| ContextWorkflow.FrameIsValid | src/aios_tools/context_expansion_workflow.py:83-145 | Between the workflow's preamble and tail, only the trajectory's own order decides validity. |
| ContextWorkflow.ReplayedAt | src/aios_tools/context_expansion_workflow.py:109-117 | Each trajectory event becomes the receipt event of the same kind, at the same place, about the same packets. |
| ContextWorkflow.ReplayTells | src/aios_tools/context_expansion_workflow.py:83-145 | The receipt of a finalized trajectory has a considered event for every candidate, a selected one for exactly the selected, a rejected one for exactly the rejected, and the packet as composed. |
| ContextWorkflow.ValidateWorkflowResult | src/aios_tools/context_expansion_workflow.py:156-186 | Accepts exactly completed, effect-free results of this workflow and one scope whose evidence points at the record without embedding it or transferring authority, with a valid receipt. |
| ContextWorkflow.AssembleEvents | src/aios_tools/context_expansion_workflow.py:76-139 | The builder's calls produce preamble, replayed events and tail, with no evidence but the pointer. |
| ContextWorkflow.RunPacketWorkflow | src/aios_tools/context_expansion_workflow.py:25-153 | Succeeds exactly when the request, trajectory and decision are good and the events are in order, always for finalized trajectories; each error before that has its exact cause; its receipt and result are valid, point at the record, and tell which packets were selected and rejected. |
| Trust.EvaluateTrustBinding | src/aios_tools/execution_trust.py:97-292 | The step-by-step evaluation gives the maximum of the fired rules, each fired reason once, ADMIT iff none fires, and authorizes just what was requested; each of the five decisions has its exact condition. |
| Trust.CheckDependencies | src/aios_tools/execution_trust.py:190-196 | The dependency loop adds exactly the dependency rules that fire. |
| Trust.CheckInvalidations | src/aios_tools/execution_trust.py:240-249 | The event loop adds exactly the reasons of the events. |
| Trust.Raise | src/aios_tools/execution_trust.py:52-60 | Strengthening the decision with a reason's severity keeps it the maximum of the reasons. |
| Trust.FiredMeans | src/aios_tools/execution_trust.py:97-249 | The rule table reason by reason: when each of the thirty reasons fires. |
| Trust.DecisionMeans | src/aios_tools/execution_trust.py:52-249 | Each decision exactly when it is the first of four conditions on the binding to hold: blocked, stale, pending, unknown; and admitted when none does. |
| Trust.OneMaximum | src/aios_tools/execution_trust.py:52-55 | The decision is determined by the rules that fire. |
| Trust.AdmissionImplies | src/aios_tools/execution_trust.py:251-292 | A binding is admitted exactly when it is in order in every respect: known and fresh, allowed by policy and consent, without drift, secure with its dependencies, on its topology, with what was requested authorized, and with no invalidation. |
| Trust.AddingNeverLowers | src/aios_tools/execution_trust.py:190-249 | More dependencies or invalidation events never lower the decision. |
| Trust.OrderDoesNotMatter | src/aios_tools/execution_trust.py:190-249 | Permuting dependencies or invalidation events changes neither the decision nor the reasons. |

## Left out

- Trust.EvaluateTrustBinding: schema-invalid bindings, which get UNKNOWN with one reason, and the fields copied through into the receipt; an admitted receipt's marker reason is implied by `admitted`.
- ContextWorkflow.RunPacketWorkflow: the decision record's own field checks are one arbitrary flag, and a trajectory's events are the three kinds the builder emits; foreign event kinds in a hand-made trajectory are not modelled.
- Trajectory.ValidateRetrievalTrajectory: candidate scores, and which of the equally refused fields is reported.
- Trajectory.RetrievalTrajectoryBuilder.Finalize: the sort by rank and id is any permutation of the candidates.
- Receipts.ValidateCognitionReceipt: which of the equally refused payload shapes raises a type error instead of a value error; names that are neither texts nor null.
- DebriefRecovery.EnvelopeRoundTrip: fields of another JSON type, which the dataclass takes unchecked; whether a lineage that does not construct or one under another key is reported.
- DebriefAdapter.ValidateStructuredDebrief: error codes, and the kind of JSON numbers.
- DebriefStore.EventStore.AppendEvent: SQLite itself, row decoding and its corruption errors; a transaction is one step.
- DebriefRecovery.IngestStructuredDebrief: the quarantine store.
- MutationSafety.EveryRunIsSafe: the upload executor, whose failure marking does not consult whether it has sent; payload validation before the grant; row timestamps; a ledger that is not empty at the start, which is covered by taking the executors of all processes.
- Completion.EvaluateCompletion: the sorted output lists are sets, and JSON type checks are datatypes.
- PngExport.RenderPng: coordinates are integers already, accents are three bytes, metadata is its UTF-8 bytes; a negative or too large size is reported before drawing instead of after, with the same outcome.
- Wav.WriteFloat32Wav: tensor conversion and rounding; a sample is its four bytes.
- MindMap.CompileMindMap: label folding, so nodes sort by any integer rank; edges come in the order the source sorts them to; the view and graph checks before it; styling and text wrapping.
- MindMapLayout.RadialLayout.LayOut: floating-point rounding, cosine and sine; positions are angle and radius.
- Downloads.DownloadQuarantine.QuarantineChunks: names, MIME types and URL digests in records; a failing reparse-point check is a chunk source that fails at once.
- SessionLeases.LeasesAreExclusive: the descriptor checks before a lease are one arbitrary flag; progress after a lease lapses unreleased, which the source blocks through IN_USE, is not claimed.
- SealedStores.PutLeaves: a backend found unusable refuses every operation before its checks; corrupt records read from outside.
- Hierarchy.FindParentCycles: error messages; JSON-schema and reference checks of the graph.
- Network calls, Playwright, subprocesses, torch and numpy; URL and IDNA normalization; JSON schemas; policy and registry loaders; CLI, MCP, SVG, HTML and TypeScript front ends: plumbing or flat checks.
- Flat classifiers and receipt redaction: each claim is settled by reading one branch.
- The recursive comparison of a response with an expected body: one short recursion used as an arbitrary answer.
