# Verification model of the evaluation, recovery and document-view core

This project models the hard parts of the repository in Dafny and proves properties of them over all inputs,
all runs and all interleavings. `dafny verify dfyconfig.toml` checks everything.

## What is modelled

**Sealed request capture.** A benchmark client and an independent collector exchange authenticated, numbered
frames over a socket. `CaptureFrames` has the frame bodies and the normalisation of a captured request,
`CaptureProtocol` the client object and the collector's serving loop with the transition functions they
implement, `CaptureNetwork` any number of both over a channel that drops, duplicates, reorders, replays,
reflects and rewrites frames. `CaptureAgreement` has what every run guarantees, `CaptureReuse` what fails when
a client is used again after a failed request, `CaptureRetry` exactly when it can, and `CaptureExchange` what one
exchange does to both parties. `CaptureLaws` says frame by frame what each side accepts and what a recorded request
is true of. `FrameTransport` is the receive loop under any fragmentation.

**The benchmark run.** `ProviderCalls`, `BenchmarkRun` and `BenchmarkObjects` model the adapters that number
and count requests, the ledger that files them by case, and the phased `execute` program under an arbitrary
executor; `BenchmarkGuarantees` joins their books with the collector's log, `BenchmarkCounts` their counters with the
evidence and with what the executor asked for, `BenchmarkNetwork` shows that a run is
a run of the network, `BenchmarkFiling` says exactly which runs file every request under its case,
`BenchmarkMisfiling` has a complete run that does not, and `BenchmarkOutcomes` says exactly which logs a channel can
make of the requests of an executor, with `BenchmarkPlay` and `BenchmarkReplies` as its two halves. `BenchmarkPack`
is the one-way loader of cases, ledger and labels; `Framing` its length-prefixed digests; `CaseExecution` the handles
and the shared version table of the case executor; `RetrievalFusion` the fusion of ranked lists that feeds it.
`PackLaws`, `FramingLaws` and `CaseLaws` say in the entries of the lists what these admit, digest and report.

**Scoring.** `Scoring` says what one case earns on each of the eighteen rates and what a report holds, `ScoreRun`
is the scoring program with its accumulators, `RankGain` and `Percentile` the rank and percentile arithmetic.
`ReportCheck` is the second program, which rejects reports that break its numeric rules. `ScoreLaws` and
`ScoreOrder` have the laws of the scores, `ScoreMeaning` says of each number what it counts, over positions of the
lists, and `ReportLaws` what is scored and which reports are accepted. Reals stand for floats.

**Backup.** `BackupSlots` and `BackupSchedule` model slots, receipts and the scheduler's processes, lock, children
and files; `BackupSafety` is proved over every interleaving with crashes and orphaned children, `BackupHost` is
one scheduler run in place, `BackupRace` the window in which reports differ and `ScheduleLaws` which receipts are
accepted. `BackupObjects`, `BackupRestore` and `RestoreDrill` model the snapshot, its validation and the drill that
restores it; `RestoreLaws` says which directories are accepted and what a restore leaves. `Migration` is the resumable
table copy.

**Shared parts.** `Outcomes`, `Numbers`, `Octets`, `Sorting`, `StringSets` and `RealSums` hold results, bytes,
canonical sorting, and sums over lists and buckets.

**The document view.** `DocumentView` is the client's reducer, `DocumentLaws` tells denied, updating and error from the
history alone, and `DocumentsHook` is the hook that drives it.

Cryptography is symbolic. A digest is a term that holds what it is the digest of, so equal digests have equal
contents. A tag holds its key and body, and the channel can deliver only tags that an honest party made, or
tags under keys it has itself. The envelope tag of an object, case folding, the rank discount and the raw
SHA-256 of a bundle member are arbitrary functions passed as parameters.

## Findings

Some expected properties do not hold of the code as it is. Each has a lemma with the failing input and the
condition under which the property holds.

- *A client used again after a failed request.* `_request` does not close the client when a request raises, so
  the next request reuses the sequence number. The log then need not begin with what was sent first, and an
  acknowledgement may answer another request (`CaptureReuse`). One more request can break the order exactly when
  the collector has not logged the failed one (`CaptureRetry.RetryBreaksExactly`); the counts and the link between
  acknowledgements and log entries hold always.
- *An executor that swallows a timeout.* A whole run completes, sealed and with labels, in which one case's only
  event is the digest of another case's request while every count agrees
  (`BenchmarkMisfiling.SwallowedTimeoutMisfiles`). For executors that forge no event: a completed run files exactly if
  and only if each log entry names the case of the request its acknowledgement answered (`BenchmarkFiling`). Given only
  the requests, some channel misfiles if and only if a log with gapless ordinals can be written from them with an entry
  of another case (`BenchmarkOutcomes.MisfilingExactly`). So no channel does when no failed request is followed by one
  of another case; every completed run is misfiled when one is followed by a request of the same model for another case
  (`SameModelRetryMisfiles`); and another model need not do (`MixedNeedNotMisfile`). A stream that loses no frame never
  does.
- *A replay of a receipt without its last newline.* The text parses, so two replays of a slot can report different
  `child_receipt_sha256` (`BackupRace`). Reports always agree on everything else, and on the digest too exactly
  when both or neither read the newline; next to a PASS they always do.
- *A backup longer than five minutes.* PASS validates against the time observed before the child ran, so such a
  run fails although its backup is complete; the next run of the slot reports it (`BackupHost.SecondRunReplays`).
- *A migration that can never complete.* Rows are inserted in key order; foreign keys and unique keys are checked at
  once, and only a conflict of primary keys is ignored. The copy is refused, on every retry, for a chunk whose key
  precedes its parent's (`Migration.ChildBeforeParent`) and for an active embedding profile that is not the one the
  schema itself inserts (`Migration.FreshTargetRefuses`). A run completes exactly when each missing row finds the rows of
  its own table it refers to in the target or no later in key order, and shares no unique value with a row there or
  with another missing one (`Migration.CompletesExactly`); for a fresh target, `Migration.FreshTargetExactly`.
- *Rows that were in the migration target.* They are kept. The target ends equal to the source exactly when a run
  completes and those rows were compatible; a stale circular link stays (`Migration.SourceArrivesExactly`,
  `Migration.StaleLinkStays`).
- *Times before 1970.* `int()` cuts toward zero, so a slot can miss its own instant; `BackupSlots.SlotHoldsExactly`
  says when. From 1970 on slots tile time.

## Model

| member | source | states |
|---|---|---|
| CaptureProtocol.CaptureClient.constructor | scripts/capture_local_provider_boundary.py:319-381 | the client holds a session key exactly when the handshake answer is tagged for its own challenge and bindings |
| CaptureProtocol.CaptureClient.Select | scripts/capture_local_provider_boundary.py:412-415 | only the selected case changes |
| CaptureProtocol.CaptureClient.Send | scripts/capture_local_provider_boundary.py:383-410 | one body is sent; a response is returned exactly when its tag, session and sequence fit, and otherwise the request counts as failed |
| CaptureProtocol.CaptureClient.Capture | scripts/capture_local_provider_boundary.py:417-436 | the count and the acknowledgements move exactly as the client's transition function says, on every error path too |
| CaptureProtocol.CaptureClient.SealAndReadLabels | scripts/capture_local_provider_boundary.py:438-473 | labels are returned only for the client's own count, and the client is closed then |
| CaptureProtocol.CollectorLoop.RecordEvent | scripts/capture_local_provider_boundary.py:563-589 | an event is logged exactly when it is the next of its model within the limit; hashes, ordinals, kinds and sequence move together |
| CaptureProtocol.CollectorLoop.SealRequests | scripts/capture_local_provider_boundary.py:590-648 | evidence and answer exist exactly when the count matches a non-empty log and the golden bytes are the bound ones |
| CaptureProtocol.CollectorLoop.Turn | scripts/capture_local_provider_boundary.py:546-650 | one turn of the loop is the collector's transition: tag, session and sequence are checked before the command |
| CaptureProtocol.CollectorLoop.Drain | scripts/capture_local_provider_boundary.py:546-651 | the loop over a whole stream sends the answers and leaves the evidence that the transitions define |
| CaptureProtocol.Serve | scripts/capture_local_provider_boundary.py:476-657 | the collector program from handshake to seal, for every stream of frames |
| CaptureLaws.WelcomesExactly | scripts/capture_local_provider_boundary.py:498-543 | the collector answers exactly the greetings with its own bindings under the shared nonce, with an answer bound to that challenge |
| CaptureLaws.NormalizesExactly | scripts/capture_local_provider_boundary.py:211-313 | a request is recorded exactly when its event is a true description of its payload, and the record is its digest, its true item, field and byte counts and its tokens |
| CaptureLaws.CaptureTurn | scripts/capture_local_provider_boundary.py:563-589 | a capture frame is recorded exactly when it describes its payload, is the next of its model and is one of the first 1,000,000; the log grows by that record and the answer names it |
| CaptureLaws.SealTurn | scripts/capture_local_provider_boundary.py:590-648 | a seal is answered exactly for the number of a non-empty log, golden bytes within 8,000,000 and of the bound digest, and writable evidence, and the golden file is opened exactly for the right number |
| CaptureLaws.OtherFramesAbort | scripts/capture_local_provider_boundary.py:546-650 | any other frame ends the collector with nothing recorded or opened |
| CaptureLaws.GreetsExactly | scripts/capture_local_provider_boundary.py:319-381 | the client is connected exactly by an answer tagged for its own challenge and bindings |
| CaptureLaws.CapturesExactly | scripts/capture_local_provider_boundary.py:417-436 | what a capture sends, and that it returns a digest exactly when the answer acknowledges that digest for this session and request |
| CaptureLaws.ReleasesExactly | scripts/capture_local_provider_boundary.py:438-473 | labels are read exactly from an answer that names the client's own count |
| CaptureLaws.LogIsTrue | scripts/capture_local_provider_boundary.py:211-313 | in every run every log entry is a true account of a payload that the one client of the session sent |
| CaptureNetwork.HelloIsGenuine | scripts/capture_local_provider_boundary.py:506-521 | an accepted greeting was made by a client with these very bindings, whatever the channel did |
| CaptureNetwork.ReadyIsGenuine | scripts/capture_local_provider_boundary.py:351-381 | an accepted handshake answer was made by a collector for this client's challenge |
| CaptureNetwork.RequestIsGenuine | scripts/capture_local_provider_boundary.py:547-561 | an accepted request was sent by the one client of the session; a reflected answer is never taken for a request |
| CaptureNetwork.ReplyIsGenuine | scripts/capture_local_provider_boundary.py:395-410 | an accepted answer was made by the one collector of the session; a reflected request is never taken for an answer |
| CaptureNetwork.RunOk | scripts/capture_local_provider_boundary.py:316-657 | every step of every party and of the channel keeps the invariant of the whole network |
| CaptureAgreement.LogAgreesWithClient | scripts/capture_local_provider_boundary.py:383-436 | for every run: count <= log length <= count + 1, the acknowledgements are the log's own entries in order, each entry was computed from a request sent under that sequence, and without reuse the log is a prefix of what was sent |
| CaptureAgreement.PairingIsInjective | scripts/capture_local_provider_boundary.py:71-86 | sessions pair clients and collectors one to one |
| CaptureAgreement.GoldenOpensOnce | scripts/capture_local_provider_boundary.py:590-648 | once the golden file has been opened, the client had asked to seal, the log is non-empty, fully acknowledged, and nothing that happens later adds to log, count or acknowledgements |
| CaptureAgreement.ClosedUntilAsked | scripts/capture_local_provider_boundary.py:590-624 | as long as a client sent nothing but captures, its collector has not opened the golden file |
| CaptureAgreement.LabelsMeanSealed | scripts/capture_local_provider_boundary.py:438-473 | labels come only from the client's own sealed collector, with the digest and the count of exactly what the client had acknowledged |
| CaptureAgreement.CollectorBooks | scripts/capture_local_provider_boundary.py:545-589 | at every step the expected sequence is one past the log, each model's ordinals read 1, 2, 3, ... in log order and the kind counters add up to the log |
| CaptureAgreement.EvidenceMeans | scripts/capture_local_provider_boundary.py:600-634 | in every run evidence exists exactly for a sealed collector; its count, digest and kind counts are those of the log, kind by kind, and the kinds add up to the count |
| CaptureAgreement.ServedEvidenceMeans | scripts/capture_local_provider_boundary.py:600-634 | the same of the collector program on any stream of frames, whoever sent them |
| CaptureReuse.ReuseBreaksOrder | scripts/capture_local_provider_boundary.py:383-410 | a run in which a retried client's log does not begin with what it sent first |
| CaptureReuse.ReuseMisattributes | scripts/capture_local_provider_boundary.py:383-436 | a run in which the client returns the digest of its first request for the second one |
| CaptureRetry.RecordingIsInjective | scripts/capture_local_provider_boundary.py:211-313 | two requests of one session recorded as the same entry are the same request |
| CaptureRetry.RetryBreaksExactly | scripts/capture_local_provider_boundary.py:383-410 | for every reachable world with a failed client not used since: after one more request that the collector would record, some continuation without further requests breaks the order of the log exactly when the failed request has not been logged |
| FrameTransport.SendFrame | scripts/capture_local_provider_boundary.py:162-166 | a payload is sent with its newline exactly when it fits the frame limit |
| FrameTransport.ReceiveFrame | scripts/capture_local_provider_boundary.py:169-191 | for every fragmentation a single frame within the limit is received exactly, and whatever is received is one whole newline-free frame with no byte of another one consumed |
| FrameTransport.Converse | scripts/capture_local_provider_boundary.py:390-395 | with alternating requests and replies every frame arrives as sent and nothing is left on either wire |
| ProviderCalls.EmbeddingAdmitted | scripts/local_benchmark_providers.py:292-322 | every embedding event with its texts passes the collector's normalisation and the ledger's checks |
| ProviderCalls.GenerationAdmitted | scripts/local_benchmark_providers.py:689-729 | so does every generation or repair event with its prompt |
| BenchmarkObjects.ObservedLedger.SelectCase | scripts/run_local_production_benchmark.py:574-576 | a case is opened without losing what was filed under it before |
| BenchmarkObjects.ObservedLedger.ObserveEvent | scripts/run_local_production_benchmark.py:578-652 | an event is counted and filed under the active case exactly when it is admitted, open and within the budget |
| BenchmarkObjects.ObservedLedger.RecordsFor | scripts/run_local_production_benchmark.py:657-669 | one record for each case, exactly when every case has an event and none has more than 10,000 |
| BenchmarkObjects.LocalBgeProvider.EmbedTexts | scripts/local_benchmark_providers.py:292-417 | counters, ordinal, capture and observation of an embedding call, also when it fails half way |
| BenchmarkObjects.LocalQwenClient.GenerateRequest | scripts/local_benchmark_providers.py:689-799 | the same for a generation call, which counts only after its request was observed |
| BenchmarkCounts.SendsExactly | scripts/local_benchmark_providers.py:292-322 | exactly which calls reach the collector, and that each says the adapter's next number, its own identity and the true size of its payload |
| BenchmarkCounts.LateEmbeddingCounts | scripts/local_benchmark_providers.py:324-346 | an embedding call is counted before the adapter looks whether it is closed |
| BenchmarkCounts.ObservesExactly | scripts/run_local_production_benchmark.py:578-652 | exactly which events the ledger takes; beyond the budget they are counted and not kept |
| BenchmarkCounts.FaithfulRunCounts | scripts/local_benchmark_providers.py:731-799 | in a run whose executor swallows no failure every counter is the sum over the calls made: calls by kind, tokens embedded, prompted and generated |
| BenchmarkObjects.Runner.WorkThrough | scripts/run_local_production_benchmark.py:1262-1337 | both phases over the queue of handles do exactly the visits of the plan, in order |
| BenchmarkCounts.WorkIsTimeline | scripts/run_local_production_benchmark.py:1262-1337 | the nested lifecycle is one flat list of clock checks, case openings, calls and the switch of providers, with the same books on every path |
| BenchmarkCounts.CompletedMeans | scripts/run_local_production_benchmark.py:1262-1440 | a run gets to its report only if every case of every phase returned in time, the executor was prepared, attested and finalised, and the usage counted is the ledger's |
| BenchmarkObjects.Runner.Conclude | scripts/run_local_production_benchmark.py:1364-1400 | the ledger is sealed and both providers closed whether the work succeeded or not |
| BenchmarkObjects.Runner.Lifecycle | scripts/run_local_production_benchmark.py:1262-1400 | work, usage check and closing: the books are those of the plan whether or not it failed |
| BenchmarkObjects.Runner.Release | scripts/run_local_production_benchmark.py:1402-1421 | the ledger is frozen before the client asks to seal, and labels come only after both |
| BenchmarkObjects.Runner.Execute | scripts/run_local_production_benchmark.py:1262-1440 | on every exit a request to seal and labels imply a frozen ledger, and a frozen ledger implies a sealed request ledger and closed providers; a report exists only after every gate, with the pack unchanged to the end |
| BenchmarkObjects.GoldenMeansFrozen | scripts/run_local_production_benchmark.py:1402-1421 | in every run of the network: if the collector of the runner's client has opened the golden file, answered or not, the ledger is frozen, the request ledger sealed and both providers closed |
| BenchmarkObjects.ClosedWhileWorking | scripts/run_local_production_benchmark.py:1262-1337 | while the executor works, even while a capture waits for its answer, the golden file is closed |
| BenchmarkRun.SealedLedgerFixed | scripts/run_local_production_benchmark.py:578-655 | a sealed ledger takes no call and no event, whatever is tried |
| BenchmarkRun.NothingMoves | scripts/run_local_production_benchmark.py:1364-1421 | with the ledger sealed and both providers closed no script of calls reaches client, ledger or generation counters |
| BenchmarkGuarantees.CountsAgree | scripts/run_local_production_benchmark.py:1025-1057 | in every completed run ledger calls, provider counters, client count, collector log, kind counters, per-model ordinals, sealed count and the sum of the kind counts in the evidence are the same positive number |
| BenchmarkCounts.EvidenceAgreesWithProviders | scripts/run_local_production_benchmark.py:1025-1057 | when nothing was lost or forged, the evidence's kind counts are the adapters' own counters, kind by kind, and the tokens the log records are the tokens they counted |
| BenchmarkGuarantees.EventsAreFilteredLog | scripts/run_local_production_benchmark.py:1270-1315 | when nothing was lost, every case's events are exactly the collector's log filtered to the case, across both phases |
| BenchmarkGuarantees.FaithfulRunFilesExactly | scripts/run_local_production_benchmark.py:1270-1337 | which holds of every completed run of an executor that lets failures through |
| BenchmarkGuarantees.LogIsWhole | scripts/capture_local_provider_boundary.py:563-589 | while nothing was lost the log is the client's acknowledgements and the collector's ordinals are the adapters' |
| BenchmarkGuarantees.NextRequestIsRecorded | scripts/capture_local_provider_boundary.py:563-589 | and then the next request of either adapter, if its frame is within the limit and arrives, is recorded and acknowledged, below the request limit |
| BenchmarkFiling.FilesExactlyIff | scripts/run_local_production_benchmark.py:574-669 | a completed run without forged events, whatever failures it swallowed, files every request under its case if and only if each log entry names the case of the request that its acknowledgement answered |
| BenchmarkFiling.UnmixedRunFilesExactly | scripts/run_local_production_benchmark.py:574-669 | when no failed request is followed by one of another case, every completed run files exactly, whatever the channel did |
| BenchmarkFiling.StreamedRunFilesExactly | scripts/capture_local_provider_boundary.py:546-561 | on a stream that delivers every frame in order, every completed run files exactly |
| BenchmarkMisfiling.SwallowedTimeoutMisfiles | scripts/run_local_production_benchmark.py:574-669 | for any two cases and prompts: a completed run of the network, seal accepted and labels read, whose books differ from the log filtered by case although all counts agree |
| BenchmarkOutcomes.PossibleLogHappens | scripts/capture_local_provider_boundary.py:383-436 | every log with gapless ordinals that can be written from the requests of a completed run is written in a completed run of the same executor |
| BenchmarkOutcomes.LogsExactly | scripts/capture_local_provider_boundary.py:545-589 | and only those: exactly which logs the runs of an executor that sends these requests can have |
| BenchmarkOutcomes.MisfilingExactly | scripts/run_local_production_benchmark.py:574-669 | from the requests alone, exactly when some channel behaviour gives a completed run whose books are wrong |
| BenchmarkOutcomes.SameModelRetryMisfiles | scripts/run_local_production_benchmark.py:574-669 | a swallowed failure followed, under its number, by a request of the same model for another case is misfiled in every completed run |
| BenchmarkOutcomes.MixedNeedNotMisfile | scripts/capture_local_provider_boundary.py:571-577 | a failed embedding followed by generations of another case never is, because its log entry would leave a gap in the ordinals |
| BenchmarkNetwork.RunIsNetworkRun | scripts/run_local_production_benchmark.py:1262-1421 | a run whose client gets answers the channel can deliver is a run of the network, sealed answer included |
| BenchmarkPack.AdmitDocuments | scripts/local_benchmark_pack.py:501-532 | documents are admitted exactly when identifiers and names are unique and revisions name an earlier document |
| BenchmarkPack.RevisionsFormForest | scripts/local_benchmark_pack.py:517-524 | admitted revision links lead strictly backwards to one document that revises nothing |
| BenchmarkPack.AdmitCases | scripts/local_benchmark_pack.py:482-572 | the loop over the records admits exactly the case lists with unique ids, valid query types within the limit and admitted documents |
| PackLaws.DocumentsExactly | scripts/local_benchmark_pack.py:501-532 | between 1 and 128 documents of distinct identifiers and names, each revision of an earlier one |
| PackLaws.CasesExactly | scripts/local_benchmark_pack.py:482-572 | between 1 and 10,000 cases of distinct identifiers, at most 100 query types of 1 to 64 admitted characters |
| BenchmarkPack.FreezingIsCanonical | scripts/local_benchmark_pack.py:974-977 | the ledger digest is the same for every ordering of the records |
| BenchmarkPack.CoveringIsBijective | scripts/local_benchmark_pack.py:952-973 | the records that can be frozen name every case exactly once and nothing else |
| BenchmarkPack.CheckRecords | scripts/local_benchmark_pack.py:948-973 | the loop accepts exactly those records |
| PackLaws.RecordsExactly | scripts/local_benchmark_pack.py:948-973 | the records that can be frozen: at most 10,000, no case twice, every case and nothing else |
| PackLaws.FrozenInOrder | scripts/local_benchmark_pack.py:974-977 | what is digested are the records by strictly increasing identifiers |
| BenchmarkPack.AdmitLabels | scripts/local_benchmark_pack.py:629-684 | labels are admitted exactly when they are well formed, one for each case and bound to the case's documents |
| PackLaws.LabelsExactly | scripts/local_benchmark_pack.py:629-684 | exactly which labels are released: the limits on their lists, answerable exactly with facts and sources, one for each case, sources and forbidden ones documents of the case and disjoint |
| BenchmarkPack.LabelsMatchCases | scripts/local_benchmark_pack.py:1028-1060 | admitted labels are in bijection with the cases and expect only documents of their own case that they do not forbid |
| BenchmarkPack.LocalBenchmarkPack.ExecutionProjection | scripts/local_benchmark_pack.py:853-873 | the cases are what was admitted, parsed once, or an error |
| BenchmarkPack.LocalBenchmarkPack.FreezeRequestLedger | scripts/local_benchmark_pack.py:937-977 | the ledger freezes at most once and exactly on covering records of an unchanged pack |
| BenchmarkPack.LocalBenchmarkPack.LoadLabelsPayload | scripts/local_benchmark_pack.py:995-1060 | labels are returned exactly after freezing, from bytes with the expected digest that match the cases |
| Framing.DecodedOfEncoded | scripts/local_benchmark_pack.py:139-147 | the digested bytes give back the domain and every chunk |
| Framing.UniquelyDecodable | scripts/local_benchmark_pack.py:389-407 | two digest inputs are equal exactly for the same domain and the same list of chunks |
| Framing.BundleDescriptor | scripts/local_benchmark_pack.py:244-271 | exactly packs within the size limits are digested, member by member in order |
| Framing.BundleFromMembers | scripts/local_benchmark_pack.py:291-318 | the same bytes are digested from sizes and content digests alone |
| FramingLaws.BundleMeans | scripts/local_benchmark_pack.py:291-318 | the bytes digested of a pack, written out: domain, NUL, and of each member path, size and content digest behind their lengths |
| FramingLaws.DigitsMean | scripts/local_benchmark_pack.py:139-142 | a length is written as eight bytes, the most significant first |
| Framing.SameBundleExactly | scripts/local_benchmark_pack.py:291-318 | the two digests agree exactly when paths, sizes and content digests do |
| CaseExecution.ActiveIsLast | scripts/local_production_case_executor.py:126-147 | the active version of a physical document is the one ingested last |
| CaseExecution.CitationCountsExactly | scripts/local_production_case_executor.py:850-868 | a citation of the version a case ingested last counts exactly when no case retrieved since replaced the version or its logical name |
| CaseExecution.SupersededIsInvalid | scripts/local_production_case_executor.py:850-868 | a citation of a version that a later case replaced is reported as opaque and counted as invalid |
| CaseExecution.RetrievalReportsNoDuplicates | scripts/local_production_case_executor.py:815-869 | what retrieval returns gives no duplicate, so the executor's own observation meets the duplicate rule |
| CaseLaws.JudgesExactly | scripts/local_production_case_executor.py:815-869 | what an answer reports, position by position: sources once and in order of first occurrence under their right names, and the numbers of invalid citations, stale candidates and repeated chunks |
| CaseLaws.LogicalMeans | scripts/local_production_case_executor.py:126-147 | a document and version has the logical name that the case gave it last, and no other has one |
| RetrievalFusion.ReciprocalRankFusion | document-rag-platform/services/backend/src/infrastructure/retrieval/rrf.py:36-69 | every key of the lists exactly once, by decreasing sum of 1 / (k + first rank) and then by key |
| RetrievalFusion.FusionIsCanonical | document-rag-platform/services/backend/src/infrastructure/retrieval/rrf.py:55-69 | the fused ranking does not depend on the order of the lists |
| RetrievalFusion.ScoreMeans | document-rag-platform/services/backend/src/infrastructure/retrieval/rrf.py:36-54 | a list adds 1 / (k + position) for the first place of a key and nothing else |
| RetrievalFusion.FusionMeans | document-rag-platform/services/backend/src/infrastructure/retrieval/rrf.py:55-69 | every key once, a higher score first, and at equal scores the smaller key |
| RetrievalFusion.DominatingComesFirst | document-rag-platform/services/backend/src/infrastructure/retrieval/rrf.py:55-69 | a chunk put first by every list that names another one is ranked before it |
| RetrievalFusion.Fuse | document-rag-platform/services/backend/src/infrastructure/retrieval/rrf.py:72-115 | one candidate for each fused key, in that order, with the data of its first occurrence |
| RetrievalFusion.Dedupe | document-rag-platform/services/backend/src/infrastructure/retrieval/rrf.py:118-141 | the loop keeps the hits that are not a later copy of the same content |
| RetrievalFusion.CopiesAreDropped | document-rag-platform/services/backend/src/infrastructure/retrieval/rrf.py:118-141 | no content is kept twice and none is lost |
| RetrievalFusion.RerankInput | document-rag-platform/services/backend/src/application/retrieval_service.py:689-724 | candidates are taken greedily within both budgets |
| RetrievalFusion.Retrieve | document-rag-platform/services/backend/src/application/retrieval_service.py:436-480 | fusion, cut, removal of copies and budget, with the reranker switched off |
| RetrievalFusion.RetrievedChunksDistinct | document-rag-platform/services/backend/src/application/retrieval_service.py:436-480 | retrieval returns no chunk twice, only what some retriever returned, and stays within both budgets |
| RetrievalFusion.NarrowedExactly | document-rag-platform/services/backend/src/application/retrieval_service.py:455-480 | what goes on after fusion are increasing positions before the cut; one is left out exactly when an earlier one has its content or it does not fit the budgets with those kept before it |
| RetrievalFusion.RetrievalKeepsRanking | document-rag-platform/services/backend/src/application/retrieval_service.py:436-480 | so what retrieval returns is in the order of the fused ranking and from its first candidates |
| CaseExecution.CaseExecutor.RetrieveCase | scripts/local_production_case_executor.py:606-756 | a new pending handle for a case without one, sharing the table of active versions that it updates |
| CaseExecution.CaseExecutor.AnswerCase | scripts/local_production_case_executor.py:758-775 | a handle is answered exactly when it is pending, once, against the versions active by then |
| CaseExecution.CaseExecutor.Finalize | scripts/local_production_case_executor.py:922-959 | a run is accepted only when every handle was answered, and is over either way |
| CaseExecution.AcceptedRunAnswersAll | scripts/local_production_case_executor.py:927-932 | an accepted run answered every handle exactly once |
| RankGain.CollectRelevantRanks | scripts/run_local_production_benchmark.py:843-848 | the loop collects the first positions of the expected sources |
| RankGain.RankMeansFirstHit | scripts/run_local_production_benchmark.py:843-848 | a position is collected exactly when it holds an expected source for the first time |
| RankGain.RanksCountHits | scripts/run_local_production_benchmark.py:843-848 | there are as many ranks as distinct expected sources retrieved |
| RankGain.RanksDominated | scripts/run_local_production_benchmark.py:859-865 | increasing ranks gain at most the ideal, and exactly the ideal only as 1, 2, 3, ... |
| RankGain.GainIsIdealExactly | scripts/run_local_production_benchmark.py:859-865 | the gain is between 0 and the ideal, and ideal exactly when the first min(expected, 10) positions are distinct hits, for every strictly decreasing positive discount |
| Percentile.ValueMonotone | scripts/run_local_production_benchmark.py:766-770 | interpolated percentiles grow with the fraction |
| Percentile.PercentilesOrdered | scripts/run_local_production_benchmark.py:761-772 | p50 <= p95 <= p99 for every list |
| Percentile.PercentilesBounded | scripts/run_local_production_benchmark.py:761-772 | they stay between minimum and maximum |
| Percentile.PercentilesCanonical | scripts/run_local_production_benchmark.py:762-764 | they do not depend on the order of the values |
| ScoreMeaning.PercentilesAre | scripts/run_local_production_benchmark.py:761-772 | p50, p95 and p99 interpolate between the two values next to 1/2, 19/20 and 99/100 of the way |
| Percentile.NearestRankIsLeast | scripts/slo_rehearsal.py:288-291 | the nearest-rank p95 is a sample that at least 95 percent do not exceed, and the least one |
| ScoreRun.Index | scripts/run_local_production_benchmark.py:784-786 | a dictionary by identifier holds the last record of each, in the order of first occurrence |
| ScoreRun.ScoreRetrieval | scripts/run_local_production_benchmark.py:843-873 | recall at four cutoffs, reciprocal rank, discounted gain, context precision and recall of one case |
| ScoreMeaning.ReciprocalRankMeans | scripts/run_local_production_benchmark.py:849-858 | 1 / (k + 1) when k < 10 is the first position of an expected source, and 0 exactly when none of the first ten is one |
| ScoreMeaning.RecallMeans | scripts/run_local_production_benchmark.py:852-857 | recall@k times the expected sources is the number of them within the first k |
| ScoreMeaning.ContextMeans | scripts/run_local_production_benchmark.py:866-873 | the same for context precision and recall, with their values when nothing is expected or retrieved |
| ScoreMeaning.DiscountedGainMeans | scripts/run_local_production_benchmark.py:859-865 | the gain is the sum of the discounts of the positions among the first ten that hold an expected source for the first time, over the ideal one |
| ScoreRun.ScoreCitations | scripts/run_local_production_benchmark.py:879-893 | the counting loops give the four citation rates, whose counts are numbers of positions of the citation list |
| ScoreMeaning.CitationsMean | scripts/run_local_production_benchmark.py:879-893 | the citation rates times their denominators are numbers of citations and of sources |
| ScoreRun.ScoreAnswer | scripts/run_local_production_benchmark.py:874-912 | answerability, unsupported claims, sufficiency, contradiction and injection of one case |
| ScoreMeaning.AnswerMeans | scripts/run_local_production_benchmark.py:874-897 | false answers, false refusals and the share of unsupported claims |
| ScoreMeaning.SufficiencyCounts | scripts/run_local_production_benchmark.py:898-903 | sufficiency times the facts is the number of facts that occur in the folded answer |
| ScoreMeaning.ForbiddenMeans | scripts/run_local_production_benchmark.py:904-912 | contradiction and injection by whether a forbidden source was retrieved or cited |
| ScoreRun.AddCase | scripts/run_local_production_benchmark.py:828-930 | one turn of the loop appends exactly this case to every list, counter and bucket |
| ScoreRun.Breakdown | scripts/run_local_production_benchmark.py:931-948 | the entry of each query type is computed from exactly its cases |
| ScoreMeaning.BreakdownMeans | scripts/run_local_production_benchmark.py:931-948 | an entry for exactly the query types that occur, with the number of its cases and of those falsely answered and declined |
| ScoreRun.Score | scripts/run_local_production_benchmark.py:779-1022 | exactly the scorable inputs are scored, and the report is that of their joined rows |
| ReportLaws.ScoresExactly | scripts/run_local_production_benchmark.py:784-839 | exactly which inputs get a score |
| ReportLaws.RowsJoinExactly | scripts/run_local_production_benchmark.py:828-830 | each case is scored with a label and an observation of this very case, in the order of the cases |
| ScoreMeaning.RowsAdd | scripts/run_local_production_benchmark.py:949-958 | what one more case adds to each average rate, to the invalid citations and to the fabricated answers |
| ScoreMeaning.CountersAdd | scripts/run_local_production_benchmark.py:954-978 | what one more observation adds to the counters |
| ScoreMeaning.LeaksMean | scripts/run_local_production_benchmark.py:962-973 | a leak rate times the observations is the number of observations with a leak |
| ScoreMeaning.DuplicatesMean | scripts/run_local_production_benchmark.py:974-975 | the duplicate rate relates duplicates to the number of retrieved sources |
| ScoreMeaning.TimesMean | scripts/run_local_production_benchmark.py:980-993 | the four time entries are the percentiles of the times of all observations |
| ScoreMeaning.StagesMean | scripts/run_local_production_benchmark.py:994-1009 | an entry for exactly the stages that occur, over the observations that have them |
| ScoreMeaning.ErrorsMean | scripts/run_local_production_benchmark.py:1010-1019 | the number of observations with each error code that occurs |
| ScoreMeaning.IdentifiersMean | scripts/run_local_production_benchmark.py:913-922 | the identifier rates times the identifier queries are numbers of successes among the first ten |
| ScoreMeaning.FirstRanksMean | scripts/run_local_production_benchmark.py:849-851 | the mean first rank is over the cases with a hit |
| ScoreLaws.RateInUnit | scripts/run_local_production_benchmark.py:852-912 | every rate of every case lies in [0, 1] |
| ScoreLaws.NdcgExactly | scripts/run_local_production_benchmark.py:859-865 | nDCG@10 lies in [0, 1] and is 1 exactly for a perfect top |
| ScoreLaws.CitationRatesMean | scripts/run_local_production_benchmark.py:879-893 | precision is 1 exactly when every citation is expected, recall and coverage exactly when every expected source is cited, invalidity 0 exactly when every citation is a document of the case |
| ScoreLaws.CorrectIsNotInvalid | scripts/run_local_production_benchmark.py:879-893 | with labels bound to the case's documents, precision and invalidity add up to at most 1 |
| ScoreLaws.SufficiencyMeans | scripts/run_local_production_benchmark.py:898-904 | sufficiency is 1 exactly when the answer states every expected fact |
| ScoreLaws.RecallMonotone | scripts/run_local_production_benchmark.py:852-873 | recall@k grows with k and never exceeds context recall |
| ScoreLaws.MeanRecallMonotone | scripts/run_local_production_benchmark.py:949 | so do the means in the report |
| ScoreLaws.BreakdownConserves | scripts/run_local_production_benchmark.py:931-949 | for each of the four rates, record-weighted bucket means add up to the number of cases times the report's mean |
| ScoreLaws.FabricatedAgrees | scripts/run_local_production_benchmark.py:874-878 | the counter of fabricated answers is the false positive rate times the number of cases |
| ScoreLaws.InvalidityGatesAgree | scripts/run_eval.py:67-112 | the absolute gate and the rate gate on invalid citations are met by the same reports |
| ScoreOrder.OrderIrrelevant | scripts/run_local_production_benchmark.py:779-1022 | permuting cases, labels or observations changes neither whether a run is scored nor its metrics or breakdown |
| ReportCheck.CheckReport | scripts/run_eval.py:1436-1554 | the checker accepts exactly the reports that meet its numeric, ordering, key and total rules |
| ReportLaws.ChecksExactly | scripts/run_eval.py:1436-1554 | exactly which reports are accepted, with the limits and the totals written out |
| ReportCheck.RecordsAddUp | scripts/run_eval.py:1775-1782 | the record counts of a breakdown add up to the number of cases |
| ReportCheck.ErrorsAddUp | scripts/run_eval.py:1549-1554 | the error counts add up to at most the number of observations |
| ReportCheck.ProducerPasses | scripts/run_local_production_benchmark.py:779-1022 | every report scored from admitted cases, labels and validated observations passes the checker and the comparison with the dataset |
| BackupSlots.SlotsTile | scripts/backup_scheduler.py:68-79 | since 1970 each instant lies in its own slot and in no other |
| BackupSlots.SlotHoldsExactly | scripts/backup_scheduler.py:68-79 | exactly when an instant lies in the slot computed for it, for all times |
| BackupSlots.MidnightStartsSlot | scripts/backup_scheduler.py:68-79 | every UTC midnight starts a slot, for every admitted interval |
| BackupSlots.SameSlotIff | scripts/backup_scheduler.py:68-79 | two times have the same slot exactly when they share its window |
| ScheduleLaws.IntervalsExactly | scripts/backup_scheduler.py:68-79 | admitted intervals are at least five minutes and divide a day |
| ScheduleLaws.KeyMeans | scripts/backup_scheduler.py:82-84 | the name of a slot is its start and twelve characters of the revision |
| BackupSchedule.ValidLater | scripts/backup_scheduler.py:380-399 | a receipt that validates once validates at every later observation of the slot, with the same retention bound |
| BackupSchedule.TooEarlyExactly | scripts/backup_scheduler.py:380-399 | a receipt that validates later fails now exactly when it was completed more than five minutes after the observation |
| ScheduleLaws.ValidatesExactly | scripts/backup_scheduler.py:287-399 | exactly which receipts are accepted, and what is taken from them, with every limit written out |
| BackupSafety.NextKeeps | scripts/backup_scheduler.py:500-610 | every step of every scheduler and child, and every crash, keeps the invariant |
| BackupSafety.OneChildPerSlot | scripts/backup_restore.py:1420-1432 | over every interleaving at most one child of a slot passes the reservation and at most one creates the directory, the same one |
| BackupSafety.OnePassPerSlot | scripts/backup_scheduler.py:590-610 | at most one run of a slot ever reports PASS |
| BackupSafety.ReportsAgree | scripts/backup_scheduler.py:507-526 | all reports of a slot agree on manifest, counts and times, on the receipt digest exactly when both or neither read the newline, and always next to a PASS |
| BackupSafety.ReportsAreBacked | scripts/backup_scheduler.py:374-379 | every report names the manifest in the directory of the child that reserved the receipt |
| BackupHost.Host.Perform | scripts/backup_restore.py:1515-1591 | one step of a child in place: reserve, create, finish, write, exit or die |
| BackupHost.Host.RunSchedule | scripts/backup_scheduler.py:500-610 | one run under the lock, from admission to report, with the files it leaves |
| BackupHost.UndisturbedIsInterleaving | scripts/backup_scheduler.py:500-610 | that run is one of the interleavings the safety results cover |
| BackupHost.SecondRunReplays | scripts/backup_scheduler.py:507-526 | a fresh slot passes exactly when the backup took at most five minutes; a second run replays it with the same child and changes no file |
| ScheduleLaws.FailureHoldsSlot | scripts/backup_scheduler.py:507-526 | a failed backup is not retried within its slot: every later run refuses the receipt it left and changes nothing |
| BackupRace.ReplaysCanDiffer | scripts/backup_scheduler.py:207-246 | an interleaving in which two replays of a slot report different receipts |
| BackupObjects.AuthenticateEnvelope | scripts/backup_restore.py:552-588 | an envelope is accepted exactly when prefix, length and tag over nonce, name and whole ciphertext fit, read in pieces |
| BackupObjects.ReadAll | scripts/backup_restore.py:575-583 | the loop on the remaining bytes reads exactly the ciphertext or finds it truncated |
| BackupObjects.StoreObject | scripts/backup_restore.py:706-722 | an object in pieces of any size is stored whole, with its first seven bytes, exactly when it is within the limit |
| BackupRestore.CreateBackup | scripts/backup_restore.py:591-818 | exactly the backupable sources, with a dump that is not empty, give a manifest and a directory, which hold the whole listing |
| RestoreLaws.BackupableExactly | scripts/backup_restore.py:692-757 | exactly which sources can be backed up |
| RestoreLaws.ManifestMeans | scripts/backup_restore.py:745-777 | the manifest has the digest of the dump, every object once by increasing names with its size and digest, and their totals |
| RestoreLaws.DirectoryMeans | scripts/backup_restore.py:703-731 | the directory holds one file for each object, with its content, and nothing else |
| BackupRestore.ValidateMaterials | scripts/backup_restore.py:939-1106 | exactly the complete and authentic restore sets are accepted, with every item beside its content |
| RestoreLaws.AcceptedExactly | scripts/backup_restore.py:939-1106 | exactly which directories and manifests are accepted: the dump has its digest, every item describes an authentic envelope stored under its own name, the inventory digest is its own and the aggregates are those of the files |
| RestoreLaws.OnlyTheBackupIsAccepted | scripts/backup_restore.py:1011-1093 | with the manifest of a completed backup a directory is accepted exactly when its dump and the file of every object are the ones that were backed up, and addresses, port, bucket, clock and dump size are in order |
| RestoreDrill.RestoreObjects | scripts/backup_restore.py:1212-1231 | the loop completes exactly when every object arrived intact, and then the bucket holds what was prepared |
| RestoreDrill.RunRestoreDrill | scripts/backup_restore.py:1109-1256 | exactly when a drill gives a receipt, and PASS exactly when the key sets are equal and all four smokes hold |
| RestoreLaws.RestoredExactly | scripts/backup_restore.py:1212-1231 | for any accepted set: objects arrived intact exactly when they are the stored files, and the bucket then holds these under the names of the inventory and nothing else |
| RestoreDrill.CompletedBackupIsAccepted | scripts/backup_restore.py:939-1106 | a completed backup is accepted exactly when addresses, port, bucket, clock order and dump size are in order |
| RestoreDrill.RestoredBucketEqualsSource | scripts/backup_restore.py:692-779 | restoring a completed backup gives back the listing key by key and byte by byte |
| Migration.Target.CopyTable | scripts/migrate_v3_data.py:102-132 | inserts the missing rows in key order and commits, exactly when no foreign key and no unique key refuses one, and otherwise leaves the target as it was |
| Migration.Target.RestoreLink | scripts/migrate_v3_data.py:135-152 | sets exactly the circular fields that the source has and commits, exactly when the rows they name are there |
| Migration.Target.Execute | scripts/migrate_v3_data.py:166-205 | a run performs the commits up to the table it stops after, or up to the first one that is refused, or all of them |
| Migration.FullRunMerges | scripts/migrate_v3_data.py:193-202 | a run that completes, from any state that interrupted runs can leave, ends in the same merged database |
| Migration.ResumeEqualsOneShot | scripts/migrate_v3_data.py:193-202 | after any sequence of stopped or crashed runs one run that completes ends where a single run would have |
| Migration.SourceArrivesExactly | scripts/migrate_v3_data.py:102-152 | after any stopped, lost or refused runs and one more, every source row is equal in the target, circular fields included, exactly when a run completes and the rows that were there before are compatible |
| Migration.TargetRowsUntouched | scripts/migrate_v3_data.py:106-117 | a run that completes leaves rows that only the target has untouched |
| Migration.StaleLinkStays | scripts/migrate_v3_data.py:135-152 | a circular link that only the target row has survives every run |
| Migration.EveryCommitResolves | scripts/migrate_v3_data.py:17-35 | all references resolve at every committed state when others than circular ones point to the same or earlier tables |
| Migration.SchemaIsLayered | scripts/migrate_v3_data.py:17-35 | a database that follows the schema's foreign keys is copied parents first: the table order puts every referred table no later |
| Migration.CircularFieldsPointLater | scripts/migrate_v3_data.py:17-35 | the fields restored at the end are exactly the foreign keys that point to a later table |
| Migration.CompletesExactly | scripts/migrate_v3_data.py:102-119 | from any state on the way a run completes exactly when, within each table, a missing row finds the rows it refers to in the target or no later in key order and shares no unique value with a row there or another missing one |
| Migration.SchemaCompletesExactly | document-rag-platform/services/backend/alembic/versions_v3/20260902_0000_cv3_00000001_v3_baseline.py:46-395 | for databases that follow the schema only chunks before their parents and the unique values of projects, versions and profiles can stop a run, and exactly when they do |
| Migration.ApartExactly | document-rag-platform/services/backend/alembic/versions_v3/20260902_0000_cv3_00000001_v3_baseline.py:40-102 | which rows share a unique value: projects of one name, versions of one document and number, active profiles |
| Migration.ResumedRunCompletes | scripts/migrate_v3_data.py:193-202 | stopping and starting again never makes a run fail that would have completed at once |
| Migration.RefusedAgain | scripts/migrate_v3_data.py:102-119 | a run refused at a table is refused there on every retry |
| Migration.RetryDecidesNothing | scripts/migrate_v3_data.py:193-202 | after any stopped, lost or refused runs, a run completes exactly when the first one would have |
| Migration.FreshTargetExactly | document-rag-platform/services/backend/alembic/versions_v3/20260902_0000_cv3_00000001_v3_baseline.py:408-426 | into a target as its schema creates it, a source in order itself can be copied exactly when its active embedding profile is the one that the schema inserts |
| Migration.ForeignProfileIsRefused | document-rag-platform/services/backend/alembic/versions_v3/20260902_0000_cv3_00000001_v3_baseline.py:231-238 | a source whose active profile is another one than the target's is refused at the first table by every run, and nothing is ever committed |
| Migration.FreshTargetRefuses | document-rag-platform/services/backend/alembic/versions_v3/20260902_0000_cv3_00000001_v3_baseline.py:408-426 | the input: a fresh target and a source with one active profile of another identity |
| Migration.ChildBeforeParent | scripts/migrate_v3_data.py:79-85 | a chunk whose key precedes its parent's is refused |
| DocumentView.StaleResponsesErase | document-rag-platform/apps/web/features/documents/documentState.ts:32-69 | dropping any stale responses from a history with increasing starts leaves the final state unchanged |
| DocumentView.DocumentsExplained | document-rag-platform/apps/web/features/documents/documentState.ts:32-69 | the list is the last settled one of the current scope minus what was removed since |
| DocumentView.ShownOnce | document-rag-platform/apps/web/features/documents/documentState.ts:32-69 | that description determines the list |
| DocumentView.DeniedShowsNothing | document-rag-platform/apps/web/features/documents/documentState.ts:62-68 | while access is denied no document is held, for every history |
| DocumentLaws.DeniedExactly | document-rag-platform/apps/web/features/documents/documentState.ts:62-68 | access is denied exactly when a current failure had status 401, 403 or 404 and no current load or change of scope came since |
| DocumentLaws.UpdatingExactly | document-rag-platform/apps/web/features/documents/documentState.ts:32-69 | the view is updating exactly when the last start has not been answered by a current load or failure |
| DocumentLaws.ErrorExactly | document-rag-platform/apps/web/features/documents/documentState.ts:32-69 | the error is that of the last current failure since the last current load or change of scope |
| DocumentLaws.FailureKeepsList | document-rag-platform/apps/web/features/documents/documentState.ts:62-68 | a current failure keeps the list exactly when it is no problem response or has status 429 or at least 500 |
| DocumentLaws.StartsMean | document-rag-platform/apps/web/features/documents/documentState.ts:36-45 | selecting another scope forgets everything, starting again in the same one keeps what is shown |
| DocumentLaws.RemovalKeepsOthers | document-rag-platform/apps/web/features/documents/documentState.ts:55-61 | a removal takes out the items of that identifier and keeps the others as they stand |
| DocumentView.VisibleBelongs | document-rag-platform/apps/web/features/documents/useDocuments.ts:75-77 | the visible list holds only documents that a response of that project loaded and nothing removed |
| DocumentsHook.UseDocuments.Begin | document-rag-platform/apps/web/features/documents/useDocuments.ts:18-25 | the pending request is aborted and the next number is started |
| DocumentsHook.UseDocuments.Arrive | document-rag-platform/apps/web/features/documents/useDocuments.ts:26-44 | a response is dispatched exactly when its request was not aborted |
| DocumentsHook.UseDocuments.BeginRemove | document-rag-platform/apps/web/features/documents/useDocuments.ts:59-61 | a deletion starts exactly when a project is selected, access is not denied and nothing is under way |
| DocumentsHook.HookExplained | document-rag-platform/apps/web/features/documents/useDocuments.ts:18-84 | whatever the hook went through, its starts increase, no superseded response was dispatched and each project shows only its own documents |

## Left out

- Git, Docker, PostgreSQL, MinIO, Redis, argument and environment parsing, and the identity and endpoint
  admissions of a restore drill: only the files, buckets and rows they lead to are modelled.
- SHA-256, HMAC, AES-GCM, JSON and base64 internals: digests and tags are symbolic, and a malformed JSON value is one case.
- The non-capture mode of `execute`, model loading, tokenizers and snapshot hashing: an adapter call succeeds or fails.
- Regular expressions of record identifiers and versions, blank strings, decoded document sizes and the scope,
  persona and classification fields of a pack: they settle locally what a reader sees.
- Field-by-field receipt schemas, allow-lists and redaction of public JSON: long conjunctions.
- Floating-point rounding and the final `round(..., 6)` of the rehearsal: reals are used.
- Strict order of two successive timestamps: the code reads the clock twice, so only a non-decreasing clock is assumed.
- Waiting and time-outs of sockets: silence ends a request, and an incomplete frame is one that ends early.
- `select_restore_point`, the SLO ratios and the comparison of reports: they would add easy members.
- Ingestion, the retrievers, context building, a reranker that is switched on, and answering: the executor is arbitrary.
- CaptureAgreement.LogAgreesWithClient: the prefix of sent requests is claimed for clients that are not used again
  after a failure, because the code does not have it otherwise; `CaptureRetry.RetryBreaksExactly` says when.
- ProviderCalls.EmbeddingAdmitted: the frame size is not modelled; ordinals and the request limit are the subject of
  `BenchmarkGuarantees.NextRequestIsRecorded`.
- BenchmarkGuarantees.NextRequestIsRecorded: `_send_frame` refuses a frame over the limit before the collector sees it;
  here such a request is one that the channel drops.
- ProviderCalls.GenerationAdmitted: as for embeddings.
- BenchmarkPack.AdmitDocuments: identifier syntax, the form of file names, and content types and sizes are not checked.
- BenchmarkPack.AdmitCases: scope, persona, classification and data policy fields and the total decoded size are not checked.
- BenchmarkPack.AdmitLabels: record syntax, notes, reviewer, split and version fields are not checked.
- BenchmarkPack.LocalBenchmarkPack.ExecutionProjection: the manifest's record count and query types are not compared.
- Percentile.NearestRankIsLeast: the final rounding to six digits is not modelled.
- BackupRestore.ValidateMaterials: schema, revision and database identity fields are not modelled.
- RestoreDrill.RunRestoreDrill: identity and endpoint admissions are not modelled.
- BackupSchedule.ValidLater: receipt and manifest are read together here; the code reads them one after the other,
  and neither changes once the receipt parses.
- CaseExecution.CaseExecutor.RetrieveCase: ingestion and retrieval, which run between the check and the handle, are
  not part of the method; what fusion returns is in `RetrievalFusion`.
- RetrievalFusion.Fuse: the contributions of each retriever and the scores of the hits are not carried.
- Column types and NOT NULL constraints of the migration target, and changes to the source during a run: the snapshot
  is taken to be the admitted compatible one.
- RetrievalFusion.FusionIsCanonical: scores are real numbers; with floats the order of additions can change the last
  digit of a score.
