# A verified model of the VoiceText gateway

VoiceText admits recordings, submits each one to a paid speech provider, keeps the outcome in a
durable ledger and serves it to clients; beside that it relays live audio and its transcripts. This
project models the parts of the gateway where correctness does not show in any single function, and
proves what they promise.

- **Fenced batch submission.** `BatchProtocol` is a step system: any number of workers interleave
  admission, execution and startup recovery over one ledger with compare-and-swap, one paid provider and
  one audio spool, which belongs to one process because its lock does. A ledger write can fail before it commits or
  commit and lose its response, and a worker can stop at any suspension point. `BatchInvariant` states
  what every step keeps, `BatchTheorems` what that means for whole runs: the repository's promise that
  an uncertain paid submission is terminally fenced and never retried automatically (the repository's README.md:164-166).
  `BatchOutcomes` says what every step achieves, from the admitted row to the row that tells the answer.
  `BatchAudio` says exactly when the recording of an open job can be lost, `StartupRecovery` is the paged
  reconciliation under interference, `BatchServing` shows that every row a run can produce is served
  in a message the client accepts, and `ProviderProjection` says exactly which paid recognitions complete.
- **Live sessions.** `LiveSession`, `LiveTimeline` and `ElevenLabsLive` are the three objects whose
  methods update their fields; `LiveGateway` is the coordinator over them and the server loop; `LiveLog` is
  the history of a session, in which the words of every utterance add up. The results
  cross module borders: the adapter's synthesized timeline is always accepted by the separately written
  validator, and the loop never asks for a finalize status that the session or the wire contract refuses.
- **Provider responses.** `DeepgramTimeline`, `DeepgramBatch` and `WordMerge` (overlap removal and text
  merging), `WordGroups` and `ElevenLabsBatch` (word-to-segment splitting): what becomes of covered time
  and of the words, and that the result validator's conditions are met.
- **Uploads.** `OggPages` and `OggContainer` (page framing, section 6 of RFC 3533) and `OpusTiming`
  (granule positions and duration, sections 4 and 5 of RFC 7845).
- **Supporting parts.** `BatchSpool` (quota and ownership), `Keyterms` and `Fingerprint` (request
  identity), `RecordState` (state columns), `BatchContract` (public responses), `BatchShutdown` (task
  registration against shutdown).

`dafny verify dfyconfig.toml` checks the whole project.

How things are represented: job ids are numbers in the order in which the ledger sorts them; hashes,
Unicode tables, the exponential and libopus sample counts are function parameters with the few laws that
are used; seconds are reals; I/O, deadlines and crashes are inputs or steps that may happen at any time.

Where code and comment disagree the model follows the code: the comment on `request_fingerprint` asks for
keyterms in Rust string order (crates/voicetext-gateway/src/identity.rs:116), the code demands UTF-16 order.

## Model

| member | source | states |
|---|---|---|
| `BatchDomain.OperationsFollowEdges` | crates/voicetext-speech/src/domain/batch.rs:301-394 | whatever operation moves a job, it moves along an edge of the lifecycle and never out of a terminal state |
| `BatchDomain.BatchJob.BeginSubmission` | crates/voicetext-speech/src/domain/batch.rs:301-322 | the next attempt number, only from Accepted or Retryable, refused without change at the 32-bit limit |
| `BatchDomain.BatchJob.RecordRetryable` | crates/voicetext-speech/src/domain/batch.rs:323-335 | a submission, and nothing else, becomes retryable at its attempt with its code |
| `BatchDomain.BatchJob.RecordUnknown` | crates/voicetext-speech/src/domain/batch.rs:359-372 | a submission, and nothing else, becomes terminally unknown at its attempt with its code |
| `BatchDomain.BatchJob.RecoverInterruptedSubmission` | crates/voicetext-speech/src/domain/batch.rs:374-383 | an interrupted submission becomes terminally unknown at the same attempt, anything else is untouched |
| `BatchResults.CheckResult` | crates/voicetext-speech/src/application/batch_models.rs:150-225 | the running scan accepts exactly the results whose segments form one timeline inside the recording, with total sizes, confidences and references in bounds |
| `BatchResults.CheckSegments` | crates/voicetext-speech/src/application/batch_models.rs:158-186 | comparing with the previous end and a running total decides the condition on all pairs and on the whole total |
| `BatchResults.CheckReadable` | crates/voicetext-speech/src/application/batch_models.rs:187-224 | the same for readable segments, with strictly increasing in-range source indices |
| `BatchLedger.SwapAdvances` | crates/voicetext-gateway/src/storage/postgres.rs:115-173 | a compare-and-swap made from any past snapshot along a lifecycle edge keeps the exact row invariant and only moves the row forward; a stale one changes nothing |
| `BatchLedger.RecoveryHead` | crates/voicetext-gateway/src/storage/postgres.rs:242-255 | the greatest open job, or none |
| `BatchLedger.RecoveryPage` | crates/voicetext-gateway/src/storage/postgres.rs:175-210 | the smallest open jobs after the cursor and up to the head, ascending, none skipped |
| `BatchSpool.HistoryIsSound` | crates/voicetext-gateway/src/storage/spool.rs:69-163 | after any sequence of stores and removes, each cut short between any two of its changes or failing to take back a conflicting artifact, total bytes are within capacity and every artifact has the digest in its name |
| `BatchSpool.AtMostOneOwner` | crates/voicetext-gateway/src/storage/spool.rs:69-121 | of two same-content stores with no remove between them at most one is told it owns the artifact |
| `BatchSpool.RemoveUndoesStore` | crates/voicetext-gateway/src/storage/spool.rs:128-163 | a remove undoes the store that created an artifact, claim included |
| `BatchSpool.StoreClaims` | crates/voicetext-gateway/src/storage/spool.rs:69-121 | a store that fits succeeds, owns the artifact exactly if it was new, and claims the job against any other content |
| `BatchSpool.ArtifactStays` | crates/voicetext-gateway/src/storage/spool.rs:69-163 | only a remove of the same artifact takes it away |
| `BatchSpool.DurableFileSpool.StoreBlocking` | crates/voicetext-gateway/src/storage/spool.rs:69-121 | the directory afterwards is exactly what the store promises, also for each way it can be cut short; a store that ran whole and was refused changed nothing, and a conflicting one never succeeds |
| `BatchSpool.DurableFileSpool.SpoolAudioBytes` | crates/voicetext-gateway/src/storage/spool.rs:243-262 | the loop's accumulator is the total over all artifacts |
| `BatchInvariant.ClaimKeeps` | crates/voicetext-speech/src/application/batch.rs:167-192 | winning the claim, also with a lost response, keeps the invariant; the ticket is held by one worker and unused |
| `BatchInvariant.FreshTicket` | crates/voicetext-speech/src/application/batch.rs:167-192 | a claim of the next attempt is for a ticket nobody holds and nobody has sent |
| `BatchInvariant.SendKeeps` | crates/voicetext-speech/src/application/batch.rs:193-201 | calling the provider uses up a ticket for the current attempt and keeps the call history ordered |
| `BatchInvariant.RecordKeeps` | crates/voicetext-speech/src/application/batch.rs:202-221 | storing any outcome keeps the invariant: a retryable row only after evidence that the provider did not accept; which outcome is in `BatchOutcomes.RecordTells` |
| `BatchInvariant.ReconcileKeeps` | crates/voicetext-speech/src/application/batch_recovery.rs:40-82 | one recovery step keeps the invariant while other workers still run |
| `BatchTheorems.StepKeeps` | crates/voicetext-speech/src/application/batch.rs:57-223 | every step of every worker keeps the invariant and only extends the shared records |
| `BatchTheorems.RunKeeps` | crates/voicetext-speech/src/application/batch.rs:57-223 | so does every run |
| `BatchTheorems.FencedSubmission` | crates/voicetext-speech/src/application/batch.rs:146-223 | in every run no (job, attempt) is sent twice, and every call that is followed by another of the same job was answered known-not-accepted and retryable |
| `BatchTheorems.AtMostOneAccepted` | crates/voicetext-speech/src/application/batch.rs:146-223 | at most one submission of a job can have been accepted by the provider |
| `BatchTheorems.UncertainNeverRetried` | README.md:164-166 | once a submission has an answer that does not prove it safe to repeat, nobody ever submits that job again |
| `BatchTheorems.AbandonedNeverRetried` | README.md:164-166 | once the worker that sent a submission is gone without an answer, nobody ever submits that job again or learns what became of it |
| `BatchTheorems.TerminalForever` | crates/voicetext-speech/src/domain/batch.rs:231-238 | a terminal row never changes; the only call that can still follow is the one already claimed at that attempt |
| `BatchTheorems.CallsCarryAdmission` | crates/voicetext-speech/src/application/batch.rs:146-200 | every provider call carries the admitted identity and audio of the admitted digest |
| `BatchTheorems.ReachableRows` | crates/voicetext-gateway/src/storage/records.rs:522-551 | Accepted at revision 0, Submitting attempt n at 2n-1, any other state of attempt n at 2n; a valid result exactly when Completed; a bounded delay only when Retryable |
| `BatchTheorems.IdentityForever` | crates/voicetext-gateway/src/storage/postgres.rs:275-283 | the admission identity never changes |
| `BatchTheorems.AdmittedOnce` | crates/voicetext-speech/src/application/batch.rs:57-129 | each id is reported as newly accepted at most once |
| `BatchTheorems.VerdictsAreTruthful` | crates/voicetext-speech/src/application/batch.rs:236-249 | newly accepted means that this step created the row, with the request's profile, fingerprint, duration, keyterms and audio digest; any other verdict left the ledger alone, and is replay exactly when profile and fingerprint agree |
| `BatchTheorems.AdmissionDecides` | crates/voicetext-speech/src/application/batch.rs:236-249 | from its admission on the same request is always replayed, another profile or fingerprint always conflicts, and nobody is admitted again |
| `BatchOutcomes.RecordTells` | crates/voicetext-speech/src/application/batch.rs:202-221 | recording an answer from an unmoved claim stores exactly the outcome the answer calls for, with its code, delay, result and reference, one revision later; a moved row or an oversized delay changes nothing |
| `BatchOutcomes.RowsTellAnswers` | crates/voicetext-speech/src/application/batch_models.rs:86-143 | in every run every row says exactly what the provider answered to its last attempt, and nothing before an answer |
| `BatchOutcomes.ExecutionSends` | crates/voicetext-speech/src/application/batch.rs:146-201 | an open job whose audio is there is sent by an idle worker exactly once, as the next attempt, with the admitted identity and audio |
| `BatchOutcomes.ExecutionReachesOutcome` | crates/voicetext-speech/src/application/batch.rs:146-223 | and whatever the provider answers, the row then tells it |
| `BatchOutcomes.AdmissionReachesRow` | crates/voicetext-speech/src/application/batch.rs:57-115 | a new request that fits the spool is admitted for exactly itself, and its audio is stored |
| `BatchOutcomes.KnownIdIsAnswered` | crates/voicetext-speech/src/application/batch.rs:62-64 | a known id is answered at once and changes nothing else |
| `BatchOutcomes.FailedInsertResolves` | crates/voicetext-speech/src/application/batch.rs:92-111 | a failed insert is looked up again: answered by the row if it is there, the own artifact taken back if not |
| `BatchOutcomes.LoserCleansUp` | crates/voicetext-speech/src/application/batch.rs:116-129 | who lost the race to a row with other audio takes the own artifact back and says what was found |
| `BatchOutcomes.CleanupRemoves` | crates/voicetext-speech/src/application/batch.rs:208-215 | a terminal outcome's audio goes, and only it |
| `BatchOutcomes.ReconcileInterrupts` | crates/voicetext-speech/src/application/batch_recovery.rs:48-76 | recovery makes a submission it still finds terminally unknown at its attempt and lets its audio go; a moved row is left alone |
| `BatchOutcomes.RecoveryTakesPage` | crates/voicetext-speech/src/application/batch_recovery.rs:25-47 | recovery takes up every row of its page as it stood, in order |
| `BatchOutcomes.RecoveryRemoves` | crates/voicetext-speech/src/application/batch_recovery.rs:60-68 | and removes the audio of each job it interrupted before it goes on |
| `BatchAudio.StepLosesAudioIff` | crates/voicetext-speech/src/application/batch.rs:57-129 | one step strands an open job without audio exactly if it rolls back an artifact that another admission's row uses, or inserts a row whose artifact is gone |
| `BatchAudio.AlwaysPresentIff` | crates/voicetext-speech/src/application/batch.rs:57-129 | audio is present throughout a run exactly if no step of the run strands |
| `BatchAudio.AudioNeverLost` | crates/voicetext-speech/src/application/batch.rs:57-129 | in every run whose inserts do not fail, every open row's audio is in the spool at every moment |
| `BatchAudio.RollbackCanStrand` | crates/voicetext-speech/src/application/batch.rs:84-129 | a concrete run with a failed insert whose rollback strands another admission of the same id |
| `StartupRecovery.Reconciliation.ReconcileStartup` | crates/voicetext-gateway/src/server/recovery.rs:72-110 | terminates; refuses an open ledger without a configured profile; on success no submission in flight when the head was frozen is still in flight, whatever other workers did, and the count of recovered jobs is that of the rows this run made terminally unknown; the cursor never sticks |
| `StartupRecovery.Reconciliation.RecoverPage` | crates/voicetext-speech/src/application/batch_recovery.rs:25-38 | everything up to the next cursor is settled and the cursor strictly advances towards the frozen head |
| `StartupRecovery.Reconciliation.ReconcileCandidates` | crates/voicetext-speech/src/application/batch_recovery.rs:40-82 | every candidate has moved on from the frozen submission; recovered counts the rows made unknown here, conflicts the other submissions |
| `StartupRecovery.PageCovers` | crates/voicetext-gateway/src/storage/postgres.rs:175-210 | no page boundary skips a row that was in flight at the freeze |
| `StartupRecovery.WorkersOnlyAdvance` | crates/voicetext-speech/src/application/batch_recovery.rs:40-82 | what is assumed of other workers, every run of the batch protocol provides |
| `RecordState.StateRoundTrip` | crates/voicetext-gateway/src/storage/records.rs:338-424 | columns restore to a state exactly when they are the ones written for it |
| `RecordState.OpenStatesByName` | crates/voicetext-gateway/src/storage/postgres.rs:190-198 | the words by which recovery selects rows name exactly the open states |
| `BatchContract.CheckTranscription` | crates/voicetext-gateway/src/contracts/batch_outbound.rs:358-407 | the outbound validator decides exactly which transcriptions may be emitted |
| `BatchContract.CheckOutboundReadable` | crates/voicetext-gateway/src/contracts/batch_outbound.rs:409-446 | the same for readable segments, with total references and characters |
| `BatchContract.AcceptSegments` | crates/voicetext-gateway/src/contracts/batch.rs:387-440 | the client's scan accepts exactly a contiguous, ordered, bounded segment list and converts every entry |
| `BatchContract.EmittedIsUnderstood` | crates/voicetext-gateway/src/contracts/batch_outbound.rs:76-160 | the client parser accepts every response the server emits, in either contract, and learns exactly its data |
| `BatchServing.StepProjected` | crates/voicetext-speech/src/application/batch_models.rs:86-113 | no result is ever stored that the public projection did not accept; that accepted ones are stored is `BatchOutcomes.RecordTells` |
| `BatchServing.SafeCodeIsOk` | crates/voicetext-gateway/src/server/batch.rs:418-429 | whatever failure code a row carries, the public code is well-formed |
| `BatchServing.EveryRowIsServed` | crates/voicetext-gateway/src/server/batch.rs:200-249 | in every run every row of a frozen profile can be served, and what the client understands is said state by state: poll or retry with its delay, the public failure code, or every segment, sentence and id of the stored result |
| `BatchServing.TranscriptArrives` | crates/voicetext-gateway/src/contracts/batch_projection.rs:35-77 | the client's seconds round back to the stored milliseconds, with the same texts and confidences |
| `ProviderProjection.RecordedCompletesIff` | crates/voicetext-speech/src/application/batch.rs:202-221 | a recognition recorded from an unmoved claim completes the job, with that result, exactly if it is valid and projectable, and fails it otherwise |
| `ProviderProjection.ValidV2ProjectsIff` | crates/voicetext-gateway/src/contracts/batch_projection.rs:18-32 | a valid version 2 result is projectable exactly if no text is blank or overlong and duration and body fit |
| `ProviderProjection.ValidV3ProjectsIff` | crates/voicetext-gateway/src/contracts/batch_projection.rs:18-32 | the same for version 3, where also text and segments must come together and the provider id be printable |
| `ProviderProjection.RecognizeDeepgram` | crates/voicetext-speech/src/application/batch_models.rs:92-113 | a Deepgram recognition meets that condition exactly if its sizes fit and it can be shown; timing, order, confidences and references never prevent it |
| `ProviderProjection.RecognizeElevenLabs` | crates/voicetext-speech/src/application/batch_models.rs:92-113 | an ElevenLabs recognition meets it exactly if the total size fits, a text without words is empty, and bounds on characters, duration, id and body hold |
| `ProviderProjection.BlankUtteranceFails` | crates/voicetext-gateway/src/contracts/batch_outbound.rs:394-400 | a valid paid result that cannot be shown: one utterance that is a single space |
| `BatchShutdown.StepKeeps` | crates/voicetext-gateway/src/server/state.rs:282-325 | every registered task has finished or is in one of the two vectors, in every interleaving with shutdown |
| `BatchShutdown.SpawnSucceeds` | crates/voicetext-gateway/src/server/state.rs:282-300 | while registration is open a spawn that gets the lock succeeds and its task is tracked |
| `BatchShutdown.DrainCanEnd` | crates/voicetext-gateway/src/server/state.rs:383-402 | the vector taken is the tracked one, and once its tasks have finished shutdown can return |
| `BatchShutdown.NothingNew` | crates/voicetext-gateway/src/server/state.rs:282-300 | once shutdown holds the vector nothing is registered and every spawn is refused |
| `BatchShutdown.ShutdownIsComplete` | crates/voicetext-gateway/src/server/state.rs:302-325 | when shutdown returns every task ever registered has finished, and none is added afterwards |
| `LiveText.LexicalTokens` | crates/voicetext-providers/src/elevenlabs/live_state.rs:249-267 | the scan finds exactly the words, and each start is where the remaining words begin |
| `LiveText.CommittedSuffix` | crates/voicetext-providers/src/elevenlabs/live_state.rs:229-247 | a suffix exactly when the stable words are a non-empty prefix of the committed ones, and then exactly the words that follow |
| `LiveText.WordsAppendStable` | crates/voicetext-providers/src/elevenlabs/live_state.rs:282-287 | appending a final to the stable text appends its words |
| `LiveText.NormalizeIsJoinedWords` | crates/voicetext-providers/src/elevenlabs/live_state.rs:221-227 | the echo key is the words run together, and empty exactly when there is none |
| `LiveSession.Session.AcceptAudio` | crates/voicetext-speech/src/domain/live.rs:166-192 | the next sequence, with at most 256 frames awaiting their ACK |
| `LiveSession.Session.MarkAckSent` | crates/voicetext-speech/src/domain/live.rs:216-238 | an ACK needs a confirmed provider write |
| `LiveSession.Session.CompleteFinalize` | crates/voicetext-speech/src/domain/live.rs:274-307 | granted exactly for statuses consistent with what was observed, and the outcome is wire-consistent |
| `LiveTimeline.OpenTimeline` | crates/voicetext-speech/src/application/live_timeline.rs:46-62 | refused exactly without a rate or without channels |
| `LiveTimeline.Timeline.PrepareAudioWrite` | crates/voicetext-speech/src/application/live_timeline.rs:65-88 | accepts exactly whole, non-empty frames whose horizon does not overflow, without accepting them yet |
| `LiveTimeline.Timeline.ValidateTranscript` | crates/voicetext-speech/src/application/live_timeline.rs:97-117 | accepts exactly what ends within the horizon plus tolerance and, for finals, starts after the last final |
| `ElevenLabsLive.ClockWithinHorizon` | crates/voicetext-providers/src/elevenlabs/live_state.rs:197-203 | the adapter's clock is the validator's horizon until it saturates, and never passes it |
| `ElevenLabsLive.LiveState.Apply` | crates/voicetext-providers/src/elevenlabs/live_state.rs:73-191 | the event is exactly the one the history calls for: its text, its start at the last segment final or commit, its end at the audio clock, suppressed as echo, or only the evidence a finalize waits for; message and event go into the log |
| `ElevenLabsLive.LiveState.ReconcileCommit` | crates/voicetext-providers/src/elevenlabs/live_state.rs:140-159 | a commit still has something to say exactly if it is new and the emitted words are a proper prefix of its own, and then exactly the words that follow, from the last segment end |
| `LiveLog.UtteranceSettled` | crates/voicetext-providers/src/elevenlabs/live_state.rs:114-189 | in every session the words of all finals from one commit to the next concatenate to exactly the committed words if the stable ones are a prefix and the commit is new, otherwise to exactly the stable ones |
| `LiveLog.ObservedIff` | crates/voicetext-providers/src/elevenlabs/live_state.rs:168-189 | the finalize result is seen exactly if a commit came after the request and, should it still have had something to say, the provider was turned to once more |
| `LiveLog.MessageRecorded` | crates/voicetext-providers/src/elevenlabs/live_state.rs:93-191 | the adapter's cursors, flags and queues after a message are again what the whole history says |
| `LiveLog.SeenWasSaid` | crates/voicetext-providers/src/elevenlabs/live_state.rs:269-280 | a commit counts as seen only if an earlier commit had the same letters and digits at the same audio boundary |
| `LiveLog.MemoryStep` | crates/voicetext-providers/src/elevenlabs/live_state.rs:269-280 | the two bounded queues are always the latest eight commits and non-echo segment finals of the whole history |
| `LiveGateway.Coordinator.ProviderWrite` | crates/voicetext-speech/src/application/live.rs:114-142 | the next sequence is returned only after the provider write succeeded; both audio counters stay equal |
| `LiveGateway.Coordinator.NextEvent` | crates/voicetext-speech/src/application/live.rs:156-254 | no event the adapter synthesizes is ever refused, whatever led here, and each fits the wire contract |
| `LiveGateway.Stream` | crates/voicetext-gateway/src/server/live.rs:173-254 | in every run ACKs are 1, 2, 3, ... each directly after its write; the transcripts sent are those of a log of everything written and heard, in which every event is the one its history calls for; everything sent is serializable; the finalize status is Flushed exactly if the result was seen, Timeout exactly if not and there was audio; only the input at which the session ended can have broken it |
| `LiveGateway.Finalize` | crates/voicetext-gateway/src/server/live.rs:404-483 | finalize never begins with pending audio; the status is always granted and serializable, Flushed exactly if the log shows the result, Timeout exactly if not and there was audio, NoProvider otherwise; only the input at which the drain ended can have broken it |
| `LiveGateway.Drain` | crates/voicetext-gateway/src/server/live.rs:417-456 | provider events alone are relayed until the deadline or the end of the provider, and the result seen is the one the session recorded |
| `LiveGateway.ServeAudio` | crates/voicetext-gateway/src/server/live.rs:273-336 | provider write, then ACK, then confirmation |
| `WordMerge.MergeContainedText` | crates/voicetext-providers/src/deepgram/timeline.rs:80-104 | both texts' words survive in one piece up to case; a containing text is returned untouched, otherwise the words are joined at the longest overlap |
| `WordMerge.ContainsIsWithin` | crates/voicetext-providers/src/deepgram/timeline.rs:106-118 | the window search decides contiguous containment up to case |
| `DeepgramTimeline.ClampEnds` | crates/voicetext-providers/src/deepgram/timeline.rs:127-142 | accepts exactly non-empty intervals that start inside and end within tolerance, and clamps them |
| `DeepgramTimeline.MaximumIff` | crates/voicetext-providers/src/deepgram/timeline.rs:15-17 | the tolerance is a quarter of a second or half a percent, whichever is more |
| `DeepgramTimeline.NormalizeUtteranceOverlaps` | crates/voicetext-providers/src/deepgram/timeline.rs:49-78 | times become the trimmed timeline, every utterance's words survive in the segment that ends where the utterances so far end, and only an overlap above ten seconds is refused |
| `DeepgramTimeline.TrimmedIsTimeline` | crates/voicetext-providers/src/deepgram/timeline.rs:49-78 | the trimmed times are ordered, disjoint, non-empty and inside the recording for every input order |
| `DeepgramTimeline.CoverageConservedIff` | crates/voicetext-providers/src/deepgram/timeline.rs:49-78 | covered time is conserved exactly when no utterance reaches back into an uncovered gap |
| `DeepgramTimeline.SortedCoverageConserved` | crates/voicetext-providers/src/deepgram/timeline.rs:49-78 | so always for utterances sorted by start |
| `DeepgramTimeline.UnsortedCanLoseTime` | crates/voicetext-providers/src/deepgram/timeline.rs:69-72 | an unsorted input whose covered time shrinks |
| `DeepgramBatch.ParseReadableSegments` | crates/voicetext-providers/src/deepgram/dto.rs:136-204 | accepts exactly ordered, bounded sentences whose words are the transcript's, each with exactly the utterances it overlaps |
| `DeepgramBatch.Normalize` | crates/voicetext-providers/src/deepgram/timeline.rs:11-47 | refuses exactly what cannot be repaired; readable segments survive exactly when no utterance overlapped |
| `DeepgramBatch.Recognize` | crates/voicetext-providers/src/deepgram/batch.rs:115-127 | succeeds exactly for well-formed, timely responses; the times are the trimmed ones, every utterance's words, confidence and speaker are in their segment, the sentences are there exactly if they could be placed, each with its text, times and overlapped utterances; of the result validator only sizes and empty texts can still refuse |
| `Seconds.RoundingIsMonotone` | crates/voicetext-providers/src/deepgram/dto.rs:212-220 | rounding to milliseconds keeps order |
| `Seconds.RoundsHalfUp` | crates/voicetext-providers/src/deepgram/dto.rs:212-220 | nearest nanosecond, then nearest millisecond, halves up |
| `WordGroups.GroupedOk` | crates/voicetext-providers/src/elevenlabs/dto.rs:146-200 | segments of several words span at most 20 s, no words inside one are 0.8 s apart, and segments are in order |
| `WordGroups.GroupedIsSegmentation` | crates/voicetext-providers/src/elevenlabs/dto.rs:176-186 | the tokens from the first word on are split exactly where there is a reason: a pause of 0.8 s, more than 20 s in all, or 12 s and the end of a sentence |
| `WordGroups.SegmentationUnique` | crates/voicetext-providers/src/elevenlabs/dto.rs:176-186 | there is only one such way to split |
| `WordGroups.EndsSentenceIff` | crates/voicetext-providers/src/elevenlabs/dto.rs:296-300 | a text ends a sentence exactly if only white space follows sentence punctuation |
| `WordGroups.NothingLost` | crates/voicetext-providers/src/elevenlabs/dto.rs:146-200 | the segments spell every token from the first word on |
| `WordGroups.ClosedStay` | crates/voicetext-providers/src/elevenlabs/dto.rs:183-190 | a segment that was closed is final |
| `ElevenLabsBatch.ParseResponse` | crates/voicetext-providers/src/elevenlabs/dto.rs:123-219 | accepted exactly when the whole response is acceptable, and the segments are then those of the one segmentation of its tokens |
| `ElevenLabsBatch.SegmentTells` | crates/voicetext-providers/src/elevenlabs/dto.rs:104-120 | a segment has its tokens' text, runs from its first word's start to its last word's end, and has the mean probability exactly if every word has one |
| `ElevenLabsBatch.BoundedIff` | crates/voicetext-providers/src/elevenlabs/dto.rs:235-247 | a timestamp is taken exactly up to a quarter of a second or half a percent beyond the recording, and clamped to it |
| `ElevenLabsBatch.PushesSegment` | crates/voicetext-providers/src/elevenlabs/dto.rs:259-282 | neither the order of segments nor the clock can make a push fail, only blank text, rounding to nothing or the count |
| `ElevenLabsBatch.Recognize` | crates/voicetext-providers/src/elevenlabs/batch.rs:115-125 | segments are those of the one segmentation, each telling its group, disjoint and inside the recording, spell the tokens, and meet the result validator except possibly the total size |
| `OggPages.DecodeEncoded` | crates/voicetext-audio/src/ogg_opus.rs:146-171 | reading a page written by the encoder gives the page back, whatever follows |
| `OggPages.EncodeDecoded` | crates/voicetext-audio/src/ogg_opus.rs:146-171 | encoding a page that was read gives its bytes back |
| `OggContainer.AdmittedStream` | crates/voicetext-audio/src/ogg_opus.rs:172-200 | checking the next page against counters is checking it against every earlier page |
| `OggContainer.ScanContainer` | crates/voicetext-audio/src/ogg_opus.rs:131-208 | accepts exactly the complete single streams, reports a missing end exactly for streams without one, and never runs out of sequence numbers |
| `OggContainer.AcceptedExactlyEncodings` | crates/voicetext-audio/src/ogg_opus.rs:131-208 | accepted inputs and complete page lists correspond one to one |
| `OpusTiming.AudioTiming.Accept` | crates/voicetext-audio/src/ogg_opus.rs:302-330 | one packet, with the sample totals it leads to; no sum overflows |
| `OpusTiming.AudioTiming.ValidatePageGranule` | crates/voicetext-audio/src/ogg_opus.rs:332-365 | a page that is not the last ends exactly at the samples so far, the last is trimmed within its page |
| `OpusTiming.AudioTiming.Finish` | crates/voicetext-audio/src/ogg_opus.rs:367-393 | the duration is the final granule minus pre-skip, positive, and its milliseconds are the exact ceiling |
| `OpusTiming.ValidateAudio` | crates/voicetext-audio/src/ogg_opus.rs:116-128 | accepts exactly the page lists whose granules add up, for all lists |
| `Keyterms.CanonicalizeKeyterms` | crates/voicetext-gateway/src/identity.rs:98-112 | accepts exactly the requests in bounds, and the list holds each trimmed term once in strict UTF-16 order |
| `Keyterms.ValidateKeyterms` | crates/voicetext-gateway/src/identity.rs:171-187 | accepts exactly the canonical lists, hence everything canonicalization returns |
| `Keyterms.CanonicalDependsOnSet` | crates/voicetext-gateway/src/identity.rs:98-112 | the list depends on nothing but the set of trimmed terms |
| `Keyterms.CanonicalIsFixed` | crates/voicetext-gateway/src/identity.rs:98-112 | canonicalizing again changes nothing |
| `Fingerprint.RequestFingerprint` | crates/voicetext-gateway/src/identity.rs:125-169 | refuses exactly the inadmissible requests; what was fed to the hasher is the preimage |
| `Fingerprint.PreimageInjective` | crates/voicetext-gateway/src/identity.rs:144-169 | one preimage means one profile, one keyterm list and one audio (version 3: one audio digest), so versions never coincide |

## Left out

- Failure codes: a malformed code from a provider is stored as it came; the replacement by a fixed code (crates/voicetext-speech/src/application/batch_models.rs:145-148) would only add a branch.
- Provider references: the kind of an operation is not modelled, the ledger stores only the id.
- Ledger: rows are a linearizable map; an insert and the read that follows it are one step, and checks of keyterm, profile and reference lengths before a statement count as a write that fails before it commits.
- Spool: each store and remove is one step under its lock, with its cut points; maintenance of old files, files from outside and a second process on the same directory are not modelled.
- Draining the recovered backlog (crates/voicetext-gateway/src/server/recovery.rs:140-202): each execution is covered by the batch protocol, the scheduling around it is not.
- Result storage as JSON, legacy columns and the storage-side result validator (crates/voicetext-gateway/src/storage/records.rs:427-520).
- Deepgram live sessions: only the ElevenLabs adapter synthesizes times; the coordinator's refusals of provider times are in `LiveTimeline`.
- `LiveText.LexicalTokens`: positions count characters instead of bytes, because texts are character sequences here.
- Cancelled live writes (crates/voicetext-gateway/src/server/live.rs:337-368,484-503): a client frame or a timeout that interrupts a provider write or a finalize request counts as that write failing.
- Live client frames: JSON decoding and authentication are a step that succeeds, or garbage that ends the session.
- `Seconds.RoundingIsMonotone`: seconds are exact reals, so an exact half nanosecond rounds up where the platform rounds to even.
- Machine-word overflow of text totals, which bodies of bounded size cannot reach.
- Opus identification and comment headers, page checksums and the packet reader: bounded field checks, or code outside the repository.
- `BatchContract.EmittedIsUnderstood`: bodies are the objects their JSON text denotes, with the byte size of the text as a parameter.
- Semaphores and slots around batch tasks: only how many run at once depends on them.
- HTTP, WebSocket, TLS and database drivers, configuration, secrets, metrics and release tooling.
