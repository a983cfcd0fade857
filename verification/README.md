# Verified model of the CV tailoring agent

A Dafny 4.11 model of the parts of the repository where a wrong step costs most, with proofs of what those
parts promise. `dafny verify dfyconfig.toml` checks all of it.

| module | what it models |
|---|---|
| `Wrappers`, `Text` | options; substrings, whitespace, the length-preserving normaliser, bullets, joining and splitting |
| `CvText`, `Replacements` | rendering the CV, normalising suggested replacements, the read-only guard |
| `DocxMutator`, `ReplacementPass` | writing a replacement back across formatting runs; the whole pass and the sync check around it |
| `ReadOnlyBlocks` | which answers of the model can reach a read-only line, through normaliser, guard and pass |
| `Broker` | the task queue with its retry ladder, dead letters, crashes and redeliveries |
| `FileQueue` | the file queue of a single machine |
| `CoverLetter`, `LostLetters`, `LetterAttempts` | the cover-letter request: board, queue, handler sub-steps and crashes as one state machine; when exactly a request is lost; how often it is tried |
| `JobStore`, `Worker`, `Redelivery` | the dictionary job store: claims, updates, the index of completed work; the worker's deliveries over it; what a message finds when it comes back |
| `ModelLedger`, `Retry`, `Spend` | the model ladder, the backoff wrapper with its two-request invocations, and what one task may spend |
| `Verification`, `SelfHeal`, `Fabrications` | the technology check, grading of replacements, the self-healing loop; what of a text is reported |
| `Graph`, `GraphRuns` | the tailoring graph with the files its nodes write; how its runs end |
| `Intake` | the scheduled vacancy intake over the job store |
| `FormFields`, `FormPlan` | the ids minted on an application form, the stored plan, and finding its fields again |

Code that updates things in place is modelled in place: a paragraph with an array of run texts, the job store,
the letter rows, the model ledger, a process with its model name and counters, the controls of a page. Each such
method is proved against a function of the old state, and the lemmas are about those functions. Protocols are
state machines whose steps are the sub-steps between which a crash can fall; a history variable that no step
reads (the last writer of a status) carries the proof of the request protocol. In the broker, commands sent on a
channel are processed in order and a crash loses a suffix of them (section 4.7 of the AMQP 0-9-1 specification);
a crash also ends the process, so no consumer acts on a lost channel.

All lemmas carry `{:induction false}`: every inductive argument is written out.

## Where the code does less than it says

Each of these is proved, with the exact condition or a concrete input:

* The paragraph-level fallback of `_replace_text_in_paragraph` slices with a start index that was overwritten by
  -1. It is a correct replacement only for a one-character target that ends the text
  (`DocxMutator.FallbackSplicesExactlyWhen`); behind a run, the text of a link is mangled
  (`DocxMutator.LinkTextIsMangled`).
* The replaced occurrence need not be the first one (`DocxMutator.NotTheFirstOccurrence`); it is exactly when no run
  holds the target or the first occurrence lies inside one run (`DocxMutator.ReplacesTheFirstExactly`).
* The read-only guard and the matcher compare different strings, so read-only lines can be rewritten: through targets
  shorter than 20 characters (`ReadOnlyBlocks.ShortFragmentGetsThrough`) and through stacked list markers, of which
  the guard strips one and the matcher all (`ReadOnlyBlocks.StackedMarkersGetThrough`). They are safe exactly when the
  guard drops every item that can reach one (`ReadOnlyBlocks.NodeIsSafeExactly`).
* A cover-letter row can be stranded in `queued` or `running` by a board that dies holding its claim, and by a lost
  write that should have ended the request; nothing else does it (`CoverLetter.StepKeepsInvExactly`), and over whole
  runs a request is lost exactly when such a step ended its last source and nothing renewed it
  (`LostLetters.LostExactly`).
* A job id sent again under another user or version takes over a row of another key, whatever its status: a key in work
  is then claimed a second time (`JobStore.ResentIdIsClaimedTwice`), the lookup of a completed version answers the row
  of another one (`JobStore.ResentIdMisleadsTheLookup`), and retries lose their bound, although every claim is counted
  (`Worker.ResentIdRetriesForever`). What such a step does is exact (`JobStore.KeysKeptExactly`,
  `JobStore.HeldExactly`, `JobStore.IndexStaysExactly`, `JobStore.AttemptsFallExactly`).
* Colons can make two vacancies share a key (`JobStore.ColonsCollide`), exactly where a key can be read in a second way
  (`JobStore.TwoReadingsExactly`).
* The file queue loses what a crash interrupts (`FileQueue.StrandedExactly`); the broker does not.
* When the store does not take the claim, the attempts are read from the message. Each such delivery is one more
  immediate retry that the limit does not stop (`Worker.RetriesAreBounded`, `Worker.UnstoredClaimRetriesForever`), and
  a count that fails after the claim of a left-behind row can leave that row processing for ever
  (`Worker.LostCountStrandsTheRow`). A turn that forgets the attempts allows `MAX_ATTEMPTS - 1` more retries; without
  either the limit holds (`Worker.ImmediateRetriesAreBounded`).
* A lost `rate_limited` write drops a deferred tailoring: the message comes back to a row that is still in work and is
  acknowledged as a duplicate (`Redelivery.LostMarkDropsTheTask`; exactly when: `Redelivery.DuplicateExactly`).
* The model ledger can be bricked, with non-empty names and a time to live that is not negative, exactly when the last
  preferred model is named more than once (`ModelLedger.NeverBrickedExactly`), by one failure in the shortest case
  (`ModelLedger.RepeatedModelBricks`); and with any repetition the advances of a process have no bound
  (`ModelLedger.WalksEndExactly`).
* One invocation under the backoff wrapper can be two provider requests: the correcting request follows any error of
  the first, a rate limit included, and without a pause (`Retry.Session.SelfHealingGenerate`).
* A document can be accused by its own text: `abc1._x` (`Verification.UnderscoreAfterADotAccuses`). The comments of
  `apps/worker/agent/verification.py` list `GPT-4` and `n8n` among the names caught by shape; neither is. The model
  follows the pattern.
* When a later revision has nothing to apply, `persist` uploads the PDF of the earlier revision beside the new DOCX
  (`Graph.StalePdfIsUploaded`).

## Model

| member | source | states |
|---|---|---|
| `DocxMutator.WriteBackIsOneSplice` | apps/worker/utils/docx_mutator.py:82-149 | When the normalised target stands in the run texts, a replacement changes the concatenated run texts by exactly one splice at some occurrence, keeps the number of runs and leaves every run outside the span untouched |
| `DocxMutator.CutRunsSplices` | apps/worker/utils/docx_mutator.py:112-149 | Cutting a span out of the runs, run by run, cuts it out of their concatenation, wherever the run borders fall |
| `DocxMutator.CutShape` | apps/worker/utils/docx_mutator.py:129-148 | The first run of the span keeps its prefix and receives the text, the last keeps its suffix, the ones between become empty, the others stay |
| `DocxMutator.EditsAreTheCut` | apps/worker/utils/docx_mutator.py:129-148 | The in-place edits of the affected runs amount to that cut |
| `DocxMutator.CrossRunMeetsTwo` | apps/worker/utils/docx_mutator.py:112-127 | In the cross-run branch a non-empty target always meets at least two runs, so the branch for no affected run is never taken |
| `DocxMutator.SpanOfTarget` | apps/worker/utils/docx_mutator.py:112-147 | The two ends of the span lie in different runs, which is why no slice offset is negative |
| `DocxMutator.SingleRunSplice` | apps/worker/utils/docx_mutator.py:94-100 | Replacing inside the first run that holds the target is a splice at that run's offset |
| `DocxMutator.NotTheFirstOccurrence` | apps/worker/utils/docx_mutator.py:94-105 | A concrete paragraph in which a later occurrence inside one run is replaced although an earlier one spans two runs |
| `DocxMutator.WriteBackReplacesThere` | apps/worker/utils/docx_mutator.py:94-149 | Where the concatenated run texts are replaced: in the first run that holds the target, else at their first occurrence |
| `DocxMutator.ReplacesTheFirstExactly` | apps/worker/utils/docx_mutator.py:94-112 | The replaced occurrence is the first one exactly when no run holds the target or the first occurrence lies inside one run |
| `DocxMutator.FallbackSplicesExactlyWhen` | apps/worker/utils/docx_mutator.py:102-108 | The paragraph-level fallback, whose start index was overwritten by -1, is a splice exactly when the target is one character and its first occurrence ends the text |
| `DocxMutator.LinkTextIsMangled` | apps/worker/utils/docx_mutator.py:102-108 | A concrete paragraph, a run and a link behind it, that takes the fallback and keeps all of the link but its last character |
| `DocxMutator.RunOnlyParagraphIsSpliced` | apps/worker/utils/docx_mutator.py:66-149 | For a paragraph whose text is its runs, every replacement that matches is one splice of the whole text |
| `DocxMutator.Paragraph.ReplaceText` | apps/worker/utils/docx_mutator.py:66-149 | The method on the mutable runs answers when the match test holds and leaves exactly the specified paragraph |
| `DocxMutator.Paragraph.WriteBackInPlace` | apps/worker/utils/docx_mutator.py:88-149 | The three write-back branches on the array of run texts |
| `DocxMutator.Paragraph.ReplaceInOneRun` | apps/worker/utils/docx_mutator.py:94-100 | The loop over the runs changes only the first run that holds the target |
| `DocxMutator.Paragraph.CutSpan` | apps/worker/utils/docx_mutator.py:112-149 | Ranges, affected runs and edits together compute the cut |
| `DocxMutator.Paragraph.RunRanges` | apps/worker/utils/docx_mutator.py:112-118 | The ranges are the offsets of the runs in their concatenation |
| `DocxMutator.Paragraph.AffectedRuns` | apps/worker/utils/docx_mutator.py:120-123 | The affected runs are exactly those the span meets, first and last included |
| `DocxMutator.Paragraph.WriteSpan` | apps/worker/utils/docx_mutator.py:129-147 | Only affected runs are assigned, and what each receives |
| `Text.Find` | apps/worker/utils/cv_text.py:51-52 | The first occurrence, or -1 |
| `Text.Normalize` | apps/worker/utils/cv_text.py:43-52 | One character in, one character out, so an index into the normalised text is an index into the text |
| `Text.NormalizeExactly` | apps/worker/utils/cv_text.py:43-52 | A no-break space reads as a space, an en or em dash as a hyphen, and everything else as itself |
| `Text.PieceLiesInOnePart` | apps/worker/utils/docx_mutator.py:41-63 | A newline-free piece of joined lines lies in one of them |
| `CvText.CvDataToText` | apps/worker/utils/cv_text.py:113-155 | The rendered CV text, section by section |
| `CvText.EveryFieldIsRendered` | apps/worker/utils/cv_text.py:113-155 | Every field of the CV stands in the rendered text, highlights behind their bullets |
| `CvText.SampleIsRendered` | apps/worker/utils/cv_text.py:72-155 | The sections, labels and order of the lines, on a CV that has every kind of line |
| `CvText.SampleWithoutProjects` | apps/worker/utils/cv_text.py:148-155 | Without projects their section is left out |
| `CvText.ReadOnlyLines` | apps/worker/utils/cv_replacements.py:87-97 | The read-only lines are those of every experience and project |
| `CvText.ReadOnlyLinesAreRendered` | apps/worker/utils/cv_replacements.py:87-97 | Every read-only line is a line of the rendered CV, up to its bullet |
| `CvText.ReadOnlyExactly` | apps/worker/utils/cv_replacements.py:87-97 | Read-only are exactly the lines of every experience entry and of every project |
| `Replacements.NormalizeReplacements` | apps/worker/utils/cv_replacements.py:32-84 | The loop computes the specified list |
| `Replacements.NormalizedIsClean` | apps/worker/utils/cv_replacements.py:32-84 | Everything the normaliser returns is one stripped, non-blank line against another, and a change |
| `Replacements.NormalizedExactly` | apps/worker/utils/cv_replacements.py:32-84 | The normaliser returns exactly the line pairs of its items whose sides have as many lines, as far as the two lines differ |
| `Replacements.ItemBecomesItsPairs` | apps/worker/utils/cv_replacements.py:47-84 | The same for one item, multi-line or not |
| `Replacements.LinesAroundABreak` | apps/worker/utils/cv_text.py:63-69 | Every line feed, carriage return or pair of them ends a line |
| `Replacements.LinesOfOneLine` | apps/worker/utils/cv_text.py:63-69 | A text without a break is one stripped line, or none when it is blank |
| `Replacements.AlignedPairs` | apps/worker/utils/cv_replacements.py:32-84 | Multi-line suggestions become the real pairs of aligned lines |
| `Replacements.DropReadOnly` | apps/worker/utils/cv_replacements.py:100-134 | The guard loop computes the specified list, for any enumeration of the set of read-only lines |
| `Replacements.KeptExactly` | apps/worker/utils/cv_replacements.py:100-134 | The guard keeps exactly the items whose target is neither a read-only line nor a fragment of 20 or more characters of them |
| `Replacements.DroppedExactly` | apps/worker/utils/cv_replacements.py:113-134 | Of targets without a line break the guard drops exactly those that equal a read-only line or are at least 20 characters of one |
| `ReplacementPass.ApplyTextReplacements` | apps/worker/utils/docx_mutator.py:152-209 | The pass over the paragraphs leaves the specified document and counts the replacements that hit |
| `ReplacementPass.ApplyToFirst` | apps/worker/utils/docx_mutator.py:181-192 | Each replacement changes the first paragraph that matches and no other |
| `ReplacementPass.LineBreaksAreSkipped` | apps/worker/utils/docx_mutator.py:169-179 | A replacement whose target has a line feed or a carriage return changes nothing and counts nothing |
| `ReadOnlyBlocks.SafeExactly` | apps/worker/utils/docx_mutator.py:162-195 | In no document does a pass write to a paragraph that shows part of a read-only line exactly when each replacement of the list is skipped or has a target that stands in none of the lines |
| `ReadOnlyBlocks.NodeIsSafeExactly` | apps/worker/agent/nodes.py:124-133 | Over the node's own composition - normalise, guard, apply - the read-only blocks of a CV are safe exactly when the guard drops every normalised item that can reach one of their lines |
| `ReadOnlyBlocks.ReadOnlyBlocksSurviveTheNode` | apps/worker/agent/nodes.py:124-133 | Under that condition every paragraph that shows part of an experience or project line comes out of the node as it went in |
| `ReadOnlyBlocks.GuardGap` | apps/worker/utils/cv_replacements.py:115-134 | What reaches a read-only line although the guard keeps it has a target shorter than 20 characters, or one that guard and matcher strip differently |
| `ReadOnlyBlocks.MarkerFreeTargetsAgree` | apps/worker/utils/cv_replacements.py:115-134 | A target without leading marker is the same for the guard and for the matcher |
| `ReadOnlyBlocks.ShortFragmentGetsThrough` | apps/worker/utils/cv_replacements.py:115-134 | Every fragment of a read-only line under 20 characters, other than the line, goes through the normaliser, the guard and the pass, and the paragraph is rewritten: for a CV that has just that read-only line |
| `ReadOnlyBlocks.StackGetsThrough` | apps/worker/utils/cv_replacements.py:115-134 | Such a fragment: Stack, in a block with the line Tech Stack: |
| `ReadOnlyBlocks.StackedMarkersGetThrough` | apps/worker/utils/cv_replacements.py:115-134 | Two markers behind the one the normaliser drops: the guard strips one of them and the matcher both, so a read-only line of any length is rewritten, for a CV that has it |
| `ReplacementPass.ValidateCvData` | apps/worker/utils/docx_mutator.py:41-63 | The sync check reports exactly the checked CV lines the document does not show |
| `ReplacementPass.SyncExactly` | apps/worker/utils/docx_mutator.py:41-63 | Reported as missing are exactly the lines of the rendered CV that are not empty, no heading with a colon and not behind a second bullet, and that no paragraph shows, dashes and no-break spaces aside |
| `ReplacementPass.SyncImpliesApplicable` | apps/worker/utils/docx_mutator.py:41-87 | When the sync check reports nothing, a checked CV line used as target, with a different tailored text, is matched in some paragraph and applied |
| `Broker.RungIsTheSmallestLongEnough` | apps/worker/utils/messaging.py:282-287 | A deferral goes to the smallest rung at least as long as the delay, or to the longest one |
| `Broker.DeferralWaits` | apps/worker/utils/messaging.py:282-287 | A deferred message is published to the 60, 300, 900, 1800 or 3600 second queue, the first one that waits as long as asked for or the last one, before the delivery is acked |
| `Broker.DistinctIsKept` | apps/worker/utils/messaging.py:362-446 | No message copy is ever in two places, over every broker step |
| `Broker.OnlyAnAckRemoves` | apps/worker/utils/messaging.py:397-446 | Nothing but its own ack makes a copy disappear: not a delivery, not a TTL, not a crash at any point |
| `Broker.ContinuationIsKept` | apps/worker/utils/messaging.py:430-446 | A message that was handed on stays represented by a newer copy until it is acknowledged |
| `Broker.InvIsKept` | apps/worker/utils/messaging.py:289-446 | Every step keeps the conservation invariant, also between publish and ack |
| `Broker.NoMessageIsLost` | apps/worker/utils/messaging.py:289-446 | Over every run each published message is in a queue, unacked, or was acked after the handler returned ACK |
| `Broker.CrashOnlyDuplicates` | apps/worker/utils/messaging.py:397-446 | A crash puts the held copy back and removes none |
| `Broker.DeadLettersStay` | apps/worker/utils/messaging.py:289-315 | A dead letter is never consumed or moved |
| `Broker.SettledAtOnce` | apps/worker/utils/messaging.py:430-446 | ACK takes the copy away for good and counts its message as acknowledged; RETRY puts the same copy back into the main queue; nothing else changes |
| `Broker.HandedOnThenAcked` | apps/worker/utils/messaging.py:397-446 | A deferral ends as a new copy in its retry queue, a dead letter and an undecodable body as one in the dead-letter queue, with the pod free again and nothing counted as acknowledged |
| `Broker.AcknowledgedWasAcked` | apps/worker/utils/messaging.py:397-446 | Over every run a message counts as acknowledged only when some handler of the run returned ACK for a copy of it |
| `Broker.Consumer.Acknowledge` | apps/worker/utils/messaging.py:430-446 | The commands sent for each outcome, in order |
| `Broker.Consumer.Callback` | apps/worker/utils/messaging.py:397-428 | Undecodable bodies are dead-lettered, raising handlers requeue, everything else is settled by its outcome |
| `FileQueue.NothingDisappears` | apps/worker/utils/messaging.py:196-250 | On the file queue no message disappears, is duplicated or is touched while it is not pending, and its attempts never fall |
| `FileQueue.FreshFilesComeFirst` | apps/worker/utils/messaging.py:189-211 | A deferred file has its turn only when no fresh one waits, and some file has it while any waits |
| `FileQueue.PublishExactly` | apps/worker/utils/messaging.py:170-176 | A published file is a fresh pending one and no other file changes |
| `FileQueue.FinishExactly` | apps/worker/utils/messaging.py:219-250 | What finishing does to the file in a worker's hands: processed after ACK, failed after a dead letter or when unreadable, else back for another pass with one more attempt; no other file changes |
| `FileQueue.AttemptsAreTheReturns` | apps/worker/utils/messaging.py:196-250 | Over every run of any number of workers with crashes, the attempts of a file count exactly how often it was sent back |
| `FileQueue.StopsWhenDone` | apps/worker/utils/messaging.py:196-237 | Consuming hands over at most the limit (one message when it is 0) and stops before only when nothing is pending |
| `FileQueue.StrandedExactly` | apps/worker/utils/messaging.py:196-250 | Over every run of any number of workers, a message ends up neither pending nor settled nor in a worker's hands exactly when a crash fell between its take and its settle |
| `FileQueue.HoldsExactly` | apps/worker/utils/messaging.py:212-232 | A worker has a file in its hands exactly between its own successful take and its finish or crash |
| `FileQueue.StepStrandsExactly` | apps/worker/utils/messaging.py:196-250 | One event strands a file exactly when it is the crash of the worker that holds it, or the file was stranded before |
| `FileQueue.CrashStrandsTheMessage` | apps/worker/utils/messaging.py:196-250 | A crash right after a take leaves the message in the inflight directory through every later run |
| `FileQueue.ConsumedIsItsScript` | apps/worker/utils/messaging.py:196-237 | What one consumer leaves is what its own takes and settles, one after the other, leave |
| `FileQueue.DirectoryQueue.Consume` | apps/worker/utils/messaging.py:196-237 | The directories and the count after consuming, every file being renamed into inflight before it is parked or settled |
| `FileQueue.DirectoryQueue.Handle` | apps/worker/utils/messaging.py:209-232 | One pass: the rename into inflight, then the failed directory for an unreadable file, else the settle |
| `FileQueue.DirectoryQueue.Settle` | apps/worker/utils/messaging.py:239-250 | Processed, failed, or back for another pass with one more attempt, whatever the delay |
| `CoverLetter.StepKeepsInvExactly` | apps/worker/cover.py:95-178 | Every step keeps "the last writer of a pending status still owns a live message" except exactly the stranding ones |
| `CoverLetter.NoRequestIsLost` | apps/worker/cover.py:95-178 | Over every run that strands nothing, with any number of pods, clicks, crashes and deferrals, a row in queued or running has its message in the main queue, unacked or in a retry queue, or a board request that has not ended |
| `CoverLetter.DependableRunsStrandNothing` | apps/worker/cover.py:95-178 | Nothing is lost when status writes succeed and only consumers crash |
| `CoverLetter.BoardCrashLosesTheRequest` | apps/backoffice/src/lib/coverRequest.ts:36-56 | A board that dies between its claim and its publish leaves a row queued for ever |
| `CoverLetter.LostCompletionLosesTheRequest` | apps/worker/cover.py:95-178 | A lost completed write followed by the ack leaves a row running for ever |
| `LostLetters.LostStepExactly` | apps/worker/cover.py:95-178 | One step loses a request exactly when it ends the last message or board request behind a row that still says the letter is on its way; a lost one stays lost until it is claimed again, removed, or its copy put back by a crash |
| `LostLetters.LostExactly` | apps/worker/cover.py:95-178 | Over every run a request ends up lost - its row queued or running with no message and no board request behind it - exactly when some step lost it and no later one renewed it |
| `CoverLetter.HandlerIsItsScript` | apps/worker/cover.py:95-178 | Running the protocol's sub-steps back to back is the handler procedure: the same rows, the same outcome |
| `CoverLetter.LetterStore.HandleDelivery` | apps/worker/cover.py:95-178 | Rows and outcome of one delivery, over all early returns |
| `CoverLetter.LetterStore.Write` | apps/worker/cover.py:126-132 | A failing store is swallowed; a row of a removed vacancy is refused |
| `CoverLetter.UpsertLosesNothing` | apps/worker/utils/db.py:192-215 | An upsert changes one row: its status, its text unless it brings none, and its attempts to the larger of the stored and the written number |
| `LetterAttempts.AnswersExactly` | apps/worker/cover.py:95-178 | Each of the handler's answers, ACK, RETRY, RETRY_LATER with its delay, DEAD_LETTER and the raised error, exactly when it is given |
| `LetterAttempts.CountsExactly` | apps/worker/cover.py:95-178 | A delivery raises the attempts of its own row by one exactly when it gets past the checks and one of its status writes lands, and those of no other row |
| `LetterAttempts.RowSaysExactly` | apps/worker/cover.py:146-178 | What the row says after the model was asked: the status of the reply when its write landed, else running; a new text only with a written letter |
| `LetterAttempts.AttemptsAreTheCount` | apps/worker/cover.py:122-178 | Over every run of deliveries and board requests, for any letters in any order, the attempts of a row are those it began with and one for each delivery that counted |
| `LetterAttempts.RetriesAreBounded` | apps/worker/cover.py:167-173 | Over every such run a request is returned RETRY at most once for each of its deliveries that wrote nothing, and max(0, MAX_ATTEMPTS - 1 - its attempts) times |
| `LetterAttempts.BrokenRequestIsRetriedToTheLimit` | apps/worker/cover.py:122-173 | The n-th delivery of a request that always breaks is returned RETRY while the attempts before it and n stay below the maximum, and DEAD_LETTER from then on: from an empty row exactly MAX_ATTEMPTS - 1 times RETRY |
| `LetterAttempts.BrokenRequestCountsItsDeliveries` | apps/worker/cover.py:122-173 | The row of such a request counts its deliveries |
| `CoverLetter.Board.RequestCoverLetter` | apps/backoffice/src/lib/coverRequest.ts:36-56 | Claim, publish, and failed when the broker did not confirm; it throws exactly when the lookup or the claim does, and then nothing was written or published |
| `CoverLetter.Board.MarkCoverRequested` | apps/backoffice/src/lib/db.ts:1097-1106 | The claim is refused exactly while the row says running, and throws exactly when the store fails or the vacancy was removed |
| `CoverLetter.RequestKeepsTheLetter` | apps/backoffice/src/lib/db.ts:1097-1106 | The board's writes set the status of one row and keep its text and attempts |
| `CoverLetter.BoardStepsAreTheRequest` | apps/backoffice/src/lib/coverRequest.ts:36-56 | The board's steps of the protocol are those writes and one message into the main queue |
| `CoverLetter.ClaimIsRefusedExactly` | apps/backoffice/src/lib/db.ts:1097-1106 | In the protocol a claim for a present vacancy is refused exactly while its row says running |
| `CoverLetter.RunProjects` | apps/worker/utils/messaging.py:397-446 | Every run of the protocol is a run of the broker |
| `CoverLetter.NoPublishedRequestVanishes` | apps/worker/utils/messaging.py:397-446 | A published request is around or was acked after the handler returned ACK, stranding steps or not |
| `JobStore.KeySplitsBack` | apps/worker/utils/db.py:55-63 | Splitting a key at its first three colons gives user, source, external id and version back |
| `JobStore.TwoReadingsExactly` | apps/worker/utils/db.py:55-63 | A key has a second reading exactly when a colon stands in its user behind the first character, in a source that is more than a colon, in its external id, or in its version before the last character |
| `JobStore.KeyIsInjective` | apps/worker/utils/db.py:55-63 | Any row shares the key of a row with one reading exactly when it agrees on user, source, external id and version |
| `JobStore.ColonsCollide` | apps/worker/utils/db.py:55-63 | Two vacancies that share a key |
| `JobStore.ClaimFilesOneRow` | apps/worker/utils/db.py:110-190 | A claim files exactly one row, under the key of the job: the left-behind row of that key, else the row with the job's own id, which is new or - whatever its status - takes the place of one that had another key |
| `JobStore.OutcomeExactly` | apps/worker/utils/db.py:131-162 | A claim is owned exactly when its id is filed for another external id or source, and else duplicate exactly when a row of its key is queued, processing, rendering, validating, uploading or completed |
| `JobStore.UpdateSetsItsFields` | apps/worker/utils/db.py:323-341 | An update sets the fields it names on one row and keeps the others |
| `JobStore.StepKeepsWellKeyed` | apps/worker/utils/db.py:110-190 | Claims, counts and updates keep business keys pairwise distinct and rows under their ids, as long as no update gives a row the key of another row |
| `JobStore.KeysKeptExactly` | apps/worker/utils/db.py:110-190 | A step leaves every row under its id and key exactly when it is no claim that sends a known job id again under another key and no update that changes a key |
| `JobStore.KeysStayWithTheirRows` | apps/worker/utils/db.py:110-190 | Over every run in which no update gives a row the key of another row, keys stay distinct and a row stays under its key unless some step files it under another one |
| `JobStore.HeldExactly` | apps/worker/utils/db.py:110-190 | A step of a well-keyed store lets go of an actively held row exactly when it takes the row out of the active statuses or files it under another key |
| `JobStore.ClaimsAreExclusive` | apps/worker/utils/db.py:110-190 | Between two claims of one key, over steps of which none gives a row the key of another row, some update put its row in a non-active status or some step filed it under another key |
| `JobStore.ResentIdIsClaimedTwice` | apps/worker/utils/db.py:110-190 | The second way happens: one job id sent for two users in turn is claimed a second time under its first key, with no update in between |
| `JobStore.IndexStaysExactly` | apps/worker/utils/db.py:178-190 | A step that gives no row the key of another row keeps the completed index in agreement with the rows exactly when it is neither a left-behind row re-claimed as completed, nor a claim that sends the id of a completed row again under another key, nor an update that takes a completed row out of completed or to another key |
| `JobStore.LookupIsTheScan` | apps/worker/utils/db.py:361-366 | While they agree, the indexed lookup answers exactly what a scan for key and status completed finds |
| `JobStore.CompletedLookupOverRuns` | apps/worker/utils/db.py:361-366 | So it does over every run from the empty store in which no step escapes the index or gives a row the key of another row |
| `JobStore.ResentIdMisleadsTheLookup` | apps/worker/utils/db.py:131-190 | One escaping step: the id of a completed row sent again for another version, after which the lookup of the first version answers the row of the second, which is only processing |
| `JobStore.AttemptsFallExactly` | apps/worker/utils/db.py:368-372 | While no update gives a row the key of another row, a step lowers a key's attempts exactly when there are any and it files the key's row under another key or is an update that writes fewer |
| `JobStore.CountRaisesAttempts` | apps/worker/utils/db.py:368-372 | A count raises its key's attempts by one, to the number it answers with |
| `JobStore.RetryableCountsAreBounded` | apps/worker/utils/db.py:368-372 | Over every run in which no update gives a row the key of another row, the counts of one key that stay below the limit are at most those its attempts leave room for, and limit - 1 more for each step that lowers or forgets its attempts |
| `JobStore.LocalDb.UpsertJob` | apps/worker/utils/db.py:110-190 | The dictionaries after a claim, its outcome and the row id it answers with |
| `JobStore.LocalDb.UpdateJob` | apps/worker/utils/db.py:323-341 | The dictionaries after an update, index included |
| `JobStore.LocalDb.IncrementAttempts` | apps/worker/utils/db.py:368-372 | The count, and what it answers |
| `JobStore.LocalDb.FindCompleted` | apps/worker/utils/db.py:361-366 | The lookup through the index |
| `JobStore.LocalDb.FindExistingIds` | apps/worker/utils/db.py:343-352 | Exactly the wanted ids the board has for the site, at any status or version |
| `Worker.HandleDelivery` | apps/worker/worker.py:136-225 | The store writes and the outcome of one delivery, over every branch, with a claim that gets through, loses its count or is not stored, and status writes that may be swallowed |
| `Worker.ClaimRow` | apps/worker/worker.py:154-176 | The claim: whose work it is, the row to work on and its attempts, which come from the message when the store raised at either call |
| `Worker.WorkOnClaim` | apps/worker/worker.py:181-225 | What follows the claim: inputs, graph, and the outcome of a failure |
| `Worker.MarkStatus` | apps/worker/worker.py:117-122 | One status write, swallowed when the store fails |
| `Worker.RetryCountsAnAttempt` | apps/worker/worker.py:173-213 | A delivery with a counted claim that returns RETRY raised its key's attempts and found them below the maximum, also when it took its row from another key |
| `Worker.RetriesAreBounded` | apps/worker/worker.py:136-213 | Over any interleaving of deliveries and other store steps of which none gives a row the key of another row, a key is returned RETRY at most once for each delivery whose attempt the store did not count, max(0, MAX_ATTEMPTS - 1 - its attempts) times, and max(0, MAX_ATTEMPTS - 1) times more for each turn that forgets its attempts: a claim that takes its row for another key, or an update |
| `Worker.ImmediateRetriesAreBounded` | apps/worker/worker.py:136-213 | When every claim is counted and no turn forgets the attempts, RETRY is returned at most MAX_ATTEMPTS - 1 times for one key |
| `Worker.ResentIdRetriesForever` | apps/worker/worker.py:136-213 | The last term is reached: one job id delivered for two versions in turn, every claim counted and every run failing, retries the first version n times in n deliveries of it, for every n |
| `Worker.UnstoredClaimRetriesForever` | apps/worker/worker.py:160-176 | The first term is reached: n deliveries of one message whose claims are not stored are n retries, for every n |
| `Worker.LostCountStrandsTheRow` | apps/worker/worker.py:160-176 | A count that raises after the claim of a left-behind row: the status writes miss the row, and the retry is acknowledged as a duplicate with the row still processing |
| `Redelivery.AnswersExactly` | apps/worker/worker.py:136-225 | Each of the handler's answers, ACK, RETRY, RETRY_LATER with its delay and DEAD_LETTER, exactly when it is given |
| `Redelivery.IdleDeliveryWritesNothing` | apps/worker/worker.py:147-167 | A delivery that finds the store down, completed work or somebody else's claim changes nothing |
| `Redelivery.DeliveryDecides` | apps/worker/worker.py:154-213 | A delivery with a counted claim counts exactly one attempt more than row and message knew, and leaves the row with the last status that landed |
| `Redelivery.DuplicateExactly` | apps/worker/worker.py:136-213 | The next delivery of the same message is acknowledged as a duplicate exactly when completed was written, or the last status that landed is one in which the row is held |
| `Redelivery.LostMarkDropsTheTask` | apps/worker/worker.py:202-205 | A deferred run whose rate_limited write is lost: the row stays in work and the message that comes back is acknowledged as a duplicate |
| `Redelivery.MessageIsTakenUpAgain` | apps/worker/worker.py:136-213 | However often a message comes back deferred, failed or unprepared with that status written, its next delivery is claimed again, and n deliveries have counted n attempts |
| `Redelivery.RaisedRunsAreRetriedToTheLimit` | apps/worker/worker.py:202-213 | So the answer to its n-th delivery is known: a deferral for a deferred run, and for a raised one RETRY exactly while the attempts before and n stay below the maximum, then DEAD_LETTER |
| `ModelLedger.AdvanceClimbs` | apps/worker/utils/model_state.py:232-241 | With distinct models an advance picks an unflagged preferred model strictly behind the failing one |
| `ModelLedger.AdvanceClimbsExactly` | apps/worker/utils/model_state.py:232-241 | Every advance climbs the list, whatever is flagged, exactly when the models are distinct |
| `ModelLedger.WalksEndExactly` | apps/worker/utils/model_state.py:232-241 | The advances of one process have a bound exactly when the models are distinct |
| `ModelLedger.WalkIsBounded` | apps/worker/utils/model_state.py:232-241 | With distinct models a process moves at most to the end of the list |
| `ModelLedger.RepeatedModelStepsBack` | apps/worker/utils/model_state.py:232-241 | A list of three in which an advance steps back |
| `ModelLedger.ChosenModelIsAvailable` | apps/worker/utils/model_state.py:272-292 | A saved advance leaves its chosen model available exactly when it is not the one that failed (or the record cannot flag), and always with distinct models |
| `ModelLedger.NeverBrickedExactly` | apps/worker/utils/model_state.py:46-80 | From an empty ledger some preferred model stays available through every sequence of start-ups, advances, failed saves, unreadable files and time exactly when the last preferred model is named once, the time to live is negative or a name is empty |
| `ModelLedger.BrickingRun` | apps/worker/utils/model_state.py:272-292 | For every other list, a run of failures after which no preferred model is available |
| `ModelLedger.RepeatedModelBricks` | apps/worker/utils/model_state.py:272-292 | The shortest such list, one model named twice, is bricked by one failure |
| `ModelLedger.Index` | apps/worker/utils/model_state.py:235-238 | The position of a preferred model, or -1 |
| `ModelLedger.Available` | apps/worker/utils/model_state.py:226-229 | Exactly the preferred models that are not flagged |
| `ModelLedger.StartModelExactly` | apps/worker/utils/model_state.py:245-269 | A process starts on the saved current model when it is preferred and unflagged, else on the first preferred model that is unflagged, and on the first of all when every one is flagged |
| `ModelLedger.RestartKeepsTheFallback` | apps/worker/utils/model_state.py:245-292 | With distinct models a restart goes on with the model the last saved advance chose |
| `ModelLedger.LedgerFile.InitModelState` | apps/worker/utils/model_state.py:245-269 | The start model is preferred, and what is saved |
| `ModelLedger.LedgerFile.AdvanceAfterFailure` | apps/worker/utils/model_state.py:272-292 | The next model and the saved ledger; nothing is recorded when there is none |
| `Retry.DelayClosedForm` | apps/worker/utils/retry.py:106-135 | With initial <= max and factor >= 1 the delay after k sleeps is min(initial * factor^k, max) |
| `Retry.CappingCommutes` | apps/worker/utils/retry.py:135-135 | Capping after every growing step is capping once at the end |
| `Retry.SleepIsBounded` | apps/worker/utils/retry.py:106-159 | A call sleeps at most R * max for each model it tries, added up |
| `Retry.SleepIsWithinTheProduct` | apps/worker/utils/retry.py:106-159 | So a call that tries n models sleeps at most n * R * max |
| `Retry.InvocationsAreBounded` | apps/worker/utils/retry.py:138-159 | A call invokes the wrapped function at most R + 1 times for each model it tries |
| `Retry.ErrorsAreReadExactly` | apps/worker/utils/retry.py:89-104 | An error is transient exactly by the codes 429 and 503 or one of eight phrases, and a daily quota exactly by one of three |
| `Retry.Session.AdvanceModel` | apps/worker/utils/retry.py:71-86 | The model index strictly rises on an advance; without a further model nothing changes |
| `Retry.Session.HandleTransient` | apps/worker/utils/retry.py:106-135 | A transient error is slept on exactly while retries are left and its message names no daily quota; else the next model has its turn, or the error is raised or handed back |
| `Retry.Session.SelfHealingGenerate` | apps/worker/agent/gemini.py:21-52 | One invocation is one provider request, and a correcting second one after any error of the first; only the last error is seen outside |
| `Retry.Session.Attempt` | apps/worker/utils/retry.py:141-158 | One pass of the wrapper's loop: which messages and codes end it, sleep or move to the next model, and the requests it cost |
| `Retry.Session.Call` | apps/worker/utils/retry.py:45-159 | The wrapper ends; its invocations, provider requests (two for every invocation but the last), advances and sleeps are known exactly, whatever other pods write to the ledger; it answers exactly when the last request was answered, hands back exactly on a daily quota, and raises every other error, a transient one only without a further model and with the last model's retries used up |
| `Spend.RunTask` | apps/worker/agent/graph.py:30-97 | One task makes exactly the calls it owes, ends as its last call says and within A revisions, invokes the wrapped functions at most (A * (3 + F) + P - 1) * (R + 1) times for P preferred models, and sends at most twice as many provider requests |
| `Spend.Revise` | apps/worker/agent/graph.py:43-55 | One revision makes at most 3 + F wrapped calls, the owed ones, and what is owed after it |
| `Spend.AdaptText` | apps/worker/agent/nodes.py:66-97 | The title when it is unknown, the draft and its retries: at most 2 + F wrapped calls, what is owed after them, and when the adaptation fails |
| `Spend.Heal` | apps/worker/agent/verification.py:353-380 | The healing loop makes at most max(0, F) calls, while the best draft lies, and swallows a failing one |
| `Spend.AttemptsFollowTheGrades` | apps/worker/agent/verification.py:353-380 | The grades of the healing loop's drafts give the oracle the spending account runs on |
| `Spend.RetriesAreTheAttempts` | apps/worker/agent/verification.py:353-380 | The retries a task owes after its first draft are one for each attempt of the healing loop |
| `Spend.EveryCallIsJustified` | apps/worker/agent/nodes.py:66-97 | Over every run each call follows from the one before it: a revision begins with inputs in order, after a verdict that found fault and below the maximum, with the title unless it is known; the draft after the title; a retry only of a lying draft with retries left; a verdict only on a document that passed the gate, was changed and rendered; and only a failed retry is passed over |
| `Spend.NothingIsLeftOut` | apps/worker/agent/graph.py:30-97 | A run stops only when a call failed for good, there is nothing to show, the pages are approved, the revisions are used up or the inputs are out of order |
| `Spend.PersistedExactly` | apps/worker/agent/graph.py:30-97 | It ends with a stored CV exactly when its last revision was judged and not sent back, or passed the gate with nothing to apply |
| `Spend.Spending` | apps/worker/utils/retry.py:138-159 | An owed call stays within the budget of one more call |
| `Verification.NeverAccusedByItsOwnText` | apps/worker/agent/verification.py:155-188 | With all word characters ASCII letters or digits, no claim of a text is invented when the text is among the evidence |
| `Verification.SelfAccusationExactly` | apps/worker/agent/verification.py:155-188 | For any text: it is clean against itself exactly when each of its tokens that ends in a dot or a plus is stated somewhere else in it |
| `Verification.OnlyDanglingTokensAreAccused` | apps/worker/agent/verification.py:155-188 | An accusation by a text that is its own evidence comes from a token that ends in a dot or a plus |
| `Verification.DanglingNeedsAnOddCharacter` | apps/worker/agent/verification.py:97-100 | Such a token needs a word character beyond the ASCII letters and digits behind it |
| `Verification.UntouchedMasterPasses` | apps/worker/agent/verification.py:292-317 | The untouched master passes the gate's scan: no invented technology, no unbacked number |
| `Verification.UnderscoreAfterADotAccuses` | apps/worker/agent/verification.py:97-188 | The side condition is real: abc1._x is accused by its own text |
| `Verification.AsciiTablesAreLawful` | apps/worker/agent/verification.py:97-100 | The laws asked of the Unicode tables can be met: tables that know only ASCII meet them |
| `Fabrications.AsciiMentionsExactly` | apps/worker/agent/verification.py:136-151 | An ASCII text mentions a technology whose spellings have no spaces exactly when one of them, singular or plural and in any letter case, stands in it between characters that are no word characters |
| `Fabrications.MatchIsCovered` | apps/worker/agent/verification.py:153-176 | Every position at which the shape pattern matches lies in a token that is found |
| `Fabrications.InventedExactly` | apps/worker/agent/verification.py:179-188 | Reported are exactly, in upper case, the vocabulary names the text mentions and its shape tokens that are no listed exception and not all capitals without a digit, as far as no evidence mentions them |
| `Fabrications.ShownWordIsReported` | apps/worker/agent/verification.py:153-188 | A vocabulary name that an ASCII text shows while all evidence is silent about it is reported |
| `Fabrications.InventedWordIsDropped` | apps/worker/agent/verification.py:235-289 | A replacement that shows it is dropped by the grading |
| `Fabrications.InventedWordFailsTheScan` | apps/worker/agent/verification.py:292-318 | A finished document that shows it fails the scan |
| `Fabrications.ScanExactly` | apps/worker/agent/verification.py:292-318 | The scan reports exactly the lies of the document, and its numbers that neither CV text nor master has and the facts do not contain |
| `Verification.NormalFormKeepsTokens` | apps/worker/agent/verification.py:120-123 | A token that stands alone in a text still does, lower-cased, in the text's normal form |
| `Verification.LowerCarries` | apps/worker/agent/verification.py:122-122 | A bounded token stays bounded through lower-casing, even where characters change length |
| `Verification.CollapseCarries` | apps/worker/agent/verification.py:123-123 | A bounded token stays bounded through the whitespace collapse |
| `Verification.AliasesAreInterchangeable` | apps/worker/agent/verification.py:131-152 | A text that states one spelling of a technology states every other |
| `Verification.CapitalMatchIsThePattern` | apps/worker/agent/verification.py:97-98 | The scanner for inner capitals finds exactly the match of the first shape alternative |
| `Verification.DigitMatchIsTheLongest` | apps/worker/agent/verification.py:99-99 | The scanner for digits finds the longest match of the second alternative |
| `Verification.DigitMatchIsAMatch` | apps/worker/agent/verification.py:99-99 | ... and nothing that is none |
| `Verification.TokenStandsAlone` | apps/worker/agent/verification.py:97-100 | A token that does not end in a dot or a plus has no word character beside it |
| `Verification.VocabularyIsMentioned` | apps/worker/agent/verification.py:131-152 | A vocabulary claim, upper-cased, is a mention of the same name |
| `Verification.OneLetterBeforeADigit` | apps/worker/agent/verification.py:94-100 | n8n, which the comments list, is no token |
| `Verification.DigitBehindADash` | apps/worker/agent/verification.py:94-100 | Of GPT-4, which the comments list, only the skipped GPT is a token |
| `SelfHeal.EvaluateFabrications` | apps/worker/agent/verification.py:235-289 | The accumulator loop computes the specified grade |
| `SelfHeal.KeptAreTheCleanOnes` | apps/worker/agent/verification.py:235-289 | The kept replacements are exactly the clean ones, in order, and nothing is reported exactly when all are kept |
| `SelfHeal.CountsAddUp` | apps/worker/agent/verification.py:259-286 | Every reported violation is counted, and the tokens are the words of the replacements, at least one for each |
| `SelfHeal.WordsAroundASpace` | apps/worker/agent/verification.py:261-262 | The words of a text are those in front of a space and those behind it |
| `SelfHeal.WordsOfOneWord` | apps/worker/agent/verification.py:261-262 | A text without spaces is one word, or none when it is empty |
| `SelfHeal.CleanMeansBacked` | apps/worker/agent/verification.py:191-232 | A replacement grades clean exactly when every number of it is in the replaced line, the CV or the facts and no technology is invented |
| `Fabrications.ViolationsExactly` | apps/worker/agent/verification.py:191-232 | The violations of a replacement are exactly its numbers that the replaced line, the CV and the facts lack, and its invented technologies, remarked when the vacancy asks for them |
| `Fabrications.GradeExactly` | apps/worker/agent/verification.py:235-289 | The grade reports exactly the violations of the replacements |
| `Fabrications.LieIsDropped` | apps/worker/agent/verification.py:235-289 | A claim no evidence mentions is among the violations and its replacement is not kept, whatever the vacancy asks for |
| `Fabrications.UnbackedNumberIsDropped` | apps/worker/agent/verification.py:235-289 | So is a number that neither the replaced line nor the CV nor the facts have |
| `SelfHeal.RegradingIsAFixpoint` | apps/worker/agent/verification.py:235-289 | Re-grading the kept list finds nothing and keeps it |
| `SelfHeal.VacancyIsNoEvidence` | apps/worker/agent/verification.py:191-289 | For any two job descriptions the kept list, the counts and the violations are the same; only the remark on a technology differs |
| `SelfHeal.SelfHealReplacements` | apps/worker/agent/verification.py:328-380 | The grade of the last of the drafts with the fewest violations, within max(0, retries) calls, stopping early only when clean or on a failed call; every draft answers the best one before it |
| `SelfHeal.LastBestIsTheLastMinimum` | apps/worker/agent/verification.py:352-380 | That draft has the fewest violations, and every later one has more |
| `Graph.StepKeepsInv` | apps/worker/agent/graph.py:58-97 | Every node, and everything that can go wrong in it, keeps the invariant behind the next two rows |
| `Graph.NothingUnscannedGetsOut` | apps/worker/agent/document_gate.py:43-89 | Over every run nothing is rendered, judged or uploaded that was not scanned clean since its last write, and there are at most max(1, MAX_REVISIONS) writes |
| `Graph.UploadsMatchUnless` | apps/worker/agent/persist.py:47-55 | The uploaded PDF shows the uploaded DOCX exactly unless the graph stopped early in a later revision |
| `Graph.StalePdfIsUploaded` | apps/worker/agent/graph.py:30-40 | A run that uploads the PDF of revision 1 beside the DOCX of revision 2 |
| `Graph.StepsBringTheEnd` | apps/worker/agent/graph.py:43-55 | Every node execution brings the end closer |
| `Graph.RunsAreShort` | apps/worker/agent/graph.py:58-97 | A run takes at most 4 * max(1, MAX_REVISIONS) + 1 node executions |
| `GraphRuns.FailsExactly` | apps/worker/agent/graph.py:58-97 | A run fails exactly when a node raises, a save, the page images or an upload breaks, or the gate finds a present document unclean |
| `GraphRuns.EndsExactly` | apps/worker/agent/graph.py:58-97 | A run ends well exactly when it gets to store its files |
| `GraphRuns.RevisionIsStored` | apps/worker/agent/graph.py:43-55 | The first approved revision is stored, and the last allowed one whatever its pages look like: r - 1 rejected revisions and one that is approved or the last end with PDF and DOCX of revision r |
| `GraphRuns.NothingToApplyIsStored` | apps/worker/agent/graph.py:30-40 | With nothing to apply the untouched document passes the gate and is stored without a PDF |
| `Intake.Select` | apps/worker/scout/policy.py:73-94 | Undated postings are kept, postings beyond the limit are not, and both are counted |
| `Intake.KeptOrStale` | apps/worker/scout/policy.py:73-94 | Every posting is kept or counted as stale, and what has no usable date is kept |
| `Intake.OfferedExactly` | apps/worker/scout/run.py:85-142 | Offered is exactly what some feed with a parser parsed and the age rule lets through: undated, or at most the limit old, or any age when the limit is 0 or less |
| `Intake.UnroutedExactly` | apps/worker/scout/run.py:85-142 | Skipped are exactly the feeds without a parser |
| `Intake.CountersAddUp` | apps/worker/scout/run.py:85-142 | Offered and stale postings together are all postings of the routed feeds, and the undated count is the number of those without a date |
| `Intake.Collect` | apps/worker/scout/run.py:85-142 | The first kept vacancy of every (site, id) over the routed feeds, in feed order, the unrouted feeds, and the counters |
| `Intake.NewVacancies` | apps/worker/scout/store.py:27-60 | Exactly the vacancies the board lacks for their site, in feed order |
| `Intake.CreateCards` | apps/worker/scout/store.py:63-103 | The store and the answer after one claim for each vacancy |
| `Intake.RunIntake` | apps/worker/scout/run.py:204-288 | One run with the cap off |
| `Intake.EveryNewVacancyGetsItsCard` | apps/worker/scout/store.py:63-103 | A run creates exactly one submitted card for every offered vacancy the board lacks, no two for one (site, id), and touches no other row, exactly when no row has one of their keys and no two share one - which holds when each key has one reading |
| `Intake.LaterOffersNoMore` | apps/worker/scout/policy.py:73-94 | Postings only age: a later run over the same feeds is offered nothing an earlier one was not |
| `Intake.BoardStaysExactly` | apps/worker/utils/db.py:110-190 | A step keeps every vacancy of the board on it exactly when it gives no vacancy's only row to a vacancy of another site or id, by re-claiming it or by an update of its key fields |
| `Intake.PlainClaimsDisplaceNothing` | apps/worker/utils/db.py:110-190 | A claim whose key has one reading never does that, nor does a count or an update that leaves the key fields alone |
| `Intake.StaysOnBoard` | apps/worker/utils/db.py:343-352 | So what is on the board stays on it through every run of such steps in which no update gives a row the key of another row |
| `Intake.RerunCreatesNothing` | apps/worker/scout/store.py:27-103 | After one run whose keys were free, and whatever store operations follow that take no vacancy off the board and give no row the key of another row, a later run over the same feeds creates no card and changes nothing |
| `Intake.PlainRerunCreatesNothing` | apps/worker/scout/store.py:27-103 | So it is, whatever claims, counts and updates of other fields follow, when the keys of the offers and of the claims in between have one reading |
| `FormFields.FieldIdIsInjective` | apps/extension/src/formfill.js:423-423 | Different field numbers give different ids |
| `FormFields.DecimalSaysTheNumber` | apps/extension/src/formfill.js:423-423 | The number in an id is a decimal numeral without leading zeros that says the number |
| `FormFields.IdsAreDense` | apps/extension/src/formfill.js:396-442 | The ids are f1 to fn in field order, n at most 80, and each record holds exactly the controls that carry its id |
| `FormFields.SharedIdExactly` | apps/extension/src/formfill.js:408-441 | Two marked controls share an id exactly when both are radio or checkbox with the same non-empty name |
| `FormFields.FieldsCollectTheirControls` | apps/extension/src/formfill.js:408-441 | A group lists the option labels of its controls in page order and is required when one of them is; any other field keeps its own choices |
| `FormFields.MarkedExactly` | apps/extension/src/formfill.js:407-421 | Only fillable controls are marked, and all of them unless the form was cut |
| `FormFields.FullMeansEighty` | apps/extension/src/formfill.js:421-421 | A form is cut only at 80 fields |
| `FormFields.Annotate` | apps/extension/src/formfill.js:396-442 | Whatever marks the page carried before, marks, fields and records are a function of what the controls are |
| `FormFields.Visit` | apps/extension/src/formfill.js:407-440 | The loop body for one control |
| `FormPlan.NormalizePlan` | apps/worker/agent/application.py:69-129 | The method returns the specified plan, sorted, or the contract error |
| `FormPlan.NormalStores` | apps/worker/agent/application.py:96-120 | What is stored of an answer: its action and its stripped value cut at 4000 characters, except that a document has no value and an answer or choice without one becomes a skip; kind and label of the last field with the id |
| `FormPlan.FirstBreachIsReported` | apps/worker/agent/application.py:90-94 | The contract error names the first deciding answer whose action there is not |
| `FormPlan.BrokenExactly` | apps/worker/agent/application.py:84-97 | The contract breaks exactly when the first answer for some field of the form names an unknown action |
| `FormPlan.PlanIsExact` | apps/worker/agent/application.py:69-129 | The plan's items are distinct snapshot fields in form order, each storing the first answer for its field, undecided is the exact complement, the note is the stripped note cut at 1000 characters, and a refused plan names the first breach |
| `FormPlan.NormalIsSafe` | apps/worker/agent/application.py:96-120 | A stored item has one of the five actions, bounded lengths, no document in a value and no empty instruction |
| `FormPlan.SortedIsAPermutation` | apps/worker/agent/application.py:122-124 | The stable sort permutes the items into ascending form positions |
| `FormPlan.OnlyOneOrder` | apps/worker/agent/application.py:122-124 | Distinct fields have only one such order: the one in which the form is walked |
| `FormPlan.SortedIsTheWalk` | apps/worker/agent/application.py:122-124 | So sorting is walking the form and picking up each field's item |
| `FormPlan.ApplyPlan` | apps/extension/src/formfill.js:838-851 | Annotating again and looking up every id |
| `FormPlan.PlanAlwaysResolves` | apps/extension/src/formfill.js:838-851 | On the unchanged form every item of a plan finds a control that carries its id again, of a field of the same kind and label |

## Left out

- Foreign code and I/O: LibreOffice, poppler, `python-docx`, Gemini, Telegram, HTTP, sockets, file systems and clocks are parameters or are not modelled.
- `iter_all_paragraphs`: paragraphs are given as distinct objects in document order. A paragraph is its runs and the text between them; hyperlinks and fields are part of that text.
- Regular expressions: the two shape alternatives and the word-boundary test are predicates over sequences; `extract_numbers` is a parameter.
- Python's Unicode tables: word characters, digits and lower-casing are parameters with stated laws, one character at a time, so the final-sigma rule of `str.lower()` is not modelled. `str.lower()` of an action is a parameter.
- The technology word lists are parameters; the results ask that the vocabulary is lower-case ASCII.
- Order of reported violations: sets are walked in an order that is a parameter. The lie percentage, which is only logged, is not modelled.
- SelfHeal.VacancyIsNoEvidence: speaks of grading; the healing loop's drafts may differ between job descriptions, because the remark about the vacancy is part of the retry prompt.
- The broker's per-connection message count across reconnects and the order of messages within its queues. On the file queue, the endless wait without a message limit, and a crash in the middle of rewriting a deferred file, which would leave it unreadable.
- Worker: a store that raises after it has counted an attempt. A count that raises is one that did not happen.
- LetterAttempts.AttemptsAreTheCount: deliveries are handled one after the other; two pods with copies of one request can read the same count.
- Redelivery.MessageIsTakenUpAgain: nothing else touches the row between two deliveries of the message.
- Fabrications.AsciiMentionsExactly: for ASCII texts and spellings without spaces; `Fabrications.InventedExactly` holds for every text and name, over the mention test.
- Retry: of an invocation, the role of the correcting prompt; any two answers of the provider are possible.
- `PostgresDb`: the dictionary store is the model of the claim. The foreign key that removes a letter row with its vacancy is modelled.
- `PostgresModelStateStore`: it writes fresh timestamps on every save, so the ledger results are about the file store.
- Waiting for the quota at a terminal: calls are headless, so an exhausted daily quota hands the message back.
- The recursion limit of the graph library. Runs of the graph without a job id, which upload nothing.
- Updates of key fields: the results about runs of the job store, and of the worker and the intake over it, ask that no update gives a row the key of another row, which the unique index `resumes_job_key_idx` of the database refuses and the dictionary store does not check. The worker and the board update no key field; `scripts/retailor_stage.py:105-112` sets `cv_version` and `scripts/reown_scout_cards.sql` sets `user_id`. Deleted rows are not modelled.
- Intake.RerunCreatesNothing: one run is not interleaved with another one's steps.
- The per-run cap of the intake, the run ledger, notifications and the dry run.
- Generated job ids are a parameter that never repeats.
- What the extension does to a control once it is found, labels, pins and page structure: a control is what `annotate` reads of it.
- The remaining stages (DOCX updates, re-rendering, archiving, process runs), React components, prompts, configuration parsing, logging and health checks: they would only add easy members.
