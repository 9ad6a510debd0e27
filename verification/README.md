# OpenVac worker, streaming and evaluation models

This project models the parts of OpenVac in which state is shared, text is cut
up, or streams are read, and proves what they keep.

**Two leased work queues.** `src/worker/` holds two PostgreSQL-backed queues:
chat attachments to be parsed (with a second queue of objects to be deleted),
and knowledge documents to be recognised, reviewed and embedded. Each statement
or transaction is one atomic step over the tables (`AttachmentSteps`,
`KnowledgeSteps`). A step whose guard fails changes nothing, so every sequence of
actions is a run, and the results hold for all of them: other workers, crashes,
expiring leases, heartbeats, uploads, sweeps and content edited by others
are further actions. `Fencing` and `Ordering`
(which row goes first) are what the queues share. `AttachmentAccounting` and
`DeletionAccounting` say what attempts count; `AttachmentTimeouts`,
`DeletionTimeouts` and `KnowledgeTimeouts` how long a lease lasts and when a row
can be claimed; `AttachmentOutcomes` and `KnowledgeOutcomes` what each statement
leaves behind, for good or until when; and `KnowledgePublication` what is
published. `AttachmentRepository` and `KnowledgeRepository` are the repository
classes, method by method proved to be those steps; `AttachmentWorker` and
`KnowledgeWorker` are the workers' turns, proved for everything that may happen
around them against `AttachmentTurns` and `KnowledgeTurns`, which say what an
undisturbed turn comes to.

**The chunkers.** `SlidingWindows`, `TextWindows`, `AttachmentChunks`,
`CsvChunks`, `CsvLocators`, `CsvPassages`, `CsvCounts`, `PageMarkers`,
`ReviewedChunks`, `ReviewedLayout` and `ReviewedParagraphs` model how texts, CSV
files, parsed documents and reviewed markdown are cut, what the locators of the
pieces mean, how pieces overlap, how many there are, and that nothing is lost.

**The event stream.** `EventFraming` and `EventStream` model the browser's
incremental reader, a subset of sections 9.2.5 and 9.2.6 of the WHATWG HTML
Standard; `EventReads` says how far its reads matter, `EventSeparation` and
`EventSeparations` when cutting line breaks in two matters, `EventDiscipline`
what its consumer can rely on, `EventVerdicts` exactly when it raises what, and
`EventEncoding` that it reads what the server writes;
`StreamAgreement` relates it to the acceptance script's whole-stream reader.

**Smaller algorithms.** `FieldSearch` (depth-first search with a shared visited
set), `WorkerPool` (work sharing in every interleaving), `CorpusGates`,
`LaunchGate` and `SearchCases` (the launch gate around it), `Reconciliation`
(answer versions) and `LineDiff` (prefix/suffix line diff).

Assumptions, made where they are named: a new lease token is one that no
earlier lease had; for the publication results, no two contents have one
SHA-256 hash (`KnowledgePublication.HashIsInjective`), and whoever else writes a
version keeps its hash that of its content (`KnowledgeSteps.HashFits`).

Four properties one might expect are false of the code; the model keeps the
code, and each comes with the exact condition under which the property holds:

- Claims of an attachment are bounded, expiries apart, if and only if the parser
  never answers with an empty job id (`AttachmentAccounting.ClaimsBoundedIff`).
  This is about the `DocumentParser` interface, which promises only a string. The
  one parser the program wires in throws on an empty id
  (`src/server/providers/docmind.ts:158-168`, whose `pickString` skips empty
  strings, `src/server/providers/runtime.ts:343-354`), so with it claims are
  bounded.
- A CSV locator names the wrong row exactly when an over-long row with ink meets
  waiting blank rows (`CsvLocators.LocatorsExactIff`).
- A read that ends between a carriage return and its line feed changes the
  buffered text (`EventFraming.PiecesMatchWholeIff`). A consumer can tell exactly
  under the condition of `EventSeparation.SeparationIsHarmlessIff` for one such
  read and of `EventSeparations.ReadsAreHarmlessIff` for any number of them, each
  with an empty line at it or after it.
- A launch gate can pass without any search, exactly if some source has a version
  awaiting review besides its reviewed one (`LaunchGate.PassedIff`,
  `CorpusGates.ReadyCorpusIsAvailableIff`).

`dafny verify dfyconfig.toml` checks everything. Functions named after a step
(`Commit...`) say what a statement does to the tables; histories (`tallies`,
`jobs`, `loaded`, `publications`) are kept beside them and stored nowhere.

## Model

| member | source | states |
|---|---|---|
| Fencing.NeverCurrentAgain | src/worker/chat-storage.ts:628-659 | In every history in which a new lease has a token no earlier lease had, a lease that stopped being current never becomes current again (no ABA) |
| Fencing.LostStaysLost | src/worker/chat-storage.ts:628-659 | In particular a lease whose token is known and that is not current never becomes current |
| Fencing.HeldThroughout | src/worker/chat-storage.ts:274-302 | A lease current before and after an operation was current at every moment between |
| Fencing.TokenNamesOneLease | src/worker/chat-storage.ts:628-659 | Over a whole history a token belongs to one row and one worker |
| Fencing.ReleasedOnce | src/worker/chat-storage.ts:417-570 | A lease is given up at most once |
| AttachmentFencing.RunIsLeaseHistory | src/worker/chat-storage.ts:410-570 | Every run of claims, renewals, submissions, deferrals, completions, failures, expiries, sweeps and uploads is such a history |
| AttachmentFencing.LostLeaseStaysLost | src/worker/chat-storage.ts:417-570 | In every run, a parse token that was handed out and is no longer current never is again |
| AttachmentFencing.StaleHolderChangesNothing | src/worker/chat-storage.ts:417-570 | From then on no statement of its holder changes any table |
| AttachmentFencing.HeldBetween | src/worker/chat-storage.ts:274-302 | A token current at two moments of a run was current at every moment between |
| AttachmentFencing.OneReleasePerToken | src/worker/chat-storage.ts:431-570 | Two releasing steps of a run that both took effect had different tokens |
| AttachmentFencing.EffectiveStepReleases | src/worker/chat-storage.ts:431-570 | A submission, deferral, completion or failure that changes anything was made under a current lease and ends it |
| AttachmentFencing.RunIsDeletionHistory | src/worker/chat-storage.ts:572-625 | The deletion queue's runs are lease histories too |
| AttachmentFencing.StaleDeletionChangesNothing | src/worker/chat-storage.ts:579-625 | A deletion token that stopped being current marks no row, ever; the deletion of the object itself is not fenced |
| AttachmentFencing.OneMarkPerToken | src/worker/chat-storage.ts:579-625 | Two marks of deletion jobs in a run that both took effect had different tokens |
| DeletionAccounting.AttemptsAccountedFor | src/worker/chat-storage.ts:579-678 | Over every run from before it is enqueued, a deletion's attempts are its claims: those that were requeued, the leases that expired, and one if it is running or was ended by its last claim; it ends at most once, and attempts never exceed the maximum plus the expiries |
| AttachmentProofs.RunKeeps | src/worker/chat-storage.ts:410-570 | Every run keeps: a leased row is exactly the job its holder was handed, and attempts, polls and claims are accounted for |
| AttachmentAccounting.AttemptsAccountedFor | src/worker/chat-storage.ts:443-471 | From an empty queue, attempts equal retryable failures plus lease expiries plus one if the row is leased or was ended by its last claim; the refund never meets its clamp; without expiries the maximum is never exceeded |
| AttachmentAccounting.JobInHandIsTheRow | src/worker/chat-storage.ts:410-416 | While a lease is current, attempts, poll count, submission time and parser job in the worker's hand are the row's |
| AttachmentAccounting.ClaimsBounded | src/worker/chat-storage.ts:180-271 | Claims are at most 1 + blank submissions + poll budget + maximal attempts + expiries, also for attachments since removed |
| AttachmentAccounting.ClaimsTerminate | src/worker/chat-storage.ts:180-271 | If the parser names its jobs, claims are at most 1 + poll budget + maximal attempts + expiries |
| AttachmentAccounting.BlankJobIdNeverTerminates | src/worker/chat-storage.ts:188-232 | With the empty job id for the parser's only answer, for every number there is a run after which the row waits to be submitted again, that many claims old, and no lease ever expired |
| AttachmentAccounting.ClaimsBoundedIff | src/worker/chat-storage.ts:188-232 | For every set of job ids a parser can answer with: over all runs from an empty queue with such answers, claims minus expiries are bounded if and only if the empty job id is not in the set |
| AttachmentAccounting.EndedIsAbsorbing | src/worker/chat-storage.ts:538-570 | A ready or failed attachment is never claimed again and keeps status, parse status and chunks for as long as it exists |
| AttachmentTimeouts.LeaseLasts | src/worker/chat-storage.ts:417-429 | In every run: a token that is current at a moment, with the row locked at t, is current at every later moment up to t plus 900,000 ms, unless its own holder submits, defers, completes or fails in between, or the row is removed |
| AttachmentTimeouts.RenewedLeaseLasts | src/worker/chat-storage.ts:417-429 | A renewal that finds the lease current keeps it for fifteen minutes from then on, under the same exceptions |
| AttachmentTimeouts.RenewalIsNow | src/worker/chat-storage.ts:417-429 | A renewal under a current lease sets the time of the lock to the present and changes nothing else; any other changes nothing |
| AttachmentTimeouts.LeasedIsTakenIff | src/worker/chat-storage.ts:636-643 | In every run, a leased row can be claimed under a new token exactly when more than 900,000 ms have passed since it was locked |
| AttachmentTimeouts.ExpiredLeaseIsTaken | src/worker/chat-storage.ts:636-643 | Then the claim makes the row the new holder's, and the old holder's token is no longer current |
| AttachmentTimeouts.WaitingIsTakenIff | src/worker/chat-storage.ts:632-638 | A queued row can be claimed exactly if it is a committed, active document in processing that is due |
| AttachmentTimeouts.OthersAreNotClaimed | src/worker/chat-storage.ts:636-643 | A row whose parse is done, failed or not required is never claimed |
| AttachmentTimeouts.VerifiedUpload | src/server/chat-attachments/repository.ts:170-238 | A document whose upload was verified can be claimed at once; an image is ready and is never claimed |
| AttachmentOutcomes.OutcomeOfStep | src/worker/chat-storage.ts:431-570 | In every run, what a submission, deferral, completion or failure that takes effect makes of its row, column by column: status, due time, attempts, parser job, polls and chunks, the lease given up, all else and all other rows unchanged |
| AttachmentOutcomes.NotClaimedBeforeDue | src/worker/chat-storage.ts:431-481 | In every run, after a submission, a deferral or a failure that is retried, no claim of the row takes effect before the time it was put back for |
| AttachmentOutcomes.SavedChunksStay | src/worker/chat-storage.ts:483-536 | In every run, chunks whose saving took effect are the attachment's chunks at every later moment while the row exists, and it is ready |
| AttachmentOutcomes.FailedForGoodIff | src/worker/chat-storage.ts:538-570 | A failure is for good exactly if attempts are used up or it is not retryable; then the attachment is failed at every later moment, and otherwise it is queued until its retry |
| AttachmentOutcomes.ParserJobStays | src/worker/chat-storage.ts:431-460 | In every run, a parser job once recorded is the attachment's parser job at every later moment |
| DeletionTimeouts.LeaseLasts | src/worker/chat-storage.ts:661-678 | In every run, a deletion token that is current, with the deletion locked at t, is current up to t plus 900,000 ms unless its holder marks the deletion |
| DeletionTimeouts.TakenIff | src/worker/chat-storage.ts:661-678 | In every run, a deletion can be claimed exactly if it is queued and due, or running and locked more than 900,000 ms ago |
| DeletionTimeouts.MarkedAs | src/worker/chat-storage.ts:579-625 | In every run, a mark that takes effect ends the deletion, or, for a retryable failure with attempts left, puts it back until the given time |
| DeletionTimeouts.OverStaysOver | src/worker/chat-storage.ts:579-625 | A deletion that succeeded or failed for good stays as it is in every run |
| AttachmentQuota.RefundIsExact | src/worker/chat-storage.ts:385-400 | When accounts agree with their attachments, the clamps at zero of the refund never bite |
| AttachmentQuota.RunKeepsQuota | src/worker/chat-storage.ts:343-408 | Every run, with sweeps, uploads, bindings and deletions, keeps each account's reserved and used bytes equal to the sums over its reserved and committed attachments, and within its limit |
| AttachmentQuota.RemovedRowsAreEnqueued | src/worker/chat-storage.ts:350-405 | A removed row has no message id and is active; a sweep removes only rows it was given that expired by now; the object key of each removed row has a deletion job |
| AttachmentQuota.BoundStaysBound | src/worker/chat-storage.ts:350-352 | In every run, an attachment once bound to a message stays in the table, bound to that message |
| AttachmentQuota.RemovalAddsNew | src/worker/chat-storage.ts:376-384 | A removal adds to the deletion queue only new deletions, queued, with no attempt of the five begun, due at once after a sweep, and leaves those that are there alone |
| AttachmentQuota.RunEnqueuesRemoved | src/worker/chat-storage.ts:343-408 | In every run the keys enqueued for deletion only grow, and a row that is gone at its end has its object key among them |
| AttachmentQuota.SweepRemovesExactly | src/worker/chat-storage.ts:346-406 | A sweep removes exactly the rows it chose and leaves every other row as it was |
| AttachmentRepository.Repository.ClaimAttachmentParse | src/worker/chat-storage.ts:628-659 | The row claimed is claimable, not locked by others, and due no later than every other such row, created no later if due at the same time; without one nothing changes; the result is the claim step under a new token |
| AttachmentRepository.Repository.RenewAttachmentLease | src/worker/chat-storage.ts:417-429 | Renews exactly if the lease is current, else changes nothing and reports a stale lease |
| AttachmentRepository.Repository.MarkParserSubmitted | src/worker/chat-storage.ts:431-460 | The submission step: requeued with the parser job, polls from zero, the attempt refunded, the lease given up |
| AttachmentRepository.Repository.DeferParserPoll | src/worker/chat-storage.ts:462-481 | The deferral step: one poll more, the attempt refunded, the lease given up |
| AttachmentRepository.Repository.SaveChunksAndComplete | src/worker/chat-storage.ts:483-536 | A chunk count outside 1 to 4096 is refused; otherwise all chunks, inserted in batches of 100, replace the old ones and the row is ready, or nothing changes |
| AttachmentRepository.Repository.MarkAttachmentFailed | src/worker/chat-storage.ts:538-570 | Terminal exactly if attempts are used up or the error is not retryable; otherwise requeued |
| AttachmentRepository.Repository.RemoveAttachment | src/worker/chat-storage.ts:360-405 | One row: deletion enqueued once per key, account refunded, row dropped |
| AttachmentRepository.Repository.EnqueueExpiredOrphans | src/worker/chat-storage.ts:343-408 | Up to the limit, distinct rows without a message id that are active and expired by now and not locked by others are removed, in the order of expiry and then creation and before every such row left over; below the limit none is left over; every other row stays |
| AttachmentRepository.Repository.ClaimDeletion | src/worker/chat-storage.ts:661-678 | The deletion claimed is claimable, and due no later than every other that is not locked, created no later if due at the same time |
| AttachmentRepository.Repository.MarkDeletionSucceeded | src/worker/chat-storage.ts:579-593 | Marks the deletion exactly if its lease is current |
| AttachmentRepository.Repository.MarkDeletionFailed | src/worker/chat-storage.ts:595-625 | Fails or requeues the deletion exactly if its lease is current |
| AttachmentWorker.ChatStorageWorker.WithAttachmentLease | src/worker/chat-storage.ts:274-302 | Whatever others do and whichever heartbeats fail: the answer comes back exactly if the call answered, every heartbeat found the database up, and the lease was current at every moment from before the call to after the last renewal; without the lease at the start it is lost, and an error of the call is passed on |
| AttachmentWorker.ChatStorageWorker.AttendText | src/worker/chat-storage.ts:180-187 | A text file is saved with given chunks exactly if nothing disturbed the fetch, the text is UTF-8, not blank and without NUL, its chunks are those and at most 4096 (and some, for CSV); undisturbed and otherwise it is a retryable failure |
| AttachmentWorker.ChatStorageWorker.AttendNew | src/worker/chat-storage.ts:188-232 | A PDF is saved exactly if nothing disturbed the extraction and it gave pages with 1 to 4096 chunks, those of the pages; a job is submitted exactly if nothing disturbed the calls, a PDF had no text of its own, and the parser named that job |
| AttachmentWorker.ChatStorageWorker.AttendSubmitted | src/worker/chat-storage.ts:234-256 | Within the budget of polls and time, and undisturbed: deferred exactly while the parser runs, saved exactly if it is done with 1 to 4096 chunks, failed for good if it failed; outside the budget failed for good before anything is called |
| AttachmentWorker.ChatStorageWorker.Settle | src/worker/chat-storage.ts:257-271 | Completed exactly if there are 1 to 4096 chunks to save and the lease is current by then, deferred exactly if there is a job to submit or poll and it is; the row then has those chunks, or that job; a stale lease changes nothing and any other error is recorded with its retryability |
| AttachmentWorker.ChatStorageWorker.RunDeletion | src/worker/chat-storage.ts:155-174 | Completed exactly if the object was deleted and the lease is current by then, and the deletion has succeeded |
| AttachmentWorker.ChatStorageWorker.RunOnce | src/worker/chat-storage.ts:153-272 | A turn is a run of the queue's steps whatever happens around it. From the moment after the claim: it is completed exactly if undisturbed calls give chunks to save and the lease is kept until its own statement, and the claimed row is then ready with exactly those chunks; likewise for deferred; idle only if nothing claimable is left unlocked |
| TextWindows.ChunkText | src/worker/chat-storage.ts:784-806 | Fails exactly if there are more than 4096 chunks, and otherwise returns the windows of the text |
| TextWindows.WindowsArePassages | src/worker/chat-storage.ts:784-806 | Every chunk is a trimmed, non-blank passage of at most 8000 characters and says exactly where it stands |
| TextWindows.WindowsKeepPassages | src/worker/chat-storage.ts:784-806 | Every passage of at most 201 characters that begins and ends with ink lies whole in one chunk, so no ink is lost |
| TextWindows.UploadsStayWithinLimit | src/worker/chat-storage.ts:945-949 | A text of at most 25 MiB never meets the chunk limit |
| TextWindows.LimitIsSharp | src/worker/chat-storage.ts:945-949 | For text without spaces the limit is exceeded exactly above 31,949,000 characters |
| AttachmentChunks.ChunksForLocalText | src/worker/chat-storage.ts:710-733 | Text, markdown and CSV are chunked as their MIME type says; blank text is refused |
| AttachmentChunks.LocatorSpansContent | src/worker/chat-storage.ts:718-733 | lineStart is one more than the line breaks before the content, and lineEnd - lineStart is the number of those in it |
| AttachmentChunks.LocalLocatorsAreExact | src/worker/chat-storage.ts:718-733 | Every local chunk is marked as text or markdown, and its lines are those its passage has in the text |
| AttachmentChunks.ChunksForParsedDocument | src/worker/chat-storage.ts:680-708 | The chunks of all pages in order, refused if there are none or too many |
| AttachmentChunks.DocumentChunksAreExact | src/worker/chat-storage.ts:680-708 | Ordinals count from zero and every chunk is the passage of its page that its locator names |
| AttachmentChunks.DocumentPassagesAreKept | src/worker/chat-storage.ts:680-708 | Every passage of a page that fits the overlap is in a chunk of that page |
| CsvChunks.ChunksForCsv | src/worker/chat-storage.ts:735-782 | Fails exactly if a row has too many windows, or no chunk or too many come out; otherwise returns the chunks of the rows |
| CsvChunks.RowsAreCounted | src/worker/chat-storage.ts:744-779 | At every row, the next row number plus the rows waiting is the rows read plus one |
| CsvChunks.ChunksAreWellSized | src/worker/chat-storage.ts:735-782 | Every chunk has 1 to 8000 characters and ordinals count from zero |
| CsvCounts.RowsAreGathered | src/worker/chat-storage.ts:744-778 | At every row of at most 8000 characters: what waits goes out as one chunk, the row alone waiting then, exactly if it has ink and would exceed 8000 characters with the row; otherwise the row joins it |
| CsvCounts.LongRowsStandAlone | src/worker/chat-storage.ts:752-774 | At every longer row: what waits goes out if it has ink, and the row goes out in its own windows |
| CsvCounts.FilesHaveFewChunks | src/worker/chat-storage.ts:735-782 | A CSV file has at most three chunks for every 8000 characters and one more: at most 4096 up to 10,919,999 characters, and at most 9831 up to 25 MiB |
| CsvPassages.ShortRowsAreWhole | src/worker/chat-storage.ts:735-782 | Every non-blank row of at most 8000 characters is whole in one chunk, blanks at its ends aside |
| CsvPassages.LongRowsAreKept | src/worker/chat-storage.ts:735-782 | Of a longer row, every passage of at most 201 characters that begins and ends with ink is whole in one chunk, so no ink is lost |
| CsvLocators.LocatorsExactIff | src/worker/chat-storage.ts:740-778 | Every locator names exactly the rows its chunk comes from if and only if no over-long row with ink arrives while only blank rows wait (flush returns early on a blank buffer without resetting it) |
| CsvLocators.NoBlankBeforeLong | src/worker/chat-storage.ts:740-778 | In particular if no blank row precedes an over-long one |
| CsvLocators.BlankRowMisplacesLongRow | src/worker/chat-storage.ts:740-778 | A blank row followed by an over-long one makes a chunk that names the wrong row |
| PageMarkers.RoundTripIff | src/worker/knowledge-ingestion.ts:367-409 | Splitting rendered pages at their markers recovers the pages if and only if no page text contains a marker |
| PageMarkers.ParsedDocumentRoundTrip | src/worker/knowledge-ingestion.ts:367-409 | For a parsed document whose pages contain no comment opening, rendering and splitting gives back every non-blank page's number and trimmed text |
| PageMarkers.DecimalRoundTrip | src/worker/knowledge-ingestion.ts:367-409 | Reading a printed page number gives the number |
| PageMarkers.EachPageIsRendered | src/worker/knowledge-ingestion.ts:367-378 | Every page with text is rendered in its place, trimmed, under its own number or else its position among those rendered; pages without text are left out |
| ReviewedChunks.ChunkReviewedMarkdown | src/worker/knowledge-ingestion.ts:380-480 | Limits are refused unless 0 <= overlap < maximum; otherwise the loop ends with the chunks of all pages |
| ReviewedChunks.ReviewedChunksAreSized | src/worker/knowledge-ingestion.ts:412-479 | For all legal limits, indices count from zero and every chunk is trimmed and has 1 to maximum characters |
| ReviewedChunks.PagesStandInOrder | src/worker/knowledge-ingestion.ts:412-479 | The chunks of a page stand together, after those of earlier pages, under the page's number |
| ReviewedChunks.ReviewedParagraphsAreWhole | src/worker/knowledge-ingestion.ts:461-474 | Every paragraph within the maximum is a contiguous part of a chunk of its own page |
| ReviewedChunks.ReviewedPassagesAreKept | src/worker/knowledge-ingestion.ts:437-460 | Of a longer paragraph, every passage of at most overlap + 1 characters that begins and ends with ink is a contiguous part of a chunk of its own page, so every character with ink is covered |
| ReviewedChunks.ParagraphsKeepInk | src/worker/knowledge-ingestion.ts:416-419 | Cutting a page into paragraphs loses no ink |
| ReviewedLayout.PagesAreLaidOut | src/worker/knowledge-ingestion.ts:412-479 | In every text the chunks of a page are those of a layout of its paragraphs: runs of paragraphs as long as fit in the maximum with what is carried over, each one chunk, and the windows of each paragraph that is too long |
| ReviewedLayout.LayoutIsUnique | src/worker/knowledge-ingestion.ts:437-474 | There is only one such layout |
| ReviewedLayout.OverlapIsCarried | src/worker/knowledge-ingestion.ts:433-434 | With n the smaller of the overlap and the length of the gathered chunk before: if n > 0 and n + 2 + the length of its first paragraph is within the maximum, a gathered chunk begins with the last n characters of that chunk, an empty line and the paragraph, trimmed; otherwise, at the top of a page and after the pieces of a long paragraph it begins with the paragraph |
| ReviewedLayout.RenderedPagesComeBack | src/worker/knowledge-ingestion.ts:397-409 | The pages of the text put up for a parsed document without comment openings are its pages with text, under their numbers |
| ReviewedLayout.UnmarkedIsOnePage | src/worker/knowledge-ingestion.ts:397-409 | Text without a marker is one page without a number |
| ReviewedParagraphs.ParagraphsHaveNoBreak | src/worker/knowledge-ingestion.ts:416-419 | No paragraph has an empty line in it |
| ReviewedParagraphs.ParagraphsRoundTrip | src/worker/knowledge-ingestion.ts:416-419 | Paragraphs joined by empty lines are found again, all of them and no others |
| ReviewedParagraphs.SectionIsFirstHeading | src/worker/knowledge-ingestion.ts:486-491 | The section of a chunk is the text of its first line of one to six hash signs, spaces and more |
| ReviewedParagraphs.NoSectionWithoutHeading | src/worker/knowledge-ingestion.ts:486-491 | Without such a line it has no section |
| KnowledgeProofs.RunKeeps | src/worker/postgres-repository.ts:46-121 | Every run keeps: a leased task is exactly the job handed out, its payload is the enqueued one plus what the queue did to it, and attempts and claims are accounted for |
| KnowledgeProofs.AttemptsAccountedFor | src/worker/postgres-repository.ts:692-724 | Attempts equal retryable failures plus expiries plus one if the row is leased or was ended by its last claim; the refund never meets its clamp; without expiries the maximum is never exceeded |
| KnowledgeProofs.ClaimsBounded | src/worker/knowledge-ingestion.ts:97-146 | Claims are at most 1 + poll budget + maximal attempts + expiries, whatever the parser names its jobs |
| KnowledgeProofs.SnapshotIsTheRow | src/worker/postgres-repository.ts:101-121 | While a lease is current, payload and attempts in hand are the row's, so writing the snapshot back loses nothing: all but stage, parser job, submission time and poll count stay as enqueued, the poll count is the deferrals since submission, and a row is submitted at most once |
| KnowledgeProofs.RunMovesForward | src/worker/postgres-repository.ts:101-121 | Over any run the stage leaves ocr_pending at most once and changes at no other time, and an ended task is never touched again |
| KnowledgeTimeouts.LeaseLasts | src/worker/postgres-repository.ts:85-99 | In every run, a token that is current, with the task locked at t, is current up to t plus 900,000 ms unless its own holder gives it up |
| KnowledgeTimeouts.RenewedLeaseLasts | src/worker/postgres-repository.ts:85-99 | A renewal that finds the lease current keeps it for fifteen minutes from then on, unless its holder gives it up |
| KnowledgeTimeouts.RenewalIsNow | src/worker/postgres-repository.ts:85-99 | A renewal under a current lease sets the time of the lock to the present and changes nothing else; any other changes nothing |
| KnowledgeTimeouts.TakenIff | src/worker/postgres-repository.ts:862-896 | In every run, a task can be claimed under a new token exactly if it is queued and due, or running and locked more than 900,000 ms ago; the claim hands out its payload if that can be read |
| KnowledgeTimeouts.EnqueuedWaits | src/worker/postgres-repository.ts:862-896 | A task enqueued under a new id waits, unclaimed, with the given priority, attempts and due time |
| KnowledgeOutcomes.OutcomeOfStep | src/worker/postgres-repository.ts:101-121 | In every run, what a holder's statement that takes effect makes of its task, column by column: status, due time, attempts and payload, the lease given up, all other tasks unchanged |
| KnowledgeOutcomes.NotClaimedBeforeDue | src/worker/postgres-repository.ts:692-724 | In every run, after a submission, a deferral or a failure that is retried, no claim of the task takes effect before the time it was put back for |
| KnowledgeOutcomes.MalformedFailsIff | src/worker/postgres-repository.ts:54-81 | A task with an unreadable payload fails for good exactly if the claim that found it so is still the latest |
| KnowledgeOutcomes.ParsedIsPutUp | src/worker/postgres-repository.ts:123-355 | Saving parsed content, when it takes effect, writes the content, its hash and its sections under that hash, takes the approval back, puts version and document under review, queues a first review run unless one is there, and leaves the old chunks |
| KnowledgeOutcomes.SaveParsedTakesEffectIff | src/worker/postgres-repository.ts:123-355 | It takes effect exactly under a current lease, for content that is not blank, for the current version of its document, if a governed source allows it and there is a section to review |
| KnowledgeOutcomes.SavedIsEmbedded | src/worker/postgres-repository.ts:470-649 | In every run, saving embeddings, when it takes effect, published or not, gives the version the chunks under limits 2400 and 200 of its present content, of which there are some, leaves content and sections alone, and records the approval of its content's hash; version and document are published or in review alike |
| KnowledgeOutcomes.EmbeddedStaysChunked | src/worker/postgres-repository.ts:470-649 | In every run, such a version has the chunks of its present content until somebody else or a parser's result writes its content anew |
| KnowledgeOutcomes.SaveEmbeddingsTakesEffectIff | src/worker/postgres-repository.ts:470-649 | It takes effect exactly under a current lease and after a load under it, with an identified reviewer, a date and a hash of 64 lower-case hexadecimal digits, for the current version under review that still has that hash |
| KnowledgeOutcomes.PublishedIff | src/worker/postgres-repository.ts:731-831 | It publishes exactly if the review is of the policy and of low risk and names two different completed, approved, clean, low-risk runs about this version and hash, one initial and one verifying, and a governed source has rights and evidence |
| KnowledgeFencing.RunIsLeaseHistory | src/worker/postgres-repository.ts:862-896 | Every run of the knowledge queue is a lease history, malformed tasks included |
| KnowledgeFencing.LostLeaseStaysLost | src/worker/postgres-repository.ts:862-896 | A token that stopped being current never becomes current again |
| KnowledgeFencing.StaleHolderChangesNothing | src/worker/postgres-repository.ts:85-99 | No statement or transaction of a stale holder changes a task, version, document, chunk or review run |
| KnowledgeFencing.HeldBetween | src/worker/knowledge-ingestion.ts:321-356 | A token current at two moments was current at every moment between |
| KnowledgeFencing.OneReleasePerToken | src/worker/postgres-repository.ts:123-724 | Each token succeeds in at most one releasing step, saving and publishing included |
| KnowledgePublication.PublishedIsReviewedContent | src/worker/postgres-repository.ts:470-649 | Over every run: a version published by these steps has exactly the chunks of its present content, a hash that is its content's and the approved review's, and passed the two-run test for that hash |
| KnowledgePublication.ReplacedContentIsLeftAlone | src/worker/postgres-repository.ts:532-568 | If content was replaced between loading and saving, the saving transaction changes nothing |
| KnowledgePublication.LoadedIsCurrent | src/worker/postgres-repository.ts:532-568 | The transaction's guard on the hash makes the loaded content the present content |
| KnowledgePublication.AutomationReadyPassed | src/worker/postgres-repository.ts:731-831 | Automatic publication needs an initial and a verifying run with different ids, both completed, approved, of low risk and about this version and hash, and a source with rights and evidence |
| KnowledgePublication.ReadyRunsVouch | src/server/knowledge/review-policy.ts:192-289 | The readiness decision over the two rows comes down to such a pair of runs |
| KnowledgePublication.SectionsCarryTheHash | src/worker/postgres-repository.ts:187-306 | Review sections written by OCR carry the version's present hash, and keep carrying it until somebody else writes sections that do not |
| KnowledgeRepository.Repository.ClaimRow | src/worker/postgres-repository.ts:862-896 | The row claimed is claimable, and of those not locked by others none has a higher priority, or the same and is due earlier, or is due at the same time and was created earlier |
| KnowledgeRepository.Repository.MarkMalformed | src/worker/postgres-repository.ts:54-81 | A task whose payload cannot be read is failed, if it still carries this claim's token |
| KnowledgeRepository.Repository.RenewLease | src/worker/postgres-repository.ts:85-99 | Renews exactly if the lease is current |
| KnowledgeRepository.Repository.Requeue | src/worker/postgres-repository.ts:692-724 | Writes the given payload back, refunds the attempt and gives the lease up, exactly if it is current |
| KnowledgeRepository.Repository.MarkOcrSubmitted | src/worker/postgres-repository.ts:101-113 | The submission step |
| KnowledgeRepository.Repository.DeferOcrPoll | src/worker/postgres-repository.ts:115-121 | The deferral step |
| KnowledgeRepository.Repository.SaveParsedForReview | src/worker/postgres-repository.ts:123-355 | Stale lease, missing target, unauthorised source or no section: nothing changes; otherwise content, hash, status, sections, review run and task row change together |
| KnowledgeRepository.Repository.MarkReviewRequired | src/worker/postgres-repository.ts:357-392 | Ends the background task exactly if its lease is current |
| KnowledgeRepository.Repository.LoadApprovedContent | src/worker/postgres-repository.ts:394-468 | Returns the version's content exactly if it is the current version of the job's document, both under review, with the job's hash for its content and its approved review, full text, and of a governed source that is authorised |
| KnowledgeRepository.Repository.SaveEmbeddingsAndComplete | src/worker/postgres-repository.ts:470-649 | Without a valid review or with anything changed since, nothing changes; otherwise chunks, version, document and task row change together, published exactly if the automation is ready |
| KnowledgeRepository.Repository.MarkFailed | src/worker/postgres-repository.ts:651-690 | Terminal exactly if attempts are used up or the error is not retryable |
| KnowledgeWorker.KnowledgeIngestionWorker.WithLeaseHeartbeat | src/worker/knowledge-ingestion.ts:321-356 | The answer comes back exactly if the call answered, every heartbeat found the database up, and the lease was current at every moment from before the call to after the last renewal; without the lease at the start it is lost, and an error of the call is passed on |
| KnowledgeWorker.KnowledgeIngestionWorker.ClaimNext | src/worker/postgres-repository.ts:46-83 | A claim hands out a job under a current lease, or claims and rejects a task whose payload cannot be read, or finds everything claimable locked |
| KnowledgeWorker.KnowledgeIngestionWorker.SubmitOcr | src/worker/knowledge-ingestion.ts:163-197 | Decides to submit a job exactly if storage is there, the object key is under a private prefix without a way out of it, nothing disturbed the calls, the URL is acceptable and the parser named that job |
| KnowledgeWorker.KnowledgeIngestionWorker.PollOcr | src/worker/knowledge-ingestion.ts:199-240 | Within the budget of polls and time, and undisturbed: deferred exactly while the parser runs, failed for good if it failed, put up for review exactly if it is done, with the rendering of its pages, and that is not blank; outside the budget failed for good before anything is called |
| KnowledgeWorker.KnowledgeIngestionWorker.EmbedApprovedContent | src/worker/knowledge-ingestion.ts:242-319 | Chunks go on to be saved exactly if the job is reviewed, the lease is current, the approved content found has the approved hash and some chunks, and undisturbed embeddings are one well-formed vector for each of those chunks; it asks for review exactly if the job is not reviewed, or the lease is current and there is no such content |
| KnowledgeWorker.KnowledgeIngestionWorker.Settle | src/worker/knowledge-ingestion.ts:125-146 | Reports the outcome of a decision exactly if its statement or transaction can take effect by then, and the tables show it; a stale lease changes nothing, and other errors are recorded |
| KnowledgeWorker.KnowledgeIngestionWorker.RunOnce | src/worker/knowledge-ingestion.ts:97-146 | A turn is a run of the queue's steps whatever happens around it. From the moment after the claim: deferred, put up or left for review, and completed are reported exactly if the surroundings lead to such a decision and its statement can take effect by then, and the tables show it; idle only after a rejection or with nothing claimable unlocked |
| EventStream.ParseChatEventStream | src/lib/sse.ts:12-101 | For every way the text arrives, the events and the end of the stream are those of the whole buffered text |
| EventFraming.PiecesMatchWholeIff | src/lib/sse.ts:28-30 | Normalising line ends read by read is normalising the whole text if and only if no read ends between a carriage return and its line feed |
| EventFraming.AppendToRest | src/lib/sse.ts:30-36 | The blocks of a longer text are the complete blocks so far and those of the unfinished rest with what was added |
| EventReads.FragmentationIndependence | src/lib/sse.ts:28-88 | Two ways of reading the same text give the same events and the same end, as long as neither separates a carriage return from its line feed |
| EventReads.SameForEveryParserIff | src/lib/sse.ts:37-44 | Two texts are the same to every JSON parser if and only if their payloads are the same |
| EventSeparation.SeparationIsHarmlessIff | src/lib/sse.ts:28-44 | When one carriage return and its line feed are separated, every JSON parser sees the same as without the separation if and only if the separated line is harmless: inside a block, it has no data or its block never ends; at the empty line that ends a block, another line break follows, or one of the two blocks it parts has no data, or the next never ends and the first has no payload |
| EventSeparations.HarmlessReadsChangeNothing | src/lib/sse.ts:28-44 | However many line breaks the reads separate: if each separation is harmless, given what the buffer holds by then and the text after it, every parser sees the events and the end of the whole text |
| EventSeparations.ReadsAreHarmlessIff | src/lib/sse.ts:28-44 | For all reads in which every separated line break has an empty line with it or after it: no parser can tell them from one read if and only if each separation is harmless |
| EventSeparations.HarmCanCancelOut | src/lib/sse.ts:28-44 | Without that empty line two harmful separations can cancel out: one runs two blocks of empty data together, one loses the end of the last block, and no parser can tell |
| EventReads.SeparatedCrLfLosesTheEnd | src/lib/sse.ts:30-36 | In text whose line breaks are all CR LF, any end marker that is handed on when its block arrives whole is lost when the line break after it arrives in two reads |
| EventDiscipline.EventsAreInOrder | src/lib/sse.ts:43-94 | Yielded sequences strictly increase, versions never mix, only the last event can be an end marker, and the stream ends well only if it is one |
| EventDiscipline.ReplaysAreInvisible | src/lib/sse.ts:52-61 | Any number of sequenced events that say nothing new where they stand (sequence unusable, not above zero, or not above that of an earlier event), repeated end markers included, change neither events nor end |
| EventDiscipline.OneReplay | src/lib/sse.ts:52-61 | Inserting one such event anywhere is such an extension |
| EventDiscipline.RepetitionReplays | src/lib/sse.ts:52-61 | A sequenced event that is sent once more says nothing new |
| EventVerdicts.FailsAtFirstWrong | src/lib/sse.ts:43-88 | The first payload with something wrong decides what is raised: no JSON, a version other than the first event's, an end marker or another event that counts after an end marker that counts; what counts before it is handed on. A sequenced event counts if its sequence is above zero and all before it |
| EventVerdicts.EndsWellIff | src/lib/sse.ts:43-94 | With nothing wrong, exactly what counts is handed on, and the stream ends well exactly if an end marker counts |
| EventVerdicts.WrongOrNot | src/lib/sse.ts:43-94 | Every stream has a first payload with something wrong, or nothing wrong |
| EventEncoding.EncodedIsRead | src/server/agent/http-v2.ts:447-455 | What the server writes frame by frame, one JSON line each, is what the browser takes, for every way it arrives |
| StreamAgreement.ParseEvents | scripts/smoke-agent-v3-staging.ts:1599-1611 | The script reads all payloads, or fails if one does not parse |
| StreamAgreement.AssertSequencedEvents | scripts/smoke-agent-v3-staging.ts:1613-1628 | Accepts exactly the events of one run whose sequences strictly increase from above zero |
| StreamAgreement.PayloadsAgree | scripts/smoke-agent-v3-staging.ts:1599-1611 | The script sees the browser's payloads, and that of an unfinished last block besides |
| StreamAgreement.AcceptedStreamIsHandedOn | src/lib/sse.ts:12-101 | A finished stream the script accepts is handed on whole by the browser, however it is cut into reads that separate no line break |
| FieldSearch.HasForbiddenPublicField | scripts/smoke-agent-v3-staging.ts:1734-1745 | With any set of visited objects: a hit is reachable; without one, whatever was newly visited is clean and leads only to visited objects; terminates on cycles |
| FieldSearch.AssertNoForbiddenFields | scripts/smoke-agent-v3-staging.ts:1728-1732 | On any finite graph the check passes if and only if no reachable object has a forbidden key |
| FieldSearch.ClearedIsClosed | scripts/smoke-agent-v3-staging.ts:1734-1745 | No path leaves a set of cleared objects |
| WorkerPool.MapWithConcurrency | src/evals/live-v1.ts:598-615 | Whichever worker moves next, the pool answers; it resolves exactly if no call (by index and item) rejects, and then with the results of the sequential loop |
| WorkerPool.EveryInterleavingAgrees | src/evals/live-v1.ts:598-615 | After any turns: no index called twice or held by two workers; a resolved pool called the mapper once per index and has the sequential results; at most two effective turns per item and one per worker |
| WorkerPool.StepProgresses | src/evals/live-v1.ts:605-610 | Every turn of a worker that can move brings the end nearer |
| WorkerPool.NeverStuck | src/evals/live-v1.ts:611-613 | A pool that has not answered has a worker that can move |
| CorpusGates.InspectCorpusReadiness | src/evals/live-v1.ts:325-377 | Ready if and only if every source has exactly one reviewed, published version with complete content; the reasons are listed source by source |
| CorpusGates.InspectRetrievalCorpusAvailability | src/evals/live-v1.ts:379-423 | Ready if and only if every source has exactly one active version, reviewed or awaiting review, with complete content |
| CorpusGates.AllClearIff | src/evals/live-v1.ts:343-366 | A list of per-source reasons is empty if and only if every source has exactly one version in the state asked for, and that one has complete content |
| CorpusGates.CountsIff | src/evals/live-v1.ts:334-350 | Which versions count for a source, column by column, and for retrieval those whose review is still due besides |
| CorpusGates.ReadyCorpusIsAvailableIff | src/evals/live-v1.ts:379-423 | A ready corpus can be searched if and only if no source has a version awaiting review besides its reviewed one |
| LaunchGate.EvaluateOpenVacV1Live | src/evals/live-v1.ts:172-323 | The report says of every part what the cases, run over the pool, come to; it is refused exactly for a wrong dataset shape, URL or concurrency |
| LaunchGate.PassedIff | src/evals/live-v1.ts:276-286 | When the gate passes, exactly; searches are skipped in a passed gate exactly if some source has a version awaiting review besides its reviewed one |
| LaunchGate.PassesUnsearched | src/evals/live-v1.ts:203-286 | For every URL normalisation that accepts the https URL of its one source, an input whose every search would fail and whose gate passes |
| LaunchGate.HitsAndMisses | src/evals/live-v1.ts:567-596 | Hits and failed ids account for all results |
| SearchCases.RetrievalPassesIff | src/evals/live-v1.ts:203-219 | A retrieval case passes exactly if its search answers, the URLs of its first five hits are acceptable or missing, and one of those hits is of an expected source |
| SearchCases.MetadataPassesIff | src/evals/live-v1.ts:220-236 | A metadata case passes exactly if its search answers with acceptable URLs and every expected source is among them |
| SearchCases.HitsOfReport | src/evals/live-v1.ts:567-596 | The hits of a report are as many as the cases that hit |
| SearchCases.GatePassesIff | src/evals/live-v1.ts:276-286 | The gate passes exactly if the corpus is reviewed and published, the thirty safety cases hold and are reviewed, and some source has a version pending besides, so that nothing is searched, or at least 92 retrieval cases and all 18 metadata cases hit |
| SearchCases.GateFailsIff | src/evals/live-v1.ts:270-282 | The gate fails exactly if a safety case does, or searches were run and fewer hit |
| Reconciliation.ReconcileChatMessages | src/lib/chat-version-reconciliation.ts:9-63 | Every turn is reconciled, and the messages shown are those without a version and the selected ones |
| Reconciliation.CanonicalByVersion | src/lib/chat-version-reconciliation.ts:23-31 | Each version is represented by its first message of maximal quality |
| Reconciliation.StatusComesFirst | src/lib/chat-version-reconciliation.ts:73-90 | The better of two messages is the one of higher status, completed before incomplete before failed before streaming or none; of the same status, the one with a third-version answer, else an answer, else answer blocks, else any content |
| Reconciliation.CandidatesAre | src/lib/chat-version-reconciliation.ts:66-71 | The versions of a turn are the assistant's messages that carry its id and a version number |
| Reconciliation.SelectedIsUnique | src/lib/chat-version-reconciliation.ts:35-41 | The selection, the requested version if there is one and the highest otherwise, is determined by the candidates |
| Reconciliation.EveryVersionAccountedFor | src/lib/chat-version-reconciliation.ts:42-53 | Every version is selectable exactly if complete, history exactly if neither complete nor selected, and always one of selectable, selected or history |
| Reconciliation.VisibleIsFaithful | src/lib/chat-version-reconciliation.ts:56-62 | What is shown is a subsequence that keeps every message without a version and exactly the selected one of every turn |
| Reconciliation.ReconcilingAgainChangesNothing | src/lib/chat-version-reconciliation.ts:9-63 | Reconciling what is shown selects the same messages and hides nothing more |
| LineDiff.BuildPromptLineDiff | src/components/admin/prompts-manager.tsx:58-91 | Kept and removed lines spell the old text, kept and added lines the new one; the removed and added block share neither first nor last line; there are no changes if and only if the texts are equal |

## Left out

- Providers: object storage, document parser, embeddings and language model are answers or errors with a retryable flag, quantified over; PostgreSQL itself, `SKIP LOCKED` aside, is one atomic step per statement or transaction.
- Failures of the database: only heartbeats may meet a database that is down; any other statement that raises ends the turn outside this model.
- Clocks: one clock serves the database and the workers, and `updated_at`, `completed_at`, `last_error` and result columns are not kept, because no statement of the workers reads them.
- AttachmentRepository.Repository.MarkParserSubmitted: the provider name written to the row is not kept.
- AttachmentRepository.Repository.SaveChunksAndComplete: content hashes and metadata of chunk rows, and the provider name, are not kept.
- AttachmentRepository.Repository.MarkAttachmentFailed: the failure code and message are not kept.
- AttachmentRepository.Repository.MarkDeletionSucceeded: `completed_at` and the error columns are not kept.
- AttachmentRepository.Repository.MarkDeletionFailed: `completed_at` and `last_error` are not kept.
- KnowledgeRepository.Repository.MarkMalformed: `completed_at` and `last_error` are not kept.
- KnowledgeRepository.Repository.MarkReviewRequired: the result and `completed_at` are not kept.
- KnowledgeRepository.Repository.MarkFailed: `completed_at` and `last_error` are not kept.
- KnowledgeRepository.Repository.SaveParsedForReview: how a document is cut into review sections is a function, and rights snapshots, section pages and hashes, and the result are not kept.
- KnowledgeRepository.Repository.SaveEmbeddingsAndComplete: embedding vectors, the model name, chunk metadata and the audit log row are not kept.
- KnowledgePublication.PublishedIsReviewedContent: speaks of versions these steps published and nobody else has written since, and supposes that whoever else writes a version keeps its hash that of its content: a version somebody else writes as published has passed nothing here.
- KnowledgePublication.ReadyRunsVouch: whether a run's report is well formed and matches the version, and whether it leaves blockers or unsupported numbers open, are predicates, as are source rights and evidence.
- KnowledgePublication.SectionsCarryTheHash: supposes that sections others write with the version fit its hash, since no code here checks it.
- KnowledgeWorker.KnowledgeIngestionWorker.SubmitOcr: whether a download URL is on an allowed host is a predicate.
- KnowledgeWorker.KnowledgeIngestionWorker.EmbedApprovedContent: vectors are counted and checked for form; which vector belongs to which chunk is not stated.
- Malformed rows: a knowledge task with an unreadable payload is modelled; unreadable attachment and deletion rows, which make the claim raise, are not.
- EventEncoding.EncodedIsRead: that JSON text is one line is supposed of the payloads.
- Uploads: registration, completion, binding and deletion of unbound attachments (`src/server/chat-attachments/repository.ts`) are steps of the rest of the system; the reset of a scanning upload to initiated (`src/server/chat-attachments/repository.ts:240-251`), rejected completions and the deletion of conversations and users are not modelled, nor are the owners of messages and conversations and the limit of five attachments that binding and deletion on request check, and artifact storage is a constant share of an account.
- Text: a char stands for one code unit; UTF-8 decoding is an input that may fail, and locale-dependent operations do not occur.
- PageMarkers.ParsedDocumentRoundTrip: page numbers are natural numbers.
- ReviewedChunks.ChunkReviewedMarkdown: limits are integers, so the refusal of fractions is not modelled, and text before the first page marker belongs to no page, as in the code.
- EventStream.ParseChatEventStream: a consumer that stops early, a response without a body and the release of the reader are not modelled; JSON parsing is a function that may fail.
- EventSeparations.ReadsAreHarmlessIff: needs an empty line with or after every separated line break; without one, `EventSeparations.HarmlessReadsChangeNothing` goes one way, and `EventSeparations.HarmCanCancelOut` shows that the other way fails.
- FieldSearch.HasForbiddenPublicField: which keys are forbidden is a predicate.
- WorkerPool.MapWithConcurrency: calls settle one at a time, and a call's outcome is a function of its index and item; each index is called once, so this leaves no outcome out.
- LaunchGate.EvaluateOpenVacV1Live: labels, commit, hashes and timestamps of the report are not modelled; the text checks of a safety case are a predicate.
- Reconciliation.VisibleIsFaithful: is about lists in which no message object occurs twice; the order of the map of turns is not kept.
- The loops `runBatch` and `runUntilStopped` call a turn again and again, so the results over runs cover them; worker concurrency limits and React components are not modelled.
