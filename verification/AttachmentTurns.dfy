// What a turn of the chat storage worker comes to when nobody takes its lease
// and the database answers (runOnce in src/worker/chat-storage.ts).
module AttachmentTurns {
  import opened Options
  import opened AttachmentTypes
  import opened AttachmentSteps
  import opened AttachmentProofs
  import opened AttachmentFencing
  import opened Awaiting
  import opened Text
  import opened TextWindows
  import AttachmentChunks
  import CsvChunks

  // Everything one turn of the worker cannot decide itself.
  datatype Surroundings = Surroundings(
    start: seq<Action>,
    deletionSkipped: set<string>,
    duringDeletion: seq<Action>,
    deleted: Reply<()>,
    beforeDeletionFails: seq<Action>,
    beforeParse: seq<Action>,
    parseSkipped: set<string>,
    bytes: Awaited<Action, Option<string>>,
    pdf: Awaited<Action, Option<seq<AttachmentChunks.Page>>>,
    submit: Awaited<Action, string>,
    status: Awaited<Action, ParserStatus>,
    parsed: Awaited<Action, seq<AttachmentChunks.Page>>,
    beforeSave: seq<Action>,
    beforeFail: seq<Action>)

  // How the worker wants to leave a job.
  datatype Decision =
    | Save(chunks: seq<Chunk>)
    | Submission(parserJobId: string)
    | Poll
    | Failure(retryable: bool)
    | Abandon

  // Every moment of the trace finds the token current.
  ghost predicate HeldAllAlong(cfg: Config, s: Store, trace: seq<Action>, token: nat) {
    forall i | 0 <= i <= |trace| :: HoldsToken(Run(cfg, s, trace[..i]), token)
  }

  ghost predicate Known(s: Store, job: ParseJob) {
    job.leaseToken in s.jobs && s.jobs[job.leaseToken] == job
  }

  lemma KnownStays(cfg: Config, s: Store, actions: seq<Action>, job: ParseJob)
    requires Known(s, job)
    ensures Known(Run(cfg, s, actions), job)
  {
    RunKeepsJobs(cfg, s, actions);
  }

  lemma OneMore(cfg: Config, s: Store, trace: seq<Action>, a: Action)
    ensures Run(cfg, s, trace + [a]) == Step(cfg, Run(cfg, s, trace), a)
  {
    assert (trace + [a])[..|trace|] == trace;
  }

  // A trace that begins and ends with the lease current never loses it.
  lemma HeldBetweenEnds(cfg: Config, s: Store, trace: seq<Action>, token: nat)
    requires QueueOk(cfg, s) && HoldsToken(s, token) && HoldsToken(Run(cfg, s, trace), token)
    ensures HeldAllAlong(cfg, s, trace, token)
  {
    assert trace[..0] == [] && trace[..|trace|] == trace;
    forall j | 0 <= j <= |trace| ensures HoldsToken(Run(cfg, s, trace[..j]), token) {
      HeldBetween(cfg, s, trace, token, 0, j, |trace|);
    }
  }

  lemma HeldAtEnds(cfg: Config, s: Store, trace: seq<Action>, token: nat)
    requires HeldAllAlong(cfg, s, trace, token)
    ensures HoldsToken(s, token) && HoldsToken(Run(cfg, s, trace), token)
  {
    assert trace[..0] == [] && trace[..|trace|] == trace;
    assert HoldsToken(Run(cfg, s, trace[..0]), token) && HoldsToken(Run(cfg, s, trace[..|trace|]), token);
  }

  // Two such traces, one after the other.
  lemma HeldTogether(cfg: Config, s: Store, first: seq<Action>, more: seq<Action>, token: nat)
    requires QueueOk(cfg, s) && HeldAllAlong(cfg, s, first, token)
    requires HeldAllAlong(cfg, Run(cfg, s, first), more, token)
    ensures HeldAllAlong(cfg, s, first + more, token)
  {
    hide HoldsToken, Run;
    HeldAtEnds(cfg, s, first, token);
    HeldAtEnds(cfg, Run(cfg, s, first), more, token);
    RunConcat(cfg, s, first, more);
    HeldBetweenEnds(cfg, s, first + more, token);
  }

  lemma LostAtPrefix(cfg: Config, s: Store, first: seq<Action>, whole: seq<Action>, token: nat)
    requires first <= whole && !HoldsToken(Run(cfg, s, first), token)
    ensures !HeldAllAlong(cfg, s, whole, token)
  {
    hide HoldsToken, Run;
    assert whole[..|first|] == first;
  }

  lemma RenewIsStep(cfg: Config, s: Store, job: ParseJob)
    requires Known(s, job)
    ensures Step(cfg, s, Renew(job.leaseToken)) == CommitRenew(s, job)
    ensures Current(s, job) <==> HoldsToken(s, job.leaseToken)
    ensures HoldsToken(CommitRenew(s, job), job.leaseToken) <==> HoldsToken(s, job.leaseToken)
  {
  }

  lemma ClaimIsHeld(cfg: Config, s: Store, id: string, worker: string, token: nat)
    requires token !in s.jobs && id in s.attachments && Claimable(s.attachments[id], s.now)
    ensures var s' := CommitClaim(s, id, worker, token);
            && Step(cfg, s, Claim(id, worker, token)) == s' && HoldsToken(s', token)
            && s'.jobs[token].leaseToken == token
  {
  }

  lemma CompleteIsStep(cfg: Config, s: Store, job: ParseJob, chunks: seq<Chunk>)
    requires Known(s, job)
    ensures Step(cfg, s, Complete(job.leaseToken, chunks)) == CommitComplete(s, job, chunks)
  {
  }

  lemma SubmitIsStep(cfg: Config, s: Store, job: ParseJob, parserJobId: string, retryAt: int)
    requires Known(s, job) && !HasParserJob(job.parserJobId) && !IsLocalText(job.mimeType)
    ensures Step(cfg, s, Submit(job.leaseToken, parserJobId, retryAt)) == CommitSubmit(s, job, parserJobId, retryAt)
  {
  }

  lemma DeferIsStep(cfg: Config, s: Store, job: ParseJob, retryAt: int)
    requires Known(s, job) && HasParserJob(job.parserJobId) && !IsLocalText(job.mimeType)
    requires job.pollCount < cfg.maxPolls && job.submittedAt.Some?
    ensures Step(cfg, s, Defer(job.leaseToken, retryAt)) == CommitDefer(s, job, retryAt)
  {
  }

  // ----- a call under the lease that nothing disturbs

  // The call answers, every heartbeat finds the database up, and the token is
  // current before the call, at every heartbeat, and after it.
  ghost predicate Undisturbed<T>(cfg: Config, s: Store, token: nat, call: Awaited<Action, T>) {
    call.reply.Value? && AllUp(call.beats) && HeldAllAlong(cfg, s, FullTrace(call, Renew(token)), token)
  }

  ghost function After<T>(cfg: Config, s: Store, token: nat, call: Awaited<Action, T>): Store {
    Run(cfg, s, FullTrace(call, Renew(token)))
  }

  // ----- what an undisturbed turn decides

  // A text file: UTF-8, with ink, without NUL, of at most 4096 chunks.
  ghost predicate TextSaves(cfg: Config, s: Store, job: ParseJob, w: Surroundings, chunks: seq<Chunk>) {
    && Undisturbed(cfg, s, job.leaseToken, w.bytes) && w.bytes.reply.value.Some?
    && var text := w.bytes.reply.value.value;
       && Trim(text) != "" && '\0' !in text
       && |chunks| <= 4096
       && if job.mimeType == "text/csv" then chunks == CsvChunks.CsvChunksOf(SplitLines(text)) && |chunks| >= 1
          else chunks == AttachmentChunks.LocalChunks(job.mimeType == "text/markdown", text, Windows(text))
  }

  // A PDF with text of its own.
  ghost predicate PdfSaves(cfg: Config, s: Store, job: ParseJob, w: Surroundings, chunks: seq<Chunk>) {
    && job.mimeType == "application/pdf"
    && Undisturbed(cfg, s, job.leaseToken, w.pdf) && w.pdf.reply.value.Some?
    && chunks == AttachmentChunks.DocumentChunks(w.pdf.reply.value.value, |w.pdf.reply.value.value|)
    && 1 <= |chunks| <= 4096
  }

  ghost predicate Submits(cfg: Config, s: Store, job: ParseJob, w: Surroundings, parserJobId: string) {
    && w.submit.reply == Value(parserJobId)
    && if job.mimeType == "application/pdf"
       then && Undisturbed(cfg, s, job.leaseToken, w.pdf) && w.pdf.reply.value.None?
            && Undisturbed(cfg, After(cfg, s, job.leaseToken, w.pdf), job.leaseToken, w.submit)
       else Undisturbed(cfg, s, job.leaseToken, w.submit)
  }

  // Polls and time are left.
  ghost predicate HasBudget(cfg: Config, job: ParseJob, now: int) {
    job.pollCount < cfg.maxPolls && job.submittedAt.Some? && now - job.submittedAt.value <= cfg.maxPollAge
  }

  ghost predicate Answers(cfg: Config, s: Store, job: ParseJob, w: Surroundings, status: ParserStatus) {
    HasBudget(cfg, job, s.now) && Undisturbed(cfg, s, job.leaseToken, w.status) && w.status.reply.value == status
  }

  // A document the parser has done.
  ghost predicate ParsedSaves(cfg: Config, s: Store, job: ParseJob, w: Surroundings, chunks: seq<Chunk>) {
    && Answers(cfg, s, job, w, ParserDone)
    && Undisturbed(cfg, After(cfg, s, job.leaseToken, w.status), job.leaseToken, w.parsed)
    && chunks == AttachmentChunks.DocumentChunks(w.parsed.reply.value, |w.parsed.reply.value|)
    && 1 <= |chunks| <= 4096
  }

  // By the kind of the file and whether it has a parser job.
  ghost predicate Saves(cfg: Config, s: Store, job: ParseJob, w: Surroundings, chunks: seq<Chunk>) {
    if job.mimeType in {"text/plain", "text/markdown", "text/csv"} then TextSaves(cfg, s, job, w, chunks)
    else if job.parserJobId.None? || job.parserJobId.value == "" then PdfSaves(cfg, s, job, w, chunks)
    else ParsedSaves(cfg, s, job, w, chunks)
  }

  // What happens to the tables meanwhile.
  function TurnTrace(job: ParseJob, w: Surroundings): seq<Action> {
    var renew := Renew(job.leaseToken);
    if job.mimeType in {"text/plain", "text/markdown", "text/csv"} then FullTrace(w.bytes, renew)
    else if job.parserJobId.None? || job.parserJobId.value == "" then
      if job.mimeType != "application/pdf" then FullTrace(w.submit, renew)
      else if w.pdf.reply == Value(None) then FullTrace(w.pdf, renew) + FullTrace(w.submit, renew)
      else FullTrace(w.pdf, renew)
    else if w.status.reply == Value(StillRunning) then FullTrace(w.status, renew)
    else FullTrace(w.status, renew) + FullTrace(w.parsed, renew)
  }

  // ----- what such a turn leaves behind

  lemma InkedHasWindows(text: string)
    requires Trim(text) != ""
    ensures |Windows(text)| >= 1
  {
    hide Windows;
    BlankTrimsToNothing(text);
    var i :| 0 <= i < |text| && !IsSpace(text[i]);
    WindowsKeepPassages(text, i, i + 1);
  }

  lemma SavedIsWithinLimits(cfg: Config, s: Store, job: ParseJob, w: Surroundings, chunks: seq<Chunk>)
    requires Saves(cfg, s, job, w, chunks)
    ensures 1 <= |chunks| <= 4096
  {
    hide AllUp, HeldAllAlong, Windows;
    if job.mimeType in {"text/plain", "text/markdown"} {
      InkedHasWindows(w.bytes.reply.value.value);
    }
  }

  // The attachment is ready with these chunks.
  ghost predicate IsReadyWith(s: Store, id: string, chunks: seq<Chunk>) {
    && id in s.attachments && s.attachments[id].status == Ready && s.attachments[id].parseStatus == Parsed
    && s.attachments[id].chunks == chunks && s.attachments[id].leaseToken.None?
  }

  // The attachment is queued again, to be polled under this parser job.
  ghost predicate IsQueuedWith(s: Store, id: string, parserJobId: string) {
    && id in s.attachments && s.attachments[id].parseStatus == Queued
    && s.attachments[id].parserJobId == Some(parserJobId) && s.attachments[id].pollCount == 0
    && s.attachments[id].submittedAt == Some(s.now) && s.attachments[id].leaseToken.None?
  }

  lemma CompletingIsReady(cfg: Config, s: Store, job: ParseJob, chunks: seq<Chunk>)
    requires Known(s, job) && HoldsToken(s, job.leaseToken) && 1 <= |chunks| <= 4096
    ensures IsReadyWith(Step(cfg, s, Complete(job.leaseToken, chunks)), job.id, chunks)
  {
  }

  lemma SubmittingIsQueued(cfg: Config, s: Store, job: ParseJob, parserJobId: string, runAt: int)
    requires Known(s, job) && HoldsToken(s, job.leaseToken)
    requires job.mimeType !in {"text/plain", "text/markdown", "text/csv"}
    requires job.parserJobId.None? || job.parserJobId.value == ""
    ensures IsQueuedWith(Step(cfg, s, Submit(job.leaseToken, parserJobId, runAt)), job.id, parserJobId)
  {
  }

  // The lease is kept until the turn's own statement.
  ghost predicate KeptThrough(cfg: Config, s: Store, job: ParseJob, w: Surroundings) {
    HoldsToken(Run(cfg, s, TurnTrace(job, w) + w.beforeSave), job.leaseToken)
  }

  ghost predicate SubmitsNew(cfg: Config, s: Store, job: ParseJob, w: Surroundings, parserJobId: string) {
    && job.mimeType !in {"text/plain", "text/markdown", "text/csv"}
    && (job.parserJobId.None? || job.parserJobId.value == "")
    && Submits(cfg, s, job, w, parserJobId)
  }

  ghost predicate PollsAgain(cfg: Config, s: Store, job: ParseJob, w: Surroundings) {
    && job.mimeType !in {"text/plain", "text/markdown", "text/csv"}
    && job.parserJobId.Some? && job.parserJobId.value != ""
    && Answers(cfg, s, job, w, StillRunning)
  }

  lemma KeptAfter(cfg: Config, s: Store, job: ParseJob, w: Surroundings, m: Store)
    requires m == Run(cfg, s, TurnTrace(job, w))
    ensures KeptThrough(cfg, s, job, w) <==> HoldsToken(Run(cfg, m, w.beforeSave), job.leaseToken)
  {
    RunConcat(cfg, s, TurnTrace(job, w), w.beforeSave);
  }

  // From the moment after the claim: the turn completes the attachment exactly
  // when there are chunks to save and the lease is kept, and defers it exactly
  // when there is a parser job to submit or to wait for and the lease is kept.
  ghost predicate EndsAsDue(cfg: Config, s: Store, job: ParseJob, w: Surroundings, outcome: RunOutcome, s': Store) {
    && (outcome == TurnCompleted <==> KeptThrough(cfg, s, job, w) && exists chunks :: Saves(cfg, s, job, w, chunks))
    && (outcome == TurnDeferred <==>
      && KeptThrough(cfg, s, job, w)
      && (PollsAgain(cfg, s, job, w) || exists id :: SubmitsNew(cfg, s, job, w, id)))
    && (forall chunks | outcome == TurnCompleted && Saves(cfg, s, job, w, chunks) :: IsReadyWith(s', job.id, chunks))
    && (forall id | outcome == TurnDeferred && SubmitsNew(cfg, s, job, w, id) :: IsQueuedWith(s', job.id, id))
  }
}
