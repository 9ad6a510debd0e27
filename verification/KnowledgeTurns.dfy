// What a turn of the knowledge worker comes to when nobody takes its lease and
// the database answers (runOnce in src/worker/knowledge-ingestion.ts).
module KnowledgeTurns {
  import opened Options
  import opened KnowledgeTypes
  import opened KnowledgeSteps
  import opened KnowledgeProofs
  import opened KnowledgeFencing
  import opened KnowledgePublication
  import opened Awaiting
  import ReviewedChunks
  import PageMarkers
  import Text

  // The embeddings of a list of texts: how many, and whether each has 1024 finite values.
  datatype Embeddings = Embeddings(count: nat, wellFormed: bool)

  // Everything one turn of the worker cannot decide itself.
  datatype Surroundings = Surroundings(
    start: seq<Action>,
    skipped: set<string>,
    beforeReject: seq<Action>,
    url: Awaited<Action, string>,
    submit: Awaited<Action, string>,
    status: Awaited<Action, ParserStatus>,
    parsed: Awaited<Action, seq<PageMarkers.ParsedPage>>,
    beforeLoad: seq<Action>,
    embed: Awaited<Action, Embeddings>,
    beforeSave: seq<Action>,
    beforeFail: seq<Action>)

  // How the worker wants to leave a job.
  datatype Decision =
    | Submission(parserJobId: string)
    | Poll
    | PutUpForReview(content: string)
    | AskForReview
    | SaveChunks(chunks: seq<ReviewedChunks.KnowledgeChunk>)
    | Failure(retryable: bool)
    | Abandon

  // Every moment of the trace finds the token current.
  ghost predicate HeldAllAlong(cfg: Config, s: Store, trace: seq<Action>, token: nat) {
    forall i | 0 <= i <= |trace| :: HoldsToken(Run(cfg, s, trace[..i]), token)
  }

  ghost predicate Known(s: Store, job: Job) {
    job.leaseToken in s.jobs && s.jobs[job.leaseToken] == job
  }

  // What every run keeps, given that no two contents have one hash.
  ghost predicate SystemOk(cfg: Config, s: Store) {
    LeasesOk(cfg, s) && ContentOk(cfg, s) && HashIsInjective(cfg)
  }

  lemma RunKeepsSystem(cfg: Config, s: Store, actions: seq<Action>)
    requires SystemOk(cfg, s)
    ensures SystemOk(cfg, Run(cfg, s, actions))
  {
    RunKeepsLeases(cfg, s, actions);
    RunKeepsContent(cfg, s, actions);
  }

  lemma KnownStays(cfg: Config, s: Store, actions: seq<Action>, job: Job)
    requires SystemOk(cfg, s) && Known(s, job)
    ensures Known(Run(cfg, s, actions), job) && SystemOk(cfg, Run(cfg, s, actions))
  {
    RunKeepsJobs(cfg, s, actions);
    RunKeepsSystem(cfg, s, actions);
  }

  lemma StepKeepsLoaded(cfg: Config, s: Store, a: Action)
    requires QueueOk(cfg, s)
    ensures s.loaded.Keys <= Step(cfg, s, a).loaded.Keys
  {
    if !IsContentStep(a) && !a.PutVersion? {
      QueueStepKeepsContent(cfg, s, a);
    }
  }

  lemma {:induction false} RunKeepsLoaded(cfg: Config, s: Store, actions: seq<Action>)
    requires QueueOk(cfg, s)
    ensures s.loaded.Keys <= Run(cfg, s, actions).loaded.Keys
  {
    if actions != [] {
      RunKeepsLoaded(cfg, s, actions[..|actions| - 1]);
      RunKeeps(cfg, s, actions[..|actions| - 1]);
      StepKeepsLoaded(cfg, Run(cfg, s, actions[..|actions| - 1]), actions[|actions| - 1]);
    }
  }

  // What was loaded under a job stays what is noted for it, whoever loads again.
  lemma LoadedStays(cfg: Config, s: Store, actions: seq<Action>, job: Job, content: string)
    requires SystemOk(cfg, s) && Known(s, job)
    requires job.leaseToken in s.loaded && MayEmbed(cfg, job.payload, content)
    ensures var s' := Run(cfg, s, actions); job.leaseToken in s'.loaded && s'.loaded[job.leaseToken] == content
  {
    KnownStays(cfg, s, actions, job);
    RunKeepsLoaded(cfg, s, actions);
    var s' := Run(cfg, s, actions);
    assert MayEmbed(cfg, s'.jobs[job.leaseToken].payload, s'.loaded[job.leaseToken]);
    assert cfg.sha256(s'.loaded[job.leaseToken]) == cfg.sha256(content);
  }

  lemma StaysMalformed(cfg: Config, s: Store, actions: seq<Action>, id: string)
    requires QueueOk(cfg, s) && id in s.tasks && s.tasks[id].payload.None?
    ensures var s' := Run(cfg, s, actions); id in s'.tasks && s'.tasks[id].payload.None?
  {
    RunMovesForward(cfg, s, actions, id);
  }

  lemma OneMore(cfg: Config, s: Store, trace: seq<Action>, a: Action)
    ensures Run(cfg, s, trace + [a]) == Step(cfg, Run(cfg, s, trace), a)
  {
    assert (trace + [a])[..|trace|] == trace;
  }

  // A holder's statement is the step of its action.
  lemma RenewIsStep(cfg: Config, s: Store, job: Job)
    requires Known(s, job)
    ensures Step(cfg, s, Renew(job.leaseToken)) == CommitRenew(s, job)
    ensures Current(s, job) <==> HoldsToken(s, job.leaseToken)
  {
  }

  lemma LoadIsStep(cfg: Config, s: Store, job: Job)
    requires Known(s, job) && job.payload.stage in {EmbeddingPending, EmbeddingProcessing}
    ensures Step(cfg, s, Action.LoadApproved(job.leaseToken)) == CommitLoadApproved(cfg, s, job)
  {
    assert s.jobs[job.leaseToken] == job && Allowed(cfg, s, Action.LoadApproved(job.leaseToken));
  }

  lemma LoadNotes(cfg: Config, s: Store, job: Job)
    requires IsReviewed(cfg, job.payload) && IsApproved(cfg, s, job.payload)
    requires MayEmbed(cfg, job.payload, s.versions[job.payload.versionId].content)
    ensures var s' := CommitLoadApproved(cfg, s, job);
            job.leaseToken in s'.loaded && s'.loaded[job.leaseToken] == s.versions[job.payload.versionId].content
  {
  }

  lemma RequeueIsStep(cfg: Config, s: Store, job: Job, parserJobId: string, retryAt: int)
    requires Known(s, job)
    ensures job.payload.stage == OcrPending ==>
      Step(cfg, s, Submit(job.leaseToken, parserJobId, retryAt)) == CommitSubmit(s, job, parserJobId, retryAt)
    ensures job.payload.stage == OcrProcessing && job.payload.pollCount < cfg.maxPolls
            && job.payload.submittedAt.Some? && job.payload.parserJobId.Some? ==>
      Step(cfg, s, Defer(job.leaseToken, retryAt)) == CommitDefer(s, job, retryAt)
  {
  }

  lemma SaveParsedIsStep(cfg: Config, s: Store, job: Job, content: string, runId: string)
    requires Known(s, job) && job.payload.stage == OcrProcessing && Text.Trim(content) != ""
    ensures Step(cfg, s, SaveParsed(job.leaseToken, content, runId)) == CommitSaveParsed(cfg, s, job, content, runId)
  {
  }

  lemma SaveEmbeddingsIsStep(cfg: Config, s: Store, job: Job)
    requires Known(s, job) && job.payload.stage in {EmbeddingPending, EmbeddingProcessing} && job.leaseToken in s.loaded
    ensures Step(cfg, s, SaveEmbeddings(job.leaseToken))
         == CommitSaveEmbeddings(cfg, s, job, Chunks(s.loaded[job.leaseToken]))
  {
    assert s.jobs[job.leaseToken] == job && Allowed(cfg, s, SaveEmbeddings(job.leaseToken));
  }

  lemma RequireReviewIsStep(cfg: Config, s: Store, job: Job)
    requires Known(s, job)
    ensures Step(cfg, s, RequireReview(job.leaseToken)) == CommitRequireReview(s, job)
  {
  }

  lemma ClaimIsStep(cfg: Config, s: Store, id: string, worker: string, token: nat)
    ensures Step(cfg, s, Claim(id, worker, token)) == CommitClaim(s, id, worker, token)
  {
  }

  // What a claim leaves behind.
  lemma ClaimHandsOut(s: Store, id: string, worker: string, token: nat)
    requires token !in s.issued && id in s.tasks && Claimable(s.tasks[id], s.now)
    ensures var s' := CommitClaim(s, id, worker, token);
            && id in s'.tasks
            && (s'.tasks[id].payload.Some? ==>
              Known(s', JobOf(id, s'.tasks[id], worker, token)) && HoldsToken(s', token))
  {
  }

  // A trace that begins and ends with the lease current never loses it.
  lemma HeldBetweenEnds(cfg: Config, s: Store, trace: seq<Action>, token: nat)
    requires SystemOk(cfg, s) && HoldsToken(s, token) && HoldsToken(Run(cfg, s, trace), token)
    ensures HeldAllAlong(cfg, s, trace, token)
  {
    assert trace[..0] == [] && trace[..|trace|] == trace;
    forall j | 0 <= j <= |trace| ensures HoldsToken(Run(cfg, s, trace[..j]), token) {
      HeldBetween(cfg, s, trace, token, 0, j, |trace|);
    }
  }

  lemma HeldAtEnds(cfg: Config, s: Store, trace: seq<Action>, token: nat)
    requires HeldAllAlong(cfg, s, trace, token)
    ensures HoldsToken(s, token) && HoldsToken(Run(cfg, s, trace), token)
  {
    assert trace[..0] == [] && trace[..|trace|] == trace;
    assert HoldsToken(Run(cfg, s, trace[..0]), token) && HoldsToken(Run(cfg, s, trace[..|trace|]), token);
  }

  // Two such traces, one after the other.
  lemma HeldTogether(cfg: Config, s: Store, first: seq<Action>, more: seq<Action>, token: nat)
    requires SystemOk(cfg, s) && HeldAllAlong(cfg, s, first, token)
    requires HeldAllAlong(cfg, Run(cfg, s, first), more, token)
    ensures HeldAllAlong(cfg, s, first + more, token)
  {
    HeldAtEnds(cfg, s, first, token);
    HeldAtEnds(cfg, Run(cfg, s, first), more, token);
    RunConcat(cfg, s, first, more);
    HeldBetweenEnds(cfg, s, first + more, token);
  }

  lemma LostAtPrefix(cfg: Config, s: Store, first: seq<Action>, whole: seq<Action>, token: nat)
    requires first <= whole && !HoldsToken(Run(cfg, s, first), token)
    ensures !HeldAllAlong(cfg, s, whole, token)
  {
    hide HoldsToken, Run;
    assert whole[..|first|] == first;
  }

  // ----- a call under the lease that nothing disturbs

  // The call answers, every heartbeat finds the database up, and the token is
  // current before the call, at every heartbeat, and after it.
  ghost predicate Undisturbed<T>(cfg: Config, s: Store, token: nat, call: Awaited<Action, T>) {
    call.reply.Value? && AllUp(call.beats) && HeldAllAlong(cfg, s, FullTrace(call, Renew(token)), token)
  }

  ghost function After<T>(cfg: Config, s: Store, token: nat, call: Awaited<Action, T>): Store {
    Run(cfg, s, FullTrace(call, Renew(token)))
  }

  // ----- what an undisturbed turn decides

  // An original under a private prefix, with no way out of it, is given a URL
  // on an allowed host and accepted by the parser.
  ghost predicate Submits(cfg: Config, s: Store, job: Job, w: Surroundings, hasStorage: bool,
                          isDocumentUrl: string -> bool, id: string)
  {
    && hasStorage && job.payload.objectKey.Some?
    && var key, token := job.payload.objectKey.value, job.leaseToken;
       && ("private/knowledge-originals/" <= key || "knowledge-originals/" <= key)
       && '\0' !in key && ".." !in Text.Split(key, '/')
       && Undisturbed(cfg, s, token, w.url) && isDocumentUrl(w.url.reply.value)
       && Undisturbed(cfg, After(cfg, s, token, w.url), token, w.submit) && w.submit.reply.value == id
  }

  // Polls and time are left for a job the parser has named.
  ghost predicate HasBudget(cfg: Config, job: Job, now: int) {
    && job.payload.parserJobId.Some? && job.payload.parserJobId.value != ""
    && job.payload.submittedAt.Some? && job.payload.pollCount < cfg.maxPolls
    && now - job.payload.submittedAt.value <= cfg.maxPollAge
  }

  ghost predicate Answers(cfg: Config, s: Store, job: Job, w: Surroundings, status: ParserStatus) {
    HasBudget(cfg, job, s.now) && Undisturbed(cfg, s, job.leaseToken, w.status) && w.status.reply.value == status
  }

  // The parser is done, and its pages have some text.
  ghost predicate PutsUpText(cfg: Config, s: Store, job: Job, w: Surroundings, content: string) {
    && Answers(cfg, s, job, w, ParserDone)
    && Undisturbed(cfg, After(cfg, s, job.leaseToken, w.status), job.leaseToken, w.parsed)
    && content == PageMarkers.RenderParsedDocument(w.parsed.reply.value) && Text.Trim(content) != ""
  }

  // When the content is read: the lease was current before.
  ghost function AtLoad(cfg: Config, s: Store, w: Surroundings): Store {
    Run(cfg, s, w.beforeLoad)
  }

  // A reviewed job finds approved content of the approved hash, with chunks to embed.
  ghost predicate FindsContent(cfg: Config, s: Store, job: Job, w: Surroundings, content: string) {
    && IsReviewed(cfg, job.payload) && IsApproved(cfg, AtLoad(cfg, s, w), job.payload)
    && content == AtLoad(cfg, s, w).versions[job.payload.versionId].content
    && cfg.sha256(content) == job.payload.review.value.contentHash
    && ReviewedChunks.ChunksOf(2400, 200, content) != []
  }

  ghost predicate Embeds(cfg: Config, s: Store, job: Job, w: Surroundings,
                         chunks: seq<ReviewedChunks.KnowledgeChunk>)
  {
    && HoldsToken(s, job.leaseToken)
    && FindsContent(cfg, s, job, w, AtLoadContent(cfg, s, job, w))
    && chunks == ReviewedChunks.ChunksOf(2400, 200, AtLoadContent(cfg, s, job, w))
    && Undisturbed(cfg, Run(cfg, s, w.beforeLoad + [Action.LoadApproved(job.leaseToken)]), job.leaseToken, w.embed)
    && w.embed.reply.value == Embeddings(|chunks|, true)
  }

  ghost function AtLoadContent(cfg: Config, s: Store, job: Job, w: Surroundings): string {
    var m := AtLoad(cfg, s, w);
    if job.payload.versionId in m.versions then m.versions[job.payload.versionId].content else ""
  }

  // What happens to the tables meanwhile.
  ghost function EmbedTrace(cfg: Config, job: Job, w: Surroundings, embeds: bool): seq<Action> {
    if !IsReviewed(cfg, job.payload) then []
    else
      w.beforeLoad + [Action.LoadApproved(job.leaseToken)]
      + if embeds then FullTrace(w.embed, Renew(job.leaseToken)) else []
  }

  // Nothing to embed for this job, or no stage of the worker's.
  ghost predicate AsksForReview(cfg: Config, s: Store, job: Job, w: Surroundings) {
    match job.payload.stage
    case OcrPending => false
    case OcrProcessing => false
    case ReviewRequired => true
    case StageCompleted => true
    case _ =>
      || !IsReviewed(cfg, job.payload)
      || (HoldsToken(s, job.leaseToken) && !FindsContent(cfg, s, job, w, AtLoadContent(cfg, s, job, w)))
  }

  // The surroundings lead to this decision.
  ghost predicate LeadsTo(cfg: Config, s: Store, job: Job, w: Surroundings, hasStorage: bool,
                          isDocumentUrl: string -> bool, d: Decision)
  {
    match d
    case Submission(id) =>
      job.payload.stage == OcrPending && Submits(cfg, s, job, w, hasStorage, isDocumentUrl, id)
    case Poll => job.payload.stage == OcrProcessing && Answers(cfg, s, job, w, StillRunning)
    case PutUpForReview(content) => job.payload.stage == OcrProcessing && PutsUpText(cfg, s, job, w, content)
    case SaveChunks(chunks) =>
      job.payload.stage in {EmbeddingPending, EmbeddingProcessing} && Embeds(cfg, s, job, w, chunks)
    case AskForReview => AsksForReview(cfg, s, job, w)
    case _ => false
  }

  ghost function TraceTo(cfg: Config, job: Job, w: Surroundings, d: Decision): seq<Action> {
    var renew := Renew(job.leaseToken);
    match d
    case Submission(_) => FullTrace(w.url, renew) + FullTrace(w.submit, renew)
    case Poll => FullTrace(w.status, renew)
    case PutUpForReview(_) => FullTrace(w.status, renew) + FullTrace(w.parsed, renew)
    case SaveChunks(_) => EmbedTrace(cfg, job, w, true)
    case _ =>
      if job.payload.stage in {EmbeddingPending, EmbeddingProcessing} then EmbedTrace(cfg, job, w, false) else []
  }

  // When the statement or transaction that carries a decision out takes effect.
  ghost predicate TakesEffect(cfg: Config, s: Store, job: Job, d: Decision) {
    match d
    case PutUpForReview(content) => CanSaveParsed(cfg, s, job, content)
    case SaveChunks(_) => CanSaveEmbeddings(cfg, s, job)
    case Failure(_) => false
    case Abandon => false
    case _ => HoldsToken(s, job.leaseToken)
  }

  // What it leaves behind.
  ghost predicate Leaves(s: Store, job: Job, d: Decision) {
    && job.id in s.tasks && s.tasks[job.id].leaseToken.None?
    && match d
       case Submission(id) =>
         && s.tasks[job.id].status == TaskQueued
         && s.tasks[job.id].payload == Some(job.payload.(stage := OcrProcessing, parserJobId := Some(id),
                                                         submittedAt := Some(s.now), pollCount := 0))
       case Poll =>
         && s.tasks[job.id].status == TaskQueued
         && s.tasks[job.id].payload
            == Some(job.payload.(stage := OcrProcessing, pollCount := job.payload.pollCount + 1))
       case PutUpForReview(content) =>
         && s.tasks[job.id].status == TaskSucceeded && job.payload.versionId in s.versions
         && s.versions[job.payload.versionId].content == content
         && s.versions[job.payload.versionId].status == InReview
       case SaveChunks(chunks) =>
         && s.tasks[job.id].status == TaskSucceeded && job.payload.versionId in s.versions
         && s.versions[job.payload.versionId].chunks == chunks
       case _ => s.tasks[job.id].status == TaskSucceeded
  }

  // The turn ends with this decision carried out.
  ghost predicate EndsWith(cfg: Config, s: Store, job: Job, w: Surroundings, hasStorage: bool,
                           isDocumentUrl: string -> bool, d: Decision)
  {
    && LeadsTo(cfg, s, job, w, hasStorage, isDocumentUrl, d)
    && TakesEffect(cfg, Run(cfg, s, TraceTo(cfg, job, w, d) + w.beforeSave), job, d)
  }

  // From the moment after the claim: the outcome says exactly what the turn was
  // led to and could carry out, and the tables show it.
  ghost predicate EndsAsDue(cfg: Config, s: Store, job: Job, w: Surroundings, hasStorage: bool,
                            isDocumentUrl: string -> bool, outcome: RunOutcome, s': Store)
  {
    && (outcome == TurnDeferred <==>
          exists d: Decision | d.Submission? || d.Poll? :: EndsWith(cfg, s, job, w, hasStorage, isDocumentUrl, d))
    && (outcome == TurnReviewRequired <==>
          exists d: Decision | d.PutUpForReview? || d.AskForReview? ::
            EndsWith(cfg, s, job, w, hasStorage, isDocumentUrl, d))
    && (outcome == TurnCompleted <==>
          exists d: Decision | d.SaveChunks? :: EndsWith(cfg, s, job, w, hasStorage, isDocumentUrl, d))
    && (forall d | EndsWith(cfg, s, job, w, hasStorage, isDocumentUrl, d) :: Leaves(s', job, d))
  }

  lemma EffectAfter(cfg: Config, s: Store, job: Job, w: Surroundings, d: Decision, m: Store)
    requires m == Run(cfg, s, TraceTo(cfg, job, w, d))
    ensures Run(cfg, s, TraceTo(cfg, job, w, d) + w.beforeSave) == Run(cfg, m, w.beforeSave)
  {
    RunConcat(cfg, s, TraceTo(cfg, job, w, d), w.beforeSave);
  }

  lemma RequeueLeaves(cfg: Config, s: Store, job: Job, d: Decision, retryAt: int)
    requires Known(s, job) && Current(s, job)
    ensures d.Submission? ==> Leaves(CommitSubmit(s, job, d.parserJobId, retryAt), job, d)
    ensures d.Poll? ==> Leaves(CommitDefer(s, job, retryAt), job, d)
    ensures d.AskForReview? ==> Leaves(CommitRequireReview(s, job), job, d)
  {
  }

  lemma SaveParsedLeaves(cfg: Config, s: Store, job: Job, content: string, runId: string)
    requires CanSaveParsed(cfg, s, job, content) && runId !in s.runs
    ensures Leaves(CommitSaveParsed(cfg, s, job, content, runId), job, PutUpForReview(content))
  {
  }

  lemma SaveEmbeddingsLeaves(cfg: Config, s: Store, job: Job, chunks: seq<ReviewedChunks.KnowledgeChunk>)
    requires CanSaveEmbeddings(cfg, s, job)
    ensures Leaves(CommitSaveEmbeddings(cfg, s, job, chunks), job, SaveChunks(chunks))
  {
  }
}
