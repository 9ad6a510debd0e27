// Every statement or transaction of the knowledge ingestion worker as one
// atomic step over the tables. A step whose guard does not hold changes
// nothing, so every sequence of actions is a possible run.
module KnowledgeSteps {
  import opened Options
  import opened KnowledgeTypes
  import opened Ordering
  import opened ReviewedChunks
  import opened Sequences
  import Text

  function Max(a: int, b: int): int { if a < b then b else a }

  // ----- the queue: what each statement does to its row

  predicate Claimable(r: Task, now: int) {
    || (r.status == TaskQueued && r.runAt <= now)
    || (r.status == TaskRunning && r.lockedAt.Some? && r.lockedAt.value < now - LEASE_TIMEOUT_MS)
  }

  function TaskPlace(r: Task): Place {
    Place(r.priority, r.runAt, r.createdAt)
  }

  function Claimed(r: Task, now: int, worker: string, token: nat): Task {
    r.(status := TaskRunning, attempts := r.attempts + 1,
       lockedAt := Some(now), lockedBy := Some(worker), leaseToken := Some(token))
  }

  function JobOf(id: string, r: Task, worker: string, token: nat): Job
    requires r.payload.Some?
  {
    Job(id, worker, token, r.attempts, r.maxAttempts, r.payload.value)
  }

  function Unlocked(r: Task): Task {
    r.(lockedAt := None, lockedBy := None, leaseToken := None)
  }

  function Ended(r: Task, status: TaskStatus): Task {
    Unlocked(r).(status := status)
  }

  // The payload written back is made from the one in the job, not from the row.
  function Requeued(r: Task, payload: Payload, retryAt: int): Task {
    Unlocked(r).(status := TaskQueued, attempts := Max(r.attempts - 1, 0), payload := Some(payload), runAt := retryAt)
  }

  function SubmittedPayload(p: Payload, parserJobId: string, now: int): Payload {
    p.(stage := OcrProcessing, parserJobId := Some(parserJobId), submittedAt := Some(now), pollCount := 0)
  }

  function DeferredPayload(p: Payload): Payload {
    p.(stage := OcrProcessing, pollCount := p.pollCount + 1)
  }

  predicate Terminal(attempts: nat, maxAttempts: nat, retryable: bool) {
    attempts >= maxAttempts || !retryable
  }

  function FailedTask(r: Task, terminal: bool, retryAt: int): Task {
    Unlocked(r).(status := if terminal then TaskFailed else TaskQueued, runAt := retryAt)
  }

  // The WHERE clause every statement of a lease holder carries.
  predicate Holds(r: Task, job: Job) {
    r.status == TaskRunning && r.lockedBy == Some(job.workerId) && r.leaseToken == Some(job.leaseToken)
  }

  predicate Current(s: Store, job: Job) {
    job.id in s.tasks && Holds(s.tasks[job.id], job)
  }

  predicate HoldsToken(s: Store, token: nat) {
    token in s.jobs && Current(s, s.jobs[token])
  }

  function NoHistory(payload: Option<Payload>): Tally {
    Tally(payload, 0, 0, 0, 0, 0, 0)
  }

  function TallyOf(s: Store, id: string): Tally {
    if id in s.tallies then s.tallies[id] else NoHistory(None)
  }

  function Put(s: Store, id: string, r: Task, t: Tally): Store {
    s.(tasks := s.tasks[id := r], tallies := s.tallies[id := t])
  }

  // ----- the queue: the statements

  // A new token, and the job handed out under it.
  function Issue(s: Store, token: nat, job: Option<Job>): Store {
    s.(issued := s.issued + {token}, jobs := if job.Some? then s.jobs[token := job.value] else s.jobs)
  }

  // A row whose payload cannot be read is claimed too, but no job comes of it.
  function HandedOut(id: string, r: Task, worker: string, token: nat): Option<Job> {
    if r.payload.Some? then Some(JobOf(id, r, worker, token)) else None
  }

  function ClaimTally(r: Task, t: Tally): Tally {
    t.(claims := t.claims + 1, expiries := t.expiries + if r.status == TaskRunning then 1 else 0)
  }

  function SubmitTally(t: Tally): Tally {
    t.(submissions := t.submissions + 1)
  }

  function PollTally(t: Tally): Tally {
    t.(polls := t.polls + 1)
  }

  function EndTally(t: Tally): Tally {
    t.(ended := t.ended + 1)
  }

  function CommitClaim(s: Store, id: string, worker: string, token: nat): Store {
    if token !in s.issued && id in s.tasks && Claimable(s.tasks[id], s.now) then
      var r := Claimed(s.tasks[id], s.now, worker, token);
      Put(Issue(s, token, HandedOut(id, r, worker, token)), id, r, ClaimTally(s.tasks[id], TallyOf(s, id)))
    else s
  }

  // This statement does not ask for the status.
  function CommitRejectMalformed(s: Store, id: string, worker: string, token: nat): Store {
    if id in s.tasks && s.tasks[id].lockedBy == Some(worker) && s.tasks[id].leaseToken == Some(token) then
      Put(s, id, Ended(s.tasks[id], TaskFailed), EndTally(TallyOf(s, id)))
    else s
  }

  function CommitRenew(s: Store, job: Job): Store {
    if Current(s, job) then
      Put(s, job.id, s.tasks[job.id].(lockedAt := Some(s.now)), TallyOf(s, job.id))
    else s
  }

  function CommitSubmit(s: Store, job: Job, parserJobId: string, retryAt: int): Store {
    if Current(s, job) then
      Put(s, job.id, Requeued(s.tasks[job.id], SubmittedPayload(job.payload, parserJobId, s.now), retryAt),
          SubmitTally(TallyOf(s, job.id)))
    else s
  }

  function CommitDefer(s: Store, job: Job, retryAt: int): Store {
    if Current(s, job) then
      Put(s, job.id, Requeued(s.tasks[job.id], DeferredPayload(job.payload), retryAt), PollTally(TallyOf(s, job.id)))
    else s
  }

  function CommitRequireReview(s: Store, job: Job): Store {
    if Current(s, job) then
      Put(s, job.id, Ended(s.tasks[job.id], TaskSucceeded), EndTally(TallyOf(s, job.id)))
    else s
  }

  function FailTally(t: Tally, terminal: bool): Tally {
    if terminal then EndTally(t) else t.(retries := t.retries + 1)
  }

  function CommitFail(s: Store, job: Job, retryable: bool, retryAt: int): Store {
    if Current(s, job) then
      var terminal := Terminal(job.attempts, job.maxAttempts, retryable);
      Put(s, job.id, FailedTask(s.tasks[job.id], terminal, retryAt), FailTally(TallyOf(s, job.id), terminal))
    else s
  }

  // ----- parsed content is put up for review

  // The version of the payload, if it is the current version of the payload's document.
  predicate IsTarget(s: Store, p: Payload) {
    && p.versionId in s.versions && s.versions[p.versionId].documentId == p.documentId
    && p.documentId in s.documents && s.documents[p.documentId].currentVersionId == p.versionId
  }

  function SourceOf(s: Store, documentId: string): Option<Source> {
    if documentId !in s.documents then None
    else
      var sourceId := s.documents[documentId].sourceId;
      if sourceId.Some? && sourceId.value in s.sources then Some(s.sources[sourceId.value]) else None
  }

  // A source the policy governs must be authorised; a document without one may be reviewed all the same.
  predicate MayBeReviewed(cfg: Config, s: Store, p: Payload)
    requires IsTarget(s, p)
  {
    var source := SourceOf(s, p.documentId);
    source.Some? && source.value.tierKnown ==> cfg.isAuthorized(source.value.facts, s.versions[p.versionId].citation)
  }

  function SectionsOf(versionId: string, hash: string, texts: seq<string>): (sections: seq<Section>)
    ensures |sections| == |texts|
    ensures forall i | 0 <= i < |texts| :: sections[i] == Section(versionId, hash, i, texts[i])
  {
    seq(|texts|, i requires 0 <= i < |texts| => Section(versionId, hash, i, texts[i]))
  }

  predicate ReviewQueued(s: Store, versionId: string, hash: string) {
    exists id :: id in s.runs && IsQueuedFor(s.runs[id], versionId, hash)
  }

  predicate IsQueuedFor(run: ReviewRun, versionId: string, hash: string) {
    run.inputVersionId == versionId && run.inputContentHash == hash
    && run.promptVersion == POLICY_VERSION && run.phase == InitialPhase
  }

  function QueuedRun(runId: string, versionId: string, hash: string): ReviewRun {
    ReviewRun(runId, InitialPhase, false, false, None, POLICY_VERSION, versionId, hash, "")
  }

  // Content, hash and status of the version under review, its metadata without the old review.
  function ParsedVersion(cfg: Config, v: Version, versionId: string, content: string): Version {
    var hash := cfg.sha256(content);
    v.(content := content, contentHash := Some(hash), status := InReview,
       reviewApproved := false, reviewedHash := None,
       sections := SectionsOf(versionId, hash, cfg.sectionTexts(content, v.citation)))
  }

  predicate CanSaveParsed(cfg: Config, s: Store, job: Job, content: string) {
    && Current(s, job)
    && IsTarget(s, job.payload)
    && MayBeReviewed(cfg, s, job.payload)
    && cfg.sectionTexts(content, s.versions[job.payload.versionId].citation) != []
  }

  function CommitSaveParsed(cfg: Config, s: Store, job: Job, content: string, runId: string): Store {
    if CanSaveParsed(cfg, s, job, content) && runId !in s.runs then
      var p := job.payload;
      var hash := cfg.sha256(content);
      Put(s, job.id, Ended(s.tasks[job.id], TaskSucceeded), EndTally(TallyOf(s, job.id)))
        .(versions := s.versions[p.versionId := ParsedVersion(cfg, s.versions[p.versionId], p.versionId, content)],
          documents := s.documents[p.documentId := s.documents[p.documentId].(status := InReview)],
          runs := if ReviewQueued(s, p.versionId, hash) then s.runs
                  else s.runs[runId := QueuedRun(runId, p.versionId, hash)])
    else s
  }

  // ----- approved content is embedded

  predicate IsSha256Hex(hash: string) {
    |hash| == 64 && forall c | c in hash :: '0' <= c <= '9' || 'a' <= c <= 'f'
  }

  // An identified reviewer, a review date, and an approved hash.
  predicate IsReviewed(cfg: Config, p: Payload) {
    && p.review.Some? && p.review.value.approved
    && Text.Trim(p.review.value.reviewedBy) != ""
    && cfg.isDate(p.review.value.reviewedAt)
    && IsSha256Hex(p.review.value.contentHash)
  }

  // The content a job may embed, as the SELECT finds it.
  predicate IsApproved(cfg: Config, s: Store, p: Payload) {
    && IsTarget(s, p)
    && p.review.Some?
    && var v, hash := s.versions[p.versionId], p.review.value.contentHash;
    && v.status == InReview && s.documents[p.documentId].status == InReview
    && v.contentHash == Some(hash) && v.reviewApproved && v.reviewedHash == Some(hash)
    && v.fullText
    && var source := SourceOf(s, p.documentId);
       source.Some? && source.value.tierKnown && cfg.isAuthorized(source.value.facts, v.citation)
  }

  function Chunks(content: string): seq<KnowledgeChunk> {
    ChunksOf(DEFAULT_CHUNK_CHARACTERS, DEFAULT_CHUNK_OVERLAP, content)
  }

  // The worker goes on with the content only if it has the approved hash and some text.
  predicate MayEmbed(cfg: Config, p: Payload, content: string) {
    p.review.Some? && cfg.sha256(content) == p.review.value.contentHash && Chunks(content) != []
  }

  function CommitLoadApproved(cfg: Config, s: Store, job: Job): Store {
    if IsReviewed(cfg, job.payload) && IsApproved(cfg, s, job.payload)
       && MayEmbed(cfg, job.payload, s.versions[job.payload.versionId].content)
    then s.(loaded := s.loaded[job.leaseToken := s.versions[job.payload.versionId].content])
    else s
  }

  // The rows the readiness query returns: approved runs of the current policy.
  predicate CountsAsRun(s: Store, id: string) {
    id in s.runs && s.runs[id].promptVersion == POLICY_VERSION && s.runs[id].completed && s.runs[id].approved
  }

  predicate IsEligible(cfg: Config, run: ReviewRun, versionId: string, hash: string) {
    run.completed && run.approved && run.promptVersion == POLICY_VERSION && cfg.reportMatches(run, versionId, hash)
  }

  // evaluateKnowledgePublicationReadiness: one initial and one verifying run,
  // different ones, both of low risk and with nothing left open.
  predicate RunsAreReady(cfg: Config, versionId: string, hash: string, rows: seq<ReviewRun>) {
    var eligible := Filter(rows, (run: ReviewRun) => IsEligible(cfg, run, versionId, hash));
    var initial := Filter(eligible, (run: ReviewRun) => run.phase == InitialPhase);
    var verify := Filter(eligible, (run: ReviewRun) => run.phase == VerifyPhase);
    && |initial| == 1 && |verify| == 1
    && initial[0].id != verify[0].id
    && initial[0].risk == Some(LowRisk) && verify[0].risk == Some(LowRisk)
    && cfg.isClean(initial[0]) && cfg.isClean(verify[0])
  }

  predicate NamesTwoRuns(review: Review) {
    && review.policyVersion == Some(POLICY_VERSION) && review.risk == Some(LowRisk)
    && review.initialRunId.Some? && review.initialRunId.value != ""
    && review.verifyRunId.Some? && review.verifyRunId.value != ""
    && review.initialRunId != review.verifyRunId
  }

  // isAutomationPublicationReady, with what it looked at; None when it says no.
  function AutomationReady(cfg: Config, s: Store, p: Payload): Option<Publication> {
    if p.review.None? || !NamesTwoRuns(p.review.value) || !IsTarget(s, p) then None
    else
      var review, v, source := p.review.value, s.versions[p.versionId], SourceOf(s, p.documentId);
      if v.contentHash != Some(review.contentHash)
         || v.status != InReview || s.documents[p.documentId].status != InReview
         || source.None? || !source.value.tierKnown
         || !cfg.isAuthorized(source.value.facts, v.citation) || !cfg.hasEvidence(source.value.facts, v.citation)
         || !CountsAsRun(s, review.initialRunId.value) || !CountsAsRun(s, review.verifyRunId.value)
      then None
      else
        var rows := [s.runs[review.initialRunId.value], s.runs[review.verifyRunId.value]];
        if rows[0].risk != Some(LowRisk) || rows[1].risk != Some(LowRisk)
           || !RunsAreReady(cfg, p.versionId, review.contentHash, rows)
        then None
        else Some(Publication(review.contentHash, rows, source.value, v.citation))
  }

  predicate CanSaveEmbeddings(cfg: Config, s: Store, job: Job) {
    && IsReviewed(cfg, job.payload) && Current(s, job)
    && job.payload.versionId in s.versions
    && job.payload.documentId in s.documents
    && var p, v, d := job.payload, s.versions[job.payload.versionId], s.documents[job.payload.documentId];
    && v.documentId == p.documentId && v.status == InReview && v.contentHash == Some(p.review.value.contentHash)
    && d.currentVersionId == p.versionId && d.status == InReview
  }

  function EmbeddedVersion(v: Version, hash: string, chunks: seq<KnowledgeChunk>, publish: bool): Version {
    v.(contentHash := Some(hash), status := if publish then Published else InReview,
       reviewApproved := true, reviewedHash := Some(hash), chunks := chunks)
  }

  function CommitSaveEmbeddings(cfg: Config, s: Store, job: Job, chunks: seq<KnowledgeChunk>): Store {
    if CanSaveEmbeddings(cfg, s, job) then
      var p := job.payload;
      var publication := AutomationReady(cfg, s, p);
      Put(s, job.id, Ended(s.tasks[job.id], TaskSucceeded), EndTally(TallyOf(s, job.id)))
        .(versions := s.versions[p.versionId := EmbeddedVersion(s.versions[p.versionId], p.review.value.contentHash,
                                                                chunks, publication.Some?)],
          documents := s.documents[p.documentId := s.documents[p.documentId].(
            status := if publication.Some? then Published else InReview)],
          publications := if publication.Some? then s.publications[p.versionId := publication.value]
                          else s.publications - {p.versionId})
    else s
  }

  // ----- the rest of the system

  // Tasks are only ever added, queued and unclaimed.
  function NewTask(payload: Option<Payload>, priority: int, maxAttempts: nat, runAt: int, createdAt: int): Task {
    Task(payload, TaskQueued, priority, 0, maxAttempts, runAt, createdAt, None, None, None)
  }

  function CommitEnqueue(s: Store, id: string, payload: Option<Payload>,
                         priority: int, maxAttempts: nat, runAt: int, createdAt: int): Store
  {
    if id !in s.tasks && id !in s.tallies && maxAttempts > 0 then
      Put(s, id, NewTask(payload, priority, maxAttempts, runAt, createdAt), NoHistory(payload))
    else s
  }

  // Whoever else writes a version keeps its hash that of its content. From then
  // on it is no longer the worker's publication.
  predicate HashFits(cfg: Config, v: Version) {
    v.contentHash.Some? ==> v.contentHash.value == cfg.sha256(v.content)
  }

  function CommitPutVersion(cfg: Config, s: Store, versionId: string, v: Version): Store {
    if HashFits(cfg, v) then
      s.(versions := s.versions[versionId := v], publications := s.publications - {versionId})
    else s
  }

  // ----- steps

  // When the worker's control flow lets the holder of a job take an action.
  predicate Allowed(cfg: Config, s: Store, a: Action) {
    match a
    case Submit(token, _, _) => token in s.jobs && s.jobs[token].payload.stage == OcrPending
    case Defer(token, _) =>
      && token in s.jobs && s.jobs[token].payload.stage == OcrProcessing
      && s.jobs[token].payload.pollCount < cfg.maxPolls
      && s.jobs[token].payload.submittedAt.Some? && s.jobs[token].payload.parserJobId.Some?
    case SaveParsed(token, content, _) =>
      token in s.jobs && s.jobs[token].payload.stage == OcrProcessing && Text.Trim(content) != ""
    case LoadApproved(token) =>
      token in s.jobs && s.jobs[token].payload.stage in {EmbeddingPending, EmbeddingProcessing}
    case SaveEmbeddings(token) =>
      && token in s.jobs && s.jobs[token].payload.stage in {EmbeddingPending, EmbeddingProcessing} && token in s.loaded
    case RejectMalformed(id, worker, token) => id in s.tasks && s.tasks[id].payload.None?
    case Renew(token) => token in s.jobs
    case RequireReview(token) => token in s.jobs
    case Fail(token, _, _) => token in s.jobs
    case _ => true
  }

  function Step(cfg: Config, s: Store, a: Action): Store {
    if !Allowed(cfg, s, a) then s else
    match a
    case Advance(to) => s.(now := Max(s.now, to))
    case Enqueue(id, payload, priority, maxAttempts, runAt, createdAt) =>
      CommitEnqueue(s, id, payload, priority, maxAttempts, runAt, createdAt)
    case PutVersion(versionId, version) => CommitPutVersion(cfg, s, versionId, version)
    case PutDocument(documentId, document) => s.(documents := s.documents[documentId := document])
    case PutSource(sourceId, source) => s.(sources := s.sources[sourceId := source])
    case PutRun(run) => s.(runs := s.runs[run.id := run])
    case Claim(id, worker, token) => CommitClaim(s, id, worker, token)
    case RejectMalformed(id, worker, token) => CommitRejectMalformed(s, id, worker, token)
    case Renew(token) => CommitRenew(s, s.jobs[token])
    case Submit(token, parserJobId, retryAt) => CommitSubmit(s, s.jobs[token], parserJobId, retryAt)
    case Defer(token, retryAt) => CommitDefer(s, s.jobs[token], retryAt)
    case SaveParsed(token, content, runId) => CommitSaveParsed(cfg, s, s.jobs[token], content, runId)
    case RequireReview(token) => CommitRequireReview(s, s.jobs[token])
    case LoadApproved(token) => CommitLoadApproved(cfg, s, s.jobs[token])
    case SaveEmbeddings(token) => CommitSaveEmbeddings(cfg, s, s.jobs[token], Chunks(s.loaded[token]))
    case Fail(token, retryable, retryAt) => CommitFail(s, s.jobs[token], retryable, retryAt)
  }

  function Run(cfg: Config, s: Store, actions: seq<Action>): Store {
    if actions == [] then s
    else Step(cfg, Run(cfg, s, actions[..|actions| - 1]), actions[|actions| - 1])
  }

  lemma {:induction false} RunConcat(cfg: Config, s: Store, a: seq<Action>, b: seq<Action>)
    ensures Run(cfg, s, a + b) == Run(cfg, Run(cfg, s, a), b)
  {
    if b == [] {
      assert a + b == a;
    } else {
      var n := |b| - 1;
      assert (a + b)[..|a + b| - 1] == a + b[..n];
      RunConcat(cfg, s, a, b[..n]);
    }
  }

  lemma RunPrefix(cfg: Config, s: Store, actions: seq<Action>, i: nat)
    requires i < |actions|
    ensures Run(cfg, s, actions[..i + 1]) == Step(cfg, Run(cfg, s, actions[..i]), actions[i])
  {
    assert actions[..i + 1][..i] == actions[..i];
  }
}
