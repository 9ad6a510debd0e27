// The rows, jobs and reviews the knowledge ingestion worker reads and writes,
// and the steps that change them (src/worker/postgres-repository.ts,
// src/worker/types.ts). Times are milliseconds.
module KnowledgeTypes {
  import opened Options
  import opened ReviewedChunks

  const LEASE_TIMEOUT_MS := 15 * 60 * 1000
  const POLICY_VERSION := "codex_automation_v1"

  datatype Stage = OcrPending | OcrProcessing | ReviewRequired | EmbeddingPending | EmbeddingProcessing | StageCompleted

  datatype Risk = LowRisk | MediumRisk | HighRisk

  // The review a task carries.
  datatype Review = Review(
    approved: bool,
    reviewedBy: string,
    reviewedAt: string,
    contentHash: string,
    policyVersion: Option<string>,
    risk: Option<Risk>,
    initialRunId: Option<string>,
    verifyRunId: Option<string>)

  // A missing poll count reads as zero; a submission time that is no date as missing.
  datatype Payload = Payload(
    stage: Stage,
    documentId: string,
    versionId: string,
    objectKey: Option<string>,
    parserJobId: Option<string>,
    submittedAt: Option<int>,
    pollCount: nat,
    review: Option<Review>)

  datatype TaskStatus = TaskQueued | TaskRunning | TaskSucceeded | TaskFailed

  // A row of background_task; a payload that cannot be read is None.
  datatype Task = Task(
    payload: Option<Payload>,
    status: TaskStatus,
    priority: int,
    attempts: nat,
    maxAttempts: nat,
    runAt: int,
    createdAt: int,
    lockedAt: Option<int>,
    lockedBy: Option<string>,
    leaseToken: Option<nat>)

  // What a claim hands to the worker.
  datatype Job = Job(id: string, workerId: string, leaseToken: nat, attempts: nat, maxAttempts: nat, payload: Payload)

  datatype ContentStatus = Draft | InReview | Published | Archived

  datatype Section = Section(versionId: string, versionContentHash: string, sectionIndex: nat, text: string)

  // A row of knowledge_version with its chunk and review section rows.
  // reviewedHash is the hash of the approved review in its metadata, if there is one.
  datatype Version = Version(
    documentId: string,
    content: string,
    contentHash: Option<string>,
    status: ContentStatus,
    reviewApproved: bool,
    reviewedHash: Option<string>,
    fullText: bool,
    citation: string,
    chunks: seq<KnowledgeChunk>,
    sections: seq<Section>)

  datatype Document = Document(currentVersionId: string, status: ContentStatus, sourceId: Option<string>)

  // A source whose tier the policy knows, and what the policy decides on.
  datatype Source = Source(tierKnown: bool, facts: string)

  datatype Phase = InitialPhase | VerifyPhase

  // A row of knowledge_review_run.
  datatype ReviewRun = ReviewRun(
    id: string,
    phase: Phase,
    completed: bool,
    approved: bool,
    risk: Option<Risk>,
    promptVersion: string,
    inputVersionId: string,
    inputContentHash: string,
    report: string)

  // What was seen when a version was published automatically.
  datatype Publication = Publication(contentHash: string, runs: seq<ReviewRun>, source: Source, citation: string)

  // What has happened to one task so far; no row stores this.
  datatype Tally = Tally(
    enqueued: Option<Payload>,
    claims: nat,
    expiries: nat,
    submissions: nat,
    polls: nat,
    retries: nat,
    ended: nat)

  // The tables, the clock, and the history: tokens issued, jobs handed out,
  // content loaded for embedding, tallies, and publications.
  datatype Store = Store(
    now: int,
    tasks: map<string, Task>,
    versions: map<string, Version>,
    documents: map<string, Document>,
    sources: map<string, Source>,
    runs: map<string, ReviewRun>,
    issued: set<nat>,
    jobs: map<nat, Job>,
    loaded: map<nat, string>,
    tallies: map<string, Tally>,
    publications: map<string, Publication>)

  // The worker's limits, and what is decided elsewhere: SHA-256, dates, source
  // rights, how a document is cut into review sections, whether a run's report
  // is well formed and speaks of a version and hash, and whether it leaves
  // blockers or unsupported numbers open.
  datatype Config = Config(
    maxPolls: nat,
    maxPollAge: int,
    sha256: string -> string,
    isDate: string -> bool,
    isAuthorized: (string, string) -> bool,
    hasEvidence: (string, string) -> bool,
    sectionTexts: (string, string) -> seq<string>,
    reportMatches: (ReviewRun, string, string) -> bool,
    isClean: ReviewRun -> bool)

  datatype Action =
    // the rest of the system
    | Advance(to: int)
    | Enqueue(id: string, payload: Option<Payload>, priority: int, maxAttempts: nat, runAt: int, createdAt: int)
    | PutVersion(versionId: string, version: Version)
    | PutDocument(documentId: string, document: Document)
    | PutSource(sourceId: string, source: Source)
    | PutRun(run: ReviewRun)
    // the queue
    | Claim(id: string, worker: string, token: nat)
    | RejectMalformed(id: string, worker: string, token: nat)
    | Renew(token: nat)
    | Submit(token: nat, parserJobId: string, retryAt: int)
    | Defer(token: nat, retryAt: int)
    | SaveParsed(token: nat, content: string, runId: string)
    | RequireReview(token: nat)
    | LoadApproved(token: nat)
    | SaveEmbeddings(token: nat)
    | Fail(token: nat, retryable: bool, retryAt: int)
}
