// The rows, jobs and accounts the chat storage worker reads and writes, and
// the steps that change them. Times are milliseconds.
module AttachmentTypes {
  import opened Options

  const MAX_CHUNKS := 4096
  const LEASE_TIMEOUT_MS := 15 * 60 * 1000
  const DELETION_MAX_ATTEMPTS := 5

  datatype Kind = Document | Image
  datatype UploadStatus = Initiated | Scanning | Processing | Ready | Failed
  datatype ParseStatus = NotRequired | Queued | Parsing | Parsed | ParseFailed
  datatype QuotaState = Reserved | Committed | Released
  datatype DeletionStatus = Active | Retired

  // Where in the original document a chunk comes from.
  datatype Locator =
    | PageSpan(page: int, characterStart: nat, characterEnd: nat)
    | Lines(markdown: bool, lineStart: nat, lineEnd: nat)
    | CsvRows(rowStart: nat, rowEnd: nat)
    | CsvRow(row: nat)

  datatype Chunk = Chunk(ordinal: nat, content: string, locator: Locator)

  // A row of chat_attachment together with its chunk rows.
  datatype Attachment = Attachment(
    userId: string,
    kind: Kind,
    mimeType: string,
    objectKey: string,
    status: UploadStatus,
    quotaState: QuotaState,
    deletionStatus: DeletionStatus,
    declaredSize: nat,
    sizeBytes: Option<nat>,
    createdAt: int,
    messageId: Option<string>,
    orphanExpiresAt: int,
    parseStatus: ParseStatus,
    parserJobId: Option<string>,
    attempts: nat,
    maxAttempts: nat,
    pollCount: nat,
    submittedAt: Option<int>,
    runAt: int,
    lockedAt: Option<int>,
    lockedBy: Option<string>,
    leaseToken: Option<nat>,
    chunks: seq<Chunk>)

  // What a claim hands to the worker.
  datatype ParseJob = ParseJob(
    id: string,
    objectKey: string,
    mimeType: string,
    parserJobId: Option<string>,
    pollCount: nat,
    submittedAt: Option<int>,
    attempts: nat,
    maxAttempts: nat,
    workerId: string,
    leaseToken: nat)

  datatype DeletionState = DeletionQueued | DeletionRunning | DeletionSucceeded | DeletionFailed

  // A row of chat_storage_deletion_job; its object key is unique and serves as its key here.
  datatype Deletion = Deletion(
    state: DeletionState,
    attempts: nat,
    maxAttempts: nat,
    runAt: int,
    createdAt: int,
    lockedAt: Option<int>,
    lockedBy: Option<string>,
    leaseToken: Option<nat>)

  datatype DeletionJob = DeletionJob(
    objectKey: string,
    attempts: nat,
    maxAttempts: nat,
    workerId: string,
    leaseToken: nat)

  datatype Account = Account(reserved: int, used: int, limit: int)

  // What has happened to one attachment so far; no row stores this.
  datatype Tally = Tally(
    claims: nat,
    expiries: nat,
    submissions: nat,
    blankSubmissions: nat,
    polls: nat,
    retries: nat,
    ended: nat)

  const NO_HISTORY := Tally(0, 0, 0, 0, 0, 0, 0)

  // The tables, the clock, and the history: the jobs handed out, by token, and the tallies.
  datatype Store = Store(
    now: int,
    attachments: map<string, Attachment>,
    accounts: map<string, Account>,
    deletions: map<string, Deletion>,
    jobs: map<nat, ParseJob>,
    deletionJobs: map<nat, DeletionJob>,
    tallies: map<string, Tally>)

  datatype Config = Config(maxPolls: nat, maxPollAge: int, maxAttempts: nat)

  // An upload as it is registered.
  datatype Upload = Upload(
    userId: string,
    kind: Kind,
    mimeType: string,
    objectKey: string,
    declaredSize: nat,
    orphanExpiresAt: int)

  datatype Action =
    // the rest of the system
    | Advance(to: int)
    | Register(id: string, upload: Upload, quota: int)
    | BeginCompletion(id: string)
    | CompleteUpload(id: string, size: nat)
    | Bind(id: string, messageId: string)
    | DeleteUnbound(id: string, runAt: int)
    // the sweep
    | SweepOrphans(ids: seq<string>, limit: nat)
    // attachment parsing
    | Claim(id: string, worker: string, token: nat)
    | Renew(token: nat)
    | Submit(token: nat, parserJobId: string, retryAt: int)
    | Defer(token: nat, retryAt: int)
    | Complete(token: nat, chunks: seq<Chunk>)
    | Fail(token: nat, retryable: bool, retryAt: int)
    // object deletion
    | ClaimDeletion(key: string, worker: string, token: nat)
    | FinishDeletion(token: nat)
    | FailDeletion(token: nat, retryable: bool, retryAt: int)
}
