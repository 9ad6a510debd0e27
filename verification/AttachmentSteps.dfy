// Every statement or transaction of the chat storage worker as one atomic step
// over the tables. A statement whose guard does not hold changes nothing, so
// every sequence of actions is a possible run.
module AttachmentSteps {
  import opened Options
  import opened AttachmentTypes
  import opened Ordering

  function Max(a: int, b: int): int { if a < b then b else a }

  function Min(a: int, b: int): int { if a < b then a else b }

  // A parser job id counts as present when it is a non-empty string.
  predicate HasParserJob(parserJobId: Option<string>) {
    parserJobId.Some? && parserJobId.value != ""
  }

  predicate IsLocalText(mimeType: string) {
    mimeType in {"text/plain", "text/markdown", "text/csv"}
  }

  // ----- attachment parsing: what each statement does to its row

  predicate Claimable(r: Attachment, now: int) {
    && r.kind == Document
    && r.quotaState == Committed
    && r.deletionStatus == Active
    && r.status == Processing
    && (|| (r.parseStatus == Queued && r.runAt <= now)
        || (r.parseStatus == Parsing && r.lockedAt.Some? && r.lockedAt.value < now - LEASE_TIMEOUT_MS))
  }

  function Claimed(r: Attachment, now: int, worker: string, token: nat): Attachment {
    r.(parseStatus := Parsing, attempts := r.attempts + 1,
       lockedAt := Some(now), lockedBy := Some(worker), leaseToken := Some(token))
  }

  function JobOf(id: string, r: Attachment, worker: string, token: nat): ParseJob {
    ParseJob(id, r.objectKey, r.mimeType, r.parserJobId, r.pollCount, r.submittedAt,
             r.attempts, r.maxAttempts, worker, token)
  }

  function Unlocked(r: Attachment): Attachment {
    r.(lockedAt := None, lockedBy := None, leaseToken := None)
  }

  function Submitted(r: Attachment, now: int, parserJobId: string, retryAt: int): Attachment {
    Unlocked(r).(parseStatus := Queued, parserJobId := Some(parserJobId), runAt := retryAt,
                 pollCount := 0, submittedAt := Some(now), attempts := Max(r.attempts - 1, 0))
  }

  function Deferred(r: Attachment, retryAt: int): Attachment {
    Unlocked(r).(parseStatus := Queued, runAt := retryAt,
                 pollCount := r.pollCount + 1, attempts := Max(r.attempts - 1, 0))
  }

  function Completed(r: Attachment, chunks: seq<Chunk>): Attachment {
    Unlocked(r).(status := Ready, parseStatus := Parsed, chunks := chunks)
  }

  predicate Terminal(attempts: nat, maxAttempts: nat, retryable: bool) {
    attempts >= maxAttempts || !retryable
  }

  function FailedParse(r: Attachment, terminal: bool, retryAt: int): Attachment {
    Unlocked(r).(status := if terminal then Failed else Processing,
                 parseStatus := if terminal then ParseFailed else Queued,
                 runAt := retryAt)
  }

  // The WHERE clause every statement of a lease holder carries.
  predicate Holds(r: Attachment, job: ParseJob) {
    r.parseStatus == Parsing && r.lockedBy == Some(job.workerId) && r.leaseToken == Some(job.leaseToken)
  }

  predicate Current(s: Store, job: ParseJob) {
    job.id in s.attachments && Holds(s.attachments[job.id], job)
  }

  predicate HoldsToken(s: Store, token: nat) {
    token in s.jobs && Current(s, s.jobs[token])
  }

  function TallyOf(s: Store, id: string): Tally {
    if id in s.tallies then s.tallies[id] else NO_HISTORY
  }

  function Put(s: Store, id: string, r: Attachment, t: Tally): Store {
    s.(attachments := s.attachments[id := r], tallies := s.tallies[id := t])
  }

  // ----- attachment parsing: the statements

  function HandOut(s: Store, token: nat, job: ParseJob): Store {
    s.(jobs := s.jobs[token := job])
  }

  function ClaimTally(r: Attachment, t: Tally): Tally {
    t.(claims := t.claims + 1, expiries := t.expiries + if r.parseStatus == Parsing then 1 else 0)
  }

  function CommitClaim(s: Store, id: string, worker: string, token: nat): Store {
    if token !in s.jobs && id in s.attachments && Claimable(s.attachments[id], s.now) then
      var r := Claimed(s.attachments[id], s.now, worker, token);
      Put(HandOut(s, token, JobOf(id, r, worker, token)), id, r, ClaimTally(s.attachments[id], TallyOf(s, id)))
    else s
  }

  function CommitRenew(s: Store, job: ParseJob): Store {
    if Current(s, job) then
      var r := s.attachments[job.id];
      Put(s, job.id, r.(lockedAt := Some(s.now)), TallyOf(s, job.id))
    else s
  }

  function SubmitTally(t: Tally, parserJobId: string): Tally {
    if parserJobId == "" then t.(blankSubmissions := t.blankSubmissions + 1)
    else t.(submissions := t.submissions + 1)
  }

  function CommitSubmit(s: Store, job: ParseJob, parserJobId: string, retryAt: int): Store {
    if Current(s, job) then
      Put(s, job.id, Submitted(s.attachments[job.id], s.now, parserJobId, retryAt),
          SubmitTally(TallyOf(s, job.id), parserJobId))
    else s
  }

  function PollTally(t: Tally): Tally {
    t.(polls := t.polls + 1)
  }

  function CommitDefer(s: Store, job: ParseJob, retryAt: int): Store {
    if Current(s, job) then
      Put(s, job.id, Deferred(s.attachments[job.id], retryAt), PollTally(TallyOf(s, job.id)))
    else s
  }

  function EndTally(t: Tally): Tally {
    t.(ended := t.ended + 1)
  }

  function CommitComplete(s: Store, job: ParseJob, chunks: seq<Chunk>): Store {
    if 1 <= |chunks| <= MAX_CHUNKS && Current(s, job) then
      Put(s, job.id, Completed(s.attachments[job.id], chunks), EndTally(TallyOf(s, job.id)))
    else s
  }

  function FailTally(t: Tally, terminal: bool): Tally {
    if terminal then EndTally(t) else t.(retries := t.retries + 1)
  }

  function CommitFail(s: Store, job: ParseJob, retryable: bool, retryAt: int): Store {
    if Current(s, job) then
      var terminal := Terminal(job.attempts, job.maxAttempts, retryable);
      Put(s, job.id, FailedParse(s.attachments[job.id], terminal, retryAt), FailTally(TallyOf(s, job.id), terminal))
    else s
  }

  // Where the row stands in line: by when it is due, or by when it expires.
  function ParsePlace(r: Attachment): Place {
    Place(0, r.runAt, r.createdAt)
  }

  function OrphanPlace(r: Attachment): Place {
    Place(0, r.orphanExpiresAt, r.createdAt)
  }

  function DeletionPlace(d: Deletion): Place {
    Place(0, d.runAt, d.createdAt)
  }

  // ----- object deletion

  predicate DeletionClaimable(d: Deletion, now: int) {
    || (d.state == DeletionQueued && d.runAt <= now)
    || (d.state == DeletionRunning && d.lockedAt.Some? && d.lockedAt.value < now - LEASE_TIMEOUT_MS)
  }

  predicate DeletionCurrent(s: Store, job: DeletionJob) {
    && job.objectKey in s.deletions
    && var d := s.deletions[job.objectKey];
       d.state == DeletionRunning && d.lockedBy == Some(job.workerId) && d.leaseToken == Some(job.leaseToken)
  }

  predicate HoldsDeletionToken(s: Store, token: nat) {
    token in s.deletionJobs && DeletionCurrent(s, s.deletionJobs[token])
  }

  function CommitClaimDeletion(s: Store, key: string, worker: string, token: nat): Store {
    if token !in s.deletionJobs && key in s.deletions && DeletionClaimable(s.deletions[key], s.now) then
      var d := s.deletions[key];
      var d' := d.(state := DeletionRunning, attempts := d.attempts + 1,
                   lockedAt := Some(s.now), lockedBy := Some(worker), leaseToken := Some(token));
      s.(deletions := s.deletions[key := d'],
         deletionJobs := s.deletionJobs[token := DeletionJob(key, d'.attempts, d'.maxAttempts, worker, token)])
    else s
  }

  function ReleaseDeletion(s: Store, job: DeletionJob, state: DeletionState, runAt: int): Store
    requires job.objectKey in s.deletions
  {
    s.(deletions := s.deletions[job.objectKey :=
      s.deletions[job.objectKey].(state := state, runAt := runAt,
                                  lockedAt := None, lockedBy := None, leaseToken := None)])
  }

  function CommitFinishDeletion(s: Store, job: DeletionJob): Store {
    if DeletionCurrent(s, job) then
      ReleaseDeletion(s, job, DeletionSucceeded, s.deletions[job.objectKey].runAt)
    else s
  }

  function CommitFailDeletion(s: Store, job: DeletionJob, retryable: bool, retryAt: int): Store {
    if DeletionCurrent(s, job) then
      ReleaseDeletion(s, job,
                      if Terminal(job.attempts, job.maxAttempts, retryable) then DeletionFailed else DeletionQueued,
                      retryAt)
    else s
  }

  // ----- removal of unbound attachments

  predicate Unbound(r: Attachment) {
    r.messageId.None? && r.deletionStatus == Active
  }

  predicate ExpiredOrphan(s: Store, id: string) {
    && id in s.attachments
    && Unbound(s.attachments[id])
    && s.attachments[id].orphanExpiresAt <= s.now
  }

  function ReservedBytes(r: Attachment): nat {
    if r.quotaState == Reserved then r.declaredSize else 0
  }

  function UsedBytes(r: Attachment): nat {
    if r.quotaState == Committed && r.sizeBytes.Some? then r.sizeBytes.value else 0
  }

  function Refunded(a: Account, r: Attachment): Account {
    a.(reserved := Max(a.reserved - ReservedBytes(r), 0), used := Max(a.used - UsedBytes(r), 0))
  }

  const NEW_DELETION := Deletion(DeletionQueued, 0, DELETION_MAX_ATTEMPTS, 0, 0, None, None, None)

  // Enqueue the object's deletion unless it is enqueued already, refund the account, drop the row.
  function Removed(s: Store, id: string, runAt: int): Store
    requires id in s.attachments
  {
    var r := s.attachments[id];
    s.(deletions := if r.objectKey in s.deletions then s.deletions
                    else s.deletions[r.objectKey := NEW_DELETION.(runAt := runAt, createdAt := s.now)],
       accounts := if r.userId in s.accounts then s.accounts[r.userId := Refunded(s.accounts[r.userId], r)]
                   else s.accounts,
       attachments := s.attachments - {id})
  }

  function RemovedAll(s: Store, ids: seq<string>): (s': Store)
    requires forall i | 0 <= i < |ids| :: ids[i] in s.attachments
    requires forall i, j | 0 <= i < j < |ids| :: ids[i] != ids[j]
    ensures s'.attachments == s.attachments - (set i | 0 <= i < |ids| :: ids[i])
    ensures s'.now == s.now
  {
    if ids == [] then s
    else
      var n := |ids| - 1;
      var m := RemovedAll(s, ids[..n]);
      Removed(m, ids[n], m.now)
  }

  predicate Sweepable(s: Store, ids: seq<string>, limit: nat) {
    && |ids| <= limit
    && (forall i | 0 <= i < |ids| :: ExpiredOrphan(s, ids[i]))
    && (forall i, j | 0 <= i < j < |ids| :: ids[i] != ids[j])
  }

  function CommitSweep(s: Store, ids: seq<string>, limit: nat): Store {
    if Sweepable(s, ids, limit) then RemovedAll(s, ids) else s
  }

  function CommitDeleteUnbound(s: Store, id: string, runAt: int): Store {
    if id in s.attachments && Unbound(s.attachments[id]) then Removed(s, id, runAt) else s
  }

  // ----- uploads

  function Uploaded(cfg: Config, u: Upload, now: int): Attachment {
    Attachment(u.userId, u.kind, u.mimeType, u.objectKey, Initiated, Reserved, Active,
               u.declaredSize, None, now, None, u.orphanExpiresAt,
               if u.kind == Image then NotRequired else Queued,
               None, 0, cfg.maxAttempts, 0, None, now, None, None, None, [])
  }

  // The row is inserted under a new id once the account has room for it.
  function CommitRegister(cfg: Config, s: Store, id: string, u: Upload, limit: int): Store {
    var a := if u.userId in s.accounts then s.accounts[u.userId] else Account(0, 0, limit);
    if id in s.attachments || id in s.tallies || a.used + a.reserved + u.declaredSize > a.limit then s
    else
      Put(s, id, Uploaded(cfg, u, s.now), NO_HISTORY)
        .(accounts := s.accounts[u.userId := a.(reserved := a.reserved + u.declaredSize)])
  }

  function CommitBeginCompletion(s: Store, id: string): Store {
    if && id in s.attachments
       && var r := s.attachments[id];
          r.quotaState == Reserved && r.deletionStatus == Active && r.status == Initiated
    then Put(s, id, s.attachments[id].(status := Scanning), TallyOf(s, id))
    else s
  }

  // The verified bytes move from reserved to used.
  function CommitCompleteUpload(s: Store, id: string, size: nat): Store {
    if && id in s.attachments
       && var r := s.attachments[id];
          && r.status == Scanning && r.quotaState == Reserved && r.deletionStatus == Active
          && r.declaredSize == size && r.userId in s.accounts
    then
      var r := s.attachments[id];
      var a := s.accounts[r.userId];
      var image := r.kind == Image;
      Put(s, id, r.(sizeBytes := Some(size), quotaState := Committed,
                    status := if image then Ready else Processing,
                    parseStatus := if image then NotRequired else Queued,
                    runAt := s.now), TallyOf(s, id))
        .(accounts := s.accounts[r.userId := a.(reserved := a.reserved - r.declaredSize, used := a.used + size)])
    else s
  }

  function CommitBind(s: Store, id: string, messageId: string): Store {
    if && id in s.attachments
       && var r := s.attachments[id];
          && r.quotaState == Committed && r.deletionStatus == Active && r.status == Ready
          && r.parseStatus in {Parsed, NotRequired}
          && (r.messageId.None? || r.messageId == Some(messageId))
    then Put(s, id, s.attachments[id].(messageId := Some(messageId)), TallyOf(s, id))
    else s
  }

  // ----- steps

  // When the worker's control flow lets the holder of a job take an action:
  // it submits only a job that has no parser job yet, and polls only within
  // its budget. A claim can only produce a token nobody has seen.
  predicate Allowed(cfg: Config, s: Store, a: Action) {
    match a
    case Submit(token, _, _) =>
      token in s.jobs && !HasParserJob(s.jobs[token].parserJobId) && !IsLocalText(s.jobs[token].mimeType)
    case Defer(token, _) =>
      && token in s.jobs && HasParserJob(s.jobs[token].parserJobId) && !IsLocalText(s.jobs[token].mimeType)
      && s.jobs[token].pollCount < cfg.maxPolls && s.jobs[token].submittedAt.Some?
    case Renew(token) => token in s.jobs
    case Complete(token, _) => token in s.jobs
    case Fail(token, _, _) => token in s.jobs
    case FinishDeletion(token) => token in s.deletionJobs
    case FailDeletion(token, _, _) => token in s.deletionJobs
    case _ => true
  }

  function Step(cfg: Config, s: Store, a: Action): Store {
    if !Allowed(cfg, s, a) then s else
    match a
    case Advance(to) => s.(now := Max(s.now, to))
    case Register(id, upload, limit) => CommitRegister(cfg, s, id, upload, limit)
    case BeginCompletion(id) => CommitBeginCompletion(s, id)
    case CompleteUpload(id, size) => CommitCompleteUpload(s, id, size)
    case Bind(id, messageId) => CommitBind(s, id, messageId)
    case DeleteUnbound(id, runAt) => CommitDeleteUnbound(s, id, runAt)
    case SweepOrphans(ids, limit) => CommitSweep(s, ids, limit)
    case Claim(id, worker, token) => CommitClaim(s, id, worker, token)
    case Renew(token) => CommitRenew(s, s.jobs[token])
    case Submit(token, parserJobId, retryAt) => CommitSubmit(s, s.jobs[token], parserJobId, retryAt)
    case Defer(token, retryAt) => CommitDefer(s, s.jobs[token], retryAt)
    case Complete(token, chunks) => CommitComplete(s, s.jobs[token], chunks)
    case Fail(token, retryable, retryAt) => CommitFail(s, s.jobs[token], retryable, retryAt)
    case ClaimDeletion(key, worker, token) => CommitClaimDeletion(s, key, worker, token)
    case FinishDeletion(token) => CommitFinishDeletion(s, s.deletionJobs[token])
    case FailDeletion(token, retryable, retryAt) => CommitFailDeletion(s, s.deletionJobs[token], retryable, retryAt)
  }

  function Run(cfg: Config, s: Store, actions: seq<Action>): Store {
    if actions == [] then s
    else Step(cfg, Run(cfg, s, actions[..|actions| - 1]), actions[|actions| - 1])
  }

  lemma {:induction false} RunConcat(cfg: Config, s: Store, a: seq<Action>, b: seq<Action>)
    ensures Run(cfg, s, a + b) == Run(cfg, Run(cfg, s, a), b)
  {
    if b == [] {
      assert a + b == a;
    } else {
      var n := |b| - 1;
      assert (a + b)[..|a + b| - 1] == a + b[..n];
      RunConcat(cfg, s, a, b[..n]);
    }
  }

  lemma RunPrefix(cfg: Config, s: Store, actions: seq<Action>, i: nat)
    requires i < |actions|
    ensures Run(cfg, s, actions[..i + 1]) == Step(cfg, Run(cfg, s, actions[..i]), actions[i])
  {
    assert actions[..i + 1][..i] == actions[..i];
  }
}
