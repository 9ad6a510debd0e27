// What the holder of a lease leaves behind, column by column and over whole
// runs: the parser job of a submission stays, a row put back waits until it is
// due, and chunks once saved are the attachment's chunks for good
// (src/worker/chat-storage.ts).
module AttachmentOutcomes {
  import opened Options
  import opened AttachmentTypes
  import opened AttachmentSteps
  import opened AttachmentProofs
  import opened AttachmentFencing
  import opened AttachmentAccounting
  import opened AttachmentTimeouts

  // ----- one step

  // What uploads, accounts and sweeps go by.
  ghost predicate SameUpload(r: Attachment, r': Attachment) {
    && r'.userId == r.userId && r'.kind == r.kind && r'.mimeType == r.mimeType && r'.objectKey == r.objectKey
    && r'.quotaState == r.quotaState && r'.deletionStatus == r.deletionStatus
    && r'.declaredSize == r.declaredSize && r'.sizeBytes == r.sizeBytes && r'.createdAt == r.createdAt
    && r'.messageId == r.messageId && r'.orphanExpiresAt == r.orphanExpiresAt && r'.maxAttempts == r.maxAttempts
  }

  ghost predicate SameParse(r: Attachment, r': Attachment) {
    r'.parserJobId == r.parserJobId && r'.pollCount == r.pollCount && r'.submittedAt == r.submittedAt
  }

  // Back in the queue until retryAt, at no cost in attempts.
  ghost predicate IsPutBack(r: Attachment, r': Attachment, retryAt: int) {
    && r'.status == Processing && r'.parseStatus == Queued && r'.runAt == retryAt
    && r'.attempts == r.attempts - 1 && r'.chunks == r.chunks
  }

  // What a holder's statement makes of its row.
  ghost predicate IsOutcome(a: Action, r: Attachment, r': Attachment, now: int) {
    && SameUpload(r, r') && r'.lockedAt.None? && r'.lockedBy.None? && r'.leaseToken.None?
    && match a
       case Submit(_, parserJobId, retryAt) =>
         && IsPutBack(r, r', retryAt)
         && r'.parserJobId == Some(parserJobId) && r'.pollCount == 0 && r'.submittedAt == Some(now)
       case Defer(_, retryAt) =>
         && IsPutBack(r, r', retryAt)
         && r'.parserJobId == r.parserJobId && r'.pollCount == r.pollCount + 1 && r'.submittedAt == r.submittedAt
       case Complete(_, chunks) =>
         && r'.status == Ready && r'.parseStatus == Parsed && r'.chunks == chunks && 1 <= |chunks| <= 4096
         && SameParse(r, r') && r'.attempts == r.attempts
       case Fail(_, retryable, retryAt) =>
         && SameParse(r, r') && r'.attempts == r.attempts && r'.chunks == r.chunks
         && if r.attempts >= r.maxAttempts || !retryable
            then r'.status == Failed && r'.parseStatus == ParseFailed
            else r'.status == Processing && r'.parseStatus == Queued && r'.runAt == retryAt
       case _ => false
  }

  lemma SubmitOutcome(s: Store, job: ParseJob, parserJobId: string, retryAt: int)
    requires Current(s, job) && s.attachments[job.id].attempts >= 1 && s.attachments[job.id].status == Processing
    ensures var s' := CommitSubmit(s, job, parserJobId, retryAt);
            && s'.attachments == s.attachments[job.id := s'.attachments[job.id]]
            && IsOutcome(Submit(job.leaseToken, parserJobId, retryAt),
                         s.attachments[job.id], s'.attachments[job.id], s.now)
  {
  }

  lemma DeferOutcome(s: Store, job: ParseJob, retryAt: int)
    requires Current(s, job) && s.attachments[job.id].attempts >= 1 && s.attachments[job.id].status == Processing
    ensures var s' := CommitDefer(s, job, retryAt);
            && s'.attachments == s.attachments[job.id := s'.attachments[job.id]]
            && IsOutcome(Defer(job.leaseToken, retryAt), s.attachments[job.id], s'.attachments[job.id], s.now)
  {
  }

  lemma CompleteOutcome(s: Store, job: ParseJob, chunks: seq<Chunk>)
    requires Current(s, job) && 1 <= |chunks| <= MAX_CHUNKS
    ensures var s' := CommitComplete(s, job, chunks);
            && s'.attachments == s.attachments[job.id := s'.attachments[job.id]]
            && IsOutcome(Complete(job.leaseToken, chunks), s.attachments[job.id], s'.attachments[job.id], s.now)
  {
  }

  lemma FailOutcome(s: Store, job: ParseJob, retryable: bool, retryAt: int)
    requires Current(s, job)
    requires job.attempts == s.attachments[job.id].attempts && job.maxAttempts == s.attachments[job.id].maxAttempts
    ensures var s' := CommitFail(s, job, retryable, retryAt);
            && s'.attachments == s.attachments[job.id := s'.attachments[job.id]]
            && IsOutcome(Fail(job.leaseToken, retryable, retryAt),
                         s.attachments[job.id], s'.attachments[job.id], s.now)
  {
  }

  lemma LeasedHasAttempts(cfg: Config, s: Store, token: nat)
    requires QueueOk(cfg, s) && LocksOk(s) && HoldsToken(s, token)
    ensures var job := s.jobs[token];
            && job.leaseToken == token
            && s.attachments[job.id].attempts >= 1 && s.attachments[job.id].status == Processing
            && job.attempts == s.attachments[job.id].attempts && job.maxAttempts == s.attachments[job.id].maxAttempts
  {
    JobMatchesRow(cfg, s, token);
    assert LockOk(s.attachments[s.jobs[token].id], s.now);
  }

  // A statement that changes anything changes the holder's row, in this way, and no other.
  ghost predicate HasOutcome(s: Store, a: Action, s': Store)
    requires Releases(a)
  {
    && HoldsToken(s, a.token)
    && var id := s.jobs[a.token].id;
       && id in s'.attachments && s'.attachments == s.attachments[id := s'.attachments[id]]
       && IsOutcome(a, s.attachments[id], s'.attachments[id], s.now)
  }

  lemma StepHasOutcome(cfg: Config, s: Store, a: Action)
    requires QueueOk(cfg, s) && LocksOk(s) && Releases(a) && Step(cfg, s, a) != s
    ensures HasOutcome(s, a, Step(cfg, s, a))
  {
    hide IsOutcome, QueueOk, LocksOk;
    EffectiveStepReleases(cfg, s, a);
    LeasedHasAttempts(cfg, s, a.token);
    var job := s.jobs[a.token];
    match a
    case Submit(_, parserJobId, retryAt) => SubmitOutcome(s, job, parserJobId, retryAt);
    case Defer(_, retryAt) => DeferOutcome(s, job, retryAt);
    case Complete(_, chunks) => CompleteOutcome(s, job, chunks);
    case Fail(_, retryable, retryAt) => FailOutcome(s, job, retryable, retryAt);
  }

  // In every run, what a releasing statement that took effect left behind.
  lemma OutcomeOfStep(cfg: Config, s: Store, actions: seq<Action>, i: nat)
    requires Initial(cfg, s) && i < |actions| && Releases(actions[i])
    requires Run(cfg, s, actions[..i + 1]) != Run(cfg, s, actions[..i])
    ensures HasOutcome(Run(cfg, s, actions[..i]), actions[i], Run(cfg, s, actions[..i + 1]))
  {
    hide Run, Step, HasOutcome;
    ReachableIsOk(cfg, s, actions[..i]);
    RunPrefix(cfg, s, actions, i);
    StepHasOutcome(cfg, Run(cfg, s, actions[..i]), actions[i]);
  }

  // ----- a row that was put back waits until it is due

  ghost predicate WaitsUntil(s: Store, id: string, retryAt: int) {
    id in s.tallies && (id in s.attachments ==>
      && s.attachments[id].parseStatus == Queued && s.attachments[id].runAt == retryAt
      && s.attachments[id].quotaState == Committed)
  }

  lemma ClaimLeavesWaiting(s: Store, claimed: string, worker: string, token: nat, id: string, retryAt: int)
    requires WaitsUntil(s, id, retryAt) && s.now < retryAt
    ensures WaitsUntil(CommitClaim(s, claimed, worker, token), id, retryAt)
  {
  }

  lemma HolderLeavesWaiting(cfg: Config, s: Store, a: Action, id: string, retryAt: int)
    requires WaitsUntil(s, id, retryAt) && (a.Renew? || Releases(a))
    ensures WaitsUntil(Step(cfg, s, a), id, retryAt)
  {
  }

  lemma UploadLeavesWaiting(cfg: Config, s: Store, a: Action, id: string, retryAt: int)
    requires WaitsUntil(s, id, retryAt)
    requires a.Register? || a.BeginCompletion? || a.CompleteUpload? || a.Bind?
    ensures WaitsUntil(Step(cfg, s, a), id, retryAt)
  {
  }

  lemma StepLeavesWaiting(cfg: Config, s: Store, a: Action, id: string, retryAt: int)
    requires WaitsUntil(s, id, retryAt) && s.now < retryAt
    ensures WaitsUntil(Step(cfg, s, a), id, retryAt)
  {
    if LeavesQueue(a) {
      hide Step;
      OtherStepOnlyRemoves(cfg, s, a);
    } else if a.Claim? {
      hide WaitsUntil;
      ClaimLeavesWaiting(s, a.id, a.worker, a.token, id, retryAt);
    } else if a.Renew? || Releases(a) {
      hide WaitsUntil;
      HolderLeavesWaiting(cfg, s, a, id, retryAt);
    } else {
      hide WaitsUntil;
      UploadLeavesWaiting(cfg, s, a, id, retryAt);
    }
  }

  lemma {:induction false} WaitsOn(cfg: Config, s: Store, actions: seq<Action>, i: nat, k: nat, id: string,
                                   retryAt: int)
    requires i <= k <= |actions|
    requires WaitsUntil(Run(cfg, s, actions[..i]), id, retryAt) && Run(cfg, s, actions[..k]).now < retryAt
    ensures WaitsUntil(Run(cfg, s, actions[..k]), id, retryAt)
  {
    hide Step, Run, WaitsUntil;
    if i < k {
      RunClock(cfg, s, actions, k - 1, k);
      WaitsOn(cfg, s, actions, i, k - 1, id, retryAt);
      RunPrefix(cfg, s, actions, k - 1);
      StepLeavesWaiting(cfg, Run(cfg, s, actions[..k - 1]), actions[k - 1], id, retryAt);
    }
  }

  lemma PutBackWaits(cfg: Config, s: Store, a: Action, s': Store, retryAt: int)
    requires QueueOk(cfg, s) && LocksOk(s) && QueueOk(cfg, s') && Releases(a) && HasOutcome(s, a, s')
    requires var r' := s'.attachments[s.jobs[a.token].id]; r'.parseStatus == Queued && r'.runAt == retryAt
    ensures WaitsUntil(s', s.jobs[a.token].id, retryAt)
  {
    var id := s.jobs[a.token].id;
    assert RowOk(cfg, s', id);
    assert LockOk(s.attachments[id], s.now);
  }

  // In every run: after a submission, a deferral or a failure that is retried,
  // the row is not claimed before the time it was put back for.
  lemma NotClaimedBeforeDue(cfg: Config, s: Store, actions: seq<Action>, i: nat, k: nat, worker: string, token: nat,
                            id: string, retryAt: int)
    requires Initial(cfg, s) && i < k <= |actions| && Releases(actions[i])
    requires Run(cfg, s, actions[..i + 1]) != Run(cfg, s, actions[..i])
    requires actions[i].token in Run(cfg, s, actions[..i]).jobs
             && Run(cfg, s, actions[..i]).jobs[actions[i].token].id == id
    requires match actions[i]
             case Submit(_, _, at) => at == retryAt
             case Defer(_, at) => at == retryAt
             case Fail(_, _, at) => at == retryAt && id in Run(cfg, s, actions[..i + 1]).attachments
                                    && Run(cfg, s, actions[..i + 1]).attachments[id].status == Processing
             case _ => false
    requires Run(cfg, s, actions[..k]).now < retryAt
    ensures var m := Run(cfg, s, actions[..k]); Step(cfg, m, Claim(id, worker, token)) == m
  {
    hide Run, Step, QueueOk, LocksOk;
    var before, after, m := Run(cfg, s, actions[..i]), Run(cfg, s, actions[..i + 1]), Run(cfg, s, actions[..k]);
    OutcomeOfStep(cfg, s, actions, i);
    ReachableIsOk(cfg, s, actions[..i]);
    ReachableIsOk(cfg, s, actions[..i + 1]);
    PutBackWaits(cfg, before, actions[i], after, retryAt);
    WaitsOn(cfg, s, actions, i + 1, k, id, retryAt);
    WaitingIsNotClaimed(cfg, m, id, worker, token, retryAt);
  }

  lemma WaitingIsNotClaimed(cfg: Config, s: Store, id: string, worker: string, token: nat, retryAt: int)
    requires WaitsUntil(s, id, retryAt) && s.now < retryAt
    ensures Step(cfg, s, Claim(id, worker, token)) == s
  {
  }

  // ----- a result stays

  lemma RunFrom(cfg: Config, s: Store, actions: seq<Action>, i: nat, k: nat)
    requires i <= k <= |actions|
    ensures Run(cfg, Run(cfg, s, actions[..i]), actions[i..k]) == Run(cfg, s, actions[..k])
  {
    RunConcat(cfg, s, actions[..i], actions[i..k]);
    assert actions[..k] == actions[..i] + actions[i..k];
  }

  lemma EndedStays(cfg: Config, s: Store, actions: seq<Action>, i: nat, k: nat, id: string)
    requires Initial(cfg, s) && i <= k <= |actions|
    requires id in Run(cfg, s, actions[..i]).attachments && IsEnded(Run(cfg, s, actions[..i]).attachments[id])
    requires id in Run(cfg, s, actions[..k]).attachments
    ensures var r, r' := Run(cfg, s, actions[..i]).attachments[id], Run(cfg, s, actions[..k]).attachments[id];
            r'.status == r.status && r'.parseStatus == r.parseStatus && r'.chunks == r.chunks
  {
    hide Run, Step;
    var m := Run(cfg, s, actions[..i]);
    ReachableIsOk(cfg, s, actions[..i]);
    assert RowOk(cfg, m, id);
    RunFrom(cfg, s, actions, i, k);
    EndedIsAbsorbing(cfg, m, actions[i..k], id);
  }

  // In every run: chunks whose saving took effect are the attachment's chunks
  // at every later moment, and it is ready.
  lemma SavedChunksStay(cfg: Config, s: Store, actions: seq<Action>, i: nat, k: nat, id: string)
    requires Initial(cfg, s) && i < k <= |actions| && actions[i].Complete?
    requires Run(cfg, s, actions[..i + 1]) != Run(cfg, s, actions[..i])
    requires actions[i].token in Run(cfg, s, actions[..i]).jobs
             && Run(cfg, s, actions[..i]).jobs[actions[i].token].id == id
    requires id in Run(cfg, s, actions[..k]).attachments
    ensures var r := Run(cfg, s, actions[..k]).attachments[id];
            r.status == Ready && r.parseStatus == Parsed && r.chunks == actions[i].chunks && 1 <= |r.chunks| <= 4096
  {
    hide Run, Step;
    OutcomeOfStep(cfg, s, actions, i);
    EndedStays(cfg, s, actions, i + 1, k, id);
  }

  // A failure is for good exactly when the attempts are used up or it is not
  // retryable; then the attachment is failed at every later moment.
  lemma FailedForGoodIff(cfg: Config, s: Store, actions: seq<Action>, i: nat, k: nat, id: string)
    requires Initial(cfg, s) && i < k <= |actions| && actions[i].Fail?
    requires Run(cfg, s, actions[..i + 1]) != Run(cfg, s, actions[..i])
    requires actions[i].token in Run(cfg, s, actions[..i]).jobs
             && Run(cfg, s, actions[..i]).jobs[actions[i].token].id == id
    requires id in Run(cfg, s, actions[..k]).attachments
    ensures id in Run(cfg, s, actions[..i]).attachments && id in Run(cfg, s, actions[..i + 1]).attachments
    ensures var r, r' := Run(cfg, s, actions[..i]).attachments[id], Run(cfg, s, actions[..i + 1]).attachments[id];
            if r.attempts >= r.maxAttempts || !actions[i].retryable
            then var last := Run(cfg, s, actions[..k]).attachments[id];
                 last.status == Failed && last.parseStatus == ParseFailed && last.chunks == r.chunks
            else r'.parseStatus == Queued && r'.runAt == actions[i].retryAt
  {
    hide Run, Step;
    OutcomeOfStep(cfg, s, actions, i);
    var r, r' := Run(cfg, s, actions[..i]).attachments[id], Run(cfg, s, actions[..i + 1]).attachments[id];
    if r.attempts >= r.maxAttempts || !actions[i].retryable {
      EndedStays(cfg, s, actions, i + 1, k, id);
    }
  }

  // ----- a parser job stays

  ghost predicate HasJob(s: Store, id: string, parserJobId: string) {
    id in s.tallies && (id in s.attachments ==> s.attachments[id].parserJobId == Some(parserJobId))
  }

  lemma HeldJobIsNamed(cfg: Config, s: Store, token: nat)
    requires QueueOk(cfg, s) && HoldsToken(s, token)
    ensures s.attachments[s.jobs[token].id].parserJobId == s.jobs[token].parserJobId
  {
    JobMatchesRow(cfg, s, token);
  }

  lemma SubmitKeepsJob(cfg: Config, s: Store, token: nat, job: string, at: int, id: string, parserJobId: string)
    requires HasJob(s, id, parserJobId) && parserJobId != ""
    requires HoldsToken(s, token) ==> s.attachments[s.jobs[token].id].parserJobId == s.jobs[token].parserJobId
    ensures HasJob(Step(cfg, s, Submit(token, job, at)), id, parserJobId)
  {
  }

  lemma HolderKeepsJob(cfg: Config, s: Store, a: Action, id: string, parserJobId: string)
    requires HasJob(s, id, parserJobId) && (a.Renew? || a.Defer? || a.Complete? || a.Fail?)
    ensures HasJob(Step(cfg, s, a), id, parserJobId)
  {
  }

  lemma UploadKeepsJob(cfg: Config, s: Store, a: Action, id: string, parserJobId: string)
    requires HasJob(s, id, parserJobId) && !LeavesQueue(a) && !a.Renew? && !Releases(a)
    ensures HasJob(Step(cfg, s, a), id, parserJobId)
  {
  }

  lemma StepKeepsJob(cfg: Config, s: Store, a: Action, id: string, parserJobId: string)
    requires QueueOk(cfg, s) && HasJob(s, id, parserJobId) && parserJobId != ""
    ensures HasJob(Step(cfg, s, a), id, parserJobId)
  {
    hide QueueOk;
    if LeavesQueue(a) {
      hide Step;
      OtherStepOnlyRemoves(cfg, s, a);
    } else if a.Submit? {
      if HoldsToken(s, a.token) {
        HeldJobIsNamed(cfg, s, a.token);
      }
      SubmitKeepsJob(cfg, s, a.token, a.parserJobId, a.retryAt, id, parserJobId);
    } else if a.Renew? || Releases(a) {
      HolderKeepsJob(cfg, s, a, id, parserJobId);
    } else {
      UploadKeepsJob(cfg, s, a, id, parserJobId);
    }
  }

  lemma {:induction false} JobKept(cfg: Config, s: Store, actions: seq<Action>, i: nat, k: nat, id: string,
                                   parserJobId: string)
    requires Initial(cfg, s) && i <= k <= |actions| && parserJobId != ""
    requires HasJob(Run(cfg, s, actions[..i]), id, parserJobId)
    ensures HasJob(Run(cfg, s, actions[..k]), id, parserJobId)
  {
    hide Run, Step, HasJob, QueueOk;
    if i < k {
      JobKept(cfg, s, actions, i, k - 1, id, parserJobId);
      ReachableIsOk(cfg, s, actions[..k - 1]);
      RunPrefix(cfg, s, actions, k - 1);
      StepKeepsJob(cfg, Run(cfg, s, actions[..k - 1]), actions[k - 1], id, parserJobId);
    }
  }

  // In every run: the parser job of a submission that took effect is the
  // attachment's parser job at every later moment.
  lemma ParserJobStays(cfg: Config, s: Store, actions: seq<Action>, i: nat, k: nat, id: string)
    requires Initial(cfg, s) && i < k <= |actions| && actions[i].Submit? && actions[i].parserJobId != ""
    requires Run(cfg, s, actions[..i + 1]) != Run(cfg, s, actions[..i])
    requires actions[i].token in Run(cfg, s, actions[..i]).jobs
             && Run(cfg, s, actions[..i]).jobs[actions[i].token].id == id
    requires id in Run(cfg, s, actions[..k]).attachments
    ensures Run(cfg, s, actions[..k]).attachments[id].parserJobId == Some(actions[i].parserJobId)
  {
    hide Run, Step, QueueOk;
    OutcomeOfStep(cfg, s, actions, i);
    ReachableIsOk(cfg, s, actions[..i + 1]);
    RowHasTally(cfg, Run(cfg, s, actions[..i + 1]), id);
    JobKept(cfg, s, actions, i + 1, k, id, actions[i].parserJobId);
  }

  lemma RowHasTally(cfg: Config, s: Store, id: string)
    requires QueueOk(cfg, s) && id in s.attachments
    ensures id in s.tallies
  {
    assert RowOk(cfg, s, id);
  }
}
