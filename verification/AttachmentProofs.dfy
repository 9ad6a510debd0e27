// What every run of the attachment queue keeps: leases are fenced, a job in
// hand is an exact snapshot of its row, and attempts are accounted for.
module AttachmentProofs {
  import opened Options
  import opened AttachmentTypes
  import opened AttachmentSteps

  // ----- the invariant

  function Leased(r: Attachment): nat {
    if r.parseStatus == Parsing then 1 else 0
  }

  // A leased row is exactly what its holder was handed.
  ghost predicate LeaseOk(jobs: map<nat, ParseJob>, id: string, r: Attachment) {
    && (r.parseStatus == Parsing <==> r.leaseToken.Some?)
    && (r.leaseToken.Some? ==>
      && r.lockedBy.Some? && r.lockedAt.Some?
      && r.leaseToken.value in jobs
      && jobs[r.leaseToken.value] == JobOf(id, r, r.lockedBy.value, r.leaseToken.value))
  }

  ghost predicate AccountsFor(cfg: Config, r: Attachment, t: Tally) {
    && r.maxAttempts == cfg.maxAttempts
    && (r.quotaState == Reserved ==> r.parseStatus in {NotRequired, Queued})
    && t.ended == (if r.parseStatus in {Parsed, ParseFailed} then 1 else 0)
    && r.attempts == t.retries + t.expiries + t.ended + Leased(r)
    && t.claims == t.submissions + t.blankSubmissions + t.polls + t.retries + t.expiries + t.ended + Leased(r)
    && t.submissions == (if HasParserJob(r.parserJobId) then 1 else 0)
    && t.polls == (if HasParserJob(r.parserJobId) then r.pollCount else 0)
    && t.polls <= cfg.maxPolls
    && t.retries < cfg.maxAttempts
  }

  // The bound on claims, kept for attachments that have been removed as well.
  ghost predicate WithinBound(cfg: Config, t: Tally) {
    t.claims <= 1 + t.blankSubmissions + cfg.maxPolls + cfg.maxAttempts + t.expiries
  }

  ghost predicate RowOk(cfg: Config, s: Store, id: string)
    requires id in s.attachments
  {
    && id in s.tallies
    && LeaseOk(s.jobs, id, s.attachments[id])
    && AccountsFor(cfg, s.attachments[id], s.tallies[id])
  }

  ghost predicate QueueOk(cfg: Config, s: Store) {
    && cfg.maxAttempts > 0
    && (forall id | id in s.attachments :: RowOk(cfg, s, id))
    && (forall token | token in s.jobs :: s.jobs[token].leaseToken == token)
    && (forall id | id in s.tallies :: WithinBound(cfg, s.tallies[id]))
  }

  // A fresh system: nothing registered, no job handed out.
  ghost predicate Initial(cfg: Config, s: Store) {
    && cfg.maxAttempts > 0
    && s.attachments == map[] && s.jobs == map[] && s.tallies == map[]
  }

  // ----- one row

  lemma AccountedIsBounded(cfg: Config, r: Attachment, t: Tally)
    requires cfg.maxAttempts > 0 && AccountsFor(cfg, r, t)
    ensures WithinBound(cfg, t)
  {
  }

  lemma PutKeeps(cfg: Config, s: Store, id: string, r: Attachment, t: Tally)
    requires QueueOk(cfg, s)
    requires LeaseOk(s.jobs, id, r) && AccountsFor(cfg, r, t)
    ensures QueueOk(cfg, Put(s, id, r, t))
  {
    AccountedIsBounded(cfg, r, t);
    var s' := Put(s, id, r, t);
    forall k | k in s'.attachments ensures RowOk(cfg, s', k) {
      if k != id {
        assert RowOk(cfg, s, k);
      }
    }
  }

  // While a lease is current its job is the row's snapshot.
  lemma JobMatchesRow(cfg: Config, s: Store, token: nat)
    requires QueueOk(cfg, s) && HoldsToken(s, token)
    ensures RowOk(cfg, s, s.jobs[token].id)
    ensures var job := s.jobs[token];
            job == JobOf(job.id, s.attachments[job.id], job.workerId, token)
  {
    assert RowOk(cfg, s, s.jobs[token].id);
  }

  // ----- the steps

  lemma ClaimedAccounts(cfg: Config, r: Attachment, t: Tally, now: int, worker: string, token: nat)
    requires AccountsFor(cfg, r, t) && Claimable(r, now)
    ensures AccountsFor(cfg, Claimed(r, now, worker, token), ClaimTally(r, t))
  {
  }

  // Handing out one more job disturbs nobody.
  lemma HandOutKeeps(cfg: Config, s: Store, token: nat, job: ParseJob)
    requires QueueOk(cfg, s) && token !in s.jobs && job.leaseToken == token
    ensures QueueOk(cfg, HandOut(s, token, job))
  {
    var m := HandOut(s, token, job);
    forall k | k in m.attachments ensures RowOk(cfg, m, k) {
      assert RowOk(cfg, s, k);
    }
  }

  lemma ClaimKeeps(cfg: Config, s: Store, id: string, worker: string, token: nat)
    requires QueueOk(cfg, s)
    ensures QueueOk(cfg, CommitClaim(s, id, worker, token))
  {
    if token !in s.jobs && id in s.attachments && Claimable(s.attachments[id], s.now) {
      assert RowOk(cfg, s, id);
      var r := Claimed(s.attachments[id], s.now, worker, token);
      ClaimedAccounts(cfg, s.attachments[id], s.tallies[id], s.now, worker, token);
      HandOutKeeps(cfg, s, token, JobOf(id, r, worker, token));
      PutKeeps(cfg, HandOut(s, token, JobOf(id, r, worker, token)), id, r,
               ClaimTally(s.attachments[id], TallyOf(s, id)));
    }
  }

  lemma RenewKeeps(cfg: Config, s: Store, token: nat)
    requires QueueOk(cfg, s) && token in s.jobs
    ensures QueueOk(cfg, CommitRenew(s, s.jobs[token]))
  {
    var job := s.jobs[token];
    if Current(s, job) {
      assert RowOk(cfg, s, job.id);
      PutKeeps(cfg, s, job.id, s.attachments[job.id].(lockedAt := Some(s.now)), TallyOf(s, job.id));
    }
  }

  // A holder that gives its lease up leaves any row that is accounted for.
  lemma ReleaseKeeps(cfg: Config, s: Store, token: nat, r: Attachment, t: Tally)
    requires QueueOk(cfg, s) && HoldsToken(s, token)
    requires r.leaseToken.None? && r.parseStatus != Parsing && AccountsFor(cfg, r, t)
    ensures QueueOk(cfg, Put(s, s.jobs[token].id, r, t))
  {
    PutKeeps(cfg, s, s.jobs[token].id, r, t);
  }

  lemma SubmittedAccounts(cfg: Config, r: Attachment, t: Tally, now: int, parserJobId: string, retryAt: int)
    requires AccountsFor(cfg, r, t) && r.parseStatus == Parsing && !HasParserJob(r.parserJobId)
    ensures AccountsFor(cfg, Submitted(r, now, parserJobId, retryAt), SubmitTally(t, parserJobId))
  {
  }

  lemma SubmitKeeps(cfg: Config, s: Store, token: nat, parserJobId: string, retryAt: int)
    requires QueueOk(cfg, s) && Allowed(cfg, s, Submit(token, parserJobId, retryAt))
    ensures QueueOk(cfg, CommitSubmit(s, s.jobs[token], parserJobId, retryAt))
  {
    var job := s.jobs[token];
    if Current(s, job) {
      JobMatchesRow(cfg, s, token);
      var r, t := s.attachments[job.id], s.tallies[job.id];
      SubmittedAccounts(cfg, r, t, s.now, parserJobId, retryAt);
      ReleaseKeeps(cfg, s, token, Submitted(r, s.now, parserJobId, retryAt), SubmitTally(t, parserJobId));
    }
  }

  lemma DeferredAccounts(cfg: Config, r: Attachment, t: Tally, retryAt: int)
    requires AccountsFor(cfg, r, t)
    requires r.parseStatus == Parsing && HasParserJob(r.parserJobId) && r.pollCount < cfg.maxPolls
    ensures AccountsFor(cfg, Deferred(r, retryAt), PollTally(t))
  {
  }

  lemma DeferKeeps(cfg: Config, s: Store, token: nat, retryAt: int)
    requires QueueOk(cfg, s) && Allowed(cfg, s, Defer(token, retryAt))
    ensures QueueOk(cfg, CommitDefer(s, s.jobs[token], retryAt))
  {
    var job := s.jobs[token];
    if Current(s, job) {
      JobMatchesRow(cfg, s, token);
      var r, t := s.attachments[job.id], s.tallies[job.id];
      DeferredAccounts(cfg, r, t, retryAt);
      ReleaseKeeps(cfg, s, token, Deferred(r, retryAt), PollTally(t));
    }
  }

  lemma CompletedAccounts(cfg: Config, r: Attachment, t: Tally, chunks: seq<Chunk>)
    requires AccountsFor(cfg, r, t) && r.parseStatus == Parsing
    ensures AccountsFor(cfg, Completed(r, chunks), EndTally(t))
  {
  }

  lemma CompleteKeeps(cfg: Config, s: Store, token: nat, chunks: seq<Chunk>)
    requires QueueOk(cfg, s) && token in s.jobs
    ensures QueueOk(cfg, CommitComplete(s, s.jobs[token], chunks))
  {
    var job := s.jobs[token];
    if 1 <= |chunks| <= MAX_CHUNKS && Current(s, job) {
      JobMatchesRow(cfg, s, token);
      var r, t := s.attachments[job.id], s.tallies[job.id];
      CompletedAccounts(cfg, r, t, chunks);
      ReleaseKeeps(cfg, s, token, Completed(r, chunks), EndTally(t));
    }
  }

  lemma FailedAccounts(cfg: Config, r: Attachment, t: Tally, retryable: bool, retryAt: int)
    requires AccountsFor(cfg, r, t) && r.parseStatus == Parsing
    ensures var terminal := Terminal(r.attempts, r.maxAttempts, retryable);
            AccountsFor(cfg, FailedParse(r, terminal, retryAt), FailTally(t, terminal))
  {
  }

  lemma FailKeeps(cfg: Config, s: Store, token: nat, retryable: bool, retryAt: int)
    requires QueueOk(cfg, s) && token in s.jobs
    ensures QueueOk(cfg, CommitFail(s, s.jobs[token], retryable, retryAt))
  {
    var job := s.jobs[token];
    if Current(s, job) {
      JobMatchesRow(cfg, s, token);
      var r, t := s.attachments[job.id], s.tallies[job.id];
      FailedAccounts(cfg, r, t, retryable, retryAt);
      var terminal := Terminal(job.attempts, job.maxAttempts, retryable);
      ReleaseKeeps(cfg, s, token, FailedParse(r, terminal, retryAt), FailTally(t, terminal));
    }
  }

  // The queue's invariant speaks of rows, jobs and tallies, and survives losing rows.
  lemma QueueIgnoresAccounts(cfg: Config, s: Store, s': Store)
    requires QueueOk(cfg, s)
    requires s'.jobs == s.jobs && s'.tallies == s.tallies
    requires forall id | id in s'.attachments :: id in s.attachments && s'.attachments[id] == s.attachments[id]
    ensures QueueOk(cfg, s')
  {
    forall id | id in s'.attachments ensures RowOk(cfg, s', id) { assert RowOk(cfg, s, id); }
  }

  // ----- uploads, which change no column of a leased row that its job speaks of

  lemma RegisterKeeps(cfg: Config, s: Store, id: string, upload: Upload, quota: int)
    requires QueueOk(cfg, s)
    ensures QueueOk(cfg, CommitRegister(cfg, s, id, upload, quota))
  {
    var m := Put(s, id, Uploaded(cfg, upload, s.now), NO_HISTORY);
    PutKeeps(cfg, s, id, Uploaded(cfg, upload, s.now), NO_HISTORY);
    if CommitRegister(cfg, s, id, upload, quota) != s {
      QueueIgnoresAccounts(cfg, m, CommitRegister(cfg, s, id, upload, quota));
    }
  }

  lemma BeginCompletionKeeps(cfg: Config, s: Store, id: string)
    requires QueueOk(cfg, s)
    ensures QueueOk(cfg, CommitBeginCompletion(s, id))
  {
    if CommitBeginCompletion(s, id) != s {
      assert RowOk(cfg, s, id);
      PutKeeps(cfg, s, id, s.attachments[id].(status := Scanning), TallyOf(s, id));
    }
  }

  lemma CompleteUploadKeeps(cfg: Config, s: Store, id: string, size: nat)
    requires QueueOk(cfg, s)
    ensures QueueOk(cfg, CommitCompleteUpload(s, id, size))
  {
    var s' := CommitCompleteUpload(s, id, size);
    if s' != s {
      assert RowOk(cfg, s, id);
      PutKeeps(cfg, s, id, s'.attachments[id], TallyOf(s, id));
      QueueIgnoresAccounts(cfg, Put(s, id, s'.attachments[id], TallyOf(s, id)), s');
    }
  }

  lemma BindKeeps(cfg: Config, s: Store, id: string, messageId: string)
    requires QueueOk(cfg, s)
    ensures QueueOk(cfg, CommitBind(s, id, messageId))
  {
    if CommitBind(s, id, messageId) != s {
      assert RowOk(cfg, s, id);
      PutKeeps(cfg, s, id, s.attachments[id].(messageId := Some(messageId)), TallyOf(s, id));
    }
  }

  lemma {:induction false} RemovedAllOnlyRemoves(s: Store, ids: seq<string>)
    requires forall i | 0 <= i < |ids| :: ids[i] in s.attachments
    requires forall i, j | 0 <= i < j < |ids| :: ids[i] != ids[j]
    ensures var s' := RemovedAll(s, ids);
            s'.jobs == s.jobs && s'.tallies == s.tallies && s'.deletionJobs == s.deletionJobs
  {
    if ids != [] {
      RemovedAllOnlyRemoves(s, ids[..|ids| - 1]);
    }
  }

  predicate LeavesQueue(a: Action) {
    a.SweepOrphans? || a.DeleteUnbound? || a.Advance? || a.ClaimDeletion? || a.FinishDeletion? || a.FailDeletion?
  }

  lemma OtherStepOnlyRemoves(cfg: Config, s: Store, a: Action)
    requires LeavesQueue(a)
    ensures Step(cfg, s, a).jobs == s.jobs && Step(cfg, s, a).tallies == s.tallies
    ensures forall id | id in Step(cfg, s, a).attachments ::
              id in s.attachments && Step(cfg, s, a).attachments[id] == s.attachments[id]
  {
    if a.SweepOrphans? && Sweepable(s, a.ids, a.limit) {
      RemovedAllOnlyRemoves(s, a.ids);
    }
  }

  lemma StepKeeps(cfg: Config, s: Store, a: Action)
    requires QueueOk(cfg, s)
    ensures QueueOk(cfg, Step(cfg, s, a))
  {
    if LeavesQueue(a) {
      OtherStepOnlyRemoves(cfg, s, a);
      QueueIgnoresAccounts(cfg, s, Step(cfg, s, a));
    } else if Allowed(cfg, s, a) {
      match a
      case Claim(id, worker, token) => ClaimKeeps(cfg, s, id, worker, token);
      case Renew(token) => RenewKeeps(cfg, s, token);
      case Submit(token, parserJobId, retryAt) => SubmitKeeps(cfg, s, token, parserJobId, retryAt);
      case Defer(token, retryAt) => DeferKeeps(cfg, s, token, retryAt);
      case Complete(token, chunks) => CompleteKeeps(cfg, s, token, chunks);
      case Fail(token, retryable, retryAt) => FailKeeps(cfg, s, token, retryable, retryAt);
      case Register(id, upload, quota) => RegisterKeeps(cfg, s, id, upload, quota);
      case BeginCompletion(id) => BeginCompletionKeeps(cfg, s, id);
      case CompleteUpload(id, size) => CompleteUploadKeeps(cfg, s, id, size);
      case Bind(id, messageId) => BindKeeps(cfg, s, id, messageId);
    }
  }

  lemma {:induction false} RunKeeps(cfg: Config, s: Store, actions: seq<Action>)
    requires QueueOk(cfg, s)
    ensures QueueOk(cfg, Run(cfg, s, actions))
  {
    if actions != [] {
      RunKeeps(cfg, s, actions[..|actions| - 1]);
      StepKeeps(cfg, Run(cfg, s, actions[..|actions| - 1]), actions[|actions| - 1]);
    }
  }
}
