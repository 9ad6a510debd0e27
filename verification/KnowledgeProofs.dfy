// What every run of the knowledge queue keeps: a job in hand is an exact
// snapshot of its row, its payload is the enqueued one plus what the queue did
// to it, and attempts are accounted for.
module KnowledgeProofs {
  import opened Options
  import opened KnowledgeTypes
  import opened KnowledgeSteps
  import opened ReviewedChunks

  // ----- the invariant

  function Leased(r: Task): nat {
    if r.status == TaskRunning then 1 else 0
  }

  // A leased row is exactly what its holder was handed.
  ghost predicate LeaseOk(jobs: map<nat, Job>, issued: set<nat>, id: string, r: Task) {
    && (r.status == TaskRunning <==> r.leaseToken.Some?)
    && (r.leaseToken.Some? ==>
      && r.lockedBy.Some? && r.lockedAt.Some?
      && r.leaseToken.value in issued
      && (r.payload.None? ==> r.leaseToken.value !in jobs)
      && (r.payload.Some? ==>
        && r.leaseToken.value in jobs
        && jobs[r.leaseToken.value] == JobOf(id, r, r.lockedBy.value, r.leaseToken.value)))
  }

  // What the queue makes of an enqueued payload: one submission, and one more poll per deferral.
  function Progressed(enqueued: Payload, t: Tally, now: Payload): Payload {
    if t.submissions == 0 then enqueued.(pollCount := enqueued.pollCount + t.polls)
    else enqueued.(stage := OcrProcessing, parserJobId := now.parserJobId, submittedAt := now.submittedAt,
                   pollCount := t.polls)
  }

  ghost predicate PayloadFits(cfg: Config, payload: Option<Payload>, t: Tally) {
    && (payload.Some? <==> t.enqueued.Some?)
    && t.submissions <= 1
    && t.polls <= cfg.maxPolls
    && (payload.None? ==> t.submissions == 0 && t.polls == 0)
    && (payload.Some? ==>
      && payload.value == Progressed(t.enqueued.value, t, payload.value)
      && (t.submissions == 1 ==>
            t.enqueued.value.stage == OcrPending
            && payload.value.parserJobId.Some? && payload.value.submittedAt.Some?)
      && (t.submissions == 0 && t.polls > 0 ==> t.enqueued.value.stage == OcrProcessing))
  }

  ghost predicate AccountsFor(cfg: Config, r: Task, t: Tally) {
    && t.ended == (if r.status in {TaskSucceeded, TaskFailed} then 1 else 0)
    && r.attempts == t.retries + t.expiries + t.ended + Leased(r)
    && t.claims == t.submissions + t.polls + t.retries + t.expiries + t.ended + Leased(r)
    && t.retries < r.maxAttempts
    && PayloadFits(cfg, r.payload, t)
  }

  ghost predicate RowOk(cfg: Config, s: Store, id: string)
    requires id in s.tasks
  {
    id in s.tallies && LeaseOk(s.jobs, s.issued, id, s.tasks[id]) && AccountsFor(cfg, s.tasks[id], s.tallies[id])
  }

  ghost predicate JobsOk(s: Store) {
    forall token | token in s.jobs :: token in s.issued && s.jobs[token].leaseToken == token
  }

  ghost predicate QueueOk(cfg: Config, s: Store) {
    && (forall id | id in s.tasks :: RowOk(cfg, s, id))
    && JobsOk(s)
  }

  // A fresh queue, whatever is in the other tables.
  ghost predicate Initial(cfg: Config, s: Store) {
    && s.tasks == map[] && s.issued == {} && s.jobs == map[] && s.loaded == map[]
    && s.tallies == map[] && s.publications == map[]
    && forall id | id in s.versions :: HashFits(cfg, s.versions[id])
  }

  // ----- one row

  // Only the queue's own columns matter to its invariant.
  lemma OtherTablesKeep(cfg: Config, s: Store, s': Store)
    requires QueueOk(cfg, s)
    requires s'.tasks == s.tasks && s'.issued == s.issued && s'.jobs == s.jobs && s'.tallies == s.tallies
    ensures QueueOk(cfg, s')
  {
    forall id | id in s'.tasks ensures RowOk(cfg, s', id) { assert RowOk(cfg, s, id); }
  }

  lemma PutKeeps(cfg: Config, s: Store, id: string, r: Task, t: Tally)
    requires QueueOk(cfg, s)
    requires LeaseOk(s.jobs, s.issued, id, r) && AccountsFor(cfg, r, t)
    ensures QueueOk(cfg, Put(s, id, r, t))
  {
    var s' := Put(s, id, r, t);
    forall k | k in s'.tasks ensures RowOk(cfg, s', k) {
      if k != id {
        assert RowOk(cfg, s, k);
      }
    }
  }

  lemma RowIsAccountedFor(cfg: Config, s: Store, id: string)
    requires QueueOk(cfg, s) && id in s.tasks
    ensures id in s.tallies && s.tallies[id] == TallyOf(s, id)
    ensures LeaseOk(s.jobs, s.issued, id, s.tasks[id]) && AccountsFor(cfg, s.tasks[id], TallyOf(s, id))
  {
    assert RowOk(cfg, s, id);
  }

  // While a lease is current its job is the row's snapshot.
  lemma JobMatchesRow(cfg: Config, s: Store, token: nat)
    requires QueueOk(cfg, s) && HoldsToken(s, token)
    ensures var job := s.jobs[token];
            s.tasks[job.id].payload.Some? && job == JobOf(job.id, s.tasks[job.id], job.workerId, token)
  {
    RowIsAccountedFor(cfg, s, s.jobs[token].id);
  }

  // A step that gives a lease up leaves any row that is accounted for.
  lemma ReleaseKeeps(cfg: Config, s: Store, id: string, r: Task, t: Tally)
    requires QueueOk(cfg, s) && id in s.tasks
    requires r.leaseToken.None? && r.status != TaskRunning && AccountsFor(cfg, r, t)
    ensures QueueOk(cfg, Put(s, id, r, t))
  {
    PutKeeps(cfg, s, id, r, t);
  }

  // ----- the steps

  lemma ClaimedFits(cfg: Config, s: Store, id: string, worker: string, token: nat)
    requires id in s.tasks && RowOk(cfg, s, id) && Claimable(s.tasks[id], s.now)
    ensures var r := Claimed(s.tasks[id], s.now, worker, token);
            var m := Issue(s, token, HandedOut(id, r, worker, token));
            AccountsFor(cfg, r, ClaimTally(s.tasks[id], s.tallies[id]))
            && (token !in s.jobs ==> LeaseOk(m.jobs, m.issued, id, r))
  {
  }

  // Handing out one more token disturbs nobody.
  lemma IssueKeeps(cfg: Config, s: Store, token: nat, job: Option<Job>)
    requires QueueOk(cfg, s) && token !in s.issued && (job.Some? ==> job.value.leaseToken == token)
    ensures QueueOk(cfg, Issue(s, token, job))
  {
    var m := Issue(s, token, job);
    forall k | k in m.tasks ensures RowOk(cfg, m, k) {
      assert RowOk(cfg, s, k);
    }
  }

  lemma ClaimKeeps(cfg: Config, s: Store, id: string, worker: string, token: nat)
    requires QueueOk(cfg, s)
    ensures QueueOk(cfg, CommitClaim(s, id, worker, token))
  {
    if token !in s.issued && id in s.tasks && Claimable(s.tasks[id], s.now) {
      assert RowOk(cfg, s, id);
      ClaimedFits(cfg, s, id, worker, token);
      var r := Claimed(s.tasks[id], s.now, worker, token);
      var job := HandedOut(id, r, worker, token);
      IssueKeeps(cfg, s, token, job);
      PutKeeps(cfg, Issue(s, token, job), id, r, ClaimTally(s.tasks[id], s.tallies[id]));
    }
  }

  lemma EndedAccounts(cfg: Config, r: Task, t: Tally, status: TaskStatus)
    requires AccountsFor(cfg, r, t) && r.status == TaskRunning && status in {TaskSucceeded, TaskFailed}
    ensures AccountsFor(cfg, Ended(r, status), EndTally(t))
  {
  }

  lemma EndKeeps(cfg: Config, s: Store, id: string, status: TaskStatus)
    requires QueueOk(cfg, s) && id in s.tasks && s.tasks[id].status == TaskRunning
    requires status in {TaskSucceeded, TaskFailed}
    ensures QueueOk(cfg, Put(s, id, Ended(s.tasks[id], status), EndTally(TallyOf(s, id))))
  {
    RowIsAccountedFor(cfg, s, id);
    EndedAccounts(cfg, s.tasks[id], TallyOf(s, id), status);
    ReleaseKeeps(cfg, s, id, Ended(s.tasks[id], status), EndTally(TallyOf(s, id)));
  }

  lemma RejectKeeps(cfg: Config, s: Store, id: string, worker: string, token: nat)
    requires QueueOk(cfg, s)
    ensures QueueOk(cfg, CommitRejectMalformed(s, id, worker, token))
  {
    if id in s.tasks && s.tasks[id].lockedBy == Some(worker) && s.tasks[id].leaseToken == Some(token) {
      RowIsAccountedFor(cfg, s, id);
      EndKeeps(cfg, s, id, TaskFailed);
    }
  }

  lemma RenewKeeps(cfg: Config, s: Store, token: nat)
    requires QueueOk(cfg, s) && token in s.jobs
    ensures QueueOk(cfg, CommitRenew(s, s.jobs[token]))
  {
    var job := s.jobs[token];
    if Current(s, job) {
      RowIsAccountedFor(cfg, s, job.id);
      PutKeeps(cfg, s, job.id, s.tasks[job.id].(lockedAt := Some(s.now)), TallyOf(s, job.id));
    }
  }

  lemma SubmittedAccounts(cfg: Config, r: Task, t: Tally, parserJobId: string, now: int, retryAt: int)
    requires AccountsFor(cfg, r, t) && r.status == TaskRunning
    requires r.payload.Some? && r.payload.value.stage == OcrPending
    ensures AccountsFor(cfg, Requeued(r, SubmittedPayload(r.payload.value, parserJobId, now), retryAt), SubmitTally(t))
  {
  }

  lemma SubmitKeeps(cfg: Config, s: Store, token: nat, parserJobId: string, retryAt: int)
    requires QueueOk(cfg, s) && token in s.jobs && s.jobs[token].payload.stage == OcrPending
    ensures QueueOk(cfg, CommitSubmit(s, s.jobs[token], parserJobId, retryAt))
  {
    var job := s.jobs[token];
    if Current(s, job) {
      JobMatchesRow(cfg, s, token);
      RowIsAccountedFor(cfg, s, job.id);
      var r, t := s.tasks[job.id], TallyOf(s, job.id);
      SubmittedAccounts(cfg, r, t, parserJobId, s.now, retryAt);
      ReleaseKeeps(cfg, s, job.id, Requeued(r, SubmittedPayload(job.payload, parserJobId, s.now), retryAt),
                   SubmitTally(t));
    }
  }

  lemma DeferredAccounts(cfg: Config, r: Task, t: Tally, retryAt: int)
    requires AccountsFor(cfg, r, t) && r.status == TaskRunning
    requires r.payload.Some? && r.payload.value.stage == OcrProcessing && r.payload.value.pollCount < cfg.maxPolls
    ensures AccountsFor(cfg, Requeued(r, DeferredPayload(r.payload.value), retryAt), PollTally(t))
  {
  }

  lemma DeferKeeps(cfg: Config, s: Store, token: nat, retryAt: int)
    requires QueueOk(cfg, s) && Allowed(cfg, s, Defer(token, retryAt))
    ensures QueueOk(cfg, CommitDefer(s, s.jobs[token], retryAt))
  {
    var job := s.jobs[token];
    if Current(s, job) {
      JobMatchesRow(cfg, s, token);
      RowIsAccountedFor(cfg, s, job.id);
      var r, t := s.tasks[job.id], TallyOf(s, job.id);
      DeferredAccounts(cfg, r, t, retryAt);
      ReleaseKeeps(cfg, s, job.id, Requeued(r, DeferredPayload(job.payload), retryAt), PollTally(t));
    }
  }

  lemma FailedAccounts(cfg: Config, r: Task, t: Tally, retryable: bool, retryAt: int)
    requires AccountsFor(cfg, r, t) && r.status == TaskRunning
    ensures var terminal := Terminal(r.attempts, r.maxAttempts, retryable);
            AccountsFor(cfg, FailedTask(r, terminal, retryAt), FailTally(t, terminal))
  {
  }

  lemma FailKeeps(cfg: Config, s: Store, token: nat, retryable: bool, retryAt: int)
    requires QueueOk(cfg, s) && token in s.jobs
    ensures QueueOk(cfg, CommitFail(s, s.jobs[token], retryable, retryAt))
  {
    var job := s.jobs[token];
    if Current(s, job) {
      JobMatchesRow(cfg, s, token);
      RowIsAccountedFor(cfg, s, job.id);
      var r, t := s.tasks[job.id], TallyOf(s, job.id);
      FailedAccounts(cfg, r, t, retryable, retryAt);
      var terminal := Terminal(job.attempts, job.maxAttempts, retryable);
      ReleaseKeeps(cfg, s, job.id, FailedTask(r, terminal, retryAt), FailTally(t, terminal));
    }
  }

  lemma EnqueueKeeps(cfg: Config, s: Store, id: string, payload: Option<Payload>,
                     priority: int, maxAttempts: nat, runAt: int, createdAt: int)
    requires QueueOk(cfg, s)
    ensures QueueOk(cfg, CommitEnqueue(s, id, payload, priority, maxAttempts, runAt, createdAt))
  {
    if id !in s.tasks && id !in s.tallies && maxAttempts > 0 {
      PutKeeps(cfg, s, id, NewTask(payload, priority, maxAttempts, runAt, createdAt), NoHistory(payload));
    }
  }

  // A transaction that ends a task and writes other tables besides.
  lemma EndBesidesKeeps(cfg: Config, s: Store, id: string, s': Store)
    requires QueueOk(cfg, s) && id in s.tasks && s.tasks[id].status == TaskRunning
    requires var m := Put(s, id, Ended(s.tasks[id], TaskSucceeded), EndTally(TallyOf(s, id)));
             && s'.tasks == m.tasks && s'.issued == m.issued && s'.jobs == m.jobs && s'.tallies == m.tallies
    ensures QueueOk(cfg, s')
  {
    EndKeeps(cfg, s, id, TaskSucceeded);
    OtherTablesKeep(cfg, Put(s, id, Ended(s.tasks[id], TaskSucceeded), EndTally(TallyOf(s, id))), s');
  }

  lemma SaveParsedKeeps(cfg: Config, s: Store, job: Job, content: string, runId: string)
    requires QueueOk(cfg, s)
    ensures QueueOk(cfg, CommitSaveParsed(cfg, s, job, content, runId))
  {
    if CanSaveParsed(cfg, s, job, content) && runId !in s.runs {
      EndBesidesKeeps(cfg, s, job.id, CommitSaveParsed(cfg, s, job, content, runId));
    }
  }

  lemma SaveEmbeddingsKeeps(cfg: Config, s: Store, job: Job, chunks: seq<KnowledgeChunk>)
    requires QueueOk(cfg, s)
    ensures QueueOk(cfg, CommitSaveEmbeddings(cfg, s, job, chunks))
  {
    if CanSaveEmbeddings(cfg, s, job) {
      EndBesidesKeeps(cfg, s, job.id, CommitSaveEmbeddings(cfg, s, job, chunks));
    }
  }

  lemma RequireReviewKeeps(cfg: Config, s: Store, job: Job)
    requires QueueOk(cfg, s)
    ensures QueueOk(cfg, CommitRequireReview(s, job))
  {
    if Current(s, job) {
      EndKeeps(cfg, s, job.id, TaskSucceeded);
    }
  }

  lemma LoadKeeps(cfg: Config, s: Store, job: Job)
    requires QueueOk(cfg, s)
    ensures QueueOk(cfg, CommitLoadApproved(cfg, s, job))
  {
    OtherTablesKeep(cfg, s, CommitLoadApproved(cfg, s, job));
  }

  // The steps that write versions and documents, or load content.
  predicate IsContentStep(a: Action) {
    a.SaveParsed? || a.SaveEmbeddings? || a.LoadApproved?
  }

  // The steps the rest of the system takes, enqueuing apart.
  predicate IsOutsideStep(a: Action) {
    a.Advance? || a.PutVersion? || a.PutDocument? || a.PutSource? || a.PutRun?
  }

  lemma OutsideStepKeepsQueue(cfg: Config, s: Store, a: Action)
    requires IsOutsideStep(a)
    ensures var s' := Step(cfg, s, a);
            && s'.tasks == s.tasks && s'.issued == s.issued && s'.jobs == s.jobs
            && s'.tallies == s.tallies && s'.loaded == s.loaded
  {
  }

  lemma ContentStepKeeps(cfg: Config, s: Store, a: Action)
    requires QueueOk(cfg, s) && IsContentStep(a)
    ensures QueueOk(cfg, Step(cfg, s, a))
  {
    if Allowed(cfg, s, a) {
      match a
      case SaveParsed(token, content, runId) => SaveParsedKeeps(cfg, s, s.jobs[token], content, runId);
      case SaveEmbeddings(token) => SaveEmbeddingsKeeps(cfg, s, s.jobs[token], Chunks(s.loaded[token]));
      case LoadApproved(token) => LoadKeeps(cfg, s, s.jobs[token]);
    }
  }

  lemma QueueStepKeeps(cfg: Config, s: Store, a: Action)
    requires QueueOk(cfg, s) && !IsContentStep(a) && !IsOutsideStep(a)
    ensures QueueOk(cfg, Step(cfg, s, a))
  {
    if Allowed(cfg, s, a) {
      match a
      case Claim(id, worker, token) => ClaimKeeps(cfg, s, id, worker, token);
      case RejectMalformed(id, worker, token) => RejectKeeps(cfg, s, id, worker, token);
      case Renew(token) => RenewKeeps(cfg, s, token);
      case Submit(token, parserJobId, retryAt) => SubmitKeeps(cfg, s, token, parserJobId, retryAt);
      case Defer(token, retryAt) => DeferKeeps(cfg, s, token, retryAt);
      case Fail(token, retryable, retryAt) => FailKeeps(cfg, s, token, retryable, retryAt);
      case RequireReview(token) => RequireReviewKeeps(cfg, s, s.jobs[token]);
      case Enqueue(id, payload, priority, maxAttempts, runAt, createdAt) =>
        EnqueueKeeps(cfg, s, id, payload, priority, maxAttempts, runAt, createdAt);
    }
  }

  lemma StepKeeps(cfg: Config, s: Store, a: Action)
    requires QueueOk(cfg, s)
    ensures QueueOk(cfg, Step(cfg, s, a))
  {
    if IsContentStep(a) {
      ContentStepKeeps(cfg, s, a);
    } else if IsOutsideStep(a) {
      OutsideStepKeepsQueue(cfg, s, a);
      OtherTablesKeep(cfg, s, Step(cfg, s, a));
    } else {
      QueueStepKeeps(cfg, s, a);
    }
  }

  lemma {:induction false} RunKeeps(cfg: Config, s: Store, actions: seq<Action>)
    requires QueueOk(cfg, s)
    ensures QueueOk(cfg, Run(cfg, s, actions))
  {
    if actions != [] {
      RunKeeps(cfg, s, actions[..|actions| - 1]);
      StepKeeps(cfg, Run(cfg, s, actions[..|actions| - 1]), actions[|actions| - 1]);
    }
  }

  lemma InitialIsOk(cfg: Config, s: Store)
    requires Initial(cfg, s)
    ensures QueueOk(cfg, s)
  {
  }

  // ----- main results: attempts, payloads, claims

  // Every task of a run from an empty queue.
  lemma TaskOfRun(cfg: Config, s: Store, actions: seq<Action>, id: string)
    requires Initial(cfg, s) && id in Run(cfg, s, actions).tasks
    ensures var s' := Run(cfg, s, actions);
            QueueOk(cfg, s') && AccountsFor(cfg, s'.tasks[id], TallyOf(s', id))
  {
    InitialIsOk(cfg, s);
    RunKeeps(cfg, s, actions);
    RowIsAccountedFor(cfg, Run(cfg, s, actions), id);
  }

  lemma AttemptsOfRow(cfg: Config, r: Task, t: Tally)
    requires AccountsFor(cfg, r, t)
    ensures r.attempts == t.retries + t.expiries + Leased(r) + t.ended && Leased(r) + t.ended <= 1
    ensures r.status == TaskRunning ==> Max(r.attempts - 1, 0) == r.attempts - 1
    ensures r.attempts <= r.maxAttempts + t.expiries
    ensures t.claims <= 1 + cfg.maxPolls + r.maxAttempts + t.expiries
  {
  }

  // Attempts are exactly the retryable failures, the lease expiries, and one
  // for the claim that is running or that ended the task; so the refund of a
  // requeue never meets its clamp at zero, and without expiries the maximum is
  // never exceeded.
  lemma AttemptsAccountedFor(cfg: Config, s: Store, actions: seq<Action>, id: string)
    requires Initial(cfg, s) && id in Run(cfg, s, actions).tasks
    ensures var s' := Run(cfg, s, actions);
            var r, t := s'.tasks[id], TallyOf(s', id);
            && r.attempts == t.retries + t.expiries + Leased(r) + t.ended
            && Leased(r) + t.ended <= 1
            && (r.status == TaskRunning ==> Max(r.attempts - 1, 0) == r.attempts - 1)
            && r.attempts <= r.maxAttempts + t.expiries
  {
    TaskOfRun(cfg, s, actions, id);
    AttemptsOfRow(cfg, Run(cfg, s, actions).tasks[id], TallyOf(Run(cfg, s, actions), id));
  }

  // No task is claimed more often than one submission, its polls, its failures
  // and its expiries allow.
  lemma ClaimsBounded(cfg: Config, s: Store, actions: seq<Action>, id: string)
    requires Initial(cfg, s) && id in Run(cfg, s, actions).tasks
    ensures var s' := Run(cfg, s, actions);
            TallyOf(s', id).claims <= 1 + cfg.maxPolls + s'.tasks[id].maxAttempts + TallyOf(s', id).expiries
  {
    TaskOfRun(cfg, s, actions, id);
    AttemptsOfRow(cfg, Run(cfg, s, actions).tasks[id], TallyOf(Run(cfg, s, actions), id));
  }

  // While a lease is current, the payload and the attempts in the worker's hand
  // are the row's. The requeue that writes the payload back therefore loses
  // nothing: document, version, object key and review are always those the
  // task was enqueued with, the poll count is the number of deferrals since
  // the submission, and a task is submitted at most once.
  lemma SnapshotIsTheRow(cfg: Config, s: Store, actions: seq<Action>, token: nat)
    requires Initial(cfg, s) && HoldsToken(Run(cfg, s, actions), token)
    ensures var s' := Run(cfg, s, actions);
            var job := s'.jobs[token];
            var r, t := s'.tasks[job.id], TallyOf(s', job.id);
            && r.payload == Some(job.payload) && r.attempts == job.attempts && r.maxAttempts == job.maxAttempts
            && t.enqueued.Some?
            && job.payload == Progressed(t.enqueued.value, t, job.payload)
            && t.submissions <= 1
  {
    InitialIsOk(cfg, s);
    RunKeeps(cfg, s, actions);
    JobMatchesRow(cfg, Run(cfg, s, actions), token);
    assert RowOk(cfg, Run(cfg, s, actions), Run(cfg, s, actions).jobs[token].id);
  }

  // ----- ocr_processing never goes back to ocr_pending, and an ended task stays ended

  ghost predicate RowForward(r: Task, r': Task) {
    && (r.payload.Some? <==> r'.payload.Some?)
    && (r.payload.Some? && r.payload.value.stage != OcrPending ==> r'.payload.value.stage == r.payload.value.stage)
    && (r.status in {TaskSucceeded, TaskFailed} ==> r' == r)
  }

  ghost predicate OnlyForward(s: Store, s': Store, id: string)
    requires id in s.tasks
  {
    id in s'.tasks && RowForward(s.tasks[id], s'.tasks[id])
  }

  // One row is rewritten, forward.
  lemma PutMovesForward(s: Store, id: string, r: Task, t: Tally, k: string)
    requires k in s.tasks
    requires k == id ==> RowForward(s.tasks[id], r)
    ensures OnlyForward(s, Put(s, id, r, t), k)
  {
  }

  // The row of a task that is running ends, and the other rows stay.
  lemma EndMovesForward(s: Store, s': Store, id: string, k: string)
    requires k in s.tasks && id in s.tasks && s.tasks[id].status == TaskRunning
    requires s'.tasks == s.tasks[id := Ended(s.tasks[id], TaskSucceeded)]
    ensures OnlyForward(s, s', k)
  {
  }

  lemma SaveParsedMovesForward(cfg: Config, s: Store, job: Job, content: string, runId: string, id: string)
    requires id in s.tasks
    ensures OnlyForward(s, CommitSaveParsed(cfg, s, job, content, runId), id)
  {
    if CanSaveParsed(cfg, s, job, content) && runId !in s.runs {
      EndMovesForward(s, CommitSaveParsed(cfg, s, job, content, runId), job.id, id);
    }
  }

  lemma SaveEmbeddingsMovesForward(cfg: Config, s: Store, job: Job, chunks: seq<KnowledgeChunk>, id: string)
    requires id in s.tasks
    ensures OnlyForward(s, CommitSaveEmbeddings(cfg, s, job, chunks), id)
  {
    if CanSaveEmbeddings(cfg, s, job) {
      EndMovesForward(s, CommitSaveEmbeddings(cfg, s, job, chunks), job.id, id);
    }
  }

  lemma ContentStepMovesForward(cfg: Config, s: Store, a: Action, id: string)
    requires id in s.tasks && IsContentStep(a)
    ensures OnlyForward(s, Step(cfg, s, a), id)
  {
    if Allowed(cfg, s, a) {
      match a
      case SaveParsed(token, content, runId) => SaveParsedMovesForward(cfg, s, s.jobs[token], content, runId, id);
      case SaveEmbeddings(token) => SaveEmbeddingsMovesForward(cfg, s, s.jobs[token], Chunks(s.loaded[token]), id);
      case LoadApproved(_) =>
    }
  }

  lemma SubmitMovesForward(cfg: Config, s: Store, token: nat, parserJobId: string, retryAt: int, id: string)
    requires QueueOk(cfg, s) && id in s.tasks && token in s.jobs && s.jobs[token].payload.stage == OcrPending
    ensures OnlyForward(s, CommitSubmit(s, s.jobs[token], parserJobId, retryAt), id)
  {
    var job := s.jobs[token];
    if Current(s, job) {
      JobMatchesRow(cfg, s, token);
      PutMovesForward(s, job.id, Requeued(s.tasks[job.id], SubmittedPayload(job.payload, parserJobId, s.now), retryAt),
                      SubmitTally(TallyOf(s, job.id)), id);
    }
  }

  lemma DeferMovesForward(cfg: Config, s: Store, token: nat, retryAt: int, id: string)
    requires QueueOk(cfg, s) && id in s.tasks && token in s.jobs && s.jobs[token].payload.stage == OcrProcessing
    ensures OnlyForward(s, CommitDefer(s, s.jobs[token], retryAt), id)
  {
    var job := s.jobs[token];
    if Current(s, job) {
      JobMatchesRow(cfg, s, token);
      PutMovesForward(s, job.id, Requeued(s.tasks[job.id], DeferredPayload(job.payload), retryAt),
                      PollTally(TallyOf(s, job.id)), id);
    }
  }

  lemma RequeueMovesForward(cfg: Config, s: Store, a: Action, id: string)
    requires QueueOk(cfg, s) && id in s.tasks && (a.Submit? || a.Defer?)
    ensures OnlyForward(s, Step(cfg, s, a), id)
  {
    if Allowed(cfg, s, a) {
      match a
      case Submit(token, parserJobId, retryAt) => SubmitMovesForward(cfg, s, token, parserJobId, retryAt, id);
      case Defer(token, retryAt) => DeferMovesForward(cfg, s, token, retryAt, id);
    }
  }

  lemma FailMovesForward(s: Store, job: Job, retryable: bool, retryAt: int, id: string)
    requires id in s.tasks
    ensures OnlyForward(s, CommitFail(s, job, retryable, retryAt), id)
  {
    if Current(s, job) {
      var terminal := Terminal(job.attempts, job.maxAttempts, retryable);
      PutMovesForward(s, job.id, FailedTask(s.tasks[job.id], terminal, retryAt),
                      FailTally(TallyOf(s, job.id), terminal), id);
    }
  }

  lemma RenewMovesForward(s: Store, job: Job, id: string)
    requires id in s.tasks
    ensures OnlyForward(s, CommitRenew(s, job), id)
  {
    if Current(s, job) {
      PutMovesForward(s, job.id, s.tasks[job.id].(lockedAt := Some(s.now)), TallyOf(s, job.id), id);
    }
  }

  lemma RequireReviewMovesForward(s: Store, job: Job, id: string)
    requires id in s.tasks
    ensures OnlyForward(s, CommitRequireReview(s, job), id)
  {
    if Current(s, job) {
      PutMovesForward(s, job.id, Ended(s.tasks[job.id], TaskSucceeded), EndTally(TallyOf(s, job.id)), id);
    }
  }

  lemma HolderStepMovesForward(cfg: Config, s: Store, a: Action, id: string)
    requires id in s.tasks && (a.Renew? || a.Fail? || a.RequireReview?)
    ensures OnlyForward(s, Step(cfg, s, a), id)
  {
    if Allowed(cfg, s, a) {
      match a
      case Renew(token) => RenewMovesForward(s, s.jobs[token], id);
      case RequireReview(token) => RequireReviewMovesForward(s, s.jobs[token], id);
      case Fail(token, retryable, retryAt) => FailMovesForward(s, s.jobs[token], retryable, retryAt, id);
    }
  }

  lemma ClaimedMovesForward(r: Task, now: int, worker: string, token: nat)
    requires Claimable(r, now)
    ensures RowForward(r, Claimed(r, now, worker, token))
  {
  }

  lemma CommitClaimMovesForward(s: Store, id: string, worker: string, token: nat, k: string)
    requires k in s.tasks
    ensures OnlyForward(s, CommitClaim(s, id, worker, token), k)
  {
    if token !in s.issued && id in s.tasks && Claimable(s.tasks[id], s.now) {
      var r := Claimed(s.tasks[id], s.now, worker, token);
      ClaimedMovesForward(s.tasks[id], s.now, worker, token);
      PutMovesForward(Issue(s, token, HandedOut(id, r, worker, token)), id, r,
                      ClaimTally(s.tasks[id], TallyOf(s, id)), k);
    }
  }

  lemma ClaimMovesForward(cfg: Config, s: Store, a: Action, id: string)
    requires QueueOk(cfg, s) && id in s.tasks && (a.Claim? || a.RejectMalformed? || a.Enqueue?)
    ensures OnlyForward(s, Step(cfg, s, a), id)
  {
    if Step(cfg, s, a) != s {
      if a.Claim? {
        CommitClaimMovesForward(s, a.id, a.worker, a.token, id);
      } else if a.RejectMalformed? {
        RowIsAccountedFor(cfg, s, a.id);
        PutMovesForward(s, a.id, Ended(s.tasks[a.id], TaskFailed), EndTally(TallyOf(s, a.id)), id);
      }
    }
  }

  lemma StepMovesForward(cfg: Config, s: Store, a: Action, id: string)
    requires QueueOk(cfg, s) && id in s.tasks
    ensures OnlyForward(s, Step(cfg, s, a), id)
  {
    if IsContentStep(a) {
      ContentStepMovesForward(cfg, s, a, id);
    } else if IsOutsideStep(a) {
      OutsideStepKeepsQueue(cfg, s, a);
    } else if a.Submit? || a.Defer? {
      RequeueMovesForward(cfg, s, a, id);
    } else if a.Renew? || a.Fail? || a.RequireReview? {
      HolderStepMovesForward(cfg, s, a, id);
    } else {
      ClaimMovesForward(cfg, s, a, id);
    }
  }

  // Over any run: the stage leaves ocr_pending at most once and changes at no
  // other time, and a task that has ended is never touched again.
  lemma {:induction false} RunMovesForward(cfg: Config, s: Store, actions: seq<Action>, id: string)
    requires QueueOk(cfg, s) && id in s.tasks
    ensures OnlyForward(s, Run(cfg, s, actions), id)
  {
    if actions != [] {
      RunMovesForward(cfg, s, actions[..|actions| - 1], id);
      RunKeeps(cfg, s, actions[..|actions| - 1]);
      StepMovesForward(cfg, Run(cfg, s, actions[..|actions| - 1]), actions[|actions| - 1], id);
    }
  }
}
