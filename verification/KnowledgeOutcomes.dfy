// What the statements and transactions of the knowledge worker leave behind,
// column by column and over whole runs (src/worker/postgres-repository.ts).
module KnowledgeOutcomes {
  import opened Options
  import opened KnowledgeTypes
  import opened KnowledgeSteps
  import opened KnowledgeProofs
  import opened KnowledgeFencing
  import opened KnowledgePublication
  import opened KnowledgeTimeouts
  import opened ReviewedChunks
  import opened Sequences
  import Text

  // ----- the task

  ghost predicate IsUnlocked(r: Task, r': Task) {
    && r'.lockedAt.None? && r'.lockedBy.None? && r'.leaseToken.None?
    && r'.priority == r.priority && r'.maxAttempts == r.maxAttempts && r'.createdAt == r.createdAt
  }

  // Back in the queue until retryAt with another payload, at no cost in attempts.
  ghost predicate IsRequeued(r: Task, r': Task, payload: Payload, retryAt: int) {
    && r'.status == TaskQueued && r'.runAt == retryAt && r'.attempts == r.attempts - 1
    && r'.payload == Some(payload)
  }

  // What a holder's statement makes of its task.
  ghost predicate IsOutcome(a: Action, p: Payload, r: Task, r': Task, now: int) {
    && IsUnlocked(r, r')
    && match a
       case Submit(_, parserJobId, retryAt) =>
         IsRequeued(r, r', p.(stage := OcrProcessing, parserJobId := Some(parserJobId),
                              submittedAt := Some(now), pollCount := 0), retryAt)
       case Defer(_, retryAt) =>
         IsRequeued(r, r', p.(stage := OcrProcessing, pollCount := p.pollCount + 1), retryAt)
       case Fail(_, retryable, retryAt) =>
         && r'.attempts == r.attempts && r'.payload == r.payload
         && if r.attempts >= r.maxAttempts || !retryable
            then r'.status == TaskFailed
            else r'.status == TaskQueued && r'.runAt == retryAt
       case _ => r'.status == TaskSucceeded && r'.attempts == r.attempts && r'.payload == r.payload
  }

  ghost predicate IsSnapshot(s: Store, token: nat) {
    && HoldsToken(s, token)
    && var job := s.jobs[token];
       && job.leaseToken == token
       && job.attempts == s.tasks[job.id].attempts && job.maxAttempts == s.tasks[job.id].maxAttempts
       && s.tasks[job.id].payload == Some(job.payload) && job.attempts >= 1
  }

  lemma HeldIsSnapshot(cfg: Config, s: Store, token: nat)
    requires QueueOk(cfg, s) && HoldsToken(s, token)
    ensures IsSnapshot(s, token)
  {
    JobMatchesRow(cfg, s, token);
    RowIsAccountedFor(cfg, s, s.jobs[token].id);
  }

  // The holder's row and no other.
  ghost predicate HasOutcome(s: Store, a: Action, s': Store)
    requires Releases(a)
  {
    && HoldsToken(s, a.token)
    && var job := s.jobs[a.token];
       && job.id in s'.tasks && s'.tasks == s.tasks[job.id := s'.tasks[job.id]]
       && s.tasks[job.id].payload == Some(job.payload)
       && IsOutcome(a, job.payload, s.tasks[job.id], s'.tasks[job.id], s.now)
  }

  lemma RequeueHasOutcome(cfg: Config, s: Store, a: Action)
    requires (a.Submit? || a.Defer?) && IsSnapshot(s, a.token) && Step(cfg, s, a) != s
    ensures HasOutcome(s, a, Step(cfg, s, a))
  {
  }

  lemma EndHasOutcome(cfg: Config, s: Store, a: Action)
    requires (a.RequireReview? || a.Fail?) && IsSnapshot(s, a.token) && Step(cfg, s, a) != s
    ensures HasOutcome(s, a, Step(cfg, s, a))
  {
  }

  lemma ContentHasOutcome(cfg: Config, s: Store, a: Action)
    requires (a.SaveParsed? || a.SaveEmbeddings?) && IsSnapshot(s, a.token) && Step(cfg, s, a) != s
    ensures HasOutcome(s, a, Step(cfg, s, a))
  {
    hide Step;
    ContentStepRewritesRow(cfg, s, a);
  }

  lemma StepHasOutcome(cfg: Config, s: Store, a: Action)
    requires QueueOk(cfg, s) && Releases(a) && Step(cfg, s, a) != s
    ensures HasOutcome(s, a, Step(cfg, s, a))
  {
    hide Step, HasOutcome, QueueOk, IsSnapshot, HoldsToken;
    EffectiveStepReleases(cfg, s, a);
    HeldIsSnapshot(cfg, s, a.token);
    if a.Submit? || a.Defer? {
      RequeueHasOutcome(cfg, s, a);
    } else if a.RequireReview? || a.Fail? {
      EndHasOutcome(cfg, s, a);
    } else {
      ContentHasOutcome(cfg, s, a);
    }
  }

  // In every run, what a releasing statement that took effect made of its task.
  lemma OutcomeOfStep(cfg: Config, s: Store, actions: seq<Action>, i: nat)
    requires Initial(cfg, s) && i < |actions| && Releases(actions[i])
    requires Run(cfg, s, actions[..i + 1]) != Run(cfg, s, actions[..i])
    ensures HasOutcome(Run(cfg, s, actions[..i]), actions[i], Run(cfg, s, actions[..i + 1]))
  {
    hide Run, Step, HasOutcome, QueueOk;
    ReachableIsOk(cfg, s, actions[..i]);
    RunPrefix(cfg, s, actions, i);
    StepHasOutcome(cfg, Run(cfg, s, actions[..i]), actions[i]);
  }

  // ----- a task that was put back waits until it is due

  ghost predicate WaitsUntil(s: Store, id: string, retryAt: int) {
    && id in s.tasks && s.tasks[id].status == TaskQueued && s.tasks[id].leaseToken.None?
    && s.tasks[id].runAt == retryAt
  }

  lemma OwnStepLeavesWaiting(cfg: Config, s: Store, a: Action, id: string, retryAt: int)
    requires WaitsUntil(s, id, retryAt) && s.now < retryAt && RowOf(s, a) == id
    requires a.Claim? || a.RejectMalformed? || a.Enqueue? || IsHolderStep(a)
    ensures Step(cfg, s, a) == s
  {
    if IsHolderStep(a) {
      StaleStepChangesNothing(cfg, s, a);
    }
  }

  lemma StepLeavesWaiting(cfg: Config, s: Store, a: Action, id: string, retryAt: int)
    requires QueueOk(cfg, s) && WaitsUntil(s, id, retryAt) && s.now < retryAt
    ensures WaitsUntil(Step(cfg, s, a), id, retryAt)
  {
    hide Step, QueueOk;
    if IsOutsideStep(a) {
      OutsideStepKeepsQueue(cfg, s, a);
    } else if a.LoadApproved? {
      LoadKeepsTasks(cfg, s, a);
    } else if RowOf(s, a) == id {
      OwnStepLeavesWaiting(cfg, s, a, id, retryAt);
    } else {
      StepIsLeaseStep(cfg, s, a);
      StepMovesForward(cfg, s, a, id);
    }
  }

  lemma LoadKeepsTasks(cfg: Config, s: Store, a: Action)
    requires a.LoadApproved?
    ensures Step(cfg, s, a).tasks == s.tasks
  {
  }

  lemma {:induction false} WaitsOn(cfg: Config, s: Store, actions: seq<Action>, i: nat, k: nat, id: string,
                                   retryAt: int)
    requires Initial(cfg, s) && i <= k <= |actions|
    requires WaitsUntil(Run(cfg, s, actions[..i]), id, retryAt) && Run(cfg, s, actions[..k]).now < retryAt
    ensures WaitsUntil(Run(cfg, s, actions[..k]), id, retryAt)
  {
    hide Step, Run, WaitsUntil, QueueOk;
    if i < k {
      RunClock(cfg, s, actions, k - 1, k);
      WaitsOn(cfg, s, actions, i, k - 1, id, retryAt);
      ReachableIsOk(cfg, s, actions[..k - 1]);
      RunPrefix(cfg, s, actions, k - 1);
      StepLeavesWaiting(cfg, Run(cfg, s, actions[..k - 1]), actions[k - 1], id, retryAt);
    }
  }

  // In every run: after a submission, a deferral or a failure that is retried,
  // the task is not claimed before the time it was put back for.
  lemma NotClaimedBeforeDue(cfg: Config, s: Store, actions: seq<Action>, i: nat, k: nat, worker: string, token: nat,
                            id: string, retryAt: int)
    requires Initial(cfg, s) && i < k <= |actions| && Releases(actions[i])
    requires Run(cfg, s, actions[..i + 1]) != Run(cfg, s, actions[..i])
    requires actions[i].token in Run(cfg, s, actions[..i]).jobs
             && Run(cfg, s, actions[..i]).jobs[actions[i].token].id == id
    requires match actions[i]
             case Submit(_, _, at) => at == retryAt
             case Defer(_, at) => at == retryAt
             case Fail(_, _, at) => at == retryAt && id in Run(cfg, s, actions[..i + 1]).tasks
                                    && Run(cfg, s, actions[..i + 1]).tasks[id].status != TaskFailed
             case _ => false
    requires Run(cfg, s, actions[..k]).now < retryAt
    ensures var m := Run(cfg, s, actions[..k]); Step(cfg, m, Claim(id, worker, token)) == m
  {
    hide Run, Step, QueueOk, Initial;
    OutcomeOfStep(cfg, s, actions, i);
    WaitsOn(cfg, s, actions, i + 1, k, id, retryAt);
    OwnStepLeavesWaiting(cfg, Run(cfg, s, actions[..k]), Claim(id, worker, token), id, retryAt);
  }

  // A task whose payload cannot be read fails for good, if the claim that found it so is still the latest.
  lemma MalformedFailsIff(cfg: Config, s: Store, id: string, worker: string, token: nat)
    requires QueueOk(cfg, s) && id in s.tasks && s.tasks[id].payload.None?
    ensures var r, s' := s.tasks[id], Step(cfg, s, RejectMalformed(id, worker, token));
            if r.lockedBy == Some(worker) && r.leaseToken == Some(token)
            then && s'.tasks == s.tasks[id := s'.tasks[id]] && s'.tasks[id].status == TaskFailed
                 && IsUnlocked(r, s'.tasks[id]) && r.status == TaskRunning
            else s' == s
  {
    hide Step, QueueOk, AccountsFor;
    RowIsAccountedFor(cfg, s, id);
    StepOfReject(cfg, s, id, worker, token);
  }

  lemma StepOfReject(cfg: Config, s: Store, id: string, worker: string, token: nat)
    requires id in s.tasks && s.tasks[id].payload.None?
    ensures Step(cfg, s, RejectMalformed(id, worker, token)) == CommitRejectMalformed(s, id, worker, token)
  {
  }

  // ----- content put up for review

  // The version as it is put up for review: the new content under its own
  // hash, its sections, and no approval; its old chunks stay where they are.
  ghost predicate IsPutUp(cfg: Config, v: Version, v': Version, versionId: string, content: string) {
    var hash := cfg.sha256(content);
    && v'.content == content && v'.contentHash == Some(hash) && v'.status == InReview
    && !v'.reviewApproved && v'.reviewedHash.None?
    && v'.documentId == v.documentId && v'.fullText == v.fullText && v'.citation == v.citation
    && v'.chunks == v.chunks
    && |v'.sections| == |cfg.sectionTexts(content, v.citation)| > 0
    && forall i | 0 <= i < |v'.sections| ::
         v'.sections[i] == Section(versionId, hash, i, cfg.sectionTexts(content, v.citation)[i])
  }

  // A first review of this version and hash waits, and nothing else about the runs is new.
  ghost predicate IsReviewQueued(s: Store, s': Store, versionId: string, hash: string) {
    && (forall id | id in s.runs :: id in s'.runs && s'.runs[id] == s.runs[id])
    && (exists id :: id in s'.runs && IsFirstReview(s'.runs[id], versionId, hash))
    && (forall id | id in s'.runs && id !in s.runs ::
          && IsFirstReview(s'.runs[id], versionId, hash)
          && !s'.runs[id].completed && !s'.runs[id].approved
          && forall k | k in s.runs :: !IsFirstReview(s.runs[k], versionId, hash))
  }

  ghost predicate IsFirstReview(run: ReviewRun, versionId: string, hash: string) {
    && run.inputVersionId == versionId && run.inputContentHash == hash
    && run.phase == InitialPhase && run.promptVersion == "codex_automation_v1"
  }

  ghost predicate PutsUp(cfg: Config, s: Store, s': Store, p: Payload, content: string) {
    && p.versionId in s.versions && p.versionId in s'.versions
    && s'.versions == s.versions[p.versionId := s'.versions[p.versionId]]
    && IsPutUp(cfg, s.versions[p.versionId], s'.versions[p.versionId], p.versionId, content)
    && p.documentId in s.documents && s.documents[p.documentId].currentVersionId == p.versionId
    && s'.documents == s.documents[p.documentId := s.documents[p.documentId].(status := InReview)]
    && IsReviewQueued(s, s', p.versionId, cfg.sha256(content))
    && s'.publications == s.publications
  }

  lemma SaveParsedPutsUp(cfg: Config, s: Store, job: Job, content: string, runId: string)
    requires CommitSaveParsed(cfg, s, job, content, runId) != s
    ensures PutsUp(cfg, s, CommitSaveParsed(cfg, s, job, content, runId), job.payload, content)
  {
    var s' := CommitSaveParsed(cfg, s, job, content, runId);
    var p, hash := job.payload, cfg.sha256(content);
    assert IsPutUp(cfg, s.versions[p.versionId], s'.versions[p.versionId], p.versionId, content);
    hide IsPutUp;
    ReviewIsQueued(s, s', runId, p.versionId, hash);
  }

  lemma ReviewIsQueued(s: Store, s': Store, runId: string, versionId: string, hash: string)
    requires runId !in s.runs
    requires s'.runs == if ReviewQueued(s, versionId, hash) then s.runs
                        else s.runs[runId := QueuedRun(runId, versionId, hash)]
    ensures IsReviewQueued(s, s', versionId, hash)
  {
    if ReviewQueued(s, versionId, hash) {
      var id :| id in s.runs && IsQueuedFor(s.runs[id], versionId, hash);
      assert id in s'.runs && IsFirstReview(s'.runs[id], versionId, hash);
    } else {
      assert runId in s'.runs && IsFirstReview(s'.runs[runId], versionId, hash);
    }
  }

  lemma StepOfSaveParsed(cfg: Config, s: Store, token: nat, content: string, runId: string)
    requires Step(cfg, s, SaveParsed(token, content, runId)) != s
    ensures token in s.jobs && Text.Trim(content) != ""
    ensures Step(cfg, s, SaveParsed(token, content, runId)) == CommitSaveParsed(cfg, s, s.jobs[token], content, runId)
  {
  }

  // Every transaction of the kind that takes effect writes all of it.
  lemma ParsedIsPutUp(cfg: Config, s: Store, token: nat, content: string, runId: string)
    requires Step(cfg, s, SaveParsed(token, content, runId)) != s
    ensures token in s.jobs && Text.Trim(content) != ""
    ensures PutsUp(cfg, s, Step(cfg, s, SaveParsed(token, content, runId)), s.jobs[token].payload, content)
  {
    hide Step, PutsUp;
    StepOfSaveParsed(cfg, s, token, content, runId);
    SaveParsedPutsUp(cfg, s, s.jobs[token], content, runId);
  }

  // ----- embeddings

  // The version as it is embedded: its content and sections as they were, the
  // chunks of what was loaded, the approval of this very hash.
  ghost predicate IsEmbedded(cfg: Config, v: Version, v': Version, hash: string, loaded: string) {
    && v'.content == v.content && v'.sections == v.sections
    && v'.documentId == v.documentId && v'.fullText == v.fullText && v'.citation == v.citation
    && v'.chunks == ChunksOf(2400, 200, loaded)
    && v.contentHash == Some(hash) && v'.contentHash == Some(hash)
    && v'.reviewApproved && v'.reviewedHash == Some(hash)
    && v.status == InReview && v'.status in {Published, InReview}
  }

  ghost predicate Embeds(cfg: Config, s: Store, s': Store, p: Payload, loaded: string) {
    && p.review.Some? && p.versionId in s.versions && p.versionId in s'.versions
    && s'.versions == s.versions[p.versionId := s'.versions[p.versionId]]
    && IsEmbedded(cfg, s.versions[p.versionId], s'.versions[p.versionId], p.review.value.contentHash, loaded)
    && p.documentId in s.documents && s.documents[p.documentId].currentVersionId == p.versionId
    && s.documents[p.documentId].status == InReview
    && s'.documents == s.documents[p.documentId :=
         s.documents[p.documentId].(status := s'.versions[p.versionId].status)]
    && s'.runs == s.runs && s'.sources == s.sources
    && (p.versionId in s'.publications <==> s'.versions[p.versionId].status == Published)
  }

  lemma SaveEmbeddingsEmbeds(cfg: Config, s: Store, job: Job, loaded: string)
    requires CommitSaveEmbeddings(cfg, s, job, Chunks(loaded)) != s
    ensures Embeds(cfg, s, CommitSaveEmbeddings(cfg, s, job, Chunks(loaded)), job.payload, loaded)
  {
  }

  lemma StepOfSaveEmbeddings(cfg: Config, s: Store, token: nat)
    requires Step(cfg, s, SaveEmbeddings(token)) != s
    ensures token in s.jobs && token in s.loaded && CanSaveEmbeddings(cfg, s, s.jobs[token])
    ensures Step(cfg, s, SaveEmbeddings(token))
         == CommitSaveEmbeddings(cfg, s, s.jobs[token], Chunks(s.loaded[token]))
  {
  }

  // In every run: a transaction that saves embeddings and takes effect,
  // published or not, gives the version the chunks of its present content.
  lemma SavedIsEmbedded(cfg: Config, s: Store, actions: seq<Action>, i: nat)
    requires HashIsInjective(cfg) && Initial(cfg, s) && i < |actions| && actions[i].SaveEmbeddings?
    requires Run(cfg, s, actions[..i + 1]) != Run(cfg, s, actions[..i])
    ensures var m, m', token := Run(cfg, s, actions[..i]), Run(cfg, s, actions[..i + 1]), actions[i].token;
            && token in m.jobs
            && var p := m.jobs[token].payload;
               && p.versionId in m.versions
               && Embeds(cfg, m, m', p, m.versions[p.versionId].content)
               && p.review.value.contentHash == cfg.sha256(m.versions[p.versionId].content)
               && m'.versions[p.versionId].chunks != []
  {
    hide Run, Step, Embeds, QueueOk, CanSaveEmbeddings;
    var m, token := Run(cfg, s, actions[..i]), actions[i].token;
    InitialIsOk(cfg, s);
    InitialContentIsOk(cfg, s);
    RunKeepsContent(cfg, s, actions[..i]);
    RunPrefix(cfg, s, actions, i);
    StepOfSaveEmbeddings(cfg, m, token);
    LoadedIsCurrent(cfg, m, token);
    SaveEmbeddingsEmbeds(cfg, m, m.jobs[token], m.loaded[token]);
    LoadedHasChunks(cfg, m, token, Run(cfg, s, actions[..i + 1]));
  }

  lemma LoadedHasChunks(cfg: Config, s: Store, token: nat, s': Store)
    requires ContentOk(cfg, s) && token in s.loaded && token in s.jobs
    requires Embeds(cfg, s, s', s.jobs[token].payload, s.loaded[token])
    ensures var p := s.jobs[token].payload;
            p.review.value.contentHash == cfg.sha256(s.loaded[token]) && s'.versions[p.versionId].chunks != []
  {
    assert MayEmbed(cfg, s.jobs[token].payload, s.loaded[token]);
  }

  // Whoever writes the version's content: the rest of the system, or the parser's output.
  ghost predicate RewritesContent(s: Store, a: Action, versionId: string) {
    || (a.PutVersion? && a.versionId == versionId)
    || (a.SaveParsed? && a.token in s.jobs && s.jobs[a.token].payload.versionId == versionId)
  }

  ghost predicate IsChunked(s: Store, versionId: string, content: string) {
    && versionId in s.versions && s.versions[versionId].content == content
    && s.versions[versionId].chunks == ChunksOf(2400, 200, content)
  }

  lemma SaveKeepsChunked(cfg: Config, s: Store, token: nat, versionId: string, content: string)
    requires HashIsInjective(cfg) && ContentOk(cfg, s) && IsChunked(s, versionId, content)
    requires Step(cfg, s, SaveEmbeddings(token)) != s
    ensures IsChunked(Step(cfg, s, SaveEmbeddings(token)), versionId, content)
  {
    hide Step, CanSaveEmbeddings, ContentOk;
    StepOfSaveEmbeddings(cfg, s, token);
    LoadedIsCurrent(cfg, s, token);
    SaveEmbeddingsEmbeds(cfg, s, s.jobs[token], s.loaded[token]);
  }

  lemma ParseKeepsChunked(cfg: Config, s: Store, a: Action, versionId: string, content: string)
    requires IsChunked(s, versionId, content) && a.SaveParsed? && !RewritesContent(s, a, versionId)
    ensures IsChunked(Step(cfg, s, a), versionId, content)
  {
    if Step(cfg, s, a) != s {
      hide Step;
      ParsedIsPutUp(cfg, s, a.token, a.content, a.runId);
    }
  }

  lemma OthersKeepChunked(cfg: Config, s: Store, a: Action, versionId: string, content: string)
    requires IsChunked(s, versionId, content) && (a.LoadApproved? || a.PutVersion?)
    requires !RewritesContent(s, a, versionId)
    ensures IsChunked(Step(cfg, s, a), versionId, content)
  {
    hide ChunksOf;
  }

  lemma StepKeepsChunked(cfg: Config, s: Store, a: Action, versionId: string, content: string)
    requires HashIsInjective(cfg) && ContentOk(cfg, s) && IsChunked(s, versionId, content)
    requires !RewritesContent(s, a, versionId)
    ensures IsChunked(Step(cfg, s, a), versionId, content)
  {
    hide Step, ContentOk;
    if a.SaveEmbeddings? {
      if Step(cfg, s, a) != s {
        SaveKeepsChunked(cfg, s, a.token, versionId, content);
      }
    } else if a.SaveParsed? {
      ParseKeepsChunked(cfg, s, a, versionId, content);
    } else if a.LoadApproved? || a.PutVersion? {
      OthersKeepChunked(cfg, s, a, versionId, content);
    } else {
      QueueStepKeepsContent(cfg, s, a);
    }
  }

  lemma {:induction false} ChunkedUntil(cfg: Config, s: Store, actions: seq<Action>, i: nat, k: nat,
                                        versionId: string, content: string)
    requires HashIsInjective(cfg) && Initial(cfg, s) && i <= k <= |actions|
    requires IsChunked(Run(cfg, s, actions[..i]), versionId, content)
    requires forall j | i <= j < k :: !RewritesContent(Run(cfg, s, actions[..j]), actions[j], versionId)
    ensures IsChunked(Run(cfg, s, actions[..k]), versionId, content)
  {
    hide Run, Step, QueueOk, ContentOk, IsChunked, RewritesContent;
    if i < k {
      ChunkedUntil(cfg, s, actions, i, k - 1, versionId, content);
      InitialIsOk(cfg, s);
      InitialContentIsOk(cfg, s);
      RunKeepsContent(cfg, s, actions[..k - 1]);
      RunPrefix(cfg, s, actions, k - 1);
      StepKeepsChunked(cfg, Run(cfg, s, actions[..k - 1]), actions[k - 1], versionId, content);
    }
  }

  // In every run: a version whose embeddings were saved, published or not, has
  // the chunks of its present content for as long as nobody writes it anew.
  lemma EmbeddedStaysChunked(cfg: Config, s: Store, actions: seq<Action>, i: nat, k: nat, versionId: string)
    requires HashIsInjective(cfg) && Initial(cfg, s) && i < k <= |actions| && actions[i].SaveEmbeddings?
    requires Run(cfg, s, actions[..i + 1]) != Run(cfg, s, actions[..i])
    requires actions[i].token in Run(cfg, s, actions[..i]).jobs
             && Run(cfg, s, actions[..i]).jobs[actions[i].token].payload.versionId == versionId
    requires forall j | i < j < k :: !RewritesContent(Run(cfg, s, actions[..j]), actions[j], versionId)
    ensures versionId in Run(cfg, s, actions[..i]).versions && versionId in Run(cfg, s, actions[..k]).versions
    ensures var v := Run(cfg, s, actions[..k]).versions[versionId];
            && v.content == Run(cfg, s, actions[..i]).versions[versionId].content
            && v.chunks == ChunksOf(2400, 200, v.content)
  {
    hide Run, Step, RewritesContent;
    SavedIsEmbedded(cfg, s, actions, i);
    ChunkedUntil(cfg, s, actions, i + 1, k, versionId, Run(cfg, s, actions[..i]).versions[versionId].content);
  }

  // ----- when these transactions take effect

  ghost predicate IsUnderReview(s: Store, p: Payload) {
    && p.versionId in s.versions && s.versions[p.versionId].documentId == p.documentId
    && p.documentId in s.documents && s.documents[p.documentId].currentVersionId == p.versionId
  }

  ghost predicate IsGoverned(s: Store, p: Payload)
    requires p.documentId in s.documents
  {
    var sourceId := s.documents[p.documentId].sourceId;
    sourceId.Some? && sourceId.value in s.sources && s.sources[sourceId.value].tierKnown
  }

  // Parsed content is saved exactly under a current lease, for the current
  // version of its document, if the source it may have allows it and there is
  // anything to review.
  lemma SaveParsedTakesEffectIff(cfg: Config, s: Store, token: nat, content: string, runId: string)
    requires token in s.jobs && runId !in s.runs
    ensures var p := s.jobs[token].payload;
            Step(cfg, s, SaveParsed(token, content, runId)) != s <==>
              && HoldsToken(s, token) && p.stage == OcrProcessing && Text.Trim(content) != ""
              && IsUnderReview(s, p)
              && (IsGoverned(s, p) ==>
                    cfg.isAuthorized(s.sources[s.documents[p.documentId].sourceId.value].facts,
                                     s.versions[p.versionId].citation))
              && cfg.sectionTexts(content, s.versions[p.versionId].citation) != []
  {
  }

  // An identified reviewer, a date, and the hash in 64 lower-case hexadecimal digits.
  ghost predicate HasValidReview(cfg: Config, p: Payload) {
    && p.review.Some? && p.review.value.approved
    && Text.Trim(p.review.value.reviewedBy) != "" && cfg.isDate(p.review.value.reviewedAt)
    && |p.review.value.contentHash| == 64
    && forall i | 0 <= i < 64 :: p.review.value.contentHash[i] in "0123456789abcdef"
  }

  lemma HexDigits(c: char)
    ensures c in "0123456789abcdef" <==> '0' <= c <= '9' || 'a' <= c <= 'f'
  {
    if '0' <= c <= '9' {
      assert "0123456789abcdef"[c as int - '0' as int] == c;
    } else if 'a' <= c <= 'f' {
      assert "0123456789abcdef"[10 + (c as int - 'a' as int)] == c;
    }
  }

  lemma ReviewedIff(cfg: Config, p: Payload)
    ensures IsReviewed(cfg, p) <==> HasValidReview(cfg, p)
  {
    if p.review.Some? {
      var hash := p.review.value.contentHash;
      forall i | 0 <= i < |hash|
        ensures hash[i] in "0123456789abcdef" <==> '0' <= hash[i] <= '9' || 'a' <= hash[i] <= 'f'
      {
        HexDigits(hash[i]);
      }
      if IsReviewed(cfg, p) {
        assert forall i | 0 <= i < |hash| :: hash[i] in hash;
      }
    }
  }

  // Embeddings are saved exactly under a current lease, after a load under that
  // lease, with a valid review of the hash that the current version still has.
  lemma SaveEmbeddingsTakesEffectIff(cfg: Config, s: Store, token: nat)
    requires token in s.jobs
    ensures var p := s.jobs[token].payload;
            Step(cfg, s, SaveEmbeddings(token)) != s <==>
              && HoldsToken(s, token) && p.stage in {EmbeddingPending, EmbeddingProcessing} && token in s.loaded
              && HasValidReview(cfg, p) && IsUnderReview(s, p)
              && s.versions[p.versionId].status == InReview && s.documents[p.documentId].status == InReview
              && s.versions[p.versionId].contentHash == Some(p.review.value.contentHash)
  {
    ReviewedIff(cfg, s.jobs[token].payload);
    hide IsReviewed, HasValidReview, AutomationReady;
  }

  // ----- when a version is published

  lemma FilterPair(a: ReviewRun, b: ReviewRun, p: ReviewRun -> bool)
    ensures Filter([a, b], p) == (if p(a) then [a] else []) + (if p(b) then [b] else [])
    ensures Filter([a], p) == if p(a) then [a] else []
    ensures Filter([], p) == []
  {
    assert [a, b][..1] == [a] && [a][..0] == [];
    assert Filter([a], p) == Filter([], p) + if p(a) then [a] else [];
  }

  lemma PairIsReadyIff(cfg: Config, versionId: string, hash: string, a: ReviewRun, b: ReviewRun)
    ensures RunsAreReady(cfg, versionId, hash, [a, b])
       <==> && Vouches(cfg, a, versionId, hash) && Vouches(cfg, b, versionId, hash)
            && a.id != b.id && a.phase != b.phase
  {
    var isEligible := (run: ReviewRun) => IsEligible(cfg, run, versionId, hash);
    var isInitial := (run: ReviewRun) => run.phase == InitialPhase;
    var isVerify := (run: ReviewRun) => run.phase == VerifyPhase;
    FilterPair(a, b, isEligible);
    hide Filter;
    if isEligible(a) && isEligible(b) {
      assert Filter([a, b], isEligible) == [a, b];
      FilterPair(a, b, isInitial);
      FilterPair(a, b, isVerify);
    } else if isEligible(a) {
      assert Filter([a, b], isEligible) == [a];
      FilterPair(a, a, isInitial);
      FilterPair(a, a, isVerify);
    } else if isEligible(b) {
      assert Filter([a, b], isEligible) == [b];
      FilterPair(b, b, isInitial);
      FilterPair(b, b, isVerify);
    } else {
      assert Filter([a, b], isEligible) == [];
      FilterPair(a, b, isInitial);
    }
  }

  // A low-risk review of the policy that names two different runs, one initial
  // and one verifying, each of which vouches for this version and hash, and a
  // governed source with the rights and the evidence.
  ghost predicate MayPublish(cfg: Config, s: Store, p: Payload)
    requires p.versionId in s.versions && p.documentId in s.documents && p.review.Some?
  {
    var review, v := p.review.value, s.versions[p.versionId];
    && review.policyVersion == Some("codex_automation_v1") && review.risk == Some(LowRisk)
    && review.initialRunId.Some? && review.initialRunId.value != ""
    && review.verifyRunId.Some? && review.verifyRunId.value != ""
    && review.initialRunId.value != review.verifyRunId.value
    && IsGoverned(s, p)
    && (var facts := s.sources[s.documents[p.documentId].sourceId.value].facts;
        cfg.isAuthorized(facts, v.citation) && cfg.hasEvidence(facts, v.citation))
    && review.initialRunId.value in s.runs && review.verifyRunId.value in s.runs
    && var a, b := s.runs[review.initialRunId.value], s.runs[review.verifyRunId.value];
       && Vouches(cfg, a, p.versionId, review.contentHash) && Vouches(cfg, b, p.versionId, review.contentHash)
       && a.id != b.id && a.phase != b.phase
  }

  lemma AutomationReadyIff(cfg: Config, s: Store, p: Payload)
    requires IsUnderReview(s, p) && p.review.Some?
    requires s.versions[p.versionId].status == InReview && s.documents[p.documentId].status == InReview
    requires s.versions[p.versionId].contentHash == Some(p.review.value.contentHash)
    ensures AutomationReady(cfg, s, p).Some? <==> MayPublish(cfg, s, p)
  {
    hide RunsAreReady;
    var review := p.review.value;
    if && review.initialRunId.Some? && review.verifyRunId.Some?
       && review.initialRunId.value in s.runs && review.verifyRunId.value in s.runs {
      var a, b := s.runs[review.initialRunId.value], s.runs[review.verifyRunId.value];
      PairIsReadyIff(cfg, p.versionId, review.contentHash, a, b);
      assert [a, b][0] == a && [a, b][1] == b;
    }
  }

  // Saving the embeddings publishes the version exactly when it may be published.
  lemma PublishedIff(cfg: Config, s: Store, token: nat)
    requires token in s.jobs && Step(cfg, s, SaveEmbeddings(token)) != s
    ensures var p := s.jobs[token].payload;
            && p.versionId in s.versions && p.documentId in s.documents && p.review.Some?
            && p.versionId in Step(cfg, s, SaveEmbeddings(token)).versions
            && (Step(cfg, s, SaveEmbeddings(token)).versions[p.versionId].status == Published
                <==> MayPublish(cfg, s, p))
  {
    var p := s.jobs[token].payload;
    StepOfSaveEmbeddings(cfg, s, token);
    hide Step, MayPublish, AutomationReady;
    AutomationReadyIff(cfg, s, p);
  }
}
