// PostgresKnowledgeIngestionRepository (src/worker/postgres-repository.ts): one
// method per statement or transaction, each proved to be the step of the same name.
module KnowledgeRepository {
  import opened Options
  import opened KnowledgeTypes
  import opened KnowledgeSteps
  import opened Ordering
  import opened ReviewedChunks

  // What a holder's statement comes to; a refusal is an error that is no stale lease.
  datatype Outcome = Done | Stale | Refused

  // Due, and in line before every other row that is due and not skipped.
  ghost predicate IsFirstClaimable(rows: map<string, Task>, now: int, skipped: set<string>, id: string) {
    && id in rows && Claimable(rows[id], now)
    && forall other | other in rows && Claimable(rows[other], now) && other !in skipped ::
         GoesBefore(TaskPlace(rows[id]), TaskPlace(rows[other]))
  }

  class Repository {
    var now: int
    var tasks: map<string, Task>
    var versions: map<string, Version>
    var documents: map<string, Document>
    var sources: map<string, Source>
    var runs: map<string, ReviewRun>
    // history: what has been handed out, loaded and published; no column stores it
    var issued: set<nat>
    var jobs: map<nat, Job>
    var loaded: map<nat, string>
    var tallies: map<string, Tally>
    var publications: map<string, Publication>

    function State(): Store
      reads this
    {
      Store(now, tasks, versions, documents, sources, runs, issued, jobs, loaded, tallies, publications)
    }

    constructor (s: Store)
      ensures State() == s
    {
      now, tasks, versions, documents, sources, runs := s.now, s.tasks, s.versions, s.documents, s.sources, s.runs;
      issued, jobs, loaded, tallies, publications := s.issued, s.jobs, s.loaded, s.tallies, s.publications;
    }

    method Become(s: Store)
      modifies this
      ensures State() == s
    {
      now := s.now;
      tasks := s.tasks;
      versions := s.versions;
      documents := s.documents;
      sources := s.sources;
      runs := s.runs;
      issued := s.issued;
      jobs := s.jobs;
      loaded := s.loaded;
      tallies := s.tallies;
      publications := s.publications;
    }

    // Whatever the rest of the system does in the meantime.
    method Elapse(cfg: Config, actions: seq<Action>)
      modifies this
      ensures State() == Run(cfg, old(State()), actions)
    {
      Become(Run(cfg, State(), actions));
    }

    // ----- claims

    // The first row in line of those that are due; rows locked by other transactions are skipped.
    method FirstClaimable(skipped: set<string>) returns (found: Option<string>)
      ensures found.None? ==> forall k | k in tasks && Claimable(tasks[k], now) :: k in skipped
      ensures found.Some? ==> found.value !in skipped && IsFirstClaimable(tasks, now, skipped, found.value)
    {
      var candidates := map k | k in tasks && Claimable(tasks[k], now) && k !in skipped :: TaskPlace(tasks[k]);
      if candidates == map[] {
        assert forall k | k in tasks && Claimable(tasks[k], now) :: k in skipped || k in candidates;
        return None;
      }
      var key := First(candidates);
      assert forall k | k in tasks && Claimable(tasks[k], now) && k !in skipped ::
        k in candidates && GoesBefore(candidates[key], candidates[k]);
      return Some(key);
    }

    // The claim statement.
    method ClaimRow(worker: string, token: nat, skipped: set<string>) returns (id: Option<string>)
      requires token !in issued
      modifies this
      ensures id.None? ==>
        && State() == old(State())
        && forall k | k in tasks && Claimable(tasks[k], now) :: k in skipped
      ensures id.Some? ==>
        && State() == CommitClaim(old(State()), id.value, worker, token)
        && id.value !in skipped && id.value in old(tasks) && Claimable(old(tasks)[id.value], now)
        && forall k | k in old(tasks) && Claimable(old(tasks)[k], now) && k !in skipped ::
             var r, o := old(tasks)[id.value], old(tasks)[k];
             || r.priority > o.priority
             || (r.priority == o.priority
                 && (r.runAt < o.runAt || (r.runAt == o.runAt && r.createdAt <= o.createdAt)))
    {
      id := FirstClaimable(skipped);
      if id.None? {
        return;
      }
      var key := id.value;
      var row := tasks[key];
      tallies := tallies[key := ClaimTally(row, if key in tallies then tallies[key] else NoHistory(None))];
      row := row.(status := TaskRunning, attempts := row.attempts + 1,
                  lockedAt := Some(now), lockedBy := Some(worker), leaseToken := Some(token));
      assert row == Claimed(tasks[key], now, worker, token);
      tasks := tasks[key := row];
      issued := issued + {token};
      if row.payload.Some? {
        jobs := jobs[token := Job(key, worker, token, row.attempts, row.maxAttempts, row.payload.value)];
      }
    }

    method MarkMalformed(id: string, worker: string, token: nat)
      modifies this
      ensures State() == CommitRejectMalformed(old(State()), id, worker, token)
    {
      if id in tasks && tasks[id].lockedBy == Some(worker) && tasks[id].leaseToken == Some(token) {
        EndTask(id, TaskFailed);
      }
    }

    // The task ends and its lease with it.
    method EndTask(id: string, status: TaskStatus)
      requires id in tasks
      modifies this`tasks, this`tallies
      ensures State() == Put(old(State()), id, Ended(old(tasks)[id], status),
                             EndTally(TallyOf(old(State()), id)))
    {
      var t := if id in tallies then tallies[id] else NoHistory(None);
      tallies := tallies[id := t.(ended := t.ended + 1)];
      tasks := tasks[id := tasks[id].(status := status, lockedAt := None, lockedBy := None, leaseToken := None)];
    }

    // ----- statements of a holder

    method RenewLease(job: Job) returns (r: Outcome)
      modifies this
      ensures State() == CommitRenew(old(State()), job)
      ensures r == if old(Current(State(), job)) then Done else Stale
    {
      if !(job.id in tasks && Holds(tasks[job.id], job)) {
        return Stale;
      }
      tasks := tasks[job.id := tasks[job.id].(lockedAt := Some(now))];
      tallies := tallies[job.id := if job.id in tallies then tallies[job.id] else NoHistory(None)];
      return Done;
    }

    // The payload is written back as the worker has it.
    method Requeue(job: Job, retryAt: int, payload: Payload, t: Tally) returns (r: Outcome)
      modifies this
      ensures old(Current(State(), job)) ==>
        r == Done && State() == Put(old(State()), job.id, Requeued(old(tasks)[job.id], payload, retryAt), t)
      ensures !old(Current(State(), job)) ==> r == Stale && State() == old(State())
    {
      if !(job.id in tasks && Holds(tasks[job.id], job)) {
        return Stale;
      }
      var row := tasks[job.id];
      tasks := tasks[job.id := row.(
        status := TaskQueued, attempts := Max(row.attempts - 1, 0), payload := Some(payload), runAt := retryAt,
        lockedAt := None, lockedBy := None, leaseToken := None)];
      tallies := tallies[job.id := t];
      return Done;
    }

    method MarkOcrSubmitted(job: Job, parserJobId: string, retryAt: int) returns (r: Outcome)
      modifies this
      ensures State() == CommitSubmit(old(State()), job, parserJobId, retryAt)
      ensures r == if old(Current(State(), job)) then Done else Stale
    {
      var t := TallyOf(State(), job.id);
      r := Requeue(job, retryAt,
                   job.payload.(stage := OcrProcessing, parserJobId := Some(parserJobId),
                                submittedAt := Some(now), pollCount := 0),
                   t.(submissions := t.submissions + 1));
    }

    method DeferOcrPoll(job: Job, retryAt: int) returns (r: Outcome)
      modifies this
      ensures State() == CommitDefer(old(State()), job, retryAt)
      ensures r == if old(Current(State(), job)) then Done else Stale
    {
      var t := TallyOf(State(), job.id);
      r := Requeue(job, retryAt, job.payload.(stage := OcrProcessing, pollCount := job.payload.pollCount + 1),
                   t.(polls := t.polls + 1));
    }

    method MarkReviewRequired(job: Job) returns (r: Outcome)
      modifies this
      ensures State() == CommitRequireReview(old(State()), job)
      ensures r == if old(Current(State(), job)) then Done else Stale
    {
      if !(job.id in tasks && Holds(tasks[job.id], job)) {
        return Stale;
      }
      EndTask(job.id, TaskSucceeded);
      return Done;
    }

    method MarkFailed(job: Job, retryable: bool, retryAt: int) returns (r: Outcome)
      modifies this
      ensures State() == CommitFail(old(State()), job, retryable, retryAt)
      ensures r == if old(Current(State(), job)) then Done else Stale
    {
      var terminal := job.attempts >= job.maxAttempts || !retryable;
      if !(job.id in tasks && Holds(tasks[job.id], job)) {
        return Stale;
      }
      tallies := tallies[job.id := FailTally(if job.id in tallies then tallies[job.id] else NoHistory(None), terminal)];
      tasks := tasks[job.id := tasks[job.id].(
        status := if terminal then TaskFailed else TaskQueued, runAt := retryAt,
        lockedAt := None, lockedBy := None, leaseToken := None)];
      return Done;
    }

    // ----- transactions

    // The section rows of the version are replaced one by one.
    method InsertSections(versionId: string, hash: string, texts: seq<string>) returns (sections: seq<Section>)
      ensures sections == SectionsOf(versionId, hash, texts)
    {
      sections := [];
      for i := 0 to |texts|
        invariant sections == SectionsOf(versionId, hash, texts[..i])
      {
        sections := sections + [Section(versionId, hash, i, texts[i])];
      }
      assert texts[..|texts|] == texts;
    }

    // The version with its sections, the document, and the first review run, if none is queued.
    method WriteParsed(cfg: Config, p: Payload, content: string, runId: string)
      requires IsTarget(State(), p) && runId !in runs
      modifies this`versions, this`documents, this`runs
      ensures versions == old(versions)[p.versionId :=
        ParsedVersion(cfg, old(versions)[p.versionId], p.versionId, content)]
      ensures documents == old(documents)[p.documentId := old(documents)[p.documentId].(status := InReview)]
      ensures runs == if ReviewQueued(old(State()), p.versionId, cfg.sha256(content)) then old(runs)
                      else old(runs)[runId := QueuedRun(runId, p.versionId, cfg.sha256(content))]
    {
      var hash := cfg.sha256(content);
      var version := versions[p.versionId];
      if !ReviewQueued(State(), p.versionId, hash) {
        runs := runs[runId :=
          ReviewRun(runId, InitialPhase, false, false, None, POLICY_VERSION, p.versionId, hash, "")];
      }
      var sections := InsertSections(p.versionId, hash, cfg.sectionTexts(content, version.citation));
      versions := versions[p.versionId := version.(
        content := content, contentHash := Some(hash), status := InReview,
        reviewApproved := false, reviewedHash := None, sections := sections)];
      documents := documents[p.documentId := documents[p.documentId].(status := InReview)];
    }

    method SaveParsedForReview(cfg: Config, job: Job, content: string, runId: string) returns (r: Outcome)
      requires runId !in runs
      modifies this
      ensures State() == CommitSaveParsed(cfg, old(State()), job, content, runId)
      ensures r == if !old(Current(State(), job)) then Stale
                   else if CanSaveParsed(cfg, old(State()), job, content) then Done else Refused
    {
      if !(job.id in tasks && Holds(tasks[job.id], job)) {
        return Stale;
      }
      var p := job.payload;
      if !IsTarget(State(), p) || !MayBeReviewed(cfg, State(), p) {
        return Refused;
      }
      if cfg.sectionTexts(content, versions[p.versionId].citation) == [] {
        return Refused;
      }
      WriteParsed(cfg, p, content, runId);
      EndTask(job.id, TaskSucceeded);
      return Done;
    }

    // The SELECT of loadApprovedContent. That its result may be embedded is noted with it.
    method LoadApprovedContent(cfg: Config, job: Job) returns (content: Option<string>)
      modifies this
      ensures State() == CommitLoadApproved(cfg, old(State()), job)
      ensures content.Some? <==>
        && job.payload.review.Some?
        && job.payload.versionId in versions && job.payload.documentId in documents
        && var p, v, d := job.payload, versions[job.payload.versionId], documents[job.payload.documentId];
           && v.documentId == p.documentId && d.currentVersionId == p.versionId
           && v.status == InReview && d.status == InReview
           && v.contentHash == Some(p.review.value.contentHash)
           && v.reviewApproved && v.reviewedHash == Some(p.review.value.contentHash)
           && v.fullText
           && d.sourceId.Some? && d.sourceId.value in sources
           && sources[d.sourceId.value].tierKnown && cfg.isAuthorized(sources[d.sourceId.value].facts, v.citation)
      ensures versions == old(versions) && documents == old(documents) && sources == old(sources)
      ensures content.Some? <==> IsApproved(cfg, old(State()), job.payload)
      ensures content.Some? ==> content.value == old(versions)[job.payload.versionId].content
    {
      if !IsApproved(cfg, State(), job.payload) {
        return None;
      }
      var found := versions[job.payload.versionId].content;
      if IsReviewed(cfg, job.payload) && MayEmbed(cfg, job.payload, found) {
        loaded := loaded[job.leaseToken := found];
      }
      return Some(found);
    }

    // assertCurrentLease without a lock: it only looks.
    method HasCurrentLease(job: Job) returns (current: bool)
      ensures current == Current(State(), job)
    {
      current := job.id in tasks && Holds(tasks[job.id], job);
    }

    // The chunk rows of the version are replaced one by one.
    method InsertChunks(chunks: seq<KnowledgeChunk>) returns (inserted: seq<KnowledgeChunk>)
      ensures inserted == chunks
    {
      inserted := [];
      for i := 0 to |chunks|
        invariant inserted == chunks[..i]
      {
        inserted := inserted + [chunks[i]];
      }
    }

    // The version with its chunks, the document, and the note of a publication.
    method WriteEmbedded(p: Payload, hash: string, chunks: seq<KnowledgeChunk>, publication: Option<Publication>)
      requires p.versionId in versions && p.documentId in documents
      modifies this`versions, this`documents, this`publications
      ensures versions == old(versions)[p.versionId :=
        EmbeddedVersion(old(versions)[p.versionId], hash, chunks, publication.Some?)]
      ensures documents == old(documents)[p.documentId := old(documents)[p.documentId].(
        status := if publication.Some? then Published else InReview)]
      ensures publications == if publication.Some? then old(publications)[p.versionId := publication.value]
                              else old(publications) - {p.versionId}
    {
      var status := if publication.Some? then Published else InReview;
      var inserted := InsertChunks(chunks);
      versions := versions[p.versionId := versions[p.versionId].(
        contentHash := Some(hash), status := status, reviewApproved := true, reviewedHash := Some(hash),
        chunks := inserted)];
      documents := documents[p.documentId := documents[p.documentId].(status := status)];
      publications := if publication.Some? then publications[p.versionId := publication.value]
                      else publications - {p.versionId};
    }

    method SaveEmbeddingsAndComplete(cfg: Config, job: Job, chunks: seq<KnowledgeChunk>) returns (r: Outcome)
      modifies this
      ensures State() == CommitSaveEmbeddings(cfg, old(State()), job, chunks)
      ensures r == if !IsReviewed(cfg, job.payload) then Refused
                   else if !old(Current(State(), job)) then Stale
                   else if CanSaveEmbeddings(cfg, old(State()), job) then Done else Refused
    {
      var p := job.payload;
      if !IsReviewed(cfg, p) {
        return Refused;
      }
      if !(job.id in tasks && Holds(tasks[job.id], job)) {
        return Stale;
      }
      var hash := p.review.value.contentHash;
      var publication := AutomationReady(cfg, State(), p);
      if p.versionId !in versions || versions[p.versionId].documentId != p.documentId
         || versions[p.versionId].status != InReview || versions[p.versionId].contentHash != Some(hash)
      {
        return Refused;
      }
      if p.documentId !in documents || documents[p.documentId].currentVersionId != p.versionId
         || documents[p.documentId].status != InReview
      {
        return Refused;
      }
      assert CanSaveEmbeddings(cfg, State(), job);
      WriteEmbedded(p, hash, chunks, publication);
      EndTask(job.id, TaskSucceeded);
      return Done;
    }
  }
}
