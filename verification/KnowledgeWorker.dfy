// KnowledgeIngestionWorker (src/worker/knowledge-ingestion.ts). What others do
// while a call is awaited, and what providers answer, are parameters; the
// result is proved for all of them.
module KnowledgeWorker {
  import opened Options
  import opened KnowledgeTypes
  import opened KnowledgeSteps
  import opened KnowledgeProofs
  import opened KnowledgeFencing
  import opened KnowledgePublication
  import opened KnowledgeRepository
  import opened KnowledgeTurns
  import opened Awaiting
  import opened Identifiers
  import ReviewedChunks
  import PageMarkers
  import Text

  // Under a private prefix, and no way out of it.
  predicate IsObjectKey(key: string) {
    && ("private/knowledge-originals/" <= key || "knowledge-originals/" <= key)
    && '\0' !in key
    && ".." !in Text.Split(key, '/')
  }

  class KnowledgeIngestionWorker {
    const repository: Repository
    const cfg: Config
    const workerId: string
    const pollInterval: int
    const retryDelay: int
    // object storage is configured; a download URL is on an allowed host
    const hasStorage: bool
    const isDocumentUrl: string -> bool

    constructor (repository: Repository, cfg: Config, workerId: string, pollInterval: int, retryDelay: int,
                 hasStorage: bool, isDocumentUrl: string -> bool)
      ensures this.repository == repository && this.cfg == cfg
    {
      this.repository, this.cfg, this.workerId := repository, cfg, workerId;
      this.pollInterval, this.retryDelay := pollInterval, retryDelay;
      this.hasStorage, this.isDocumentUrl := hasStorage, isDocumentUrl;
    }

    // What others do, and then a renewal.
    method ElapseAndRenew(job: Job, others: seq<Action>) returns (r: Outcome, ghost trace: seq<Action>)
      requires SystemOk(cfg, repository.State()) && Known(repository.State(), job)
      modifies repository
      ensures trace == others + [Renew(job.leaseToken)]
      ensures repository.State() == Run(cfg, old(repository.State()), trace)
      ensures SystemOk(cfg, repository.State()) && Known(repository.State(), job)
      ensures r == if HoldsToken(repository.State(), job.leaseToken) then Done else Stale
      ensures others == [] ==> HoldsToken(repository.State(), job.leaseToken) ==
                               HoldsToken(old(repository.State()), job.leaseToken)
    {
      ghost var before := repository.State();
      repository.Elapse(cfg, others);
      KnownStays(cfg, before, others, job);
      RenewIsStep(cfg, Run(cfg, before, others), job);
      r := repository.RenewLease(job);
      OneMore(cfg, before, others, Renew(job.leaseToken));
      trace := others + [Renew(job.leaseToken)];
      KnownStays(cfg, before, trace, job);
    }

    // The timer: a renewal at every beat until one fails. The error is a stale lease or a database that is down.
    method Heartbeats(job: Job, beats: seq<Beat<Action>>)
        returns (leaseError: Option<bool>, ghost trace: seq<Action>)
      requires SystemOk(cfg, repository.State()) && Known(repository.State(), job)
      modifies repository
      ensures repository.State() == Run(cfg, old(repository.State()), trace)
      ensures SystemOk(cfg, repository.State()) && Known(repository.State(), job)
      ensures leaseError.None? ==> AllUp(beats) && trace == BeatTrace(beats, Renew(job.leaseToken))
      ensures leaseError == Some(false) ==> !AllUp(beats)
      ensures leaseError == Some(true) ==> LosesAtBeat(old(repository.State()), beats, job.leaseToken)
    {
      hide Run, HoldsToken, BeatTrace, AllUp, LosesAtBeat, SystemOk, Known;
      ghost var before, renew := repository.State(), Renew(job.leaseToken);
      leaseError := None;
      trace := [];
      NoBeats(before, beats, renew);
      for i := 0 to |beats|
        invariant repository.State() == Run(cfg, before, trace)
        invariant SystemOk(cfg, repository.State()) && Known(repository.State(), job)
        invariant leaseError.None? ==> AllUp(beats[..i]) && trace == BeatTrace(beats[..i], renew)
        invariant leaseError == Some(false) ==> !AllUp(beats)
        invariant leaseError == Some(true) ==> LosesAtBeat(before, beats, job.leaseToken)
      {
        OneMoreBeat(beats, i, renew);
        ghost var more;
        if leaseError.None? && beats[i].databaseUp {
          var renewed;
          renewed, more := ElapseAndRenew(job, beats[i].others);
          RunConcat(cfg, before, trace, more);
          if renewed == Stale {
            leaseError := Some(true);
            LostAtBeat(before, beats, i + 1, job.leaseToken);
          }
        } else {
          repository.Elapse(cfg, beats[i].others);
          more := beats[i].others;
          RunConcat(cfg, before, trace, more);
          KnownStays(cfg, Run(cfg, before, trace), more, job);
          if leaseError.None? {
            leaseError := Some(false);
          }
        }
        trace := trace + more;
      }
      assert beats[..|beats|] == beats;
    }

    lemma NoBeats(s: Store, beats: seq<Beat<Action>>, renew: Action)
      ensures Run(cfg, s, []) == s && BeatTrace(beats[..0], renew) == [] && AllUp(beats[..0])
    {
    }

    lemma LostAtBeat(s: Store, beats: seq<Beat<Action>>, i: nat, token: nat)
      requires 0 < i <= |beats| && !HoldsToken(Run(cfg, s, BeatTrace(beats[..i], Renew(token))), token)
      ensures LosesAtBeat(s, beats, token)
    {
    }

    ghost predicate LosesAtBeat(s: Store, beats: seq<Beat<Action>>, token: nat) {
      exists i | 0 < i <= |beats| :: !HoldsToken(Run(cfg, s, BeatTrace(beats[..i], Renew(token))), token)
    }

    lemma BeatLosesCall<T>(s: Store, call: Awaited<Action, T>, token: nat)
      requires LosesAtBeat(Run(cfg, s, [Renew(token)]), call.beats, token)
      ensures !Undisturbed(cfg, s, token, call)
    {
      hide HoldsToken, Run;
      var renew := Renew(token);
      var i :| 0 < i <= |call.beats|
        && !HoldsToken(Run(cfg, Run(cfg, s, [renew]), BeatTrace(call.beats[..i], renew)), token);
      RunConcat(cfg, s, [renew], BeatTrace(call.beats[..i], renew));
      BeatsBeginTrace(call, i, renew);
      LostAtPrefix(cfg, s, [renew] + BeatTrace(call.beats[..i], renew), FullTrace(call, renew), token);
    }

    lemma EndsLoseCall<T>(s: Store, call: Awaited<Action, T>, token: nat)
      requires !HoldsToken(s, token) || !HoldsToken(After(cfg, s, token, call), token)
      ensures !Undisturbed(cfg, s, token, call)
    {
      hide HoldsToken, Run;
      if Undisturbed(cfg, s, token, call) {
        HeldAtEnds(cfg, s, FullTrace(call, Renew(token)), token);
      }
    }

    // Renew, run the operation with heartbeats, renew again. An answer comes
    // back exactly when nothing disturbed the call.
    method WithLeaseHeartbeat<T>(job: Job, operation: Awaited<Action, T>)
        returns (r: Leased<T>, ghost trace: seq<Action>)
      requires SystemOk(cfg, repository.State()) && Known(repository.State(), job)
      modifies repository
      ensures repository.State() == Run(cfg, old(repository.State()), trace)
      ensures SystemOk(cfg, repository.State()) && Known(repository.State(), job)
      ensures r.Got? <==> Undisturbed(cfg, old(repository.State()), job.leaseToken, operation)
      ensures r.Got? ==> operation.reply == Value(r.value) && trace == FullTrace(operation, Renew(job.leaseToken))
      ensures r.Got? ==> HeldAllAlong(cfg, old(repository.State()), trace, job.leaseToken)
      ensures !HoldsToken(old(repository.State()), job.leaseToken) ==> r == Lost
      ensures HoldsToken(old(repository.State()), job.leaseToken) && operation.reply.Raised? ==>
        r == Broke(operation.reply.retryable)
      ensures operation.reply.Value? && r.Broke? ==> r.retryable && !AllUp(operation.beats)
    {
      hide SystemOk, Known, HoldsToken, Run, Undisturbed;
      ghost var before, renew := repository.State(), Renew(job.leaseToken);
      var first;
      first, trace := ElapseAndRenew(job, []);
      assert trace == [renew];
      if first == Stale {
        EndsLoseCall(before, operation, job.leaseToken);
        return Lost, trace;
      }
      var leaseError;
      ghost var beaten;
      leaseError, beaten := Heartbeats(job, operation.beats);
      RunConcat(cfg, before, trace, beaten);
      trace := trace + beaten;
      repository.Elapse(cfg, operation.others);
      KnownStays(cfg, Run(cfg, before, trace), operation.others, job);
      RunConcat(cfg, before, trace, operation.others);
      trace := trace + operation.others;
      if operation.reply.Raised? {
        RaisedIsDisturbed(before, operation, job.leaseToken);
        return Broke(operation.reply.retryable), trace;
      }
      if leaseError.Some? {
        if leaseError.value {
          BeatLosesCall(before, operation, job.leaseToken);
          return Lost, trace;
        }
        DownIsDisturbed(before, operation, job.leaseToken);
        return Broke(true), trace;
      }
      var last;
      ghost var end;
      last, end := ElapseAndRenew(job, []);
      RunConcat(cfg, before, trace, end);
      trace := trace + end;
      assert trace == FullTrace(operation, renew);
      if last == Stale {
        EndsLoseCall(before, operation, job.leaseToken);
        return Lost, trace;
      }
      HeldBetweenEnds(cfg, before, trace, job.leaseToken);
      NothingDisturbed(before, operation, job.leaseToken);
      return Got(operation.reply.value), trace;
    }

    lemma RaisedIsDisturbed<T>(s: Store, call: Awaited<Action, T>, token: nat)
      requires call.reply.Raised?
      ensures !Undisturbed(cfg, s, token, call)
    {
    }

    lemma DownIsDisturbed<T>(s: Store, call: Awaited<Action, T>, token: nat)
      requires !AllUp(call.beats)
      ensures !Undisturbed(cfg, s, token, call)
    {
    }

    lemma NothingDisturbed<T>(s: Store, call: Awaited<Action, T>, token: nat)
      requires call.reply.Value? && AllUp(call.beats)
      requires HeldAllAlong(cfg, s, FullTrace(call, Renew(token)), token)
      ensures Undisturbed(cfg, s, token, call)
    {
    }

    // ----- the stages

    method SubmitOcr(job: Job, w: Surroundings) returns (d: Decision, ghost trace: seq<Action>)
      requires SystemOk(cfg, repository.State()) && Known(repository.State(), job)
      modifies repository
      ensures repository.State() == Run(cfg, old(repository.State()), trace)
      ensures SystemOk(cfg, repository.State()) && Known(repository.State(), job)
      ensures forall id ::
        Submits(cfg, old(repository.State()), job, w, hasStorage, isDocumentUrl, id) <==> d == Submission(id)
      ensures d.Submission? || d.Failure? || d.Abandon?
      ensures d.Submission? ==>
        && trace == FullTrace(w.url, Renew(job.leaseToken)) + FullTrace(w.submit, Renew(job.leaseToken))
        && HeldAllAlong(cfg, old(repository.State()), trace, job.leaseToken)
    {
      hide SystemOk, Known, HoldsToken, Run, Undisturbed, HeldAllAlong;
      ghost var before := repository.State();
      var key := job.payload.objectKey;
      if key.None? || key.value == "" || !IsObjectKey(key.value) || !hasStorage {
        EmptyRun(before);
        return Failure(false), [];
      }
      var url;
      url, trace := WithLeaseHeartbeat(job, w.url);
      if url.Lost? {
        return Abandon, trace;
      }
      if url.Broke? {
        return Failure(url.retryable), trace;
      }
      if !isDocumentUrl(url.value) {
        return Failure(false), trace;
      }
      var submitted;
      ghost var more;
      submitted, more := WithLeaseHeartbeat(job, w.submit);
      RunConcat(cfg, before, trace, more);
      if submitted.Got? {
        HeldTogether(cfg, before, trace, more, job.leaseToken);
        d := Submission(submitted.value);
      } else {
        d := if submitted.Lost? then Abandon else Failure(submitted.retryable);
      }
      trace := trace + more;
    }

    lemma EmptyRun(s: Store)
      ensures Run(cfg, s, []) == s
    {
    }

    predicate WithinBudget(job: Job, now: int) {
      && job.payload.submittedAt.Some?
      && job.payload.pollCount < cfg.maxPolls
      && now - job.payload.submittedAt.value <= cfg.maxPollAge
    }

    method PollOcr(job: Job, w: Surroundings) returns (d: Decision, ghost trace: seq<Action>)
      requires SystemOk(cfg, repository.State()) && Known(repository.State(), job)
      modifies repository
      ensures repository.State() == Run(cfg, old(repository.State()), trace)
      ensures SystemOk(cfg, repository.State()) && Known(repository.State(), job)
      ensures Answers(cfg, old(repository.State()), job, w, StillRunning) <==> d == Poll
      ensures Answers(cfg, old(repository.State()), job, w, ParserFailed) ==> d == Failure(false)
      ensures forall content ::
        PutsUpText(cfg, old(repository.State()), job, w, content) <==> d == PutUpForReview(content)
      ensures && Answers(cfg, old(repository.State()), job, w, ParserDone)
              && Undisturbed(cfg, After(cfg, old(repository.State()), job.leaseToken, w.status), job.leaseToken,
                             w.parsed)
              ==> d.PutUpForReview? || d == Failure(true)
      ensures !HasBudget(cfg, job, old(repository.now)) ==> d == Failure(false) && trace == []
      ensures d.Poll? || d.PutUpForReview? || d.Failure? || d.Abandon?
      ensures d.Poll? || d.PutUpForReview? ==>
        && HasBudget(cfg, job, old(repository.now))
        && HeldAllAlong(cfg, old(repository.State()), trace, job.leaseToken)
      ensures d.Poll? ==> trace == FullTrace(w.status, Renew(job.leaseToken))
      ensures d.PutUpForReview? ==>
        && trace == FullTrace(w.status, Renew(job.leaseToken)) + FullTrace(w.parsed, Renew(job.leaseToken))
        && Text.Trim(d.content) != ""
    {
      hide SystemOk, Known, HoldsToken, Run, Undisturbed, HeldAllAlong;
      ghost var before := repository.State();
      EmptyRun(before);
      if job.payload.parserJobId.None? || job.payload.parserJobId.value == "" {
        return Failure(false), [];
      }
      if !WithinBudget(job, repository.now) {
        return Failure(false), [];
      }
      var status;
      status, trace := WithLeaseHeartbeat(job, w.status);
      if status.Lost? {
        return Abandon, trace;
      }
      if status.Broke? {
        return Failure(status.retryable), trace;
      }
      if status.value == StillRunning {
        return Poll, trace;
      }
      if status.value == ParserFailed {
        return Failure(false), trace;
      }
      var parsed;
      ghost var more;
      parsed, more := WithLeaseHeartbeat(job, w.parsed);
      RunConcat(cfg, before, trace, more);
      if parsed.Got? {
        HeldTogether(cfg, before, trace, more, job.leaseToken);
        var rendered := PageMarkers.RenderParsedDocument(parsed.value);
        d := if Text.Trim(rendered) == "" then Failure(true) else PutUpForReview(rendered);
      } else {
        d := if parsed.Lost? then Abandon else Failure(parsed.retryable);
      }
      trace := trace + more;
    }

    // The lease is checked, then the content is read: two statements, with time between them.
    method LoadApproved(job: Job, w: Surroundings)
        returns (content: Option<string>, stale: bool, ghost trace: seq<Action>)
      requires SystemOk(cfg, repository.State()) && Known(repository.State(), job)
      requires IsReviewed(cfg, job.payload) && job.payload.stage in {EmbeddingPending, EmbeddingProcessing}
      modifies repository
      ensures repository.State() == Run(cfg, old(repository.State()), trace)
      ensures SystemOk(cfg, repository.State()) && Known(repository.State(), job)
      ensures stale <==> !HoldsToken(old(repository.State()), job.leaseToken)
      ensures trace == if stale then [] else w.beforeLoad + [Action.LoadApproved(job.leaseToken)]
      ensures !stale ==>
        var m := AtLoad(cfg, old(repository.State()), w);
        && (content.Some? <==> IsApproved(cfg, m, job.payload))
        && (content.Some? ==> content.value == m.versions[job.payload.versionId].content)
      ensures !stale && content.Some? && MayEmbed(cfg, job.payload, content.value) ==>
        job.leaseToken in repository.loaded && repository.loaded[job.leaseToken] == content.value
    {
      hide SystemOk;
      ghost var before := repository.State();
      RenewIsStep(cfg, before, job);
      var current := repository.HasCurrentLease(job);
      if !current {
        EmptyRun(before);
        return None, true, [];
      }
      repository.Elapse(cfg, w.beforeLoad);
      KnownStays(cfg, before, w.beforeLoad, job);
      LoadIsStep(cfg, repository.State(), job);
      if IsApproved(cfg, repository.State(), job.payload)
         && MayEmbed(cfg, job.payload, repository.versions[job.payload.versionId].content)
      {
        LoadNotes(cfg, repository.State(), job);
      }
      content := repository.LoadApprovedContent(cfg, job);
      OneMore(cfg, before, w.beforeLoad, Action.LoadApproved(job.leaseToken));
      trace := w.beforeLoad + [Action.LoadApproved(job.leaseToken)];
      KnownStays(cfg, before, trace, job);
      stale := false;
    }

    // The chunks of approved content, if it has the approved hash and anything to embed.
    method ChunksToEmbed(job: Job, content: Option<string>) returns (chunks: seq<ReviewedChunks.KnowledgeChunk>)
      requires job.payload.review.Some?
      ensures chunks != [] <==> content.Some? && MayEmbed(cfg, job.payload, content.value)
      ensures chunks != [] ==> chunks == ReviewedChunks.ChunksOf(2400, 200, content.value)
    {
      if content.None? || cfg.sha256(content.value) != job.payload.review.value.contentHash {
        return [];
      }
      var chunked := ReviewedChunks.ChunkReviewedMarkdown(content.value, ReviewedChunks.DEFAULT_CHUNK_CHARACTERS,
                                                          ReviewedChunks.DEFAULT_CHUNK_OVERLAP);
      chunks := chunked.value;
    }

    method EmbedApprovedContent(job: Job, w: Surroundings) returns (d: Decision, ghost trace: seq<Action>)
      requires SystemOk(cfg, repository.State()) && Known(repository.State(), job)
      requires job.payload.stage in {EmbeddingPending, EmbeddingProcessing}
      modifies repository
      ensures repository.State() == Run(cfg, old(repository.State()), trace)
      ensures SystemOk(cfg, repository.State()) && Known(repository.State(), job)
      ensures forall chunks :: Embeds(cfg, old(repository.State()), job, w, chunks) <==> d == SaveChunks(chunks)
      ensures AsksForReview(cfg, old(repository.State()), job, w) <==> d == AskForReview
      ensures d.SaveChunks? || d.AskForReview? || d.Failure? || d.Abandon?
      ensures d.AskForReview? ==> trace == EmbedTrace(cfg, job, w, false)
      ensures d.SaveChunks? ==>
        && trace == EmbedTrace(cfg, job, w, true)
        && HeldAllAlong(cfg, old(repository.State()), trace, job.leaseToken)
        && job.leaseToken in repository.loaded && d.chunks == Chunks(repository.loaded[job.leaseToken])
    {
      hide SystemOk, Known, HoldsToken, Run, Undisturbed, HeldAllAlong, IsReviewed, IsApproved;
      ghost var before := repository.State();
      EmptyRun(before);
      if !IsReviewed(cfg, job.payload) {
        return AskForReview, [];
      }
      ReviewedHasReview(job.payload);
      var content, stale;
      content, stale, trace := LoadApproved(job, w);
      if stale {
        return Abandon, trace;
      }
      var chunks := ChunksToEmbed(job, content);
      FoundIff(before, job, w, content);
      if chunks == [] {
        return AskForReview, trace;
      }
      ghost var loaded := repository.State();
      var embedded;
      ghost var more;
      embedded, more := WithLeaseHeartbeat(job, w.embed);
      RunConcat(cfg, before, trace, more);
      if embedded.Got? {
        HeldAtEnds(cfg, loaded, more, job.leaseToken);
        HeldBetweenEnds(cfg, before, trace + more, job.leaseToken);
      }
      trace := trace + more;
      if embedded.Lost? {
        return Abandon, trace;
      }
      if embedded.Broke? {
        return Failure(embedded.retryable), trace;
      }
      if embedded.value.count != |chunks| || !embedded.value.wellFormed {
        return Failure(true), trace;
      }
      LoadedStays(cfg, loaded, more, job, content.value);
      return SaveChunks(chunks), trace;
    }

    lemma ReviewedHasReview(p: Payload)
      requires IsReviewed(cfg, p)
      ensures p.review.Some?
    {
    }

    // What the load found is what there was to find.
    lemma FoundIff(s: Store, job: Job, w: Surroundings, content: Option<string>)
      requires IsReviewed(cfg, job.payload) && job.payload.review.Some?
      requires content.Some? <==> IsApproved(cfg, AtLoad(cfg, s, w), job.payload)
      requires content.Some? ==> content.value == AtLoad(cfg, s, w).versions[job.payload.versionId].content
      ensures content.Some? ==> content.value == AtLoadContent(cfg, s, job, w)
      ensures FindsContent(cfg, s, job, w, AtLoadContent(cfg, s, job, w))
         <==> content.Some? && MayEmbed(cfg, job.payload, content.value)
    {
    }

    // The decision of the stage the job is in: exactly the one the surroundings lead to.
    method Attend(job: Job, w: Surroundings) returns (d: Decision, ghost trace: seq<Action>)
      requires SystemOk(cfg, repository.State()) && Known(repository.State(), job)
      modifies repository
      ensures repository.State() == Run(cfg, old(repository.State()), trace)
      ensures SystemOk(cfg, repository.State()) && Known(repository.State(), job)
      ensures IsLedTo(old(repository.State()), job, w, d)
      ensures !d.Failure? && !d.Abandon? ==> trace == TraceTo(cfg, job, w, d)
      ensures Permitted(repository.State(), job, d)
    {
      hide SystemOk, Known, HoldsToken, Run, Submits, Answers, PutsUpText, Embeds, AsksForReview, HasBudget,
        HeldAllAlong, FullTrace, EmbedTrace, TraceTo, IsLedTo, Permitted, Chunks;
      ghost var before := repository.State();
      match job.payload.stage
      case OcrPending =>
        d, trace := SubmitOcr(job, w);
        SubmissionOnly(before, job, w, d, repository.State());
      case OcrProcessing =>
        d, trace := PollOcr(job, w);
        PollOnly(before, job, w, d, repository.State());
      case EmbeddingPending =>
        d, trace := EmbedApprovedContent(job, w);
        EmbedOnly(before, job, w, d, repository.State());
      case EmbeddingProcessing =>
        d, trace := EmbedApprovedContent(job, w);
        EmbedOnly(before, job, w, d, repository.State());
      case _ =>
        EmptyRun(before);
        d, trace := AskForReview, [];
        ReviewOnly(before, job, w, before);
    }

    // The decision is the one the surroundings lead to, if they lead to any.
    ghost predicate IsLedTo(s: Store, job: Job, w: Surroundings, d: Decision) {
      forall e: Decision | !e.Failure? && !e.Abandon? ::
        LeadsTo(cfg, s, job, w, hasStorage, isDocumentUrl, e) <==> d == e
    }

    lemma SubmissionOnly(s: Store, job: Job, w: Surroundings, d: Decision, s': Store)
      requires job.payload.stage == OcrPending && (d.Submission? || d.Failure? || d.Abandon?)
      requires forall id :: Submits(cfg, s, job, w, hasStorage, isDocumentUrl, id) <==> d == Submission(id)
      ensures IsLedTo(s, job, w, d) && Permitted(s', job, d)
      ensures d.Submission? ==>
        TraceTo(cfg, job, w, d) == FullTrace(w.url, Renew(job.leaseToken)) + FullTrace(w.submit, Renew(job.leaseToken))
    {
      hide Submits;
    }

    lemma PollOnly(s: Store, job: Job, w: Surroundings, d: Decision, s': Store)
      requires job.payload.stage == OcrProcessing
      requires d.Poll? || d.PutUpForReview? || d.Failure? || d.Abandon?
      requires d.PutUpForReview? ==> Text.Trim(d.content) != ""
      requires d.Poll? ==> HasBudget(cfg, job, s.now)
      requires Answers(cfg, s, job, w, StillRunning) <==> d == Poll
      requires forall content :: PutsUpText(cfg, s, job, w, content) <==> d == PutUpForReview(content)
      ensures IsLedTo(s, job, w, d) && Permitted(s', job, d)
      ensures d.Poll? ==> TraceTo(cfg, job, w, d) == FullTrace(w.status, Renew(job.leaseToken))
      ensures d.PutUpForReview? ==>
        TraceTo(cfg, job, w, d)
        == FullTrace(w.status, Renew(job.leaseToken)) + FullTrace(w.parsed, Renew(job.leaseToken))
    {
      hide Answers, PutsUpText, FullTrace, Text.Trim;
    }

    lemma EmbedOnly(s: Store, job: Job, w: Surroundings, d: Decision, s': Store)
      requires job.payload.stage in {EmbeddingPending, EmbeddingProcessing}
      requires d.SaveChunks? || d.AskForReview? || d.Failure? || d.Abandon?
      requires d.SaveChunks? ==> job.leaseToken in s'.loaded && d.chunks == Chunks(s'.loaded[job.leaseToken])
      requires forall chunks :: Embeds(cfg, s, job, w, chunks) <==> d == SaveChunks(chunks)
      requires AsksForReview(cfg, s, job, w) <==> d == AskForReview
      ensures IsLedTo(s, job, w, d) && Permitted(s', job, d)
      ensures d.AskForReview? ==> TraceTo(cfg, job, w, d) == EmbedTrace(cfg, job, w, false)
      ensures d.SaveChunks? ==> TraceTo(cfg, job, w, d) == EmbedTrace(cfg, job, w, true)
    {
      hide Embeds, EmbedTrace, AsksForReview, Chunks;
    }

    lemma ReviewOnly(s: Store, job: Job, w: Surroundings, s': Store)
      requires job.payload.stage in {ReviewRequired, StageCompleted}
      ensures IsLedTo(s, job, w, AskForReview) && Permitted(s', job, AskForReview)
      ensures TraceTo(cfg, job, w, AskForReview) == []
    {
    }

    // What the control flow allows for a job.
    ghost predicate Permitted(s: Store, job: Job, d: Decision) {
      match d
      case Submission(_) => job.payload.stage == OcrPending
      case Poll =>
        && job.payload.stage == OcrProcessing && job.payload.pollCount < cfg.maxPolls
        && job.payload.submittedAt.Some? && job.payload.parserJobId.Some?
      case PutUpForReview(content) => job.payload.stage == OcrProcessing && Text.Trim(content) != ""
      case SaveChunks(chunks) =>
        && job.payload.stage in {EmbeddingPending, EmbeddingProcessing}
        && job.leaseToken in s.loaded && chunks == Chunks(s.loaded[job.leaseToken])
      case _ => true
    }

    lemma PermittedStays(s: Store, actions: seq<Action>, job: Job, d: Decision)
      requires SystemOk(cfg, s) && Known(s, job) && Permitted(s, job, d)
      ensures Permitted(Run(cfg, s, actions), job, d)
    {
      if d.SaveChunks? {
        assert MayEmbed(cfg, job.payload, s.loaded[job.leaseToken]);
        LoadedStays(cfg, s, actions, job, s.loaded[job.leaseToken]);
      }
    }

    // The statement or transaction that carries a decision out.
    method CarryOut(job: Job, d: Decision, runId: string) returns (result: Outcome, ghost a: Action)
      requires Known(repository.State(), job) && Permitted(repository.State(), job, d)
      requires !d.Failure? && !d.Abandon? && runId !in repository.runs
      modifies repository
      ensures repository.State() == Step(cfg, old(repository.State()), a)
      ensures result == Done <==> TakesEffect(cfg, old(repository.State()), job, d)
      ensures result == Done ==> Leaves(repository.State(), job, d)
      ensures result == Done ==> HoldsToken(old(repository.State()), job.leaseToken)
      ensures a == ActionOf(job, d, old(repository.now), runId)
    {
      var retryAt := repository.now + pollInterval;
      a := ActionOf(job, d, repository.now, runId);
      ghost var s := repository.State();
      match d
      case Submission(parserJobId) =>
        RequeueIsStep(cfg, s, job, parserJobId, retryAt);
        result := repository.MarkOcrSubmitted(job, parserJobId, retryAt);
      case Poll =>
        RequeueIsStep(cfg, s, job, "", retryAt);
        result := repository.DeferOcrPoll(job, retryAt);
      case PutUpForReview(content) =>
        SaveParsedIsStep(cfg, s, job, content, runId);
        result := repository.SaveParsedForReview(cfg, job, content, runId);
      case AskForReview =>
        RequireReviewIsStep(cfg, s, job);
        result := repository.MarkReviewRequired(job);
      case SaveChunks(chunks) =>
        SaveEmbeddingsIsStep(cfg, s, job);
        result := repository.SaveEmbeddingsAndComplete(cfg, job, chunks);
    }

    ghost function ActionOf(job: Job, d: Decision, now: int, runId: string): Action {
      match d
      case Submission(parserJobId) => Submit(job.leaseToken, parserJobId, now + pollInterval)
      case Poll => Defer(job.leaseToken, now + pollInterval)
      case PutUpForReview(content) => SaveParsed(job.leaseToken, content, runId)
      case SaveChunks(_) => SaveEmbeddings(job.leaseToken)
      case _ => RequireReview(job.leaseToken)
    }

    method RecordFailure(job: Job, retryable: bool, others: seq<Action>) returns (ghost trace: seq<Action>)
      requires SystemOk(cfg, repository.State()) && Known(repository.State(), job)
      modifies repository
      ensures repository.State() == Run(cfg, old(repository.State()), trace)
      ensures |trace| == |others| + 1 && trace[..|others|] == others
      ensures trace[|others|]
           == Fail(job.leaseToken, retryable, Run(cfg, old(repository.State()), others).now + retryDelay)
    {
      ghost var before := repository.State();
      repository.Elapse(cfg, others);
      KnownStays(cfg, before, others, job);
      var retryAt := repository.now + retryDelay;
      var marked := repository.MarkFailed(job, retryable, retryAt);
      OneMore(cfg, before, others, Fail(job.leaseToken, retryable, retryAt));
      trace := others + [Fail(job.leaseToken, retryable, retryAt)];
    }

    function OutcomeFor(d: Decision): RunOutcome {
      match d
      case Submission(_) => TurnDeferred
      case Poll => TurnDeferred
      case PutUpForReview(_) => TurnReviewRequired
      case AskForReview => TurnReviewRequired
      case SaveChunks(_) => TurnCompleted
      case _ => TurnFailed
    }

    // A stale lease makes the turn a failure that changes nothing; any other
    // error is recorded against the task.
    method Settle(job: Job, d: Decision, w: Surroundings) returns (outcome: RunOutcome, ghost trace: seq<Action>)
      requires SystemOk(cfg, repository.State()) && Known(repository.State(), job)
      requires Permitted(repository.State(), job, d)
      modifies repository
      ensures repository.State() == Run(cfg, old(repository.State()), trace)
      ensures outcome == OutcomeFor(d) || outcome == TurnFailed
      ensures outcome != TurnFailed <==> TakesEffect(cfg, Run(cfg, old(repository.State()), w.beforeSave), job, d)
      ensures outcome != TurnFailed ==> Leaves(repository.State(), job, d)
      ensures outcome != TurnFailed ==>
        Confirmed(cfg, old(repository.State()), trace, outcome) && trace[|trace| - 1].token == job.leaseToken
      ensures d.Failure? ==> trace != [] && trace[|trace| - 1].Fail? && trace[|trace| - 1].retryable == d.retryable
      ensures d.Abandon? ==> trace == []
    {
      hide SystemOk, Known, HoldsToken, TakesEffect, Leaves, Run, Permitted, Confirmed, ActionOf;
      ghost var before := repository.State();
      outcome := TurnFailed;
      trace := [];
      NothingToCarryOut(before, Run(cfg, before, w.beforeSave), job, d);
      if d.Abandon? {
        return;
      }
      if d.Failure? {
        trace := RecordFailure(job, d.retryable, w.beforeFail);
        return;
      }
      repository.Elapse(cfg, w.beforeSave);
      KnownStays(cfg, before, w.beforeSave, job);
      PermittedStays(before, w.beforeSave, job, d);
      var result;
      ghost var a;
      var runId := NewId(repository.runs.Keys);
      ghost var middle := repository.State();
      assert middle == Run(cfg, before, w.beforeSave);
      result, a := CarryOut(job, d, runId);
      OneMore(cfg, before, w.beforeSave, a);
      trace := w.beforeSave + [a];
      if result == Done {
        outcome := OutcomeFor(d);
        DecisionIsConfirmed(before, w.beforeSave, job, d, middle.now, runId);
      } else if result == Refused {
        KnownStays(cfg, before, trace, job);
        ghost var more := RecordFailure(job, true, w.beforeFail);
        RunConcat(cfg, before, trace, more);
        trace := trace + more;
      }
    }

    lemma DecisionIsConfirmed(s: Store, others: seq<Action>, job: Job, d: Decision, now: int, runId: string)
      requires !d.Failure? && !d.Abandon? && HoldsToken(Run(cfg, s, others), job.leaseToken)
      ensures var a := ActionOf(job, d, now, runId);
              Confirmed(cfg, s, others + [a], OutcomeFor(d)) && a.token == job.leaseToken
    {
      var trace := others + [ActionOf(job, d, now, runId)];
      assert trace[..|trace| - 1] == others;
    }

    lemma NothingToCarryOut(s: Store, m: Store, job: Job, d: Decision)
      ensures d.Failure? || d.Abandon? ==> !TakesEffect(cfg, m, job, d)
      ensures Run(cfg, s, []) == s
    {
    }

    // The claim's own check failed: the row is marked, if it is still this worker's.
    method Reject(id: string, token: nat, others: seq<Action>) returns (ghost trace: seq<Action>)
      requires SystemOk(cfg, repository.State()) && id in repository.tasks && repository.tasks[id].payload.None?
      modifies repository
      ensures repository.State() == Run(cfg, old(repository.State()), trace)
      ensures trace == others + [RejectMalformed(id, workerId, token)]
    {
      ghost var before := repository.State();
      repository.Elapse(cfg, others);
      StaysMalformed(cfg, before, others, id);
      repository.MarkMalformed(id, workerId, token);
      OneMore(cfg, before, others, RejectMalformed(id, workerId, token));
      trace := others + [RejectMalformed(id, workerId, token)];
    }

    // claimNext: a task that is due is claimed. One whose payload cannot be read is rejected at once.
    method ClaimNext(w: Surroundings) returns (job: Option<Job>, ghost trace: seq<Action>)
      requires SystemOk(cfg, repository.State())
      modifies repository
      ensures repository.State() == Run(cfg, old(repository.State()), trace)
      ensures SystemOk(cfg, repository.State())
      ensures job.Some? ==>
        && Known(repository.State(), job.value) && HoldsToken(repository.State(), job.value.leaseToken)
        && job.value.workerId == workerId
        && trace == w.start + [Claim(job.value.id, workerId, job.value.leaseToken)]
      ensures job.None? && trace == w.start ==>
        forall k | k in repository.tasks && Claimable(repository.tasks[k], repository.now) :: k in w.skipped
      ensures job.None? && trace != w.start ==> RejectsAsDue(old(repository.State()), w, trace)
    {
      hide SystemOk;
      ghost var before := repository.State();
      repository.Elapse(cfg, w.start);
      RunKeepsSystem(cfg, before, w.start);
      trace := w.start;
      var token := NewToken(repository.issued);
      ghost var due := repository.State();
      var id := repository.ClaimRow(workerId, token, w.skipped);
      if id.None? {
        return None, trace;
      }
      ghost var claim := Claim(id.value, workerId, token);
      OneMore(cfg, before, w.start, claim);
      ClaimIsStep(cfg, due, id.value, workerId, token);
      ClaimHandsOut(due, id.value, workerId, token);
      trace := trace + [claim];
      RunKeepsSystem(cfg, before, trace);
      var row := repository.tasks[id.value];
      if row.payload.Some? {
        return Some(JobOf(id.value, row, workerId, token)), trace;
      }
      ghost var more := Reject(id.value, token, w.beforeReject);
      RunConcat(cfg, before, trace, more);
      trace := trace + more;
      RunKeepsSystem(cfg, before, trace);
      RejectionIs(before, w, id.value, token, trace);
      return None, trace;
    }

    // A task whose payload cannot be read was claimed and then rejected.
    ghost predicate RejectsAsDue(s: Store, w: Surroundings, trace: seq<Action>) {
      exists id, token :: IsRejection(s, w, id, token, trace)
    }

    ghost predicate IsRejection(s: Store, w: Surroundings, id: string, token: nat, trace: seq<Action>) {
      && trace == w.start + [Claim(id, workerId, token)] + (w.beforeReject + [RejectMalformed(id, workerId, token)])
      && var m := Run(cfg, s, w.start + [Claim(id, workerId, token)]);
         id in m.tasks && m.tasks[id].payload.None?
    }

    lemma RejectionIs(s: Store, w: Surroundings, id: string, token: nat, trace: seq<Action>)
      requires IsRejection(s, w, id, token, trace)
      ensures RejectsAsDue(s, w, trace)
    {
    }

    // A claimed job, from the moment after the claim: it is attended to and settled.
    method WorkOn(job: Job, w: Surroundings) returns (outcome: RunOutcome, ghost trace: seq<Action>)
      requires SystemOk(cfg, repository.State()) && Known(repository.State(), job)
      modifies repository
      ensures repository.State() == Run(cfg, old(repository.State()), trace)
      ensures EndsAsDue(cfg, old(repository.State()), job, w, hasStorage, isDocumentUrl, outcome, repository.State())
      ensures outcome != Idle
      ensures outcome != TurnFailed ==> Confirmed(cfg, old(repository.State()), trace, outcome)
    {
      hide SystemOk, Known, HoldsToken, Run, EndsAsDue, EndsWith, IsLedTo, Permitted, TakesEffect, Leaves, Confirmed;
      ghost var before := repository.State();
      var decision;
      decision, trace := Attend(job, w);
      ghost var middle := repository.State();
      ghost var more;
      outcome, more := Settle(job, decision, w);
      TurnIsDue(before, job, w, decision, middle, outcome, repository.State());
      if outcome != TurnFailed {
        ConfirmedLater(cfg, before, trace, more, outcome);
      }
      RunConcat(cfg, before, trace, more);
      trace := trace + more;
    }

    lemma TurnIsDue(s: Store, job: Job, w: Surroundings, d: Decision, m: Store, outcome: RunOutcome, s': Store)
      requires IsLedTo(s, job, w, d)
      requires !d.Failure? && !d.Abandon? ==> m == Run(cfg, s, TraceTo(cfg, job, w, d))
      requires outcome == OutcomeFor(d) || outcome == TurnFailed
      requires outcome != TurnFailed <==> TakesEffect(cfg, Run(cfg, m, w.beforeSave), job, d)
      requires outcome != TurnFailed ==> Leaves(s', job, d)
      ensures EndsAsDue(cfg, s, job, w, hasStorage, isDocumentUrl, outcome, s')
    {
      hide Run, TraceTo, LeadsTo, Leaves;
      if !d.Failure? && !d.Abandon? {
        EffectAfter(cfg, s, job, w, d, m);
        assert LeadsTo(cfg, s, job, w, hasStorage, isDocumentUrl, d);
        assert EndsWith(cfg, s, job, w, hasStorage, isDocumentUrl, d) <==> outcome != TurnFailed;
      }
      hide TakesEffect;
      forall e: Decision | EndsWith(cfg, s, job, w, hasStorage, isDocumentUrl, e)
        ensures e == d && outcome != TurnFailed
      {
        LedSomewhere(s, job, w, e);
      }
    }

    lemma LedSomewhere(s: Store, job: Job, w: Surroundings, d: Decision)
      requires EndsWith(cfg, s, job, w, hasStorage, isDocumentUrl, d)
      ensures !d.Failure? && !d.Abandon? && LeadsTo(cfg, s, job, w, hasStorage, isDocumentUrl, d)
    {
    }

    // A task is claimed, attended to and settled.
    method Turn(w: Surroundings) returns (outcome: RunOutcome, ghost trace: seq<Action>, ghost claim: Option<Job>)
      requires SystemOk(cfg, repository.State())
      modifies repository
      ensures repository.State() == Run(cfg, old(repository.State()), trace)
      ensures outcome !in {Idle, TurnFailed} ==> Confirmed(cfg, old(repository.State()), trace, outcome)
      ensures outcome == Idle <==> claim.None?
      ensures outcome == Idle && trace == w.start ==>
        forall k | k in repository.tasks && Claimable(repository.tasks[k], repository.now) :: k in w.skipped
      ensures outcome == Idle && trace != w.start ==> RejectsAsDue(old(repository.State()), w, trace)
      ensures claim.Some? ==>
        var job := claim.value;
        var claimed := Run(cfg, old(repository.State()), w.start + [Claim(job.id, workerId, job.leaseToken)]);
        && Known(claimed, job) && HoldsToken(claimed, job.leaseToken)
        && EndsAsDue(cfg, claimed, job, w, hasStorage, isDocumentUrl, outcome, repository.State())
    {
      hide SystemOk, Known, HoldsToken, Run, EndsAsDue, Confirmed, RejectsAsDue;
      ghost var before := repository.State();
      var job;
      job, trace := ClaimNext(w);
      claim := job;
      if job.None? {
        return Idle, trace, claim;
      }
      ghost var more;
      outcome, more := WorkOn(job.value, w);
      if outcome != TurnFailed {
        ConfirmedLater(cfg, before, trace, more, outcome);
      }
      RunConcat(cfg, before, trace, more);
      trace := trace + more;
    }

    // One turn of the worker. The turn is a run of the queue's steps whatever
    // happens around it, and it reports exactly what it was led to do and could
    // carry out under a lease that was current.
    method RunOnce(w: Surroundings) returns (outcome: RunOutcome, ghost trace: seq<Action>, ghost claim: Option<Job>)
      requires SystemOk(cfg, repository.State())
      modifies repository
      ensures repository.State() == Run(cfg, old(repository.State()), trace)
      ensures SystemOk(cfg, repository.State())
      ensures outcome !in {Idle, TurnFailed} ==> Confirmed(cfg, old(repository.State()), trace, outcome)
      ensures outcome == Idle <==> claim.None?
      ensures outcome == Idle && trace == w.start ==>
        forall k | k in repository.tasks && Claimable(repository.tasks[k], repository.now) :: k in w.skipped
      ensures outcome == Idle && trace != w.start ==> RejectsAsDue(old(repository.State()), w, trace)
      ensures claim.Some? ==>
        var job := claim.value;
        var claimed := Run(cfg, old(repository.State()), w.start + [Claim(job.id, workerId, job.leaseToken)]);
        && Known(claimed, job) && HoldsToken(claimed, job.leaseToken)
        && EndsAsDue(cfg, claimed, job, w, hasStorage, isDocumentUrl, outcome, repository.State())
    {
      hide SystemOk, Known, HoldsToken, Run, EndsAsDue, Confirmed, RejectsAsDue;
      ghost var before := repository.State();
      outcome, trace, claim := Turn(w);
      RunKeepsSystem(cfg, before, trace);
    }
  }

  // The action a turn's outcome stands for.
  predicate Confirms(outcome: RunOutcome, a: Action) {
    match outcome
    case TurnDeferred => a.Submit? || a.Defer?
    case TurnReviewRequired => a.SaveParsed? || a.RequireReview?
    case TurnCompleted => a.SaveEmbeddings?
    case _ => false
  }

  // The last action of the trace is the one the outcome stands for, and was
  // taken by a holder whose lease was current.
  ghost predicate Confirmed(cfg: Config, s: Store, trace: seq<Action>, outcome: RunOutcome) {
    && trace != [] && Confirms(outcome, trace[|trace| - 1])
    && HoldsToken(Run(cfg, s, trace[..|trace| - 1]), trace[|trace| - 1].token)
  }

  lemma ConfirmedLater(cfg: Config, s: Store, first: seq<Action>, more: seq<Action>, outcome: RunOutcome)
    requires Confirmed(cfg, Run(cfg, s, first), more, outcome)
    ensures Confirmed(cfg, s, first + more, outcome)
  {
    hide Run, HoldsToken, Confirms;
    assert (first + more)[..|first + more| - 1] == first + more[..|more| - 1];
    RunConcat(cfg, s, first, more[..|more| - 1]);
  }
}
