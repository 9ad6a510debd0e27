// What the knowledge worker publishes. Content is read in one statement and its
// chunks are written in a later transaction; between the two anybody may
// replace it. The invariant below holds over every run all the same.
module KnowledgePublication {
  import opened Options
  import opened KnowledgeTypes
  import opened KnowledgeSteps
  import opened KnowledgeProofs
  import opened KnowledgeFencing
  import opened Sequences
  import opened ReviewedChunks

  // No two contents have one hash.
  ghost predicate HashIsInjective(cfg: Config) {
    forall a, b | cfg.sha256(a) == cfg.sha256(b) :: a == b
  }

  // ----- what a publication must have passed

  // One of the runs seen: completed and approved under the policy, of low
  // risk, about this very version and hash, and with nothing left open.
  ghost predicate Vouches(cfg: Config, run: ReviewRun, versionId: string, hash: string) {
    && run.completed && run.approved && run.promptVersion == POLICY_VERSION
    && run.risk == Some(LowRisk)
    && cfg.reportMatches(run, versionId, hash) && cfg.isClean(run)
  }

  // An initial and a verifying run that are not the same one both vouch for it.
  ghost predicate IsVouchingPair(cfg: Config, rows: seq<ReviewRun>, versionId: string, hash: string,
                                 initial: ReviewRun, verify: ReviewRun)
  {
    && initial in rows && verify in rows && initial.id != verify.id
    && initial.phase == InitialPhase && verify.phase == VerifyPhase
    && Vouches(cfg, initial, versionId, hash) && Vouches(cfg, verify, versionId, hash)
  }

  // And the source had the rights and the evidence.
  ghost predicate PassedTwoRuns(cfg: Config, versionId: string, p: Publication) {
    && (exists initial, verify :: IsVouchingPair(cfg, p.runs, versionId, p.contentHash, initial, verify))
    && cfg.isAuthorized(p.source.facts, p.citation)
    && cfg.hasEvidence(p.source.facts, p.citation)
  }

  // What passes two filters, one after the other, is a row that meets both.
  lemma FirstOfFilters(rows: seq<ReviewRun>, p: ReviewRun -> bool, q: ReviewRun -> bool)
    requires Filter(Filter(rows, p), q) != []
    ensures var run := Filter(Filter(rows, p), q)[0]; run in rows && p(run) && q(run)
  {
    FilterIsExact(rows, p);
    FilterIsExact(Filter(rows, p), q);
    assert Filter(Filter(rows, p), q)[0] in Filter(Filter(rows, p), q);
  }

  lemma ReadyRunsVouch(cfg: Config, versionId: string, hash: string, rows: seq<ReviewRun>)
    requires RunsAreReady(cfg, versionId, hash, rows)
    ensures exists initial, verify :: IsVouchingPair(cfg, rows, versionId, hash, initial, verify)
  {
    var isEligible := (run: ReviewRun) => IsEligible(cfg, run, versionId, hash);
    var isInitial := (run: ReviewRun) => run.phase == InitialPhase;
    var isVerify := (run: ReviewRun) => run.phase == VerifyPhase;
    FirstOfFilters(rows, isEligible, isInitial);
    FirstOfFilters(rows, isEligible, isVerify);
    var initial := Filter(Filter(rows, isEligible), isInitial)[0];
    var verify := Filter(Filter(rows, isEligible), isVerify)[0];
    assert IsVouchingPair(cfg, rows, versionId, hash, initial, verify);
  }

  lemma AutomationReadyPassed(cfg: Config, s: Store, p: Payload)
    requires AutomationReady(cfg, s, p).Some?
    ensures p.review.Some? && AutomationReady(cfg, s, p).value.contentHash == p.review.value.contentHash
    ensures PassedTwoRuns(cfg, p.versionId, AutomationReady(cfg, s, p).value)
  {
    ReadyRunsVouch(cfg, p.versionId, p.review.value.contentHash, AutomationReady(cfg, s, p).value.runs);
  }

  // ----- the invariant

  // The chunks of the version are those of its own content, its hash is its
  // content's and the approved review's, and it passed.
  ghost predicate IsProperlyPublished(cfg: Config, versionId: string, v: Version, p: Publication) {
    && v.chunks == Chunks(v.content)
    && v.contentHash == Some(p.contentHash) && p.contentHash == cfg.sha256(v.content)
    && v.reviewApproved && v.reviewedHash == Some(p.contentHash)
    && PassedTwoRuns(cfg, versionId, p)
  }

  ghost predicate HashesFit(cfg: Config, versions: map<string, Version>) {
    forall id | id in versions :: HashFits(cfg, versions[id])
  }

  ghost predicate LoadedFits(cfg: Config, jobs: map<nat, Job>, loaded: map<nat, string>) {
    forall token | token in loaded :: token in jobs && MayEmbed(cfg, jobs[token].payload, loaded[token])
  }

  ghost predicate PublishedFits(cfg: Config, versions: map<string, Version>, publications: map<string, Publication>) {
    forall id | id in publications && id in versions && versions[id].status == Published ::
      IsProperlyPublished(cfg, id, versions[id], publications[id])
  }

  ghost predicate ContentOk(cfg: Config, s: Store) {
    && HashesFit(cfg, s.versions)
    && LoadedFits(cfg, s.jobs, s.loaded)
    && PublishedFits(cfg, s.versions, s.publications)
  }

  lemma InitialContentIsOk(cfg: Config, s: Store)
    requires Initial(cfg, s)
    ensures ContentOk(cfg, s)
  {
  }

  // ----- the steps

  lemma PutVersionKeeps(cfg: Config, s: Store, versionId: string, v: Version)
    requires ContentOk(cfg, s)
    ensures ContentOk(cfg, CommitPutVersion(cfg, s, versionId, v))
  {
  }

  lemma SaveParsedKeepsContent(cfg: Config, s: Store, job: Job, content: string, runId: string)
    requires ContentOk(cfg, s)
    ensures ContentOk(cfg, CommitSaveParsed(cfg, s, job, content, runId))
  {
    if CanSaveParsed(cfg, s, job, content) && runId !in s.runs {
      var s' := CommitSaveParsed(cfg, s, job, content, runId);
      var v' := ParsedVersion(cfg, s.versions[job.payload.versionId], job.payload.versionId, content);
      assert s'.versions == s.versions[job.payload.versionId := v'] && s'.publications == s.publications;
      assert s'.jobs == s.jobs && s'.loaded == s.loaded;
    }
  }

  lemma LoadedOneMore(cfg: Config, jobs: map<nat, Job>, loaded: map<nat, string>, token: nat, content: string)
    requires LoadedFits(cfg, jobs, loaded) && token in jobs && MayEmbed(cfg, jobs[token].payload, content)
    ensures LoadedFits(cfg, jobs, loaded[token := content])
  {
  }

  lemma LoadKeepsContent(cfg: Config, s: Store, token: nat)
    requires ContentOk(cfg, s) && token in s.jobs && s.jobs[token].leaseToken == token
    ensures ContentOk(cfg, CommitLoadApproved(cfg, s, s.jobs[token]))
  {
    var p := s.jobs[token].payload;
    if IsReviewed(cfg, p) && IsApproved(cfg, s, p) && MayEmbed(cfg, p, s.versions[p.versionId].content) {
      LoadedOneMore(cfg, s.jobs, s.loaded, token, s.versions[p.versionId].content);
    }
  }

  // The transaction finds the content that was loaded, or it does nothing.
  lemma LoadedIsCurrent(cfg: Config, s: Store, token: nat)
    requires HashIsInjective(cfg) && ContentOk(cfg, s) && token in s.loaded
    requires CanSaveEmbeddings(cfg, s, s.jobs[token])
    ensures s.loaded[token] == s.versions[s.jobs[token].payload.versionId].content
  {
    var v := s.versions[s.jobs[token].payload.versionId];
    assert HashFits(cfg, v) && MayEmbed(cfg, s.jobs[token].payload, s.loaded[token]);
    assert cfg.sha256(s.loaded[token]) == cfg.sha256(v.content);
  }

  lemma EmbeddedFits(cfg: Config, s: Store, token: nat)
    requires HashIsInjective(cfg) && ContentOk(cfg, s) && token in s.loaded
    requires CanSaveEmbeddings(cfg, s, s.jobs[token])
    requires AutomationReady(cfg, s, s.jobs[token].payload).Some?
    ensures var p := s.jobs[token].payload;
            var v := s.versions[p.versionId];
            IsProperlyPublished(cfg, p.versionId,
                                EmbeddedVersion(v, p.review.value.contentHash, Chunks(s.loaded[token]), true),
                                AutomationReady(cfg, s, p).value)
  {
    LoadedIsCurrent(cfg, s, token);
    AutomationReadyPassed(cfg, s, s.jobs[token].payload);
    assert HashFits(cfg, s.versions[s.jobs[token].payload.versionId]);
  }

  lemma PublishedAfter(cfg: Config, versions: map<string, Version>, publications: map<string, Publication>,
                       id: string, v: Version, p: Option<Publication>)
    requires PublishedFits(cfg, versions, publications)
    requires p.None? ==> v.status != Published
    requires p.Some? ==> IsProperlyPublished(cfg, id, v, p.value)
    ensures PublishedFits(cfg, versions[id := v], if p.Some? then publications[id := p.value] else publications - {id})
  {
  }

  lemma HashesFitAfter(cfg: Config, versions: map<string, Version>, id: string, v: Version)
    requires HashesFit(cfg, versions) && HashFits(cfg, v)
    ensures HashesFit(cfg, versions[id := v])
  {
  }

  lemma SaveEmbeddingsKeepsContent(cfg: Config, s: Store, token: nat)
    requires HashIsInjective(cfg) && ContentOk(cfg, s) && token in s.loaded
    ensures ContentOk(cfg, CommitSaveEmbeddings(cfg, s, s.jobs[token], Chunks(s.loaded[token])))
  {
    var job := s.jobs[token];
    if CanSaveEmbeddings(cfg, s, job) {
      var publication := AutomationReady(cfg, s, job.payload);
      var v := s.versions[job.payload.versionId];
      var v' := EmbeddedVersion(v, job.payload.review.value.contentHash, Chunks(s.loaded[token]), publication.Some?);
      if publication.Some? {
        EmbeddedFits(cfg, s, token);
      }
      EmbeddedKeepsContent(cfg, s, job, Chunks(s.loaded[token]), v', publication);
    }
  }

  lemma EmbeddedKeepsContent(cfg: Config, s: Store, job: Job, chunks: seq<KnowledgeChunk>,
                             v: Version, p: Option<Publication>)
    requires ContentOk(cfg, s) && CanSaveEmbeddings(cfg, s, job)
    requires p == AutomationReady(cfg, s, job.payload)
    requires v == EmbeddedVersion(s.versions[job.payload.versionId], job.payload.review.value.contentHash,
                                  chunks, p.Some?)
    requires p.Some? ==> IsProperlyPublished(cfg, job.payload.versionId, v, p.value)
    ensures ContentOk(cfg, CommitSaveEmbeddings(cfg, s, job, chunks))
  {
    var id := job.payload.versionId;
    assert HashFits(cfg, s.versions[id]);
    HashesFitAfter(cfg, s.versions, id, v);
    PublishedAfter(cfg, s.versions, s.publications, id, v, p);
    var s' := CommitSaveEmbeddings(cfg, s, job, chunks);
    assert s'.versions == s.versions[id := v] && s'.jobs == s.jobs && s'.loaded == s.loaded;
  }

  // The queue's own statements leave content alone.
  lemma QueueStepKeepsContent(cfg: Config, s: Store, a: Action)
    requires !IsContentStep(a) && !a.PutVersion?
    ensures var s' := Step(cfg, s, a);
            s'.versions == s.versions && s'.publications == s.publications && s'.loaded == s.loaded
  {
  }

  lemma LoadedStillFits(cfg: Config, s: Store, s': Store)
    requires LoadedFits(cfg, s.jobs, s.loaded) && s'.loaded == s.loaded
    requires forall token | token in s.jobs :: token in s'.jobs && s'.jobs[token] == s.jobs[token]
    ensures LoadedFits(cfg, s'.jobs, s'.loaded)
  {
  }

  lemma StepKeepsContent(cfg: Config, s: Store, a: Action)
    requires HashIsInjective(cfg) && QueueOk(cfg, s) && ContentOk(cfg, s)
    ensures ContentOk(cfg, Step(cfg, s, a))
  {
    if IsContentStep(a) {
      if Allowed(cfg, s, a) {
        match a
        case SaveParsed(token, content, runId) => SaveParsedKeepsContent(cfg, s, s.jobs[token], content, runId);
        case SaveEmbeddings(token) => SaveEmbeddingsKeepsContent(cfg, s, token);
        case LoadApproved(token) => LoadKeepsContent(cfg, s, token);
      }
    } else if a.PutVersion? {
      PutVersionKeeps(cfg, s, a.versionId, a.version);
    } else {
      QueueStepKeepsContent(cfg, s, a);
      StepIsLeaseStep(cfg, s, a);
      LoadedStillFits(cfg, s, Step(cfg, s, a));
    }
  }

  lemma {:induction false} RunKeepsContent(cfg: Config, s: Store, actions: seq<Action>)
    requires HashIsInjective(cfg) && QueueOk(cfg, s) && ContentOk(cfg, s)
    ensures ContentOk(cfg, Run(cfg, s, actions))
  {
    if actions != [] {
      RunKeepsContent(cfg, s, actions[..|actions| - 1]);
      RunKeeps(cfg, s, actions[..|actions| - 1]);
      StepKeepsContent(cfg, Run(cfg, s, actions[..|actions| - 1]), actions[|actions| - 1]);
    }
  }

  // ----- main results

  // Over every run: a version that is published because these steps published
  // it has exactly the chunks of its present content, a hash that is its
  // content's and the approved review's, and passed the two-run test for that hash.
  lemma PublishedIsReviewedContent(cfg: Config, s: Store, actions: seq<Action>, versionId: string)
    requires HashIsInjective(cfg) && Initial(cfg, s)
    requires var s' := Run(cfg, s, actions);
             versionId in s'.publications && versionId in s'.versions && s'.versions[versionId].status == Published
    ensures var s' := Run(cfg, s, actions);
            IsProperlyPublished(cfg, versionId, s'.versions[versionId], s'.publications[versionId])
  {
    InitialIsOk(cfg, s);
    InitialContentIsOk(cfg, s);
    RunKeepsContent(cfg, s, actions);
  }

  ghost predicate IsReplaced(s: Store, token: nat) {
    && token in s.loaded && token in s.jobs && s.jobs[token].payload.versionId in s.versions
    && s.versions[s.jobs[token].payload.versionId].content != s.loaded[token]
  }

  lemma ReplacedIsRefused(cfg: Config, s: Store, token: nat)
    requires HashIsInjective(cfg) && ContentOk(cfg, s) && IsReplaced(s, token)
    ensures !CanSaveEmbeddings(cfg, s, s.jobs[token])
  {
    if CanSaveEmbeddings(cfg, s, s.jobs[token]) {
      LoadedIsCurrent(cfg, s, token);
    }
  }

  lemma RefusedSaveChangesNothing(cfg: Config, s: Store, token: nat)
    requires token in s.jobs && !CanSaveEmbeddings(cfg, s, s.jobs[token])
    ensures Step(cfg, s, SaveEmbeddings(token)) == s
  {
  }

  // Content that was replaced between loading and saving is not published, nor
  // are the old content's chunks saved for it: the transaction changes nothing.
  lemma ReplacedContentIsLeftAlone(cfg: Config, s: Store, actions: seq<Action>, token: nat)
    requires HashIsInjective(cfg) && Initial(cfg, s) && IsReplaced(Run(cfg, s, actions), token)
    ensures Step(cfg, Run(cfg, s, actions), SaveEmbeddings(token)) == Run(cfg, s, actions)
  {
    InitialIsOk(cfg, s);
    InitialContentIsOk(cfg, s);
    RunKeepsContent(cfg, s, actions);
    ReplacedIsRefused(cfg, Run(cfg, s, actions), token);
    RefusedSaveChangesNothing(cfg, Run(cfg, s, actions), token);
  }

  // ----- review sections

  // Every review section carries the hash the version has now.
  ghost predicate SectionsFit(v: Version) {
    forall i | 0 <= i < |v.sections| :: v.contentHash == Some(v.sections[i].versionContentHash)
  }

  ghost predicate SectionsFitIn(s: Store, versionId: string) {
    versionId in s.versions ==> SectionsFit(s.versions[versionId])
  }

  lemma ParsedSectionsFit(cfg: Config, v: Version, versionId: string, content: string)
    ensures SectionsFit(ParsedVersion(cfg, v, versionId, content))
  {
  }

  lemma StepKeepsSections(cfg: Config, s: Store, a: Action, versionId: string)
    requires JobsOk(s) && SectionsFitIn(s, versionId)
    requires a.PutVersion? && a.versionId == versionId ==> SectionsFit(a.version)
    ensures SectionsFitIn(Step(cfg, s, a), versionId)
  {
    if IsContentStep(a) {
      if a.SaveParsed? && Step(cfg, s, a) != s {
        var p := s.jobs[a.token].payload;
        ParsedSectionsFit(cfg, s.versions[p.versionId], p.versionId, a.content);
      }
    } else if !a.PutVersion? {
      QueueStepKeepsContent(cfg, s, a);
    }
  }

  // Sections written by OCR carry the version's hash, and keep carrying it for
  // as long as nobody else writes the version with sections that do not fit.
  lemma {:induction false} SectionsCarryTheHash(cfg: Config, s: Store, actions: seq<Action>, versionId: string)
    requires QueueOk(cfg, s) && SectionsFitIn(s, versionId)
    requires forall i | 0 <= i < |actions| && actions[i].PutVersion? && actions[i].versionId == versionId ::
               SectionsFit(actions[i].version)
    ensures SectionsFitIn(Run(cfg, s, actions), versionId)
  {
    if actions != [] {
      SectionsCarryTheHash(cfg, s, actions[..|actions| - 1], versionId);
      RunKeeps(cfg, s, actions[..|actions| - 1]);
      StepKeepsSections(cfg, Run(cfg, s, actions[..|actions| - 1]), actions[|actions| - 1], versionId);
    }
  }
}
