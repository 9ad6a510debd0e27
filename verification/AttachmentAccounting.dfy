// Attempts, polls and claims over whole runs of the attachment queue.
module AttachmentAccounting {
  import opened AttachmentTypes
  import opened AttachmentSteps
  import opened AttachmentProofs

  lemma InitialIsOk(cfg: Config, s: Store)
    requires Initial(cfg, s)
    ensures QueueOk(cfg, s)
  {
  }

  lemma AttemptsOfRow(cfg: Config, s: Store, id: string)
    requires QueueOk(cfg, s) && id in s.attachments
    ensures var r, t := s.attachments[id], TallyOf(s, id);
            && r.attempts == t.retries + t.expiries + Leased(r) + t.ended
            && Leased(r) + t.ended <= 1
            && (r.parseStatus == Parsing ==> Max(r.attempts - 1, 0) == r.attempts - 1)
            && r.attempts <= r.maxAttempts + t.expiries
  {
    assert RowOk(cfg, s, id);
  }

  // Attempts are exactly the retryable failures, the lease expiries, and one
  // for the claim that is running or that ended the row. The refund of a
  // submission or a poll therefore never meets its clamp at zero, and without
  // expiries the maximum is never exceeded.
  lemma AttemptsAccountedFor(cfg: Config, s: Store, actions: seq<Action>, id: string)
    requires Initial(cfg, s) && id in Run(cfg, s, actions).attachments
    ensures var s' := Run(cfg, s, actions);
            var r, t := s'.attachments[id], TallyOf(s', id);
            && r.attempts == t.retries + t.expiries + Leased(r) + t.ended
            && Leased(r) + t.ended <= 1
            && (r.parseStatus == Parsing ==> Max(r.attempts - 1, 0) == r.attempts - 1)
            && r.attempts <= r.maxAttempts + t.expiries
  {
    InitialIsOk(cfg, s);
    RunKeeps(cfg, s, actions);
    AttemptsOfRow(cfg, Run(cfg, s, actions), id);
  }

  // While a job's lease is current, what the worker holds is what the row says.
  lemma JobInHandIsTheRow(cfg: Config, s: Store, actions: seq<Action>, token: nat)
    requires Initial(cfg, s) && HoldsToken(Run(cfg, s, actions), token)
    ensures var s' := Run(cfg, s, actions);
            var job := s'.jobs[token];
            var r := s'.attachments[job.id];
            && job.attempts == r.attempts && job.maxAttempts == r.maxAttempts
            && job.pollCount == r.pollCount && job.submittedAt == r.submittedAt
            && job.parserJobId == r.parserJobId && job.objectKey == r.objectKey && job.mimeType == r.mimeType
  {
    InitialIsOk(cfg, s);
    RunKeeps(cfg, s, actions);
    JobMatchesRow(cfg, Run(cfg, s, actions), token);
  }

  // ----- termination

  lemma ClaimsBounded(cfg: Config, s: Store, actions: seq<Action>, id: string)
    requires Initial(cfg, s)
    ensures var t := TallyOf(Run(cfg, s, actions), id);
            t.claims <= 1 + cfg.maxPolls + cfg.maxAttempts + t.expiries + t.blankSubmissions
  {
    InitialIsOk(cfg, s);
    RunKeeps(cfg, s, actions);
  }

  ghost predicate ParserNamesItsJobs(actions: seq<Action>) {
    forall i | 0 <= i < |actions| && actions[i].Submit? :: actions[i].parserJobId != ""
  }

  lemma StepCountsBlankSubmissions(cfg: Config, s: Store, a: Action, id: string)
    requires a.Submit? ==> a.parserJobId != ""
    ensures TallyOf(Step(cfg, s, a), id).blankSubmissions == TallyOf(s, id).blankSubmissions
  {
    if a.SweepOrphans? && Sweepable(s, a.ids, a.limit) {
      RemovedAllOnlyRemoves(s, a.ids);
    }
  }

  lemma {:induction false} NoBlankSubmissions(cfg: Config, s: Store, actions: seq<Action>, id: string)
    requires Initial(cfg, s) && ParserNamesItsJobs(actions)
    ensures TallyOf(Run(cfg, s, actions), id).blankSubmissions == 0
  {
    if actions != [] {
      var n := |actions| - 1;
      NoBlankSubmissions(cfg, s, actions[..n], id);
      StepCountsBlankSubmissions(cfg, Run(cfg, s, actions[..n]), actions[n], id);
    }
  }

  // With a parser that names its jobs, an attachment is claimed a bounded
  // number of times whatever happens: one submission, the polls of the budget,
  // the attempts allowed, and one claim per lease that ran out.
  lemma ClaimsTerminate(cfg: Config, s: Store, actions: seq<Action>, id: string)
    requires Initial(cfg, s) && ParserNamesItsJobs(actions)
    ensures var t := TallyOf(Run(cfg, s, actions), id);
            t.claims <= 1 + cfg.maxPolls + cfg.maxAttempts + t.expiries
  {
    ClaimsBounded(cfg, s, actions, id);
    NoBlankSubmissions(cfg, s, actions, id);
  }

  // A parser that answers with an empty job id is submitted to again at every
  // claim, at no cost in attempts: no number bounds the claims.
  const ENDLESS: Upload := Upload("u", Document, "application/pdf", "k", 1, 0)

  function EndlessRun(n: nat): seq<Action> {
    if n == 0 then [Register("a", ENDLESS, 10), BeginCompletion("a"), CompleteUpload("a", 1)]
    else EndlessRun(n - 1) + [Claim("a", "w", n), Submit(n, "", 0)]
  }

  const EMPTY_STORE := Store(0, map[], map[], map[], map[], map[], map[])

  // The attachment waits to be claimed, n claims old, with no parser job.
  ghost predicate Waiting(s: Store, n: nat) {
    && s.now == 0 && "a" in s.attachments && "a" in s.tallies
    && (forall token | token in s.jobs :: token <= n)
    && Claimable(s.attachments["a"], 0)
    && s.attachments["a"].parseStatus == Queued
    && s.attachments["a"].mimeType == "application/pdf"
    && !HasParserJob(s.attachments["a"].parserJobId)
    && s.tallies["a"].claims == n && s.tallies["a"].expiries == 0
  }

  lemma UploadedIsWaiting(cfg: Config)
    ensures Waiting(Run(cfg, EMPTY_STORE, EndlessRun(0)), 0)
  {
    var upload := EndlessRun(0);
    RunPrefix(cfg, EMPTY_STORE, upload, 0);
    RunPrefix(cfg, EMPTY_STORE, upload, 1);
    RunPrefix(cfg, EMPTY_STORE, upload, 2);
    assert upload[..0] == [] && upload[..3] == upload;
    var s1 := Step(cfg, EMPTY_STORE, upload[0]);
    assert s1.attachments["a"] == Uploaded(cfg, ENDLESS, 0);
    var s2 := Step(cfg, s1, upload[1]);
    assert s2.attachments["a"].status == Scanning;
  }

  lemma ClaimAndSubmitBlank(cfg: Config, s: Store, n: nat)
    requires Waiting(s, n)
    ensures Waiting(Step(cfg, Step(cfg, s, Claim("a", "w", n + 1)), Submit(n + 1, "", 0)), n + 1)
  {
    var m := Step(cfg, s, Claim("a", "w", n + 1));
    assert Current(m, m.jobs[n + 1]);
    assert Allowed(cfg, m, Submit(n + 1, "", 0));
  }

  lemma RunTwoMore(cfg: Config, s: Store, actions: seq<Action>, a: Action, b: Action)
    ensures Run(cfg, s, actions + [a, b]) == Step(cfg, Step(cfg, Run(cfg, s, actions), a), b)
  {
    var all := actions + [a, b];
    assert all[..|actions| + 2] == all;
    assert all[..|actions|] == actions;
    RunPrefix(cfg, s, all, |actions|);
    RunPrefix(cfg, s, all, |actions| + 1);
  }

  lemma {:induction false} EndlessRunWaits(cfg: Config, n: nat)
    ensures Waiting(Run(cfg, EMPTY_STORE, EndlessRun(n)), n)
  {
    if n == 0 {
      UploadedIsWaiting(cfg);
    } else {
      EndlessRunWaits(cfg, n - 1);
      RunTwoMore(cfg, EMPTY_STORE, EndlessRun(n - 1), Claim("a", "w", n), Submit(n, "", 0));
      ClaimAndSubmitBlank(cfg, Run(cfg, EMPTY_STORE, EndlessRun(n - 1)), n - 1);
    }
  }

  // The job ids the parser answers with in a run.
  ghost predicate AnswersIn(actions: seq<Action>, answers: string -> bool) {
    forall i | 0 <= i < |actions| && actions[i].Submit? :: answers(actions[i].parserJobId)
  }

  lemma {:induction false} EndlessRunAnswersBlank(n: nat)
    ensures AnswersIn(EndlessRun(n), job => job == "")
  {
    if n > 0 {
      EndlessRunAnswersBlank(n - 1);
      var before, run := EndlessRun(n - 1), EndlessRun(n);
      forall i | 0 <= i < |run| && run[i].Submit? ensures run[i].parserJobId == "" {
        if i < |before| {
          assert run[i] == before[i];
        }
      }
    }
  }

  // With the empty job id for its only answer, a parser leaves an attachment
  // waiting to be submitted again after any number of claims, and no lease expired.
  lemma BlankJobIdNeverTerminates(cfg: Config, n: nat)
    ensures exists actions :: AnswersIn(actions, job => job == "") && Waiting(Run(cfg, EMPTY_STORE, actions), n)
  {
    EndlessRunAnswersBlank(n);
    EndlessRunWaits(cfg, n);
    assert AnswersIn(EndlessRun(n), job => job == "") && Waiting(Run(cfg, EMPTY_STORE, EndlessRun(n)), n);
  }

  // In no run from an empty queue with such answers does any attachment have
  // more claims than expiries by more than the bound.
  ghost predicate ClaimsWithin(cfg: Config, answers: string -> bool, bound: int) {
    forall s, actions, id | Initial(cfg, s) && AnswersIn(actions, answers) ::
      TallyOf(Run(cfg, s, actions), id).claims - TallyOf(Run(cfg, s, actions), id).expiries <= bound
  }

  // For every set of answers a parser can give: claims are bounded, expiries
  // apart, if and only if the empty job id is none of them.
  lemma ClaimsBoundedIff(cfg: Config, answers: string -> bool)
    requires cfg.maxAttempts > 0
    ensures (exists bound :: ClaimsWithin(cfg, answers, bound)) <==> !answers("")
  {
    if answers("") {
      forall bound ensures !ClaimsWithin(cfg, answers, bound) {
        var n: nat := if bound < 0 then 0 else bound + 1;
        EndlessRunAnswersBlank(n);
        EndlessRunWaits(cfg, n);
        assert Initial(cfg, EMPTY_STORE) && AnswersIn(EndlessRun(n), answers);
        var t := TallyOf(Run(cfg, EMPTY_STORE, EndlessRun(n)), "a");
        assert t.claims - t.expiries > bound;
      }
    } else {
      var bound := 1 + cfg.maxPolls + cfg.maxAttempts;
      forall s, actions, id | Initial(cfg, s) && AnswersIn(actions, answers)
        ensures TallyOf(Run(cfg, s, actions), id).claims - TallyOf(Run(cfg, s, actions), id).expiries <= bound
      {
        ClaimsTerminate(cfg, s, actions, id);
      }
      assert ClaimsWithin(cfg, answers, bound);
    }
  }

  // ----- ready and failed are absorbing

  predicate IsEnded(r: Attachment) {
    r.parseStatus in {Parsed, ParseFailed}
  }

  // Nothing claims the row, and nobody holds it.
  ghost predicate LeftAlone(s: Store, s': Store, id: string)
    requires id in s.attachments
  {
    && TallyOf(s', id) == TallyOf(s, id)
    && (id in s'.attachments ==>
      && s'.attachments[id].status == s.attachments[id].status
      && s'.attachments[id].parseStatus == s.attachments[id].parseStatus
      && s'.attachments[id].chunks == s.attachments[id].chunks)
  }

  lemma PutLeavesAlone(s: Store, id: string, r: Attachment, t: Tally, k: string)
    requires k in s.attachments && k != id
    ensures LeftAlone(s, Put(s, id, r, t), k)
  {
  }

  lemma ClaimLeavesEnded(s: Store, claimed: string, worker: string, token: nat, id: string)
    requires id in s.attachments && IsEnded(s.attachments[id])
    ensures LeftAlone(s, CommitClaim(s, claimed, worker, token), id)
  {
  }

  lemma HolderLeavesEnded(cfg: Config, s: Store, a: Action, id: string)
    requires id in s.attachments && IsEnded(s.attachments[id])
    requires a.Renew? || a.Submit? || a.Defer? || a.Complete? || a.Fail?
    ensures LeftAlone(s, Step(cfg, s, a), id)
  {
    if Step(cfg, s, a) != s {
      var k := s.jobs[a.token].id;
      PutLeavesAlone(s, k, Step(cfg, s, a).attachments[k], Step(cfg, s, a).tallies[k], id);
    }
  }

  lemma CompleteUploadLeavesEnded(s: Store, completed: string, size: nat, id: string)
    requires id in s.attachments && s.attachments[id].quotaState != Reserved
    ensures LeftAlone(s, CommitCompleteUpload(s, completed, size), id)
  {
  }

  lemma RegisterLeavesEnded(cfg: Config, s: Store, registered: string, u: Upload, quota: int, id: string)
    requires id in s.attachments
    ensures LeftAlone(s, CommitRegister(cfg, s, registered, u, quota), id)
  {
  }

  lemma BeginCompletionLeavesEnded(s: Store, begun: string, id: string)
    requires id in s.attachments && s.attachments[id].quotaState != Reserved
    ensures LeftAlone(s, CommitBeginCompletion(s, begun), id)
  {
  }

  lemma BindLeavesAlone(s: Store, bound: string, messageId: string, id: string)
    requires id in s.attachments
    ensures LeftAlone(s, CommitBind(s, bound, messageId), id)
  {
  }

  lemma UploadLeavesEnded(cfg: Config, s: Store, a: Action, id: string)
    requires id in s.attachments && IsEnded(s.attachments[id]) && s.attachments[id].quotaState != Reserved
    requires a.Register? || a.BeginCompletion? || a.CompleteUpload? || a.Bind?
    ensures LeftAlone(s, Step(cfg, s, a), id)
  {
    match a
    case Register(k, upload, quota) => RegisterLeavesEnded(cfg, s, k, upload, quota, id);
    case BeginCompletion(k) => BeginCompletionLeavesEnded(s, k, id);
    case CompleteUpload(k, size) => CompleteUploadLeavesEnded(s, k, size, id);
    case Bind(k, messageId) => BindLeavesAlone(s, k, messageId, id);
  }

  lemma StepKeepsEnded(cfg: Config, s: Store, a: Action, id: string)
    requires id in s.attachments && IsEnded(s.attachments[id]) && s.attachments[id].quotaState != Reserved
    ensures LeftAlone(s, Step(cfg, s, a), id)
  {
    if LeavesQueue(a) {
      OtherStepOnlyRemoves(cfg, s, a);
    } else if a.Claim? {
      ClaimLeavesEnded(s, a.id, a.worker, a.token, id);
    } else if a.Renew? || a.Submit? || a.Defer? || a.Complete? || a.Fail? {
      HolderLeavesEnded(cfg, s, a, id);
    } else {
      UploadLeavesEnded(cfg, s, a, id);
    }
  }

  lemma StepKeepsRemoved(cfg: Config, s: Store, a: Action, id: string)
    requires id in s.tallies && id !in s.attachments
    ensures var s' := Step(cfg, s, a);
            id in s'.tallies && id !in s'.attachments && s'.tallies[id] == s.tallies[id]
  {
    if LeavesQueue(a) {
      OtherStepOnlyRemoves(cfg, s, a);
    }
  }

  // Once an attachment is ready or failed it is never claimed again, and its
  // result stays as it is for as long as the row exists.
  lemma {:induction false} EndedIsAbsorbing(cfg: Config, s: Store, actions: seq<Action>, id: string)
    requires QueueOk(cfg, s) && id in s.tallies
    requires id in s.attachments ==> IsEnded(s.attachments[id])
    ensures var s' := Run(cfg, s, actions);
            && id in s'.tallies
            && s'.tallies[id] == s.tallies[id]
            && (id in s'.attachments ==>
              && id in s.attachments
              && s'.attachments[id].status == s.attachments[id].status
              && s'.attachments[id].parseStatus == s.attachments[id].parseStatus
              && s'.attachments[id].chunks == s.attachments[id].chunks)
  {
    if actions != [] {
      var n := |actions| - 1;
      EndedIsAbsorbing(cfg, s, actions[..n], id);
      var m := Run(cfg, s, actions[..n]);
      RunKeeps(cfg, s, actions[..n]);
      if id in m.attachments {
        assert RowOk(cfg, m, id);
        StepKeepsEnded(cfg, m, actions[n], id);
        StepKeepsTallies(cfg, m, actions[n]);
      } else {
        StepKeepsRemoved(cfg, m, actions[n], id);
      }
    }
  }

  lemma StepKeepsTallies(cfg: Config, s: Store, a: Action)
    ensures s.tallies.Keys <= Step(cfg, s, a).tallies.Keys
  {
    if a.SweepOrphans? && Sweepable(s, a.ids, a.limit) {
      RemovedAllOnlyRemoves(s, a.ids);
    }
  }
}
