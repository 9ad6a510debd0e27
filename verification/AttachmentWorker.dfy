// ChatStorageWorker (src/worker/chat-storage.ts). What other parties do while
// a call is awaited, and what providers answer, are parameters; the result is
// proved for all of them.
module AttachmentWorker {
  import opened Options
  import opened AttachmentTypes
  import opened AttachmentSteps
  import opened AttachmentProofs
  import opened AttachmentFencing
  import opened AttachmentRepository
  import opened Awaiting
  import opened Identifiers
  import opened AttachmentTurns
  import AttachmentChunks

  class ChatStorageWorker {
    const repository: Repository
    const cfg: Config
    const workerId: string
    const pollInterval: int
    const retryDelay: int

    constructor (repository: Repository, cfg: Config, workerId: string, pollInterval: int, retryDelay: int)
      ensures this.repository == repository && this.cfg == cfg
    {
      this.repository := repository;
      this.cfg := cfg;
      this.workerId := workerId;
      this.pollInterval := pollInterval;
      this.retryDelay := retryDelay;
    }

    // What others do, and then a renewal.
    method ElapseAndRenew(job: ParseJob, others: seq<Action>) returns (r: Outcome, ghost trace: seq<Action>)
      requires Known(repository.State(), job)
      modifies repository
      ensures trace == others + [Renew(job.leaseToken)]
      ensures repository.State() == Run(cfg, old(repository.State()), trace)
      ensures Known(repository.State(), job)
      ensures r == if HoldsToken(repository.State(), job.leaseToken) then Done else Stale
      ensures others == [] ==> HoldsToken(repository.State(), job.leaseToken) ==
                               HoldsToken(old(repository.State()), job.leaseToken)
    {
      ghost var before := repository.State();
      repository.Elapse(cfg, others);
      KnownStays(cfg, before, others, job);
      RenewIsStep(cfg, Run(cfg, before, others), job);
      r := repository.RenewAttachmentLease(job);
      OneMore(cfg, before, others, Renew(job.leaseToken));
      trace := others + [Renew(job.leaseToken)];
      KnownStays(cfg, before, trace, job);
    }

    // The timer: a renewal at every beat until one fails. The error is a stale lease or a database that is down.
    method Heartbeats(job: ParseJob, beats: seq<Beat<Action>>)
        returns (leaseError: Option<bool>, ghost trace: seq<Action>)
      requires Known(repository.State(), job)
      modifies repository
      ensures repository.State() == Run(cfg, old(repository.State()), trace)
      ensures Known(repository.State(), job)
      ensures leaseError.None? ==> AllUp(beats) && trace == BeatTrace(beats, Renew(job.leaseToken))
      ensures leaseError == Some(false) ==> !AllUp(beats)
      ensures leaseError == Some(true) ==> LosesAtBeat(old(repository.State()), beats, job.leaseToken)
    {
      hide Run, HoldsToken, BeatTrace, AllUp, LosesAtBeat;
      ghost var before, renew := repository.State(), Renew(job.leaseToken);
      leaseError := None;
      trace := [];
      NoBeats(before, beats, renew);
      for i := 0 to |beats|
        invariant repository.State() == Run(cfg, before, trace) && Known(repository.State(), job)
        invariant leaseError.None? ==> AllUp(beats[..i]) && trace == BeatTrace(beats[..i], renew)
        invariant leaseError == Some(false) ==> !AllUp(beats)
        invariant leaseError == Some(true) ==> LosesAtBeat(before, beats, job.leaseToken)
      {
        OneMoreBeat(beats, i, renew);
        ghost var more;
        if leaseError.None? && beats[i].databaseUp {
          var renewed;
          renewed, more := ElapseAndRenew(job, beats[i].others);
          RunConcat(cfg, before, trace, more);
          if renewed == Stale {
            leaseError := Some(true);
            LostAtBeat(before, beats, i + 1, job.leaseToken);
          }
        } else {
          repository.Elapse(cfg, beats[i].others);
          more := beats[i].others;
          RunConcat(cfg, before, trace, more);
          KnownStays(cfg, Run(cfg, before, trace), more, job);
          if leaseError.None? {
            leaseError := Some(false);
          }
        }
        trace := trace + more;
      }
      assert beats[..|beats|] == beats;
    }

    lemma NoBeats(s: Store, beats: seq<Beat<Action>>, renew: Action)
      ensures Run(cfg, s, []) == s && BeatTrace(beats[..0], renew) == [] && AllUp(beats[..0])
    {
    }

    lemma LostAtBeat(s: Store, beats: seq<Beat<Action>>, i: nat, token: nat)
      requires 0 < i <= |beats| && !HoldsToken(Run(cfg, s, BeatTrace(beats[..i], Renew(token))), token)
      ensures LosesAtBeat(s, beats, token)
    {
    }

    ghost predicate LosesAtBeat(s: Store, beats: seq<Beat<Action>>, token: nat) {
      exists i | 0 < i <= |beats| :: !HoldsToken(Run(cfg, s, BeatTrace(beats[..i], Renew(token))), token)
    }

    lemma BeatLosesCall<T>(s: Store, call: Awaited<Action, T>, token: nat)
      requires LosesAtBeat(Run(cfg, s, [Renew(token)]), call.beats, token)
      ensures !Undisturbed(cfg, s, token, call)
    {
      hide HoldsToken, Run;
      var renew := Renew(token);
      var i :| 0 < i <= |call.beats|
        && !HoldsToken(Run(cfg, Run(cfg, s, [renew]), BeatTrace(call.beats[..i], renew)), token);
      RunConcat(cfg, s, [renew], BeatTrace(call.beats[..i], renew));
      BeatsBeginTrace(call, i, renew);
      LostAtPrefix(cfg, s, [renew] + BeatTrace(call.beats[..i], renew), FullTrace(call, renew), token);
    }

    lemma EndsLoseCall<T>(s: Store, call: Awaited<Action, T>, token: nat)
      requires !HoldsToken(s, token) || !HoldsToken(After(cfg, s, token, call), token)
      ensures !Undisturbed(cfg, s, token, call)
    {
      if Undisturbed(cfg, s, token, call) {
        HeldAtEnds(cfg, s, FullTrace(call, Renew(token)), token);
      }
    }

    // Renew, run the operation with heartbeats, renew again. An answer comes
    // back exactly when nothing disturbed the call.
    method WithAttachmentLease<T>(job: ParseJob, operation: Awaited<Action, T>)
        returns (r: Leased<T>, ghost trace: seq<Action>)
      requires QueueOk(cfg, repository.State()) && Known(repository.State(), job)
      modifies repository
      ensures repository.State() == Run(cfg, old(repository.State()), trace)
      ensures QueueOk(cfg, repository.State()) && Known(repository.State(), job)
      ensures r.Got? <==> Undisturbed(cfg, old(repository.State()), job.leaseToken, operation)
      ensures r.Got? ==> operation.reply == Value(r.value) && trace == FullTrace(operation, Renew(job.leaseToken))
      ensures r.Got? ==> HeldAllAlong(cfg, old(repository.State()), trace, job.leaseToken)
      ensures !HoldsToken(old(repository.State()), job.leaseToken) ==> r == Lost
      ensures HoldsToken(old(repository.State()), job.leaseToken) && operation.reply.Raised? ==>
        r == Broke(operation.reply.retryable)
      ensures operation.reply.Value? && r.Broke? ==> r.retryable && !AllUp(operation.beats)
    {
      hide QueueOk, HoldsToken, Run, Undisturbed;
      ghost var before, renew := repository.State(), Renew(job.leaseToken);
      var first;
      first, trace := ElapseAndRenew(job, []);
      assert trace == [renew];
      if first == Stale {
        EndsLoseCall(before, operation, job.leaseToken);
        RunKeeps(cfg, before, trace);
        return Lost, trace;
      }
      var leaseError;
      ghost var beaten;
      leaseError, beaten := Heartbeats(job, operation.beats);
      RunConcat(cfg, before, trace, beaten);
      trace := trace + beaten;
      repository.Elapse(cfg, operation.others);
      KnownStays(cfg, Run(cfg, before, trace), operation.others, job);
      RunConcat(cfg, before, trace, operation.others);
      trace := trace + operation.others;
      if operation.reply.Raised? {
        RaisedIsDisturbed(before, operation, job.leaseToken);
        RunKeeps(cfg, before, trace);
        return Broke(operation.reply.retryable), trace;
      }
      if leaseError.Some? {
        RunKeeps(cfg, before, trace);
        if leaseError.value {
          BeatLosesCall(before, operation, job.leaseToken);
          return Lost, trace;
        }
        DownIsDisturbed(before, operation, job.leaseToken);
        return Broke(true), trace;
      }
      var last;
      ghost var end;
      last, end := ElapseAndRenew(job, []);
      RunConcat(cfg, before, trace, end);
      trace := trace + end;
      assert trace == FullTrace(operation, renew);
      RunKeeps(cfg, before, trace);
      if last == Stale {
        EndsLoseCall(before, operation, job.leaseToken);
        return Lost, trace;
      }
      HeldBetweenEnds(cfg, before, trace, job.leaseToken);
      NothingDisturbed(before, operation, job.leaseToken);
      return Got(operation.reply.value), trace;
    }

    lemma RaisedIsDisturbed<T>(s: Store, call: Awaited<Action, T>, token: nat)
      requires call.reply.Raised?
      ensures !Undisturbed(cfg, s, token, call)
    {
    }

    lemma DownIsDisturbed<T>(s: Store, call: Awaited<Action, T>, token: nat)
      requires !AllUp(call.beats)
      ensures !Undisturbed(cfg, s, token, call)
    {
    }

    lemma NothingDisturbed<T>(s: Store, call: Awaited<Action, T>, token: nat)
      requires call.reply.Value? && AllUp(call.beats)
      requires HeldAllAlong(cfg, s, FullTrace(call, Renew(token)), token)
      ensures Undisturbed(cfg, s, token, call)
    {
    }

    // The chunks a reply of a provider turns into, or a failure worth a retry.
    function SaveOrFail(chunks: Option<seq<Chunk>>): Decision {
      if chunks.Some? then Save(chunks.value) else Failure(true)
    }

    // A text file: fetched under the lease and chunked here.
    method AttendText(job: ParseJob, w: Surroundings) returns (d: Decision, ghost trace: seq<Action>)
      requires QueueOk(cfg, repository.State()) && Known(repository.State(), job)
      modifies repository
      ensures repository.State() == Run(cfg, old(repository.State()), trace)
      ensures QueueOk(cfg, repository.State()) && Known(repository.State(), job)
      ensures forall chunks :: TextSaves(cfg, old(repository.State()), job, w, chunks) <==> d == Save(chunks)
      ensures d.Save? || d in {Abandon, Failure(true), Failure(false)}
      ensures d.Save? ==>
        && trace == FullTrace(w.bytes, Renew(job.leaseToken))
        && HeldAllAlong(cfg, old(repository.State()), trace, job.leaseToken)
      ensures Undisturbed(cfg, old(repository.State()), job.leaseToken, w.bytes) ==> d.Save? || d == Failure(true)
      ensures !HoldsToken(old(repository.State()), job.leaseToken) ==> d == Abandon
    {
      hide QueueOk, HoldsToken, Run, Undisturbed, HeldAllAlong;
      var got;
      got, trace := WithAttachmentLease(job, w.bytes);
      match got
      case Lost => d := Abandon;
      case Broke(retryable) => d := Failure(retryable);
      case Got(text) =>
        var chunks := AttachmentChunks.ChunksForLocalText(job.mimeType, text);
        d := SaveOrFail(chunks);
    }

    // A document without a parser job: a PDF may have its own text; otherwise it is submitted.
    method AttendNew(job: ParseJob, w: Surroundings) returns (d: Decision, ghost trace: seq<Action>)
      requires QueueOk(cfg, repository.State()) && Known(repository.State(), job)
      modifies repository
      ensures repository.State() == Run(cfg, old(repository.State()), trace)
      ensures QueueOk(cfg, repository.State()) && Known(repository.State(), job)
      ensures forall chunks :: PdfSaves(cfg, old(repository.State()), job, w, chunks) <==> d == Save(chunks)
      ensures forall id :: Submits(cfg, old(repository.State()), job, w, id) <==> d == Submission(id)
      ensures d.Save? || d.Submission? || d in {Abandon, Failure(true), Failure(false)}
      ensures d.Save? ==> trace == FullTrace(w.pdf, Renew(job.leaseToken))
      ensures d.Submission? ==>
        trace == (if job.mimeType == "application/pdf" then FullTrace(w.pdf, Renew(job.leaseToken)) else [])
                 + FullTrace(w.submit, Renew(job.leaseToken))
      ensures d.Save? || d.Submission? ==> HeldAllAlong(cfg, old(repository.State()), trace, job.leaseToken)
      ensures && job.mimeType == "application/pdf"
              && Undisturbed(cfg, old(repository.State()), job.leaseToken, w.pdf) && w.pdf.reply.value.Some?
              ==> d.Save? || d == Failure(true)
      ensures !HoldsToken(old(repository.State()), job.leaseToken) ==> d == Abandon
    {
      hide QueueOk, HoldsToken, Run, Undisturbed, HeldAllAlong;
      ghost var before := repository.State();
      trace := [];
      EmptyRun(before);
      if job.mimeType == "application/pdf" {
        var got;
        got, trace := WithAttachmentLease(job, w.pdf);
        match got {
          case Lost => return Abandon, trace;
          case Broke(retryable) => return Failure(retryable), trace;
          case Got(pages) =>
            if pages.Some? {
              var chunks := AttachmentChunks.ChunksForParsedDocument(pages.value);
              return SaveOrFail(chunks), trace;
            }
        }
      }
      ghost var middle := repository.State();
      var submitted;
      ghost var more;
      submitted, more := WithAttachmentLease(job, w.submit);
      RunConcat(cfg, before, trace, more);
      match submitted {
        case Lost => d := Abandon;
        case Broke(retryable) => d := Failure(retryable);
        case Got(parserJobId) =>
          d := Submission(parserJobId);
          if job.mimeType == "application/pdf" {
            HeldTogether(cfg, before, trace, more, job.leaseToken);
          } else {
            assert trace + more == more;
          }
      }
      trace := trace + more;
    }

    // A submitted document: polled within its budget, fetched when it is done.
    method AttendSubmitted(job: ParseJob, w: Surroundings) returns (d: Decision, ghost trace: seq<Action>)
      requires QueueOk(cfg, repository.State()) && Known(repository.State(), job)
      modifies repository
      ensures repository.State() == Run(cfg, old(repository.State()), trace)
      ensures QueueOk(cfg, repository.State()) && Known(repository.State(), job)
      ensures forall chunks :: ParsedSaves(cfg, old(repository.State()), job, w, chunks) <==> d == Save(chunks)
      ensures Answers(cfg, old(repository.State()), job, w, StillRunning) <==> d == Poll
      ensures Answers(cfg, old(repository.State()), job, w, ParserFailed) ==> d == Failure(false)
      ensures && Answers(cfg, old(repository.State()), job, w, ParserDone)
              && Undisturbed(cfg, After(cfg, old(repository.State()), job.leaseToken, w.status), job.leaseToken,
                             w.parsed)
              ==> d.Save? || d == Failure(true)
      ensures d.Save? || d.Poll? || d in {Abandon, Failure(true), Failure(false)}
      ensures d.Save? ==>
        trace == FullTrace(w.status, Renew(job.leaseToken)) + FullTrace(w.parsed, Renew(job.leaseToken))
      ensures d.Poll? ==> trace == FullTrace(w.status, Renew(job.leaseToken))
      ensures d.Save? || d.Poll? ==> HeldAllAlong(cfg, old(repository.State()), trace, job.leaseToken)
      ensures !HasBudget(cfg, job, old(repository.now)) ==> d == Failure(false) && trace == []
      ensures HasBudget(cfg, job, old(repository.now)) && !HoldsToken(old(repository.State()), job.leaseToken) ==>
        d == Abandon
    {
      hide QueueOk, HoldsToken, Run, Undisturbed, HeldAllAlong;
      ghost var before := repository.State();
      trace := [];
      if job.pollCount >= cfg.maxPolls || job.submittedAt.None?
         || repository.now - job.submittedAt.value > cfg.maxPollAge {
        EmptyRun(before);
        return Failure(false), trace;
      }
      var status;
      status, trace := WithAttachmentLease(job, w.status);
      match status {
        case Lost => return Abandon, trace;
        case Broke(retryable) => return Failure(retryable), trace;
        case Got(answer) =>
          if answer == StillRunning {
            return Poll, trace;
          }
          if answer == ParserFailed {
            return Failure(false), trace;
          }
      }
      var parsed;
      ghost var more;
      parsed, more := WithAttachmentLease(job, w.parsed);
      RunConcat(cfg, before, trace, more);
      match parsed {
        case Lost => d := Abandon;
        case Broke(retryable) => d := Failure(retryable);
        case Got(pages) =>
          var chunks := AttachmentChunks.ChunksForParsedDocument(pages);
          d := SaveOrFail(chunks);
          HeldTogether(cfg, before, trace, more, job.leaseToken);
      }
      trace := trace + more;
    }

    lemma EmptyRun(s: Store)
      ensures Run(cfg, s, []) == s
    {
    }

    // Saves, submits or polls exactly when the surroundings let it.
    method Attend(job: ParseJob, w: Surroundings) returns (d: Decision, ghost trace: seq<Action>)
      requires QueueOk(cfg, repository.State()) && Known(repository.State(), job)
      modifies repository
      ensures repository.State() == Run(cfg, old(repository.State()), trace)
      ensures QueueOk(cfg, repository.State()) && Known(repository.State(), job)
      ensures forall chunks :: Saves(cfg, old(repository.State()), job, w, chunks) <==> d == Save(chunks)
      ensures forall id :: SubmitsNew(cfg, old(repository.State()), job, w, id) <==> d == Submission(id)
      ensures PollsAgain(cfg, old(repository.State()), job, w) <==> d == Poll
      ensures d.Save? || d.Submission? || d.Poll? ==>
        trace == TurnTrace(job, w) && HeldAllAlong(cfg, old(repository.State()), trace, job.leaseToken)
      ensures Permitted(job, d)
    {
      hide QueueOk, HoldsToken, Run, AllUp, HeldAllAlong, TextSaves;
      ghost var before := repository.State();
      assert [] + FullTrace(w.submit, Renew(job.leaseToken)) == FullTrace(w.submit, Renew(job.leaseToken));
      if IsLocalText(job.mimeType) {
        d, trace := AttendText(job, w);
      } else if !HasParserJob(job.parserJobId) {
        d, trace := AttendNew(job, w);
        assert d.Save? ==> PdfSaves(cfg, before, job, w, d.chunks);
        assert d.Submission? ==> Submits(cfg, before, job, w, d.parserJobId);
      } else {
        d, trace := AttendSubmitted(job, w);
        assert d.Save? ==> ParsedSaves(cfg, before, job, w, d.chunks);
      }
    }

    // What the control flow allows for a job.
    predicate Permitted(job: ParseJob, d: Decision) {
      match d
      case Submission(_) => !HasParserJob(job.parserJobId) && !IsLocalText(job.mimeType)
      case Poll =>
        && HasParserJob(job.parserJobId) && !IsLocalText(job.mimeType)
        && job.pollCount < cfg.maxPolls && job.submittedAt.Some?
      case _ => true
    }

    // The statement that carries a decision out.
    method CarryOut(job: ParseJob, d: Decision) returns (result: Outcome, ghost a: Action)
      requires Known(repository.State(), job) && Permitted(job, d)
      requires d.Save? || d.Submission? || d.Poll?
      modifies repository
      ensures repository.State() == Step(cfg, old(repository.State()), a)
      ensures result == Done <==>
        HoldsToken(old(repository.State()), job.leaseToken) && (d.Save? ==> 1 <= |d.chunks| <= 4096)
      ensures d.Save? && result == Done ==> IsReadyWith(repository.State(), job.id, d.chunks)
      ensures d.Submission? && result == Done ==> IsQueuedWith(repository.State(), job.id, d.parserJobId)
      ensures a == match d
                   case Save(chunks) => Complete(job.leaseToken, chunks)
                   case Submission(parserJobId) =>
                     Submit(job.leaseToken, parserJobId, old(repository.now) + pollInterval)
                   case _ => Defer(job.leaseToken, old(repository.now) + pollInterval)
    {
      var retryAt := repository.now + pollInterval;
      ghost var s := repository.State();
      hide Step, CommitComplete, CommitSubmit, CommitDefer, HoldsToken, IsReadyWith, IsQueuedWith;
      RenewIsStep(cfg, s, job);
      match d
      case Save(chunks) =>
        a := Complete(job.leaseToken, chunks);
        if HoldsToken(s, job.leaseToken) && 1 <= |chunks| <= 4096 {
          CompletingIsReady(cfg, s, job, chunks);
        }
        CompleteIsStep(cfg, s, job, chunks);
        result := repository.SaveChunksAndComplete(job, chunks);
      case Submission(parserJobId) =>
        a := Submit(job.leaseToken, parserJobId, retryAt);
        if HoldsToken(s, job.leaseToken) {
          SubmittingIsQueued(cfg, s, job, parserJobId, retryAt);
        }
        SubmitIsStep(cfg, s, job, parserJobId, retryAt);
        result := repository.MarkParserSubmitted(job, parserJobId, retryAt);
      case Poll =>
        a := Defer(job.leaseToken, retryAt);
        DeferIsStep(cfg, s, job, retryAt);
        result := repository.DeferParserPoll(job, retryAt);
    }

    // An error that is not a stale lease is recorded; a lease gone stale meanwhile is ignored.
    method RecordFailure(job: ParseJob, retryable: bool, others: seq<Action>) returns (ghost trace: seq<Action>)
      requires Known(repository.State(), job)
      modifies repository
      ensures repository.State() == Run(cfg, old(repository.State()), trace)
      ensures |trace| == |others| + 1 && trace[..|others|] == others
      ensures trace[|others|]
           == Fail(job.leaseToken, retryable, Run(cfg, old(repository.State()), others).now + retryDelay)
    {
      ghost var before := repository.State();
      repository.Elapse(cfg, others);
      KnownStays(cfg, before, others, job);
      var retryAt := repository.now + retryDelay;
      var marked := repository.MarkAttachmentFailed(job, retryable, retryAt);
      OneMore(cfg, before, others, Fail(job.leaseToken, retryable, retryAt));
      trace := others + [Fail(job.leaseToken, retryable, retryAt)];
    }

    // The end of a turn. A stale lease makes the turn a failure that changes
    // nothing; any other error marks the attachment failed.
    method Settle(job: ParseJob, d: Decision, w: Surroundings) returns (outcome: RunOutcome, ghost trace: seq<Action>)
      requires Known(repository.State(), job) && Permitted(job, d)
      modifies repository
      ensures repository.State() == Run(cfg, old(repository.State()), trace)
      ensures outcome == TurnCompleted <==>
        && d.Save? && 1 <= |d.chunks| <= 4096
        && HoldsToken(Run(cfg, old(repository.State()), w.beforeSave), job.leaseToken)
      ensures outcome == TurnDeferred <==>
        && (d.Submission? || d.Poll?)
        && HoldsToken(Run(cfg, old(repository.State()), w.beforeSave), job.leaseToken)
      ensures outcome == TurnCompleted ==> IsReadyWith(repository.State(), job.id, d.chunks)
      ensures outcome == TurnDeferred && d.Submission? ==> IsQueuedWith(repository.State(), job.id, d.parserJobId)
      ensures outcome == TurnCompleted ==> TookEffect(cfg, old(repository.State()), trace) && Last(trace).Complete?
      ensures outcome == TurnDeferred ==>
        TookEffect(cfg, old(repository.State()), trace) && (Last(trace).Submit? || Last(trace).Defer?)
      ensures outcome in {TurnCompleted, TurnDeferred, TurnFailed}
      ensures d.Failure? ==>
        outcome == TurnFailed && trace != [] && Last(trace).Fail? && Last(trace).retryable == d.retryable
      ensures d.Abandon? ==> outcome == TurnFailed && trace == []
    {
      ghost var before := repository.State();
      trace := [];
      outcome := TurnFailed;
      if d.Abandon? {
        return;
      }
      if d.Failure? {
        trace := RecordFailure(job, d.retryable, w.beforeFail);
        return;
      }
      repository.Elapse(cfg, w.beforeSave);
      KnownStays(cfg, before, w.beforeSave, job);
      var result;
      ghost var a;
      result, a := CarryOut(job, d);
      OneMore(cfg, before, w.beforeSave, a);
      trace := w.beforeSave + [a];
      KnownStays(cfg, before, trace, job);
      if result == Done {
        assert trace[..|trace| - 1] == w.beforeSave;
        outcome := if d.Save? then TurnCompleted else TurnDeferred;
      } else if result == Invalid {
        ghost var more := RecordFailure(job, true, w.beforeFail);
        RunConcat(cfg, before, trace, more);
        trace := trace + more;
      }
    }

    // The object is deleted first; then the deletion job is marked.
    method RunDeletion(job: DeletionJob, w: Surroundings) returns (outcome: RunOutcome, ghost trace: seq<Action>)
      requires KnownDeletion(repository.State(), job)
      modifies repository
      ensures repository.State() == Run(cfg, old(repository.State()), trace)
      ensures outcome == TurnCompleted <==>
        w.deleted.Value? && HoldsDeletionToken(Run(cfg, old(repository.State()), w.duringDeletion), job.leaseToken)
      ensures outcome == TurnCompleted ==>
        && TookEffect(cfg, old(repository.State()), trace) && Last(trace).FinishDeletion?
        && job.objectKey in repository.deletions && repository.deletions[job.objectKey].state == DeletionSucceeded
      ensures outcome in {TurnCompleted, TurnFailed}
    {
      ghost var before := repository.State();
      repository.Elapse(cfg, w.duringDeletion);
      RunKeepsJobs(cfg, before, w.duringDeletion);
      if w.deleted.Value? {
        ghost var middle := repository.State();
        var marked := repository.MarkDeletionSucceeded(job);
        assert repository.State() == Step(cfg, middle, FinishDeletion(job.leaseToken));
        OneMore(cfg, before, w.duringDeletion, FinishDeletion(job.leaseToken));
        trace := w.duringDeletion + [FinishDeletion(job.leaseToken)];
        assert trace[..|trace| - 1] == w.duringDeletion;
        outcome := if marked == Done then TurnCompleted else TurnFailed;
      } else {
        ghost var others := w.duringDeletion + w.beforeDeletionFails;
        RunConcat(cfg, before, w.duringDeletion, w.beforeDeletionFails);
        repository.Elapse(cfg, w.beforeDeletionFails);
        RunKeepsJobs(cfg, before, others);
        var retryAt := repository.now + retryDelay;
        ghost var middle := repository.State();
        var marked := repository.MarkDeletionFailed(job, w.deleted.retryable, retryAt);
        assert repository.State() == Step(cfg, middle, FailDeletion(job.leaseToken, w.deleted.retryable, retryAt));
        OneMore(cfg, before, others, FailDeletion(job.leaseToken, w.deleted.retryable, retryAt));
        trace := others + [FailDeletion(job.leaseToken, w.deleted.retryable, retryAt)];
        outcome := TurnFailed;
      }
    }

    // The first half of a turn: a deletion that is due goes first.
    method DeletionTurn(w: Surroundings) returns (outcome: RunOutcome, ghost trace: seq<Action>)
      modifies repository
      ensures repository.State() == Run(cfg, old(repository.State()), trace)
      ensures outcome == TurnCompleted ==>
        TookEffect(cfg, old(repository.State()), trace) && Last(trace).FinishDeletion?
      ensures outcome in {Idle, TurnCompleted, TurnFailed}
      ensures outcome == Idle ==>
        && trace == w.start
        && forall key | key in repository.deletions && DeletionClaimable(repository.deletions[key], repository.now) ::
             key in w.deletionSkipped
    {
      ghost var before := repository.State();
      repository.Elapse(cfg, w.start);
      trace := w.start;
      var token := NewToken(repository.deletionJobs.Keys);
      var deletion := repository.ClaimDeletion(workerId, token, w.deletionSkipped);
      if deletion.None? {
        return Idle, trace;
      }
      ghost var claim := ClaimDeletion(deletion.value.objectKey, workerId, token);
      OneMore(cfg, before, trace, claim);
      trace := trace + [claim];
      ghost var middle := repository.State();
      assert middle == Run(cfg, before, trace);
      ghost var more;
      outcome, more := RunDeletion(deletion.value, w);
      RunConcat(cfg, before, trace, more);
      if outcome == TurnCompleted {
        LastTook(cfg, before, trace, more);
      }
      trace := trace + more;
    }

    // A claimed job, from the moment after the claim: it is attended to and settled.
    method WorkOn(job: ParseJob, w: Surroundings) returns (outcome: RunOutcome, ghost trace: seq<Action>)
      requires QueueOk(cfg, repository.State()) && Known(repository.State(), job)
      modifies repository
      ensures repository.State() == Run(cfg, old(repository.State()), trace)
      ensures EndsAsDue(cfg, old(repository.State()), job, w, outcome, repository.State())
      ensures outcome == TurnCompleted ==> TookEffect(cfg, old(repository.State()), trace) && Last(trace).Complete?
      ensures outcome == TurnDeferred ==>
        TookEffect(cfg, old(repository.State()), trace) && (Last(trace).Submit? || Last(trace).Defer?)
      ensures outcome in {TurnCompleted, TurnDeferred, TurnFailed}
    {
      hide QueueOk, HoldsToken, Run, HeldAllAlong, Saves, SubmitsNew, PollsAgain, KeptThrough, TookEffect, TurnTrace,
        IsReadyWith, IsQueuedWith;
      ghost var before := repository.State();
      var decision;
      ghost var settled;
      decision, trace := Attend(job, w);
      ghost var middle := repository.State();
      outcome, settled := Settle(job, decision, w);
      if decision.Save? || decision.Submission? || decision.Poll? {
        KeptAfter(cfg, before, job, w, middle);
      }
      assert decision.Save? ==> Saves(cfg, before, job, w, decision.chunks);
      assert decision.Submission? ==> SubmitsNew(cfg, before, job, w, decision.parserJobId);
      if decision.Save? {
        SavedIsWithinLimits(cfg, before, job, w, decision.chunks);
      }
      RunConcat(cfg, before, trace, settled);
      if outcome in {TurnCompleted, TurnDeferred} {
        LastTook(cfg, before, trace, settled);
      }
      trace := trace + settled;
    }

    // The second half: an attachment that is due is claimed, attended to and settled.
    method ParseTurn(w: Surroundings)
        returns (outcome: RunOutcome, ghost trace: seq<Action>, ghost claim: Option<ParseJob>)
      requires QueueOk(cfg, repository.State())
      modifies repository
      ensures repository.State() == Run(cfg, old(repository.State()), trace)
      ensures outcome == TurnCompleted ==> TookEffect(cfg, old(repository.State()), trace) && Last(trace).Complete?
      ensures outcome == TurnDeferred ==>
        TookEffect(cfg, old(repository.State()), trace) && (Last(trace).Submit? || Last(trace).Defer?)
      ensures outcome == Idle <==> claim.None?
      ensures outcome == Idle ==>
        && trace == w.beforeParse
        && forall id | id in repository.attachments && Claimable(repository.attachments[id], repository.now) ::
             id in w.parseSkipped
      ensures claim.Some? ==>
        && claim.value.workerId == workerId
        && var job := claim.value;
           var claimed := Run(cfg, old(repository.State()), w.beforeParse + [Claim(job.id, workerId, job.leaseToken)]);
           && Known(claimed, job) && HoldsToken(claimed, job.leaseToken)
           && EndsAsDue(cfg, claimed, job, w, outcome, repository.State())
    {
      hide QueueOk, Run, EndsAsDue, TookEffect;
      ghost var before := repository.State();
      repository.Elapse(cfg, w.beforeParse);
      trace := w.beforeParse;
      var token := NewToken(repository.jobs.Keys);
      ghost var due := repository.State();
      var claimed := repository.ClaimAttachmentParse(workerId, token, w.parseSkipped);
      claim := claimed;
      if claimed.None? {
        return Idle, trace, None;
      }
      var job := claimed.value;
      ClaimIsHeld(cfg, due, job.id, workerId, token);
      OneMore(cfg, before, trace, Claim(job.id, workerId, token));
      trace := trace + [Claim(job.id, workerId, token)];
      RunKeeps(cfg, before, trace);
      ghost var settled;
      outcome, settled := WorkOn(job, w);
      RunConcat(cfg, before, trace, settled);
      if outcome in {TurnCompleted, TurnDeferred} {
        LastTook(cfg, before, trace, settled);
      }
      trace := trace + settled;
    }

    // One turn of the worker. Whatever happens around it, the turn is a run of
    // the queue's steps; it reports a completion or a deferral only when its
    // own last statement took effect under a lease that was current.
    method RunOnce(w: Surroundings)
        returns (outcome: RunOutcome, ghost trace: seq<Action>, ghost claim: Option<ParseJob>)
      requires QueueOk(cfg, repository.State())
      modifies repository
      ensures repository.State() == Run(cfg, old(repository.State()), trace)
      ensures QueueOk(cfg, repository.State())
      ensures outcome in {TurnCompleted, TurnDeferred} ==> TookEffect(cfg, old(repository.State()), trace)
      ensures outcome == TurnCompleted ==> Last(trace).Complete? || Last(trace).FinishDeletion?
      ensures outcome == TurnDeferred ==> Last(trace).Submit? || Last(trace).Defer?
      ensures outcome == Idle ==>
        && claim.None? && trace == w.start + w.beforeParse
        && forall id | id in repository.attachments && Claimable(repository.attachments[id], repository.now) ::
             id in w.parseSkipped
      ensures claim.Some? ==>
        var job := claim.value;
        var others := w.start + w.beforeParse;
        var claimed := Run(cfg, old(repository.State()), others + [Claim(job.id, workerId, job.leaseToken)]);
        && Known(claimed, job) && HoldsToken(claimed, job.leaseToken)
        && EndsAsDue(cfg, claimed, job, w, outcome, repository.State())
    {
      hide QueueOk, Run, EndsAsDue, TookEffect, HoldsToken;
      ghost var before := repository.State();
      claim := None;
      outcome, trace := DeletionTurn(w);
      RunKeeps(cfg, before, trace);
      if outcome == Idle {
        ghost var more;
        outcome, more, claim := ParseTurn(w);
        RunConcat(cfg, before, trace, more);
        if outcome in {TurnCompleted, TurnDeferred} {
          LastTook(cfg, before, trace, more);
        }
        if claim.Some? {
          ghost var claimed := [Claim(claim.value.id, workerId, claim.value.leaseToken)];
          RunConcat(cfg, before, w.start, w.beforeParse + claimed);
          assert w.start + (w.beforeParse + claimed) == w.start + w.beforeParse + claimed;
        }
        trace := trace + more;
        RunKeeps(cfg, before, trace);
      }
    }
  }

  ghost function Last(trace: seq<Action>): Action
    requires trace != []
  {
    trace[|trace| - 1]
  }

  ghost predicate KnownDeletion(s: Store, job: DeletionJob) {
    job.leaseToken in s.deletionJobs && s.deletionJobs[job.leaseToken] == job
  }

  // The last action of the trace is a holder's, taken while its lease was current.
  ghost predicate TookEffect(cfg: Config, s: Store, trace: seq<Action>) {
    && trace != []
    && var a := trace[|trace| - 1];
       || ((a.Complete? || a.Submit? || a.Defer?) && HoldsToken(Run(cfg, s, trace[..|trace| - 1]), a.token))
       || (a.FinishDeletion? && HoldsDeletionToken(Run(cfg, s, trace[..|trace| - 1]), a.token))
  }

  lemma LastTook(cfg: Config, s: Store, first: seq<Action>, more: seq<Action>)
    requires TookEffect(cfg, Run(cfg, s, first), more)
    ensures TookEffect(cfg, s, first + more)
    ensures (first + more)[|first + more| - 1] == more[|more| - 1]
  {
    assert (first + more)[..|first + more| - 1] == first + more[..|more| - 1];
    RunConcat(cfg, s, first, more[..|more| - 1]);
  }
}
