// PostgresChatStorageWorkerRepository (src/worker/chat-storage.ts): one method
// per statement or transaction, each proved to be the step of the same name.
module AttachmentRepository {
  import opened Options
  import opened AttachmentTypes
  import opened AttachmentSteps
  import opened Ordering

  // Whether a statement found its lease current; a bad chunk count is refused before the transaction.
  datatype Outcome = Done | Stale | Invalid

  class Repository {
    var now: int
    var attachments: map<string, Attachment>
    var accounts: map<string, Account>
    var deletions: map<string, Deletion>
    // history: what has been handed out and what has happened; no column stores it
    var jobs: map<nat, ParseJob>
    var deletionJobs: map<nat, DeletionJob>
    var tallies: map<string, Tally>

    function State(): Store
      reads this
    {
      Store(now, attachments, accounts, deletions, jobs, deletionJobs, tallies)
    }

    constructor (s: Store)
      ensures State() == s
    {
      now, attachments, accounts, deletions := s.now, s.attachments, s.accounts, s.deletions;
      jobs, deletionJobs, tallies := s.jobs, s.deletionJobs, s.tallies;
    }

    method Become(s: Store)
      modifies this
      ensures State() == s
    {
      now, attachments, accounts, deletions := s.now, s.attachments, s.accounts, s.deletions;
      jobs, deletionJobs, tallies := s.jobs, s.deletionJobs, s.tallies;
    }

    // Whatever the rest of the system does in the meantime: other workers,
    // uploads, sweeps, and time passing.
    method Elapse(cfg: Config, actions: seq<Action>)
      modifies this
      ensures State() == Run(cfg, old(State()), actions)
    {
      Become(Run(cfg, State(), actions));
    }

    // ----- claims

    // The first row in line of those that are due; rows locked by other transactions are skipped.
    method FirstClaimable(skipped: set<string>) returns (found: Option<string>)
      ensures found.None? ==> forall id | id in attachments && Claimable(attachments[id], now) :: id in skipped
      ensures found.Some? ==> found.value !in skipped && IsFirstClaimable(attachments, now, skipped, found.value)
    {
      var candidates := map id | id in attachments && Claimable(attachments[id], now) && id !in skipped ::
        ParsePlace(attachments[id]);
      if candidates == map[] {
        assert forall id | id in attachments && Claimable(attachments[id], now) :: id in skipped || id in candidates;
        return None;
      }
      var id := First(candidates);
      assert forall k | k in attachments && Claimable(attachments[k], now) && k !in skipped ::
        k in candidates && GoesBefore(candidates[id], candidates[k]);
      return Some(id);
    }

    // The token is one nobody has seen.
    method ClaimAttachmentParse(worker: string, token: nat, skipped: set<string>) returns (job: Option<ParseJob>)
      requires token !in jobs
      modifies this
      ensures job.None? ==>
        && State() == old(State())
        && forall id | id in attachments && Claimable(attachments[id], now) :: id in skipped
      ensures job.Some? ==>
        && State() == CommitClaim(old(State()), job.value.id, worker, token)
        && token in jobs && jobs[token] == job.value && job.value.workerId == worker && job.value.leaseToken == token
        && job.value.id !in skipped && job.value.id in old(attachments)
        && Claimable(old(attachments)[job.value.id], now)
        && forall other | other in old(attachments) && Claimable(old(attachments)[other], now) && other !in skipped ::
             var r, o := old(attachments)[job.value.id], old(attachments)[other];
             r.runAt < o.runAt || (r.runAt == o.runAt && r.createdAt <= o.createdAt)
    {
      var found := FirstClaimable(skipped);
      if found.None? {
        return None;
      }
      var id := found.value;
      var row := attachments[id];
      var t := if id in tallies then tallies[id] else NO_HISTORY;
      tallies := tallies[id := t.(claims := t.claims + 1,
                                  expiries := t.expiries + if row.parseStatus == Parsing then 1 else 0)];
      row := row.(parseStatus := Parsing, attempts := row.attempts + 1,
                  lockedAt := Some(now), lockedBy := Some(worker), leaseToken := Some(token));
      assert row == Claimed(attachments[id], now, worker, token);
      attachments := attachments[id := row];
      job := Some(ParseJob(id, row.objectKey, row.mimeType, row.parserJobId, row.pollCount, row.submittedAt,
                           row.attempts, row.maxAttempts, worker, token));
      assert job.value == JobOf(id, row, worker, token);
      jobs := jobs[token := job.value];
    }

    // ----- statements of a holder

    method RenewAttachmentLease(job: ParseJob) returns (r: Outcome)
      modifies this
      ensures State() == CommitRenew(old(State()), job)
      ensures r == if old(Current(State(), job)) then Done else Stale
    {
      if !(job.id in attachments && Holds(attachments[job.id], job)) {
        return Stale;
      }
      attachments := attachments[job.id := attachments[job.id].(lockedAt := Some(now))];
      tallies := tallies[job.id := if job.id in tallies then tallies[job.id] else NO_HISTORY];
      return Done;
    }

    method MarkParserSubmitted(job: ParseJob, parserJobId: string, retryAt: int) returns (r: Outcome)
      modifies this
      ensures State() == CommitSubmit(old(State()), job, parserJobId, retryAt)
      ensures r == if old(Current(State(), job)) then Done else Stale
    {
      if !(job.id in attachments && Holds(attachments[job.id], job)) {
        return Stale;
      }
      var row := attachments[job.id];
      attachments := attachments[job.id := row.(
        parseStatus := Queued, parserJobId := Some(parserJobId), runAt := retryAt,
        pollCount := 0, submittedAt := Some(now), attempts := Max(row.attempts - 1, 0),
        lockedAt := None, lockedBy := None, leaseToken := None)];
      var t := if job.id in tallies then tallies[job.id] else NO_HISTORY;
      tallies := tallies[job.id := if parserJobId == "" then t.(blankSubmissions := t.blankSubmissions + 1)
                                   else t.(submissions := t.submissions + 1)];
      return Done;
    }

    method DeferParserPoll(job: ParseJob, retryAt: int) returns (r: Outcome)
      modifies this
      ensures State() == CommitDefer(old(State()), job, retryAt)
      ensures r == if old(Current(State(), job)) then Done else Stale
    {
      if !(job.id in attachments && Holds(attachments[job.id], job)) {
        return Stale;
      }
      var row := attachments[job.id];
      attachments := attachments[job.id := row.(
        parseStatus := Queued, runAt := retryAt,
        pollCount := row.pollCount + 1, attempts := Max(row.attempts - 1, 0),
        lockedAt := None, lockedBy := None, leaseToken := None)];
      var t := if job.id in tallies then tallies[job.id] else NO_HISTORY;
      tallies := tallies[job.id := t.(polls := t.polls + 1)];
      return Done;
    }

    // The chunk rows of the attachment are replaced in batches of 100.
    method SaveChunksAndComplete(job: ParseJob, chunks: seq<Chunk>) returns (r: Outcome)
      modifies this
      ensures State() == CommitComplete(old(State()), job, chunks)
      ensures r == if |chunks| < 1 || |chunks| > MAX_CHUNKS then Invalid
                   else if old(Current(State(), job)) then Done else Stale
    {
      if |chunks| < 1 || |chunks| > MAX_CHUNKS {
        return Invalid;
      }
      if !(job.id in attachments && Holds(attachments[job.id], job)) {
        return Stale;
      }
      var inserted: seq<Chunk> := [];
      var offset := 0;
      while offset < |chunks|
        invariant inserted == chunks[..Min(offset, |chunks|)]
      {
        var batch := chunks[offset..Min(offset + 100, |chunks|)];
        inserted := inserted + batch;
        offset := offset + 100;
      }
      assert inserted == chunks;
      attachments := attachments[job.id := attachments[job.id].(
        status := Ready, parseStatus := Parsed, chunks := inserted,
        lockedAt := None, lockedBy := None, leaseToken := None)];
      var t := if job.id in tallies then tallies[job.id] else NO_HISTORY;
      tallies := tallies[job.id := t.(ended := t.ended + 1)];
      return Done;
    }

    method MarkAttachmentFailed(job: ParseJob, retryable: bool, retryAt: int) returns (r: Outcome)
      modifies this
      ensures State() == CommitFail(old(State()), job, retryable, retryAt)
      ensures r == if old(Current(State(), job)) then Done else Stale
    {
      var terminal := job.attempts >= job.maxAttempts || !retryable;
      if !(job.id in attachments && Holds(attachments[job.id], job)) {
        return Stale;
      }
      attachments := attachments[job.id := attachments[job.id].(
        status := if terminal then Failed else Processing,
        parseStatus := if terminal then ParseFailed else Queued, runAt := retryAt,
        lockedAt := None, lockedBy := None, leaseToken := None)];
      var t := if job.id in tallies then tallies[job.id] else NO_HISTORY;
      tallies := tallies[job.id := if terminal then t.(ended := t.ended + 1) else t.(retries := t.retries + 1)];
      return Done;
    }

    // ----- the sweep

    // One row: its object is enqueued for deletion, its account refunded, the row dropped.
    method RemoveAttachment(id: string)
      requires id in attachments
      modifies this
      ensures State() == Removed(old(State()), id, old(now))
    {
      var row := attachments[id];
      if row.objectKey !in deletions {
        deletions := deletions[row.objectKey := NEW_DELETION.(runAt := now, createdAt := now)];
      }
      if row.userId in accounts {
        var a := accounts[row.userId];
        var reserved := if row.quotaState == Reserved then row.declaredSize else 0;
        var used := if row.quotaState == Committed && row.sizeBytes.Some? then row.sizeBytes.value else 0;
        accounts := accounts[row.userId :=
          a.(reserved := Max(a.reserved - reserved, 0), used := Max(a.used - used, 0))];
      }
      attachments := attachments - {id};
    }

    // Expired rows nobody is bound to are removed up to the limit, those that
    // expired first before the others, one after the other in one transaction.
    method EnqueueExpiredOrphans(limit: nat, skipped: set<string>) returns (removed: seq<string>)
      modifies this
      ensures Sweepable(old(State()), removed, limit)
      ensures State() == CommitSweep(old(State()), removed, limit)
      ensures RemovesExpired(old(State()), State(), limit, skipped, removed)
      ensures LeavesTheRest(old(State()), State(), limit, skipped, removed)
    {
      hide RemovesExpired, LeavesTheRest, SweepSoFar;
      removed := [];
      ghost var before := State();
      var candidates := map id | id in attachments && id !in skipped && ExpiredOrphan(State(), id) ::
        OrphanPlace(attachments[id]);
      assert forall id | ExpiredOrphan(before, id) :: id in skipped || id in candidates;
      SweepBegins(before, limit, skipped, candidates);
      while candidates != map[] && |removed| < limit
        invariant Sweepable(before, removed, limit)
        invariant SweepSoFar(before, limit, skipped, candidates, removed)
        invariant State() == RemovedAll(before, removed)
        decreases |candidates|
      {
        var id := First(candidates);
        SweepNext(before, limit, skipped, candidates, removed, id);
        candidates := candidates - {id};
        NotYetRemoved(before, removed, id);
        RemovedNext(before, removed, id);
        RemoveAttachment(id);
        removed := removed + [id];
      }
      SweepEnds(before, limit, skipped, candidates, removed);
    }

    // ----- object deletion

    method ClaimDeletion(worker: string, token: nat, skipped: set<string>) returns (job: Option<DeletionJob>)
      requires token !in deletionJobs
      modifies this
      ensures job.None? ==>
        && State() == old(State())
        && forall key | key in deletions && DeletionClaimable(deletions[key], now) :: key in skipped
      ensures job.Some? ==>
        && State() == CommitClaimDeletion(old(State()), job.value.objectKey, worker, token)
        && token in deletionJobs && deletionJobs[token] == job.value && job.value.leaseToken == token
        && job.value.objectKey !in skipped && job.value.objectKey in old(deletions)
        && DeletionClaimable(old(deletions)[job.value.objectKey], now)
        && forall key | key in old(deletions) && DeletionClaimable(old(deletions)[key], now) && key !in skipped ::
             var d, o := old(deletions)[job.value.objectKey], old(deletions)[key];
             d.runAt < o.runAt || (d.runAt == o.runAt && d.createdAt <= o.createdAt)
    {
      var candidates := map key | key in deletions && DeletionClaimable(deletions[key], now) && key !in skipped ::
        DeletionPlace(deletions[key]);
      if candidates == map[] {
        assert forall key | key in deletions && DeletionClaimable(deletions[key], now) ::
          key in skipped || key in candidates;
        return None;
      }
      var key := First(candidates);
      assert forall k | k in deletions && DeletionClaimable(deletions[k], now) && k !in skipped ::
        k in candidates && GoesBefore(candidates[key], candidates[k]);
      var row := deletions[key];
      row := row.(state := DeletionRunning, attempts := row.attempts + 1,
                  lockedAt := Some(now), lockedBy := Some(worker), leaseToken := Some(token));
      deletions := deletions[key := row];
      job := Some(DeletionJob(key, row.attempts, row.maxAttempts, worker, token));
      deletionJobs := deletionJobs[token := job.value];
    }

    method MarkDeletionSucceeded(job: DeletionJob) returns (r: Outcome)
      modifies this
      ensures State() == CommitFinishDeletion(old(State()), job)
      ensures r == if old(DeletionCurrent(State(), job)) then Done else Stale
    {
      if !DeletionCurrent(State(), job) {
        return Stale;
      }
      deletions := deletions[job.objectKey := deletions[job.objectKey].(
        state := DeletionSucceeded, lockedAt := None, lockedBy := None, leaseToken := None)];
      return Done;
    }

    method MarkDeletionFailed(job: DeletionJob, retryable: bool, retryAt: int) returns (r: Outcome)
      modifies this
      ensures State() == CommitFailDeletion(old(State()), job, retryable, retryAt)
      ensures r == if old(DeletionCurrent(State(), job)) then Done else Stale
    {
      var terminal := job.attempts >= job.maxAttempts || !retryable;
      if !DeletionCurrent(State(), job) {
        return Stale;
      }
      deletions := deletions[job.objectKey := deletions[job.objectKey].(
        state := if terminal then DeletionFailed else DeletionQueued, runAt := retryAt,
        lockedAt := None, lockedBy := None, leaseToken := None)];
      return Done;
    }
  }

  // Due, and in line before every other row that is due and not skipped.
  ghost predicate IsFirstClaimable(rows: map<string, Attachment>, now: int, skipped: set<string>, id: string) {
    && id in rows && Claimable(rows[id], now)
    && forall other | other in rows && Claimable(rows[other], now) && other !in skipped ::
         GoesBefore(ParsePlace(rows[id]), ParsePlace(rows[other]))
  }

  ghost predicate InOrder(rows: map<string, Attachment>, ids: seq<string>) {
    && (forall i | 0 <= i < |ids| :: ids[i] in rows)
    && (forall i, j | 0 <= i < j < |ids| :: GoesBefore(OrphanPlace(rows[ids[i]]), OrphanPlace(rows[ids[j]])))
  }

  // What is removed so far, in order and before what is still to come; every
  // expired orphan is one or the other, or skipped.
  ghost predicate SweepSoFar(s: Store, limit: nat, skipped: set<string>, candidates: map<string, Place>,
                             removed: seq<string>)
  {
    && Sweepable(s, removed, limit) && InOrder(s.attachments, removed)
    && (forall id | id in removed :: id !in skipped && id !in candidates)
    && (forall id | id in candidates :: IsCandidate(s, skipped, candidates, id))
    && (forall id | ExpiredOrphan(s, id) :: id in skipped || id in candidates || id in removed)
    && (forall id, r | id in candidates && r in removed :: GoesBefore(OrphanPlace(s.attachments[r]), candidates[id]))
  }

  ghost predicate IsCandidate(s: Store, skipped: set<string>, candidates: map<string, Place>, id: string)
    requires id in candidates
  {
    ExpiredOrphan(s, id) && id !in skipped && candidates[id] == OrphanPlace(s.attachments[id])
  }

  lemma SweepBegins(s: Store, limit: nat, skipped: set<string>, candidates: map<string, Place>)
    requires forall id | ExpiredOrphan(s, id) :: id in skipped || id in candidates
    requires forall id | id in candidates :: IsCandidate(s, skipped, candidates, id)
    ensures SweepSoFar(s, limit, skipped, candidates, [])
  {
  }

  lemma SweepNext(s: Store, limit: nat, skipped: set<string>, candidates: map<string, Place>, removed: seq<string>,
                  id: string)
    requires SweepSoFar(s, limit, skipped, candidates, removed) && |removed| < limit
    requires id in candidates && forall other | other in candidates :: GoesBefore(candidates[id], candidates[other])
    ensures SweepSoFar(s, limit, skipped, candidates - {id}, removed + [id])
    ensures Sweepable(s, removed + [id], limit)
    ensures |candidates - {id}| < |candidates|
    ensures id in s.attachments && id !in removed
  {
    var rest, more := candidates - {id}, removed + [id];
    assert IsCandidate(s, skipped, candidates, id);
    assert candidates.Keys == rest.Keys + {id};
    forall k | k in rest ensures IsCandidate(s, skipped, rest, k) {
      assert IsCandidate(s, skipped, candidates, k);
    }
    OneMoreInOrder(s.attachments, removed, id);
  }

  lemma OneMoreInOrder(rows: map<string, Attachment>, ids: seq<string>, id: string)
    requires InOrder(rows, ids) && id in rows
    requires forall r | r in ids :: GoesBefore(OrphanPlace(rows[r]), OrphanPlace(rows[id]))
    ensures InOrder(rows, ids + [id])
  {
    forall i | 0 <= i < |ids| ensures GoesBefore(OrphanPlace(rows[ids[i]]), OrphanPlace(rows[id])) {
      assert ids[i] in ids;
    }
  }

  lemma NotYetRemoved(s: Store, removed: seq<string>, id: string)
    requires forall i | 0 <= i < |removed| :: removed[i] in s.attachments
    requires forall i, j | 0 <= i < j < |removed| :: removed[i] != removed[j]
    requires id in s.attachments && id !in removed
    ensures id in RemovedAll(s, removed).attachments && RemovedAll(s, removed).now == s.now
  {
  }

  // What is an expired orphan after a sweep was one before, and was not removed.
  lemma LeftAfterSweep(s: Store, removed: seq<string>, id: string)
    requires forall i | 0 <= i < |removed| :: removed[i] in s.attachments
    requires forall i, j | 0 <= i < j < |removed| :: removed[i] != removed[j]
    requires ExpiredOrphan(RemovedAll(s, removed), id)
    ensures ExpiredOrphan(s, id) && id !in removed
  {
  }

  lemma SweptHadExpired(s: Store, limit: nat, skipped: set<string>, candidates: map<string, Place>,
                        removed: seq<string>)
    requires SweepSoFar(s, limit, skipped, candidates, removed)
    ensures RemovesExpired(s, RemovedAll(s, removed), limit, skipped, removed)
  {
  }

  lemma LeftIsCandidate(s: Store, limit: nat, skipped: set<string>, candidates: map<string, Place>,
                        removed: seq<string>, id: string)
    requires SweepSoFar(s, limit, skipped, candidates, removed)
    requires IsExpired(RemovedAll(s, removed), id) && id !in skipped
    ensures id in candidates && IsCandidate(s, skipped, candidates, id)
  {
    LeftAfterSweep(s, removed, id);
  }

  lemma SweepEnds(s: Store, limit: nat, skipped: set<string>, candidates: map<string, Place>, removed: seq<string>)
    requires SweepSoFar(s, limit, skipped, candidates, removed)
    requires candidates == map[] || |removed| >= limit
    ensures RemovesExpired(s, RemovedAll(s, removed), limit, skipped, removed)
    ensures LeavesTheRest(s, RemovedAll(s, removed), limit, skipped, removed)
  {
    hide RemovesExpired, IsExpired;
    SweptHadExpired(s, limit, skipped, candidates, removed);
    forall id | IsExpired(RemovedAll(s, removed), id) && id !in skipped
      ensures id in candidates && IsCandidate(s, skipped, candidates, id)
    {
      LeftIsCandidate(s, limit, skipped, candidates, removed, id);
    }
  }

  // The sweep's WHERE clause, column by column.
  ghost predicate IsExpired(s: Store, id: string) {
    && id in s.attachments && s.attachments[id].messageId.None?
    && s.attachments[id].deletionStatus == Active && s.attachments[id].orphanExpiresAt <= s.now
  }

  ghost predicate ExpiresNoLater(rows: map<string, Attachment>, a: string, b: string) {
    && a in rows && b in rows
    && (|| rows[a].orphanExpiresAt < rows[b].orphanExpiresAt
        || (rows[a].orphanExpiresAt == rows[b].orphanExpiresAt && rows[a].createdAt <= rows[b].createdAt))
  }

  // What is removed had expired, in the order of its expiry, and the other rows stay.
  ghost predicate RemovesExpired(s: Store, s': Store, limit: nat, skipped: set<string>, removed: seq<string>) {
    && s'.now == s.now && |removed| <= limit
    && (forall id | id in removed :: IsExpired(s, id) && id !in skipped && id !in s'.attachments)
    && (forall id | id in s.attachments && id !in removed ::
          id in s'.attachments && s'.attachments[id] == s.attachments[id])
    && (forall i, j | 0 <= i < j < |removed| ::
          removed[i] != removed[j] && ExpiresNoLater(s.attachments, removed[i], removed[j]))
  }

  // Below the limit nothing that has expired is left, and what is left expired no earlier.
  ghost predicate LeavesTheRest(s: Store, s': Store, limit: nat, skipped: set<string>, removed: seq<string>) {
    && (|removed| < limit ==> forall id | IsExpired(s', id) :: id in skipped)
    && (forall id, r | IsExpired(s', id) && id !in skipped && r in removed :: ExpiresNoLater(s.attachments, r, id))
  }

  lemma RemovedNext(s: Store, removed: seq<string>, id: string)
    requires forall i | 0 <= i < |removed| :: removed[i] in s.attachments
    requires forall i, j | 0 <= i < j < |removed| :: removed[i] != removed[j]
    requires id in s.attachments && id !in removed
    ensures RemovedAll(s, removed + [id]) == Removed(RemovedAll(s, removed), id, s.now)
  {
    assert (removed + [id])[..|removed|] == removed;
  }
}
