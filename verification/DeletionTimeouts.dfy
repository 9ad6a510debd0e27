// When a deletion can be claimed and what a mark leaves behind, column by
// column and over whole runs (CLAIM_DELETION_SQL and the marks of
// chat_storage_deletion_job in src/worker/chat-storage.ts).
module DeletionTimeouts {
  import opened Options
  import opened AttachmentTypes
  import opened AttachmentSteps
  import opened AttachmentFencing
  import opened AttachmentTimeouts

  ghost predicate NoDeletions(s: Store) {
    s.deletions == map[] && s.deletionJobs == map[]
  }

  // ----- a deletion that is running was locked in the past

  ghost predicate LockedOk(d: Deletion, now: int) {
    d.state == DeletionRunning ==> d.lockedAt.Some? && d.lockedAt.value <= now
  }

  ghost predicate AllLockedOk(s: Store) {
    forall key | key in s.deletions :: LockedOk(s.deletions[key], s.now)
  }

  lemma StepKeepsLocked(cfg: Config, s: Store, a: Action)
    requires AllLockedOk(s)
    ensures AllLockedOk(Step(cfg, s, a))
  {
    if !IsDeletionStep(a) {
      hide Step;
      OtherStepOnlyEnqueues(cfg, s, a);
      StepClock(cfg, s, a);
    }
  }

  lemma {:induction false} ReachableIsLockedOk(cfg: Config, s: Store, actions: seq<Action>)
    requires NoDeletions(s)
    ensures DeletionsOk(Run(cfg, s, actions)) && AllLockedOk(Run(cfg, s, actions))
  {
    hide Step;
    RunKeepsDeletions(cfg, s, actions);
    if actions != [] {
      var n := |actions| - 1;
      ReachableIsLockedOk(cfg, s, actions[..n]);
      StepKeepsLocked(cfg, Run(cfg, s, actions[..n]), actions[n]);
    }
  }

  // ----- a lease lasts fifteen minutes

  ghost predicate LockedSince(s: Store, token: nat, key: string, t: int) {
    && HoldsDeletionToken(s, token) && s.deletionJobs[token].objectKey == key
    && s.deletions[key].lockedAt.Some? && s.deletions[key].lockedAt.value >= t
  }

  lemma ClaimLeavesLocked(s: Store, claimed: string, worker: string, next: nat, token: nat, key: string, t: int)
    requires LockedSince(s, token, key, t) && s.now <= t + 900_000
    ensures LockedSince(CommitClaimDeletion(s, claimed, worker, next), token, key, t)
  {
  }

  lemma MarkLeavesLocked(cfg: Config, s: Store, a: Action, token: nat, key: string, t: int)
    requires DeletionsOk(s) && LockedSince(s, token, key, t) && Marks(a) && a.token != token
    ensures LockedSince(Step(cfg, s, a), token, key, t)
  {
  }

  lemma StepLeavesLocked(cfg: Config, s: Store, a: Action, token: nat, key: string, t: int)
    requires DeletionsOk(s) && LockedSince(s, token, key, t) && s.now <= t + 900_000
    requires !(Marks(a) && a.token == token)
    ensures LockedSince(Step(cfg, s, a), token, key, t)
  {
    if a.ClaimDeletion? {
      ClaimLeavesLocked(s, a.key, a.worker, a.token, token, key, t);
    } else if Marks(a) {
      MarkLeavesLocked(cfg, s, a, token, key, t);
    } else {
      hide Step;
      OtherStepOnlyEnqueues(cfg, s, a);
    }
  }

  lemma {:induction false} LockedUntil(cfg: Config, s: Store, actions: seq<Action>, token: nat, i: nat, k: nat,
                                       key: string, t: int)
    requires NoDeletions(s) && i <= k <= |actions|
    requires LockedSince(Run(cfg, s, actions[..i]), token, key, t)
    requires Run(cfg, s, actions[..k]).now <= t + 900_000
    requires forall m | i <= m < k :: !(Marks(actions[m]) && actions[m].token == token)
    ensures LockedSince(Run(cfg, s, actions[..k]), token, key, t)
  {
    hide Step, Run, Marks, DeletionsOk;
    if i < k {
      RunClock(cfg, s, actions, k - 1, k);
      LockedUntil(cfg, s, actions, token, i, k - 1, key, t);
      ReachableIsLockedOk(cfg, s, actions[..k - 1]);
      RunPrefix(cfg, s, actions, k - 1);
      StepLeavesLocked(cfg, Run(cfg, s, actions[..k - 1]), actions[k - 1], token, key, t);
    }
  }

  // In every run: a deletion token that is current, with the deletion locked at
  // t, is current fifteen minutes on, unless its holder marks the deletion.
  lemma LeaseLasts(cfg: Config, s: Store, actions: seq<Action>, token: nat, i: nat, k: nat, t: int)
    requires NoDeletions(s) && i <= k <= |actions| && HoldsDeletionToken(Run(cfg, s, actions[..i]), token)
    requires var si := Run(cfg, s, actions[..i]); si.deletions[si.deletionJobs[token].objectKey].lockedAt == Some(t)
    requires Run(cfg, s, actions[..k]).now <= t + 900_000
    requires forall m | i <= m < k :: var a := actions[m]; !((a.FinishDeletion? || a.FailDeletion?) && a.token == token)
    ensures HoldsDeletionToken(Run(cfg, s, actions[..k]), token)
  {
    hide Step, Run;
    LockedUntil(cfg, s, actions, token, i, k, Run(cfg, s, actions[..i]).deletionJobs[token].objectKey, t);
  }

  // ----- what can be claimed

  // The deletion is the new holder's.
  ghost predicate IsTaken(s: Store, s': Store, key: string, worker: string, token: nat) {
    && key in s.deletions && key in s'.deletions
    && HoldsDeletionToken(s', token)
    && s'.deletionJobs[token].objectKey == key && s'.deletionJobs[token].workerId == worker
    && s'.deletions[key].state == DeletionRunning && s'.deletions[key].lockedAt == Some(s.now)
    && s'.deletions[key].lockedBy == Some(worker) && s'.deletions[key].leaseToken == Some(token)
    && s'.deletions[key].attempts == s.deletions[key].attempts + 1
    && s'.deletions == s.deletions[key := s'.deletions[key]]
    && s'.attachments == s.attachments
  }

  // In every run: a deletion that waits can be claimed when it is due; one that
  // is running once fifteen minutes have passed since it was locked; one that
  // has ended never.
  lemma TakenIff(cfg: Config, s: Store, actions: seq<Action>, key: string, worker: string, token: nat)
    requires NoDeletions(s)
    requires key in Run(cfg, s, actions).deletions && token !in Run(cfg, s, actions).deletionJobs
    ensures var m := Run(cfg, s, actions);
            var d, m' := m.deletions[key], Step(cfg, m, ClaimDeletion(key, worker, token));
            && (d.state == DeletionRunning ==> d.lockedAt.Some?)
            && if || (d.state == DeletionQueued && d.runAt <= m.now)
                  || (d.state == DeletionRunning && m.now > d.lockedAt.value + 900_000)
               then IsTaken(m, m', key, worker, token)
               else m' == m
  {
    hide Run;
    ReachableIsLockedOk(cfg, s, actions);
    assert LockedOk(Run(cfg, s, actions).deletions[key], Run(cfg, s, actions).now);
  }

  // ----- what a mark leaves behind

  ghost predicate IsMarked(a: Action, d: Deletion, d': Deletion)
    requires Marks(a)
  {
    && d'.attempts == d.attempts && d'.maxAttempts == d.maxAttempts && d'.createdAt == d.createdAt
    && d'.lockedAt.None? && d'.lockedBy.None? && d'.leaseToken.None?
    && if a.FinishDeletion? then d'.state == DeletionSucceeded
       else if d.attempts >= d.maxAttempts || !a.retryable then d'.state == DeletionFailed
       else d'.state == DeletionQueued && d'.runAt == a.retryAt
  }

  lemma JobIsSnapshot(s: Store, token: nat)
    requires DeletionsOk(s) && HoldsDeletionToken(s, token)
    ensures var job := s.deletionJobs[token];
            && job.attempts == s.deletions[job.objectKey].attempts
            && job.maxAttempts == s.deletions[job.objectKey].maxAttempts
  {
    assert DeletionOk(s, s.deletionJobs[token].objectKey);
  }

  lemma MarkOfHolder(cfg: Config, s: Store, a: Action)
    requires Marks(a) && a.token in s.deletionJobs && Step(cfg, s, a) != s
    requires var job := s.deletionJobs[a.token];
             && job.objectKey in s.deletions
             && job.attempts == s.deletions[job.objectKey].attempts
             && job.maxAttempts == s.deletions[job.objectKey].maxAttempts
    ensures var key, s' := s.deletionJobs[a.token].objectKey, Step(cfg, s, a);
            && key in s'.deletions && s'.deletions == s.deletions[key := s'.deletions[key]]
            && IsMarked(a, s.deletions[key], s'.deletions[key])
  {
  }

  // In every run: a mark that takes effect ends the deletion, or puts it back
  // until retryAt while attempts are left.
  lemma MarkedAs(cfg: Config, s: Store, actions: seq<Action>, i: nat)
    requires NoDeletions(s) && i < |actions| && Marks(actions[i])
    requires Run(cfg, s, actions[..i + 1]) != Run(cfg, s, actions[..i])
    ensures var m, m', token := Run(cfg, s, actions[..i]), Run(cfg, s, actions[..i + 1]), actions[i].token;
            && HoldsDeletionToken(m, token)
            && var key := m.deletionJobs[token].objectKey;
               && key in m'.deletions && m'.deletions == m.deletions[key := m'.deletions[key]]
               && IsMarked(actions[i], m.deletions[key], m'.deletions[key])
  {
    hide Run, Step, IsMarked, DeletionsOk;
    var m := Run(cfg, s, actions[..i]);
    ReachableIsLockedOk(cfg, s, actions[..i]);
    RunPrefix(cfg, s, actions, i);
    EffectiveMarkReleases(cfg, m, actions[i]);
    JobIsSnapshot(m, actions[i].token);
    MarkOfHolder(cfg, m, actions[i]);
  }

  lemma StepKeepsOver(cfg: Config, s: Store, a: Action, key: string)
    requires key in s.deletions && s.deletions[key].state in {DeletionSucceeded, DeletionFailed}
    ensures key in Step(cfg, s, a).deletions && Step(cfg, s, a).deletions[key] == s.deletions[key]
  {
    if !IsDeletionStep(a) {
      hide Step;
      OtherStepOnlyEnqueues(cfg, s, a);
    }
  }

  // A deletion that succeeded or failed for good stays as it is in every run.
  lemma {:induction false} OverStaysOver(cfg: Config, s: Store, actions: seq<Action>, key: string)
    requires key in s.deletions && s.deletions[key].state in {DeletionSucceeded, DeletionFailed}
    ensures key in Run(cfg, s, actions).deletions && Run(cfg, s, actions).deletions[key] == s.deletions[key]
  {
    hide Step;
    if actions != [] {
      var n := |actions| - 1;
      OverStaysOver(cfg, s, actions[..n], key);
      StepKeepsOver(cfg, Run(cfg, s, actions[..n]), actions[n], key);
    }
  }
}
