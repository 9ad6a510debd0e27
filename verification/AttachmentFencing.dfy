// Runs of the attachment queue and of the deletion queue are lease histories,
// so a stale holder changes nothing and a lease that was lost stays lost.
module AttachmentFencing {
  import opened Options
  import opened AttachmentTypes
  import opened AttachmentSteps
  import opened AttachmentProofs
  import Fencing

  // ----- attachment parsing

  predicate IsLeased(r: Attachment) {
    r.parseStatus == Parsing && r.lockedBy.Some? && r.leaseToken.Some?
  }

  function HolderOf(r: Attachment): Fencing.Holder
    requires IsLeased(r)
  {
    Fencing.Holder(r.lockedBy.value, r.leaseToken.value)
  }

  function LeasesOf(s: Store): Fencing.Leases {
    Fencing.Leases(map id | id in s.attachments && IsLeased(s.attachments[id]) :: HolderOf(s.attachments[id]),
                   s.jobs.Keys)
  }

  lemma LeasesAreSound(cfg: Config, s: Store)
    requires QueueOk(cfg, s)
    ensures Fencing.Sound(LeasesOf(s))
  {
    var v := LeasesOf(s);
    forall id | id in v.held
      ensures v.held[id].token in s.jobs && s.jobs[v.held[id].token].id == id
    {
      assert RowOk(cfg, s, id);
    }
  }

  // Either the row kept its lease or the lease it has now is new.
  ghost predicate LeaseKeptOrNew(s: Store, s': Store, id: string)
    requires id in s'.attachments
  {
    IsLeased(s'.attachments[id]) ==>
      || (id in s.attachments && IsLeased(s.attachments[id])
          && HolderOf(s.attachments[id]) == HolderOf(s'.attachments[id]))
      || s'.attachments[id].leaseToken.value !in s.jobs
  }

  // Jobs already handed out stay as they were.
  ghost predicate JobsKept(s: Store, s': Store) {
    && (forall token | token in s.jobs :: token in s'.jobs && s'.jobs[token] == s.jobs[token])
    && (forall token | token in s.deletionJobs ::
          token in s'.deletionJobs && s'.deletionJobs[token] == s.deletionJobs[token])
  }

  lemma ClaimsKeepJobs(s: Store, id: string, worker: string, token: nat)
    ensures JobsKept(s, CommitClaim(s, id, worker, token))
    ensures JobsKept(s, CommitClaimDeletion(s, id, worker, token))
  {
  }

  lemma OtherStepHandsOutNothing(cfg: Config, s: Store, a: Action)
    requires !a.Claim? && !a.ClaimDeletion?
    ensures Step(cfg, s, a).jobs == s.jobs && Step(cfg, s, a).deletionJobs == s.deletionJobs
  {
    if a.SweepOrphans? && Sweepable(s, a.ids, a.limit) {
      RemovedAllOnlyRemoves(s, a.ids);
    }
  }

  lemma StepKeepsJobs(cfg: Config, s: Store, a: Action)
    ensures JobsKept(s, Step(cfg, s, a))
  {
    if a.Claim? {
      ClaimsKeepJobs(s, a.id, a.worker, a.token);
    } else if a.ClaimDeletion? {
      ClaimsKeepJobs(s, a.key, a.worker, a.token);
    } else {
      OtherStepHandsOutNothing(cfg, s, a);
    }
  }

  lemma ClaimKeepsOrRenews(s: Store, claimed: string, worker: string, token: nat, id: string)
    requires id in CommitClaim(s, claimed, worker, token).attachments
    ensures LeaseKeptOrNew(s, CommitClaim(s, claimed, worker, token), id)
  {
  }

  lemma OtherStepKeepsLease(cfg: Config, s: Store, a: Action, id: string)
    requires !a.Claim? && id in Step(cfg, s, a).attachments
    ensures LeaseKeptOrNew(s, Step(cfg, s, a), id)
  {
  }

  lemma StepKeepsOrRenews(cfg: Config, s: Store, a: Action, id: string)
    requires id in Step(cfg, s, a).attachments
    ensures LeaseKeptOrNew(s, Step(cfg, s, a), id)
  {
    if a.Claim? {
      ClaimKeepsOrRenews(s, a.id, a.worker, a.token, id);
    } else {
      OtherStepKeepsLease(cfg, s, a, id);
    }
  }

  // Leases each kept or new, over jobs that stay, are a move of the history.
  lemma KeptOrNewMoves(s: Store, s': Store)
    requires Fencing.Sound(LeasesOf(s')) && JobsKept(s, s')
    requires forall id | id in s'.attachments :: LeaseKeptOrNew(s, s', id)
    ensures Fencing.Moves(LeasesOf(s), LeasesOf(s'))
  {
    forall id | id in LeasesOf(s').held
      ensures Fencing.Current(LeasesOf(s), id, LeasesOf(s').held[id]) || LeasesOf(s').held[id].token !in s.jobs
    {
      assert LeaseKeptOrNew(s, s', id);
    }
  }

  lemma StepMovesLeases(cfg: Config, s: Store, a: Action)
    requires QueueOk(cfg, s)
    ensures Fencing.Moves(LeasesOf(s), LeasesOf(Step(cfg, s, a)))
  {
    var s' := Step(cfg, s, a);
    StepKeeps(cfg, s, a);
    LeasesAreSound(cfg, s');
    StepKeepsJobs(cfg, s, a);
    forall id | id in s'.attachments ensures LeaseKeptOrNew(s, s', id) {
      StepKeepsOrRenews(cfg, s, a, id);
    }
    KeptOrNewMoves(s, s');
  }

  ghost function LeaseHistory(cfg: Config, s: Store, actions: seq<Action>): (vs: seq<Fencing.Leases>)
    ensures |vs| == |actions| + 1
    ensures forall i | 0 <= i <= |actions| :: vs[i] == LeasesOf(Run(cfg, s, actions[..i]))
  {
    seq(|actions| + 1, i requires 0 <= i <= |actions| => LeasesOf(Run(cfg, s, actions[..i])))
  }

  lemma RunIsLeaseHistory(cfg: Config, s: Store, actions: seq<Action>)
    requires QueueOk(cfg, s)
    ensures Fencing.History(LeaseHistory(cfg, s, actions))
  {
    var vs := LeaseHistory(cfg, s, actions);
    assert actions[..0] == [];
    LeasesAreSound(cfg, s);
    forall i | 0 <= i < |vs| - 1 ensures Fencing.Moves(vs[i], vs[i + 1]) {
      RunKeeps(cfg, s, actions[..i]);
      RunPrefix(cfg, s, actions, i);
      StepMovesLeases(cfg, Run(cfg, s, actions[..i]), actions[i]);
    }
  }

  lemma {:induction false} RunKeepsJobs(cfg: Config, s: Store, actions: seq<Action>)
    ensures JobsKept(s, Run(cfg, s, actions))
  {
    if actions != [] {
      RunKeepsJobs(cfg, s, actions[..|actions| - 1]);
      StepKeepsJobs(cfg, Run(cfg, s, actions[..|actions| - 1]), actions[|actions| - 1]);
    }
  }

  lemma JobsKeptBetween(cfg: Config, s: Store, actions: seq<Action>, i: nat, j: nat)
    requires i <= j <= |actions|
    ensures JobsKept(Run(cfg, s, actions[..i]), Run(cfg, s, actions[..j]))
  {
    assert actions[..j] == actions[..i] + actions[i..j];
    RunConcat(cfg, s, actions[..i], actions[i..j]);
    RunKeepsJobs(cfg, Run(cfg, s, actions[..i]), actions[i..j]);
  }

  // ----- main results for parsing leases

  predicate Releases(a: Action) {
    a.Submit? || a.Defer? || a.Complete? || a.Fail?
  }

  // A statement of a holder rewrites the holder's own row, which is unlocked.
  lemma ReleaseRewritesRow(cfg: Config, s: Store, a: Action)
    requires Releases(a) && Step(cfg, s, a) != s
    ensures var s' := Step(cfg, s, a);
            && a.token in s.jobs && Current(s, s.jobs[a.token]) && s'.jobs == s.jobs
            && s.jobs[a.token].id in s'.attachments && s'.attachments[s.jobs[a.token].id].leaseToken.None?
  {
  }

  // A step of a current holder other than renewing gives the lease up.
  lemma EffectiveStepReleases(cfg: Config, s: Store, a: Action)
    requires Releases(a) && Step(cfg, s, a) != s
    ensures HoldsToken(s, a.token) && a.token in Step(cfg, s, a).jobs && !HoldsToken(Step(cfg, s, a), a.token)
  {
    hide Step;
    ReleaseRewritesRow(cfg, s, a);
  }

  lemma HolderIsCurrent(cfg: Config, s: Store, token: nat)
    requires QueueOk(cfg, s) && token in s.jobs
    ensures HoldsToken(s, token)
       <==> Fencing.Current(LeasesOf(s), s.jobs[token].id, Fencing.Holder(s.jobs[token].workerId, token))
  {
  }

  // What a job handed out by moment j is at moments j and k.
  lemma JobAtBoth(cfg: Config, s: Store, actions: seq<Action>, token: nat, j: nat, k: nat)
    requires QueueOk(cfg, s) && j <= k <= |actions| && token in Run(cfg, s, actions[..j]).jobs
    ensures var sj, sk := Run(cfg, s, actions[..j]), Run(cfg, s, actions[..k]);
            var h := Fencing.Holder(sj.jobs[token].workerId, token);
            && (HoldsToken(sj, token) <==> Fencing.Current(LeasesOf(sj), sj.jobs[token].id, h))
            && (HoldsToken(sk, token) <==> Fencing.Current(LeasesOf(sk), sj.jobs[token].id, h))
            && token in sk.jobs
  {
    RunKeeps(cfg, s, actions[..j]);
    RunKeeps(cfg, s, actions[..k]);
    JobsKeptBetween(cfg, s, actions, j, k);
    HolderIsCurrent(cfg, Run(cfg, s, actions[..j]), token);
    HolderIsCurrent(cfg, Run(cfg, s, actions[..k]), token);
  }

  // No ABA: in every run, a token that has been handed out and is not current
  // never becomes current again.
  lemma LostLeaseStaysLost(cfg: Config, s: Store, actions: seq<Action>, token: nat, j: nat, k: nat)
    requires QueueOk(cfg, s) && j <= k <= |actions|
    requires token in Run(cfg, s, actions[..j]).jobs && !HoldsToken(Run(cfg, s, actions[..j]), token)
    ensures !HoldsToken(Run(cfg, s, actions[..k]), token)
  {
    RunIsLeaseHistory(cfg, s, actions);
    JobAtBoth(cfg, s, actions, token, j, k);
    var job := Run(cfg, s, actions[..j]).jobs[token];
    Fencing.LostStaysLost(LeaseHistory(cfg, s, actions), j, k, job.id, Fencing.Holder(job.workerId, token));
  }

  // From then on its holder changes nothing, whatever it tries.
  lemma StaleHolderChangesNothing(cfg: Config, s: Store, actions: seq<Action>, token: nat, j: nat, k: nat)
    requires QueueOk(cfg, s) && j <= k < |actions|
    requires token in Run(cfg, s, actions[..j]).jobs && !HoldsToken(Run(cfg, s, actions[..j]), token)
    requires var a := actions[k]; (a.Renew? || a.Submit? || a.Defer? || a.Complete? || a.Fail?) && a.token == token
    ensures Run(cfg, s, actions[..k + 1]) == Run(cfg, s, actions[..k])
  {
    LostLeaseStaysLost(cfg, s, actions, token, j, k);
    RunPrefix(cfg, s, actions, k);
  }

  // A token current at two moments was current at every moment between them.
  lemma HeldBetween(cfg: Config, s: Store, actions: seq<Action>, token: nat, i: nat, j: nat, k: nat)
    requires QueueOk(cfg, s) && i <= j <= k <= |actions|
    requires HoldsToken(Run(cfg, s, actions[..i]), token)
    requires HoldsToken(Run(cfg, s, actions[..k]), token)
    ensures HoldsToken(Run(cfg, s, actions[..j]), token)
  {
    RunIsLeaseHistory(cfg, s, actions);
    JobAtBoth(cfg, s, actions, token, i, j);
    JobAtBoth(cfg, s, actions, token, i, k);
    var job := Run(cfg, s, actions[..i]).jobs[token];
    Fencing.HeldThroughout(LeaseHistory(cfg, s, actions), i, j, k, job.id, Fencing.Holder(job.workerId, token));
  }

  // Each token succeeds in at most one releasing step.
  lemma OneReleasePerToken(cfg: Config, s: Store, actions: seq<Action>, i: nat, j: nat)
    requires QueueOk(cfg, s) && i < j < |actions|
    requires Releases(actions[i]) && Releases(actions[j])
    requires Run(cfg, s, actions[..i + 1]) != Run(cfg, s, actions[..i])
    requires Run(cfg, s, actions[..j + 1]) != Run(cfg, s, actions[..j])
    ensures actions[i].token != actions[j].token
  {
    hide Step, Run, HoldsToken;
    RunPrefix(cfg, s, actions, i);
    RunPrefix(cfg, s, actions, j);
    EffectiveStepReleases(cfg, Run(cfg, s, actions[..i]), actions[i]);
    EffectiveStepReleases(cfg, Run(cfg, s, actions[..j]), actions[j]);
    if actions[i].token == actions[j].token {
      LostLeaseStaysLost(cfg, s, actions, actions[i].token, i + 1, j);
    }
  }

  // ----- the deletion queue follows the same protocol

  predicate DeletionLeased(d: Deletion) {
    d.state == DeletionRunning && d.lockedBy.Some? && d.leaseToken.Some?
  }

  function DeletionHolder(d: Deletion): Fencing.Holder
    requires DeletionLeased(d)
  {
    Fencing.Holder(d.lockedBy.value, d.leaseToken.value)
  }

  function DeletionLeases(s: Store): Fencing.Leases {
    Fencing.Leases(map key | key in s.deletions && DeletionLeased(s.deletions[key]) :: DeletionHolder(s.deletions[key]),
                   s.deletionJobs.Keys)
  }

  ghost predicate DeletionOk(s: Store, key: string)
    requires key in s.deletions
  {
    var d := s.deletions[key];
    && d.maxAttempts > 0
    && (d.state == DeletionRunning <==> d.leaseToken.Some?)
    && (d.leaseToken.Some? ==>
      && d.lockedBy.Some?
      && d.leaseToken.value in s.deletionJobs
      && s.deletionJobs[d.leaseToken.value]
           == DeletionJob(key, d.attempts, d.maxAttempts, d.lockedBy.value, d.leaseToken.value))
  }

  ghost predicate DeletionsOk(s: Store) {
    && (forall key | key in s.deletions :: DeletionOk(s, key))
    && (forall token | token in s.deletionJobs :: s.deletionJobs[token].leaseToken == token)
  }

  // Deletions are added, and those that were there stay as they were.
  ghost predicate OnlyEnqueues(s: Store, s': Store) {
    && s'.deletionJobs == s.deletionJobs
    && (forall key | key in s.deletions :: key in s'.deletions && s'.deletions[key] == s.deletions[key])
    && (forall key | key in s'.deletions && key !in s.deletions ::
          s'.deletions[key].state == DeletionQueued && s'.deletions[key].leaseToken.None?
          && s'.deletions[key].attempts == 0 && s'.deletions[key].maxAttempts > 0)
  }

  lemma RemovedKeepsDeletions(s: Store, id: string, runAt: int)
    requires id in s.attachments
    ensures OnlyEnqueues(s, Removed(s, id, runAt))
  {
  }

  lemma {:induction false} RemovedAllKeepsDeletions(s: Store, ids: seq<string>)
    requires forall i | 0 <= i < |ids| :: ids[i] in s.attachments
    requires forall i, j | 0 <= i < j < |ids| :: ids[i] != ids[j]
    ensures OnlyEnqueues(s, RemovedAll(s, ids))
  {
    if ids != [] {
      var n := |ids| - 1;
      RemovedAllKeepsDeletions(s, ids[..n]);
      var m := RemovedAll(s, ids[..n]);
      RemovedKeepsDeletions(m, ids[n], m.now);
    }
  }

  lemma EnqueuingKeepsDeletions(s: Store, s': Store)
    requires DeletionsOk(s) && OnlyEnqueues(s, s')
    ensures DeletionsOk(s')
  {
    forall key | key in s'.deletions ensures DeletionOk(s', key) {
      if key in s.deletions {
        assert DeletionOk(s, key);
      }
    }
  }

  predicate IsDeletionStep(a: Action) {
    a.ClaimDeletion? || a.FinishDeletion? || a.FailDeletion?
  }

  lemma OtherStepLeavesDeletions(cfg: Config, s: Store, a: Action)
    requires !IsDeletionStep(a) && !a.SweepOrphans? && !a.DeleteUnbound?
    ensures Step(cfg, s, a).deletions == s.deletions && Step(cfg, s, a).deletionJobs == s.deletionJobs
  {
  }

  lemma OtherStepOnlyEnqueues(cfg: Config, s: Store, a: Action)
    requires !IsDeletionStep(a)
    ensures OnlyEnqueues(s, Step(cfg, s, a))
  {
    if a.SweepOrphans? {
      if Sweepable(s, a.ids, a.limit) {
        RemovedAllKeepsDeletions(s, a.ids);
      }
    } else if a.DeleteUnbound? {
      if a.id in s.attachments {
        RemovedKeepsDeletions(s, a.id, a.runAt);
      }
    } else {
      OtherStepLeavesDeletions(cfg, s, a);
    }
  }

  lemma DeletionStepKeepsDeletions(cfg: Config, s: Store, a: Action)
    requires DeletionsOk(s) && IsDeletionStep(a)
    ensures DeletionsOk(Step(cfg, s, a))
  {
    var s' := Step(cfg, s, a);
    forall key | key in s'.deletions ensures DeletionOk(s', key) {
      assert DeletionOk(s, key);
    }
  }

  lemma StepKeepsDeletions(cfg: Config, s: Store, a: Action)
    requires DeletionsOk(s)
    ensures DeletionsOk(Step(cfg, s, a))
  {
    if IsDeletionStep(a) {
      DeletionStepKeepsDeletions(cfg, s, a);
    } else {
      OtherStepOnlyEnqueues(cfg, s, a);
      EnqueuingKeepsDeletions(s, Step(cfg, s, a));
    }
  }

  lemma DeletionLeasesAreSound(s: Store)
    requires DeletionsOk(s)
    ensures Fencing.Sound(DeletionLeases(s))
  {
    var v := DeletionLeases(s);
    forall key | key in v.held
      ensures v.held[key].token in s.deletionJobs && s.deletionJobs[v.held[key].token].objectKey == key
    {
      assert DeletionOk(s, key);
    }
  }

  ghost predicate DeletionKeptOrNew(s: Store, s': Store, key: string)
    requires key in s'.deletions
  {
    DeletionLeased(s'.deletions[key]) ==>
      || Fencing.Current(DeletionLeases(s), key, DeletionHolder(s'.deletions[key]))
      || DeletionHolder(s'.deletions[key]).token !in s.deletionJobs
  }

  lemma EnqueuingKeepsDeletionLease(s: Store, s': Store, key: string)
    requires OnlyEnqueues(s, s') && key in s'.deletions
    ensures DeletionKeptOrNew(s, s', key)
  {
  }

  lemma DeletionStepKeepsLease(cfg: Config, s: Store, a: Action, key: string)
    requires IsDeletionStep(a) && key in Step(cfg, s, a).deletions
    ensures DeletionKeptOrNew(s, Step(cfg, s, a), key)
  {
  }

  lemma StepMovesDeletionLeases(cfg: Config, s: Store, a: Action)
    requires DeletionsOk(s)
    ensures Fencing.Moves(DeletionLeases(s), DeletionLeases(Step(cfg, s, a)))
  {
    var s' := Step(cfg, s, a);
    StepKeepsDeletions(cfg, s, a);
    DeletionLeasesAreSound(s');
    StepKeepsJobs(cfg, s, a);
    forall key | key in s'.deletions ensures DeletionKeptOrNew(s, s', key) {
      if IsDeletionStep(a) {
        DeletionStepKeepsLease(cfg, s, a, key);
      } else {
        OtherStepOnlyEnqueues(cfg, s, a);
        EnqueuingKeepsDeletionLease(s, s', key);
      }
    }
  }

  ghost function DeletionHistory(cfg: Config, s: Store, actions: seq<Action>): (vs: seq<Fencing.Leases>)
    ensures |vs| == |actions| + 1
    ensures forall i | 0 <= i <= |actions| :: vs[i] == DeletionLeases(Run(cfg, s, actions[..i]))
  {
    seq(|actions| + 1, i requires 0 <= i <= |actions| => DeletionLeases(Run(cfg, s, actions[..i])))
  }

  lemma {:induction false} RunKeepsDeletions(cfg: Config, s: Store, actions: seq<Action>)
    requires DeletionsOk(s)
    ensures DeletionsOk(Run(cfg, s, actions))
  {
    if actions != [] {
      RunKeepsDeletions(cfg, s, actions[..|actions| - 1]);
      StepKeepsDeletions(cfg, Run(cfg, s, actions[..|actions| - 1]), actions[|actions| - 1]);
    }
  }

  lemma RunIsDeletionHistory(cfg: Config, s: Store, actions: seq<Action>)
    requires DeletionsOk(s)
    ensures Fencing.History(DeletionHistory(cfg, s, actions))
  {
    var vs := DeletionHistory(cfg, s, actions);
    assert actions[..0] == [];
    DeletionLeasesAreSound(s);
    forall i | 0 <= i < |vs| - 1 ensures Fencing.Moves(vs[i], vs[i + 1]) {
      RunKeepsDeletions(cfg, s, actions[..i]);
      RunPrefix(cfg, s, actions, i);
      StepMovesDeletionLeases(cfg, Run(cfg, s, actions[..i]), actions[i]);
    }
  }

  lemma DeletionHolderIsCurrent(s: Store, token: nat)
    requires DeletionsOk(s) && token in s.deletionJobs
    ensures HoldsDeletionToken(s, token)
       <==> Fencing.Current(DeletionLeases(s), s.deletionJobs[token].objectKey,
                            Fencing.Holder(s.deletionJobs[token].workerId, token))
  {
  }

  lemma LostDeletionStaysLost(cfg: Config, s: Store, actions: seq<Action>, token: nat, j: nat, k: nat)
    requires DeletionsOk(s) && j <= k <= |actions|
    requires token in Run(cfg, s, actions[..j]).deletionJobs && !HoldsDeletionToken(Run(cfg, s, actions[..j]), token)
    ensures !HoldsDeletionToken(Run(cfg, s, actions[..k]), token)
  {
    RunIsDeletionHistory(cfg, s, actions);
    RunKeepsDeletions(cfg, s, actions[..j]);
    RunKeepsDeletions(cfg, s, actions[..k]);
    JobsKeptBetween(cfg, s, actions, j, k);
    DeletionHolderIsCurrent(Run(cfg, s, actions[..j]), token);
    DeletionHolderIsCurrent(Run(cfg, s, actions[..k]), token);
    var job := Run(cfg, s, actions[..j]).deletionJobs[token];
    Fencing.LostStaysLost(DeletionHistory(cfg, s, actions), j, k, job.objectKey, Fencing.Holder(job.workerId, token));
  }

  // From then on its holder marks nothing. The deletion of the object itself is
  // not fenced: it comes before the mark, and deleting twice does no harm.
  lemma StaleDeletionChangesNothing(cfg: Config, s: Store, actions: seq<Action>, token: nat, j: nat, k: nat)
    requires DeletionsOk(s) && j <= k < |actions|
    requires token in Run(cfg, s, actions[..j]).deletionJobs && !HoldsDeletionToken(Run(cfg, s, actions[..j]), token)
    requires var a := actions[k]; (a.FinishDeletion? || a.FailDeletion?) && a.token == token
    ensures Run(cfg, s, actions[..k + 1]) == Run(cfg, s, actions[..k])
  {
    LostDeletionStaysLost(cfg, s, actions, token, j, k);
    RunPrefix(cfg, s, actions, k);
  }

  predicate Marks(a: Action) {
    a.FinishDeletion? || a.FailDeletion?
  }

  lemma MarkUnlocksRow(cfg: Config, s: Store, a: Action)
    requires Marks(a) && Step(cfg, s, a) != s
    ensures var s' := Step(cfg, s, a);
            && a.token in s.deletionJobs && DeletionCurrent(s, s.deletionJobs[a.token])
            && s'.deletionJobs == s.deletionJobs
            && s.deletionJobs[a.token].objectKey in s'.deletions
            && s'.deletions[s.deletionJobs[a.token].objectKey].leaseToken.None?
  {
  }

  // A mark that changes anything was made under a current lease and ends it.
  lemma EffectiveMarkReleases(cfg: Config, s: Store, a: Action)
    requires Marks(a) && Step(cfg, s, a) != s
    ensures HoldsDeletionToken(s, a.token)
    ensures a.token in Step(cfg, s, a).deletionJobs && !HoldsDeletionToken(Step(cfg, s, a), a.token)
  {
    hide Step;
    MarkUnlocksRow(cfg, s, a);
  }

  // Each deletion token succeeds in at most one mark.
  lemma OneMarkPerToken(cfg: Config, s: Store, actions: seq<Action>, i: nat, j: nat)
    requires DeletionsOk(s) && i < j < |actions|
    requires Marks(actions[i]) && Marks(actions[j])
    requires Run(cfg, s, actions[..i + 1]) != Run(cfg, s, actions[..i])
    requires Run(cfg, s, actions[..j + 1]) != Run(cfg, s, actions[..j])
    ensures actions[i].token != actions[j].token
  {
    hide Step, Run, HoldsDeletionToken;
    RunPrefix(cfg, s, actions, i);
    RunPrefix(cfg, s, actions, j);
    EffectiveMarkReleases(cfg, Run(cfg, s, actions[..i]), actions[i]);
    EffectiveMarkReleases(cfg, Run(cfg, s, actions[..j]), actions[j]);
    if actions[i].token == actions[j].token {
      LostDeletionStaysLost(cfg, s, actions, actions[i].token, i + 1, j);
    }
  }
}
