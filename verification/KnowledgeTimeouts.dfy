// When a task of the knowledge queue can be claimed, over whole runs: a lease
// lasts fifteen minutes from its last renewal and no longer, and a task that
// waits is claimed when it is due and not before (CLAIM_NEXT_SQL in
// src/worker/postgres-repository.ts). The conditions are spelled out here
// column by column.
module KnowledgeTimeouts {
  import opened Options
  import opened KnowledgeTypes
  import opened KnowledgeSteps
  import opened KnowledgeProofs
  import opened KnowledgeFencing

  // ----- the clock

  lemma StepClock(cfg: Config, s: Store, a: Action)
    ensures s.now <= Step(cfg, s, a).now && (!a.Advance? ==> Step(cfg, s, a).now == s.now)
  {
  }

  lemma {:induction false} RunClock(cfg: Config, s: Store, actions: seq<Action>, i: nat, k: nat)
    requires i <= k <= |actions|
    ensures Run(cfg, s, actions[..i]).now <= Run(cfg, s, actions[..k]).now
  {
    hide Step, Run;
    if i < k {
      RunClock(cfg, s, actions, i, k - 1);
      RunPrefix(cfg, s, actions, k - 1);
      StepClock(cfg, Run(cfg, s, actions[..k - 1]), actions[k - 1]);
    }
  }

  // ----- a task that is running was locked in the past

  ghost predicate LockOk(r: Task, now: int) {
    r.status == TaskRunning ==> r.lockedAt.Some? && r.lockedAt.value <= now
  }

  ghost predicate LocksOk(s: Store) {
    forall id | id in s.tasks :: LockOk(s.tasks[id], s.now)
  }

  ghost predicate OwnRowLockOk(s: Store, id: string) {
    id in s.tasks ==> LockOk(s.tasks[id], s.now)
  }

  lemma ClaimLocksRow(s: Store, id: string, worker: string, token: nat)
    requires LocksOk(s)
    ensures OwnRowLockOk(CommitClaim(s, id, worker, token), id)
  {
  }

  lemma HolderLocksRow(cfg: Config, s: Store, a: Action)
    requires LocksOk(s) && (a.Renew? || a.Submit? || a.Defer? || a.RequireReview? || a.Fail?)
    ensures OwnRowLockOk(Step(cfg, s, a), RowOf(s, a))
  {
  }

  lemma ContentLocksRow(cfg: Config, s: Store, a: Action)
    requires LocksOk(s) && (a.SaveParsed? || a.SaveEmbeddings?)
    ensures OwnRowLockOk(Step(cfg, s, a), RowOf(s, a))
  {
    if Step(cfg, s, a) != s {
      ContentStepRewritesRow(cfg, s, a);
    }
  }

  lemma AddOrRejectLocksRow(cfg: Config, s: Store, a: Action)
    requires LocksOk(s) && (a.Enqueue? || a.RejectMalformed?)
    ensures OwnRowLockOk(Step(cfg, s, a), RowOf(s, a))
  {
  }

  lemma LoadLocksRow(cfg: Config, s: Store, a: Action, id: string)
    requires LocksOk(s) && a.LoadApproved?
    ensures OwnRowLockOk(Step(cfg, s, a), id)
  {
  }

  lemma StepLocksRow(cfg: Config, s: Store, a: Action)
    requires LocksOk(s)
    ensures OwnRowLockOk(Step(cfg, s, a), RowOf(s, a))
  {
    hide Step;
    if IsOutsideStep(a) {
      OutsideStepKeepsQueue(cfg, s, a);
      StepClock(cfg, s, a);
    } else if a.Claim? {
      StepOfClaim(cfg, s, a);
      ClaimLocksRow(s, a.id, a.worker, a.token);
    } else if a.Renew? || a.Submit? || a.Defer? || a.RequireReview? || a.Fail? {
      HolderLocksRow(cfg, s, a);
    } else if a.SaveParsed? || a.SaveEmbeddings? {
      ContentLocksRow(cfg, s, a);
    } else if a.LoadApproved? {
      LoadLocksRow(cfg, s, a, RowOf(s, a));
    } else {
      AddOrRejectLocksRow(cfg, s, a);
    }
  }

  lemma StepOfClaim(cfg: Config, s: Store, a: Action)
    requires a.Claim?
    ensures Step(cfg, s, a) == CommitClaim(s, a.id, a.worker, a.token)
  {
  }

  lemma StepKeepsLocks(cfg: Config, s: Store, a: Action)
    requires QueueOk(cfg, s) && LocksOk(s)
    ensures LocksOk(Step(cfg, s, a))
  {
    hide Step, QueueOk;
    StepIsLeaseStep(cfg, s, a);
    StepClock(cfg, s, a);
    StepLocksRow(cfg, s, a);
    var s' := Step(cfg, s, a);
    forall id | id in s'.tasks ensures LockOk(s'.tasks[id], s'.now) {
      if id != RowOf(s, a) {
        assert LockOk(s.tasks[id], s.now);
      }
    }
  }

  // What every moment of a run from an empty queue has.
  lemma {:induction false} ReachableIsOk(cfg: Config, s: Store, actions: seq<Action>)
    requires Initial(cfg, s)
    ensures QueueOk(cfg, Run(cfg, s, actions)) && LocksOk(Run(cfg, s, actions))
  {
    hide Step, QueueOk;
    InitialIsOk(cfg, s);
    RunKeeps(cfg, s, actions);
    if actions != [] {
      var n := |actions| - 1;
      ReachableIsOk(cfg, s, actions[..n]);
      StepKeepsLocks(cfg, Run(cfg, s, actions[..n]), actions[n]);
    }
  }

  // ----- a lease lasts fifteen minutes

  // The job's row carries its token, and was locked at t or later.
  ghost predicate HeldSince(s: Store, token: nat, id: string, t: int) {
    && HoldsToken(s, token) && s.jobs[token].id == id
    && s.tasks[id].lockedAt.Some? && s.tasks[id].lockedAt.value >= t
  }

  lemma OtherRowLeavesLease(cfg: Config, s: Store, a: Action, token: nat, id: string, t: int)
    requires QueueOk(cfg, s) && HeldSince(s, token, id, t) && RowOf(s, a) != id
    ensures HeldSince(Step(cfg, s, a), token, id, t)
  {
    hide Step, QueueOk;
    StepIsLeaseStep(cfg, s, a);
    StepMovesForward(cfg, s, a, id);
  }

  lemma HeldIsNotClaimed(s: Store, worker: string, next: nat, token: nat, id: string, t: int)
    requires HeldSince(s, token, id, t) && s.now <= t + 900_000
    ensures CommitClaim(s, id, worker, next) == s
  {
  }

  lemma HeldIsNotRejected(cfg: Config, s: Store, a: Action, token: nat, id: string, t: int)
    requires QueueOk(cfg, s) && HeldSince(s, token, id, t) && RowOf(s, a) == id && (a.RejectMalformed? || a.Enqueue?)
    ensures Step(cfg, s, a) == s
  {
    JobMatchesRow(cfg, s, token);
  }

  lemma HeldByOneToken(cfg: Config, s: Store, other: nat, token: nat, id: string, t: int)
    requires QueueOk(cfg, s) && HeldSince(s, token, id, t) && HoldsToken(s, other) && s.jobs[other].id == id
    ensures other == token
  {
  }

  lemma RenewLeavesLease(cfg: Config, s: Store, token: nat, id: string, t: int)
    requires LocksOk(s) && HeldSince(s, token, id, t)
    ensures HeldSince(Step(cfg, s, Renew(token)), token, id, t)
  {
    hide Step;
    RenewalIsNow(cfg, s, token);
    assert LockOk(s.tasks[id], s.now);
  }

  lemma UntokenedLeavesLease(cfg: Config, s: Store, a: Action, token: nat, id: string, t: int)
    requires HeldSince(s, token, id, t) && (IsOutsideStep(a) || a.LoadApproved?)
    ensures HeldSince(Step(cfg, s, a), token, id, t)
  {
  }

  lemma StepLeavesLease(cfg: Config, s: Store, a: Action, token: nat, id: string, t: int)
    requires QueueOk(cfg, s) && LocksOk(s) && HeldSince(s, token, id, t) && s.now <= t + 900_000
    requires !(Releases(a) && a.token == token)
    ensures HeldSince(Step(cfg, s, a), token, id, t)
  {
    hide Step, QueueOk, LocksOk, HeldSince;
    if IsOutsideStep(a) || a.LoadApproved? {
      UntokenedLeavesLease(cfg, s, a, token, id, t);
    } else if RowOf(s, a) != id {
      OtherRowLeavesLease(cfg, s, a, token, id, t);
    } else if a.Claim? {
      StepOfClaim(cfg, s, a);
      HeldIsNotClaimed(s, a.worker, a.token, token, id, t);
    } else if a.RejectMalformed? || a.Enqueue? {
      HeldIsNotRejected(cfg, s, a, token, id, t);
    } else if HoldsToken(s, a.token) {
      HeldByOneToken(cfg, s, a.token, token, id, t);
      RenewLeavesLease(cfg, s, token, id, t);
    } else {
      StaleStepChangesNothing(cfg, s, a);
    }
  }

  lemma {:induction false} HeldUntil(cfg: Config, s: Store, actions: seq<Action>, token: nat, i: nat, k: nat,
                                     id: string, t: int)
    requires Initial(cfg, s) && i <= k <= |actions|
    requires HeldSince(Run(cfg, s, actions[..i]), token, id, t) && Run(cfg, s, actions[..k]).now <= t + 900_000
    requires forall m | i <= m < k :: !(Releases(actions[m]) && actions[m].token == token)
    ensures HeldSince(Run(cfg, s, actions[..k]), token, id, t)
  {
    hide Step, Run, Releases, QueueOk, LocksOk, HeldSince;
    if i < k {
      ReachableIsOk(cfg, s, actions[..k - 1]);
      RunClock(cfg, s, actions, k - 1, k);
      RunPrefix(cfg, s, actions, k - 1);
      HeldUntil(cfg, s, actions, token, i, k - 1, id, t);
      StepLeavesLease(cfg, Run(cfg, s, actions[..k - 1]), actions[k - 1], token, id, t);
    }
  }

  // In every run: a token that is current, with the task locked at t, is current
  // fifteen minutes on, whatever others do, unless its holder gives the lease up.
  lemma LeaseLasts(cfg: Config, s: Store, actions: seq<Action>, token: nat, i: nat, k: nat, t: int)
    requires Initial(cfg, s) && i <= k <= |actions| && HoldsToken(Run(cfg, s, actions[..i]), token)
    requires var si := Run(cfg, s, actions[..i]); si.tasks[si.jobs[token].id].lockedAt == Some(t)
    requires Run(cfg, s, actions[..k]).now <= t + 900_000
    requires forall m | i <= m < k :: var a := actions[m];
               !((a.Submit? || a.Defer? || a.SaveParsed? || a.RequireReview? || a.SaveEmbeddings? || a.Fail?)
                 && a.token == token)
    ensures HoldsToken(Run(cfg, s, actions[..k]), token)
  {
    hide Step, Run;
    HeldUntil(cfg, s, actions, token, i, k, Run(cfg, s, actions[..i]).jobs[token].id, t);
  }

  // A renewal counts the fifteen minutes anew, and changes nothing else; one without the lease changes nothing.
  lemma RenewalIsNow(cfg: Config, s: Store, token: nat)
    ensures var s' := Step(cfg, s, Renew(token));
            if HoldsToken(s, token)
            then var id := s.jobs[token].id;
                 && HoldsToken(s', token)
                 && s'.tasks == s.tasks[id := s.tasks[id].(lockedAt := Some(s.now))]
                 && s'.now == s.now && s'.jobs == s.jobs && s'.versions == s.versions
            else s' == s
  {
  }

  // In every run: a renewal that finds the lease current keeps it for fifteen
  // minutes more, unless its holder gives it up.
  lemma RenewedLeaseLasts(cfg: Config, s: Store, actions: seq<Action>, token: nat, i: nat, k: nat)
    requires Initial(cfg, s) && i < k <= |actions| && actions[i] == Renew(token)
    requires HoldsToken(Run(cfg, s, actions[..i]), token)
    requires Run(cfg, s, actions[..k]).now <= Run(cfg, s, actions[..i]).now + 900_000
    requires forall m | i < m < k :: var a := actions[m];
               !((a.Submit? || a.Defer? || a.SaveParsed? || a.RequireReview? || a.SaveEmbeddings? || a.Fail?)
                 && a.token == token)
    ensures HoldsToken(Run(cfg, s, actions[..k]), token)
  {
    hide Step, Run, QueueOk;
    RenewalIsNow(cfg, Run(cfg, s, actions[..i]), token);
    RunPrefix(cfg, s, actions, i);
    LeaseLasts(cfg, s, actions, token, i + 1, k, Run(cfg, s, actions[..i]).now);
  }

  // A task that is enqueued waits from the start, and one whose id is taken is not.
  lemma EnqueuedWaits(cfg: Config, s: Store, id: string, payload: Option<Payload>, priority: int, maxAttempts: nat,
                      runAt: int, createdAt: int)
    requires maxAttempts > 0 && (id in s.tallies <==> id in s.tasks)
    ensures var s' := Step(cfg, s, Enqueue(id, payload, priority, maxAttempts, runAt, createdAt));
            if id in s.tasks then s' == s
            else && id in s'.tasks && s'.tasks == s.tasks[id := s'.tasks[id]]
                 && s'.tasks[id]
                    == Task(payload, TaskQueued, priority, 0, maxAttempts, runAt, createdAt, None, None, None)
  {
  }

  // ----- what can be claimed

  // The task is the new holder's, who is handed its payload if that can be read.
  ghost predicate IsTaken(s: Store, s': Store, id: string, worker: string, token: nat) {
    && id in s.tasks && id in s'.tasks
    && s'.tasks[id].status == TaskRunning && s'.tasks[id].lockedAt == Some(s.now)
    && s'.tasks[id].lockedBy == Some(worker) && s'.tasks[id].leaseToken == Some(token)
    && s'.tasks[id].attempts == s.tasks[id].attempts + 1 && s'.tasks[id].payload == s.tasks[id].payload
    && s'.tasks == s.tasks[id := s'.tasks[id]]
    && (s.tasks[id].payload.Some? ==>
      HoldsToken(s', token) && s'.jobs[token].id == id && s'.jobs[token].payload == s.tasks[id].payload.value)
    && s'.versions == s.versions && s'.documents == s.documents && s'.runs == s.runs
  }

  ghost predicate IsDue(r: Task, now: int) {
    || (r.status == TaskQueued && r.runAt <= now)
    || (r.status == TaskRunning && r.lockedAt.Some? && now > r.lockedAt.value + 900_000)
  }

  lemma DueIsTaken(s: Store, id: string, worker: string, token: nat)
    requires id in s.tasks && token !in s.issued && IsDue(s.tasks[id], s.now)
    ensures IsTaken(s, CommitClaim(s, id, worker, token), id, worker, token)
  {
  }

  lemma OthersAreNotTaken(s: Store, id: string, worker: string, token: nat)
    requires id in s.tasks && !IsDue(s.tasks[id], s.now)
    ensures CommitClaim(s, id, worker, token) == s
  {
  }

  // In every run: a task that waits can be claimed when it is due; one that is
  // running once fifteen minutes have passed since it was locked; one that has
  // ended never.
  lemma TakenIff(cfg: Config, s: Store, actions: seq<Action>, id: string, worker: string, token: nat)
    requires Initial(cfg, s) && id in Run(cfg, s, actions).tasks && token !in Run(cfg, s, actions).issued
    ensures var m := Run(cfg, s, actions);
            var r, m' := m.tasks[id], Step(cfg, m, Claim(id, worker, token));
            && (r.status == TaskRunning ==> r.lockedAt.Some?)
            && if || (r.status == TaskQueued && r.runAt <= m.now)
                  || (r.status == TaskRunning && m.now > r.lockedAt.value + 900_000)
               then IsTaken(m, m', id, worker, token)
               else m' == m
  {
    hide Run, Step, QueueOk, IsTaken;
    var m := Run(cfg, s, actions);
    ReachableIsOk(cfg, s, actions);
    assert LockOk(m.tasks[id], m.now);
    StepOfClaim(cfg, m, Claim(id, worker, token));
    if IsDue(m.tasks[id], m.now) {
      DueIsTaken(m, id, worker, token);
    } else {
      OthersAreNotTaken(m, id, worker, token);
    }
  }
}
