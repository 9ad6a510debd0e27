// When a row of the attachment queue can be claimed, over whole runs: a lease
// lasts fifteen minutes from its last renewal and no longer, and a row that
// waits is claimed when it is due and not before (CLAIM_ATTACHMENT_PARSE_SQL in
// src/worker/chat-storage.ts). The conditions are spelled out here column by column.
module AttachmentTimeouts {
  import opened Options
  import opened AttachmentTypes
  import opened AttachmentSteps
  import opened AttachmentProofs
  import opened AttachmentFencing
  import opened AttachmentAccounting

  // ----- the clock

  lemma StepClock(cfg: Config, s: Store, a: Action)
    ensures s.now <= Step(cfg, s, a).now && (!a.Advance? ==> Step(cfg, s, a).now == s.now)
  {
  }

  lemma {:induction false} RunClock(cfg: Config, s: Store, actions: seq<Action>, i: nat, k: nat)
    requires i <= k <= |actions|
    ensures Run(cfg, s, actions[..i]).now <= Run(cfg, s, actions[..k]).now
  {
    hide Step, Run;
    if i < k {
      RunClock(cfg, s, actions, i, k - 1);
      RunPrefix(cfg, s, actions, k - 1);
      StepClock(cfg, Run(cfg, s, actions[..k - 1]), actions[k - 1]);
    }
  }

  // ----- what is leased

  // A leased row was locked in the past, and is a verified document still in processing.
  ghost predicate LockOk(r: Attachment, now: int) {
    r.parseStatus == Parsing ==>
      && r.lockedAt.Some? && r.lockedAt.value <= now
      && r.kind == Document && r.quotaState == Committed && r.deletionStatus == Active && r.status == Processing
  }

  ghost predicate LocksOk(s: Store) {
    forall id | id in s.attachments :: LockOk(s.attachments[id], s.now)
  }

  // What no statement of a lease holder can do to a row unless it holds it, and what a claim does.
  lemma ClaimKeepsLocks(s: Store, id: string, worker: string, token: nat)
    requires LocksOk(s)
    ensures LocksOk(CommitClaim(s, id, worker, token))
  {
  }

  lemma HolderKeepsLocks(cfg: Config, s: Store, a: Action)
    requires LocksOk(s) && (a.Renew? || Releases(a))
    ensures LocksOk(Step(cfg, s, a))
  {
  }

  lemma RegisterKeepsLocks(cfg: Config, s: Store, id: string, u: Upload, quota: int)
    requires LocksOk(s)
    ensures LocksOk(CommitRegister(cfg, s, id, u, quota))
  {
  }

  lemma CompleteUploadKeepsLocks(s: Store, id: string, size: nat)
    requires LocksOk(s)
    ensures LocksOk(CommitCompleteUpload(s, id, size))
  {
  }

  lemma UploadKeepsLocks(cfg: Config, s: Store, a: Action)
    requires LocksOk(s) && (a.BeginCompletion? || a.Bind?)
    ensures LocksOk(Step(cfg, s, a))
  {
  }

  lemma StepKeepsLocks(cfg: Config, s: Store, a: Action)
    requires LocksOk(s)
    ensures LocksOk(Step(cfg, s, a))
  {
    hide LocksOk;
    if LeavesQueue(a) {
      LeavingKeepsLocks(cfg, s, a);
    } else if a.Claim? {
      ClaimKeepsLocks(s, a.id, a.worker, a.token);
    } else if a.Register? {
      RegisterKeepsLocks(cfg, s, a.id, a.upload, a.quota);
    } else if a.CompleteUpload? {
      CompleteUploadKeepsLocks(s, a.id, a.size);
    } else if a.Renew? || Releases(a) {
      HolderKeepsLocks(cfg, s, a);
    } else {
      UploadKeepsLocks(cfg, s, a);
    }
  }

  lemma LeavingKeepsLocks(cfg: Config, s: Store, a: Action)
    requires LocksOk(s) && LeavesQueue(a)
    ensures LocksOk(Step(cfg, s, a))
  {
    hide Step;
    OtherStepOnlyRemoves(cfg, s, a);
    StepClock(cfg, s, a);
  }

  lemma {:induction false} RunKeepsLocks(cfg: Config, s: Store, actions: seq<Action>)
    requires LocksOk(s)
    ensures LocksOk(Run(cfg, s, actions))
  {
    hide Step, LocksOk;
    if actions != [] {
      var n := |actions| - 1;
      RunKeepsLocks(cfg, s, actions[..n]);
      StepKeepsLocks(cfg, Run(cfg, s, actions[..n]), actions[n]);
    }
  }

  // What every moment of a run from an empty queue has.
  lemma ReachableIsOk(cfg: Config, s: Store, actions: seq<Action>)
    requires Initial(cfg, s)
    ensures QueueOk(cfg, Run(cfg, s, actions)) && LocksOk(Run(cfg, s, actions))
  {
    InitialIsOk(cfg, s);
    RunKeeps(cfg, s, actions);
    RunKeepsLocks(cfg, s, actions);
  }

  // ----- a lease lasts fifteen minutes

  // The job's row carries its token, and was locked at t or later.
  ghost predicate HeldSince(s: Store, token: nat, id: string, t: int) {
    && HoldsToken(s, token) && s.jobs[token].id == id
    && s.attachments[id].lockedAt.Some? && s.attachments[id].lockedAt.value >= t
  }

  lemma ClaimLeavesLease(cfg: Config, s: Store, id: string, worker: string, next: nat, token: nat, held: string, t: int)
    requires LocksOk(s) && HeldSince(s, token, held, t) && s.now <= t + 900_000
    ensures HeldSince(CommitClaim(s, id, worker, next), token, held, t)
  {
    assert LockOk(s.attachments[held], s.now);
  }

  lemma RenewLeavesLease(cfg: Config, s: Store, next: nat, token: nat, held: string, t: int)
    requires LocksOk(s) && HeldSince(s, token, held, t)
    ensures HeldSince(Step(cfg, s, Renew(next)), token, held, t)
  {
    hide Step;
    RenewalIsNow(cfg, s, next);
    assert LockOk(s.attachments[held], s.now);
  }

  lemma TokensDiffer(cfg: Config, s: Store, a: nat, b: nat)
    requires QueueOk(cfg, s) && a in s.jobs && b in s.jobs && a != b && Current(s, s.jobs[b])
    ensures Current(s, s.jobs[a]) ==> s.jobs[a].id != s.jobs[b].id
  {
  }

  lemma OtherRowStays(cfg: Config, s: Store, a: Action, held: string)
    requires Releases(a) && held in s.attachments
    requires a.token in s.jobs && Current(s, s.jobs[a.token]) ==> s.jobs[a.token].id != held
    ensures var s' := Step(cfg, s, a);
            s'.jobs == s.jobs && held in s'.attachments && s'.attachments[held] == s.attachments[held]
  {
  }

  lemma HolderLeavesLease(cfg: Config, s: Store, a: Action, token: nat, held: string, t: int)
    requires QueueOk(cfg, s) && LocksOk(s) && HeldSince(s, token, held, t)
    requires (a.Renew? || Releases(a)) && !(Releases(a) && a.token == token)
    ensures HeldSince(Step(cfg, s, a), token, held, t)
  {
    hide Step;
    if a.Renew? {
      RenewLeavesLease(cfg, s, a.token, token, held, t);
    } else {
      if a.token in s.jobs {
        TokensDiffer(cfg, s, a.token, token);
      }
      hide QueueOk, LocksOk;
      OtherRowStays(cfg, s, a, held);
    }
  }

  lemma UploadLeavesLease(cfg: Config, s: Store, a: Action, token: nat, held: string, t: int)
    requires LocksOk(s) && HeldSince(s, token, held, t)
    requires a.Register? || a.BeginCompletion? || a.CompleteUpload? || a.Bind?
    ensures HeldSince(Step(cfg, s, a), token, held, t)
  {
    assert LockOk(s.attachments[held], s.now);
  }

  lemma LeavingLeavesLease(cfg: Config, s: Store, a: Action, token: nat, held: string, t: int)
    requires HeldSince(s, token, held, t) && LeavesQueue(a) && held in Step(cfg, s, a).attachments
    ensures HeldSince(Step(cfg, s, a), token, held, t)
  {
    hide Step;
    OtherStepOnlyRemoves(cfg, s, a);
  }

  lemma StepLeavesLease(cfg: Config, s: Store, a: Action, token: nat, held: string, t: int)
    requires QueueOk(cfg, s) && LocksOk(s) && HeldSince(s, token, held, t)
    requires s.now <= t + 900_000 && held in Step(cfg, s, a).attachments
    requires !(Releases(a) && a.token == token)
    ensures HeldSince(Step(cfg, s, a), token, held, t)
  {
    hide HeldSince, QueueOk, LocksOk;
    if LeavesQueue(a) {
      LeavingLeavesLease(cfg, s, a, token, held, t);
    } else if a.Claim? {
      ClaimLeavesLease(cfg, s, a.id, a.worker, a.token, token, held, t);
    } else if a.Renew? || Releases(a) {
      HolderLeavesLease(cfg, s, a, token, held, t);
    } else {
      UploadLeavesLease(cfg, s, a, token, held, t);
    }
  }

  // A row that is gone has not been there since it went.
  lemma {:induction false} ThereBefore(cfg: Config, s: Store, actions: seq<Action>, i: nat, k: nat, id: string)
    requires i <= k <= |actions|
    requires id in Run(cfg, s, actions[..i]).tallies && id in Run(cfg, s, actions[..k]).attachments
    ensures id in Run(cfg, s, actions[..i]).attachments
  {
    hide Step, Run;
    if id !in Run(cfg, s, actions[..i]).attachments {
      GoneStaysGone(cfg, s, actions, i, k, id);
    }
  }

  lemma {:induction false} GoneStaysGone(cfg: Config, s: Store, actions: seq<Action>, i: nat, k: nat, id: string)
    requires i <= k <= |actions|
    requires id in Run(cfg, s, actions[..i]).tallies && id !in Run(cfg, s, actions[..i]).attachments
    ensures id in Run(cfg, s, actions[..k]).tallies && id !in Run(cfg, s, actions[..k]).attachments
  {
    hide Step, Run;
    if i < k {
      GoneStaysGone(cfg, s, actions, i, k - 1, id);
      RunPrefix(cfg, s, actions, k - 1);
      StepKeepsRemoved(cfg, Run(cfg, s, actions[..k - 1]), actions[k - 1], id);
    }
  }

  lemma {:induction false} TallyStays(cfg: Config, s: Store, actions: seq<Action>, i: nat, k: nat, id: string)
    requires i <= k <= |actions| && id in Run(cfg, s, actions[..i]).tallies
    ensures id in Run(cfg, s, actions[..k]).tallies
  {
    hide Step, Run;
    if i < k {
      TallyStays(cfg, s, actions, i, k - 1, id);
      RunPrefix(cfg, s, actions, k - 1);
      StepKeepsTallies(cfg, Run(cfg, s, actions[..k - 1]), actions[k - 1]);
    }
  }

  lemma {:induction false} HeldUntil(cfg: Config, s: Store, actions: seq<Action>, token: nat, i: nat, k: nat,
                                     id: string, t: int)
    requires Initial(cfg, s) && i <= k <= |actions|
    requires HeldSince(Run(cfg, s, actions[..i]), token, id, t)
    requires Run(cfg, s, actions[..k]).now <= t + 900_000 && id in Run(cfg, s, actions[..k]).attachments
    requires forall m | i <= m < k :: !(Releases(actions[m]) && actions[m].token == token)
    ensures HeldSince(Run(cfg, s, actions[..k]), token, id, t)
  {
    hide Step, Run, Releases, QueueOk, LocksOk;
    if i < k {
      var m := Run(cfg, s, actions[..k - 1]);
      ReachableIsOk(cfg, s, actions[..i]);
      ReachableIsOk(cfg, s, actions[..k - 1]);
      RunClock(cfg, s, actions, k - 1, k);
      RunPrefix(cfg, s, actions, k - 1);
      HeldHasTally(cfg, Run(cfg, s, actions[..i]), token, id, t);
      TallyStays(cfg, s, actions, i, k - 1, id);
      ThereBefore(cfg, s, actions, k - 1, k, id);
      HeldUntil(cfg, s, actions, token, i, k - 1, id, t);
      StepLeavesLease(cfg, m, actions[k - 1], token, id, t);
    }
  }

  lemma HeldHasTally(cfg: Config, s: Store, token: nat, id: string, t: int)
    requires QueueOk(cfg, s) && HeldSince(s, token, id, t)
    ensures id in s.tallies
  {
    assert RowOk(cfg, s, id);
  }

  // In every run: a token that is current, with the row locked at t, is current
  // fifteen minutes on, whatever others do, unless its holder gives the lease up
  // or the row is removed.
  lemma LeaseLasts(cfg: Config, s: Store, actions: seq<Action>, token: nat, i: nat, k: nat, t: int)
    requires Initial(cfg, s) && i <= k <= |actions| && HoldsToken(Run(cfg, s, actions[..i]), token)
    requires var si := Run(cfg, s, actions[..i]); si.attachments[si.jobs[token].id].lockedAt == Some(t)
    requires Run(cfg, s, actions[..k]).now <= t + 900_000
    requires Run(cfg, s, actions[..i]).jobs[token].id in Run(cfg, s, actions[..k]).attachments
    requires forall m | i <= m < k :: var a := actions[m];
               !((a.Submit? || a.Defer? || a.Complete? || a.Fail?) && a.token == token)
    ensures HoldsToken(Run(cfg, s, actions[..k]), token)
  {
    hide Step, Run;
    HeldUntil(cfg, s, actions, token, i, k, Run(cfg, s, actions[..i]).jobs[token].id, t);
  }

  // A renewal counts the fifteen minutes anew, and changes nothing else; one without the lease changes nothing.
  lemma RenewalIsNow(cfg: Config, s: Store, token: nat)
    ensures var s' := Step(cfg, s, Renew(token));
            if HoldsToken(s, token)
            then var id := s.jobs[token].id;
                 && HoldsToken(s', token)
                 && s'.attachments == s.attachments[id := s.attachments[id].(lockedAt := Some(s.now))]
                 && s'.now == s.now && s'.jobs == s.jobs
            else s' == s
  {
  }

  // In every run: a renewal that finds the lease current keeps it for fifteen
  // minutes more, unless its holder gives it up or the row is removed.
  lemma RenewedLeaseLasts(cfg: Config, s: Store, actions: seq<Action>, token: nat, i: nat, k: nat)
    requires Initial(cfg, s) && i < k <= |actions| && actions[i] == Renew(token)
    requires HoldsToken(Run(cfg, s, actions[..i]), token)
    requires Run(cfg, s, actions[..k]).now <= Run(cfg, s, actions[..i]).now + 900_000
    requires Run(cfg, s, actions[..i]).jobs[token].id in Run(cfg, s, actions[..k]).attachments
    requires forall m | i < m < k :: var a := actions[m];
               !((a.Submit? || a.Defer? || a.Complete? || a.Fail?) && a.token == token)
    ensures HoldsToken(Run(cfg, s, actions[..k]), token)
  {
    hide Step, Run;
    RenewalIsNow(cfg, Run(cfg, s, actions[..i]), token);
    RunPrefix(cfg, s, actions, i);
    LeaseLasts(cfg, s, actions, token, i + 1, k, Run(cfg, s, actions[..i]).now);
  }

  // ----- what can be claimed

  // The row is the new holder's.
  ghost predicate IsTaken(s: Store, s': Store, id: string, worker: string, token: nat) {
    && id in s.attachments && id in s'.attachments
    && HoldsToken(s', token) && s'.jobs[token].id == id && s'.jobs[token].workerId == worker
    && s'.attachments[id].lockedBy == Some(worker) && s'.attachments[id].leaseToken == Some(token)
    && s'.attachments[id].lockedAt == Some(s.now) && s'.attachments[id].parseStatus == Parsing
    && s'.attachments[id].attempts == s.attachments[id].attempts + 1
    && s'.attachments == s.attachments[id := s'.attachments[id]]
  }

  // A row that waits can be claimed when it is due, if it is a verified document
  // in processing; no other row that waits can.
  lemma WaitingIsTakenIff(cfg: Config, s: Store, id: string, worker: string, token: nat)
    requires id in s.attachments && token !in s.jobs && s.attachments[id].parseStatus == Queued
    ensures var r, s' := s.attachments[id], Step(cfg, s, Claim(id, worker, token));
            if r.kind == Document && r.quotaState == Committed && r.deletionStatus == Active
               && r.status == Processing && r.runAt <= s.now
            then IsTaken(s, s', id, worker, token)
            else s' == s
  {
  }

  // A row that is leased can be claimed once fifteen minutes have passed since
  // it was locked, and not before.
  lemma LeasedIsTakenIff(cfg: Config, s: Store, actions: seq<Action>, id: string, worker: string, token: nat)
    requires Initial(cfg, s)
    requires var m := Run(cfg, s, actions);
             id in m.attachments && token !in m.jobs && m.attachments[id].parseStatus == Parsing
    ensures var m := Run(cfg, s, actions);
            var m' := Step(cfg, m, Claim(id, worker, token));
            && m.attachments[id].lockedAt.Some?
            && if m.now > m.attachments[id].lockedAt.value + 900_000 then IsTaken(m, m', id, worker, token) else m' == m
  {
    hide Run;
    var m := Run(cfg, s, actions);
    ReachableIsOk(cfg, s, actions);
    assert LockOk(m.attachments[id], m.now);
  }

  // The holder of a lease that ran out is a holder no more once another claims the row.
  lemma ExpiredLeaseIsTaken(cfg: Config, s: Store, actions: seq<Action>, token: nat, worker: string, next: nat)
    requires Initial(cfg, s) && HoldsToken(Run(cfg, s, actions), token) && next !in Run(cfg, s, actions).jobs
    requires var m := Run(cfg, s, actions);
             var lockedAt := m.attachments[m.jobs[token].id].lockedAt;
             lockedAt.Some? && m.now > lockedAt.value + 900_000
    ensures var m := Run(cfg, s, actions);
            var m' := Step(cfg, m, Claim(m.jobs[token].id, worker, next));
            IsTaken(m, m', m.jobs[token].id, worker, next) && !HoldsToken(m', token)
  {
    hide Run;
    var m := Run(cfg, s, actions);
    LeasedIsTakenIff(cfg, s, actions, m.jobs[token].id, worker, next);
    ReachableIsOk(cfg, s, actions);
    assert forall k | k in m.jobs :: m.jobs[k].leaseToken == k;
  }

  // Nothing else is ever claimed.
  lemma OthersAreNotClaimed(cfg: Config, s: Store, id: string, worker: string, token: nat)
    requires id in s.attachments ==> s.attachments[id].parseStatus in {NotRequired, Parsed, ParseFailed}
    ensures Step(cfg, s, Claim(id, worker, token)) == s
  {
  }

  // ----- an upload becomes work at once

  // When its bytes are verified, a document can be claimed, and an image is ready and never claimed.
  lemma VerifiedUpload(cfg: Config, s: Store, id: string, size: nat, worker: string, token: nat)
    requires Step(cfg, s, CompleteUpload(id, size)) != s && token !in s.jobs
    ensures var m := Step(cfg, s, CompleteUpload(id, size));
            && id in s.attachments && id in m.attachments && m.attachments[id].sizeBytes == Some(size)
            && if s.attachments[id].kind == Document
               then IsTaken(m, Step(cfg, m, Claim(id, worker, token)), id, worker, token)
               else m.attachments[id].status == Ready && Step(cfg, m, Claim(id, worker, token)) == m
  {
    var m := Step(cfg, s, CompleteUpload(id, size));
    if s.attachments[id].kind == Document {
      WaitingIsTakenIff(cfg, m, id, worker, token);
    } else {
      OthersAreNotClaimed(cfg, m, id, worker, token);
    }
  }
}
