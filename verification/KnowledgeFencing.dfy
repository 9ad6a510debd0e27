// Runs of the knowledge queue are lease histories: a lease that was lost stays
// lost, and a stale holder changes nothing, the tables it publishes to included.
module KnowledgeFencing {
  import opened Options
  import opened KnowledgeTypes
  import opened KnowledgeSteps
  import opened KnowledgeProofs
  import Fencing

  function LeasesOf(s: Store): Fencing.Leases {
    Fencing.Leases(map id | id in s.tasks && IsLeased(s.tasks[id]) :: HolderOf(s.tasks[id]), s.issued)
  }

  predicate IsLeased(r: Task) {
    r.status == TaskRunning && r.lockedBy.Some? && r.leaseToken.Some?
  }

  function HolderOf(r: Task): Fencing.Holder
    requires IsLeased(r)
  {
    Fencing.Holder(r.lockedBy.value, r.leaseToken.value)
  }

  // No two rows carry one token, readable payload or not.
  ghost predicate TokensApart(s: Store) {
    forall i, j | i in s.tasks && j in s.tasks && i != j && s.tasks[i].leaseToken.Some? ::
      s.tasks[i].leaseToken != s.tasks[j].leaseToken
  }

  ghost predicate LeasesOk(cfg: Config, s: Store) {
    QueueOk(cfg, s) && TokensApart(s)
  }

  lemma LeasesAreSound(cfg: Config, s: Store)
    requires LeasesOk(cfg, s)
    ensures Fencing.Sound(LeasesOf(s))
  {
    var v := LeasesOf(s);
    forall id | id in v.held ensures v.held[id].token in s.issued {
      RowIsAccountedFor(cfg, s, id);
    }
  }

  // What a step can do to the leases: a token is given up, or it is new.
  ghost predicate TokenKeptOrNew(s: Store, s': Store, id: string)
    requires id in s'.tasks
  {
    && (s'.tasks[id].leaseToken.Some? ==>
      || (id in s.tasks && s.tasks[id].leaseToken == s'.tasks[id].leaseToken
          && s.tasks[id].lockedBy == s'.tasks[id].lockedBy && s.tasks[id].status == s'.tasks[id].status)
      || s'.tasks[id].leaseToken.value !in s.issued)
  }

  // A step rewrites at most one row; the jobs handed out stay.
  ghost predicate LeaseStep(s: Store, s': Store, id: string) {
    && (forall k | k in s'.tasks && k != id :: k in s.tasks && s'.tasks[k] == s.tasks[k])
    && (id in s'.tasks ==> TokenKeptOrNew(s, s', id))
    && s.issued <= s'.issued
    && (forall token | token in s.jobs :: token in s'.jobs && s'.jobs[token] == s.jobs[token])
  }

  function RowOf(s: Store, a: Action): string {
    match a
    case Claim(id, _, _) => id
    case RejectMalformed(id, _, _) => id
    case Enqueue(id, _, _, _, _, _) => id
    case Renew(token) => if token in s.jobs then s.jobs[token].id else ""
    case Submit(token, _, _) => if token in s.jobs then s.jobs[token].id else ""
    case Defer(token, _) => if token in s.jobs then s.jobs[token].id else ""
    case SaveParsed(token, _, _) => if token in s.jobs then s.jobs[token].id else ""
    case RequireReview(token) => if token in s.jobs then s.jobs[token].id else ""
    case SaveEmbeddings(token) => if token in s.jobs then s.jobs[token].id else ""
    case Fail(token, _, _) => if token in s.jobs then s.jobs[token].id else ""
    case _ => ""
  }

  lemma ClaimIsLeaseStep(s: Store, id: string, worker: string, token: nat)
    requires JobsOk(s)
    ensures LeaseStep(s, CommitClaim(s, id, worker, token), id)
  {
    var s' := CommitClaim(s, id, worker, token);
    if s' != s {
      assert s'.tasks[id].leaseToken == Some(token);
    }
  }

  lemma UnchangedIsLeaseStep(s: Store, s': Store, id: string)
    requires s'.tasks == s.tasks && s'.issued == s.issued && s'.jobs == s.jobs
    ensures LeaseStep(s, s', id)
  {
  }

  // A row that keeps its lease or gives it up.
  lemma PutIsLeaseStep(s: Store, id: string, r: Task, s': Store)
    requires id in s.tasks && s'.tasks == s.tasks[id := r] && s'.issued == s.issued && s'.jobs == s.jobs
    requires r.leaseToken.None?
             || (r.leaseToken == s.tasks[id].leaseToken
                 && r.lockedBy == s.tasks[id].lockedBy && r.status == s.tasks[id].status)
    ensures LeaseStep(s, s', id)
  {
  }

  lemma EndIsLeaseStep(s: Store, s': Store, id: string)
    requires id in s.tasks && s'.issued == s.issued && s'.jobs == s.jobs
    requires s'.tasks == s.tasks[id := Ended(s.tasks[id], TaskSucceeded)]
    ensures LeaseStep(s, s', id)
  {
    PutIsLeaseStep(s, id, Ended(s.tasks[id], TaskSucceeded), s');
  }

  lemma ContentStepIsLeaseStep(cfg: Config, s: Store, a: Action)
    requires IsContentStep(a)
    ensures LeaseStep(s, Step(cfg, s, a), RowOf(s, a))
  {
    var s' := Step(cfg, s, a);
    if s'.tasks == s.tasks {
      UnchangedIsLeaseStep(s, s', RowOf(s, a));
    } else {
      EndIsLeaseStep(s, s', RowOf(s, a));
    }
  }

  // A statement of a holder rewrites the holder's own row, which keeps its lease or gives it up.
  lemma HolderStepRewritesRow(cfg: Config, s: Store, a: Action)
    requires a.Renew? || a.Submit? || a.Defer? || a.RequireReview? || a.Fail?
    requires Step(cfg, s, a) != s
    ensures var id, s' := RowOf(s, a), Step(cfg, s, a);
            && a.token in s.jobs && id == s.jobs[a.token].id && Current(s, s.jobs[a.token])
            && id in s'.tasks && s'.tasks == s.tasks[id := s'.tasks[id]]
            && s'.issued == s.issued && s'.jobs == s.jobs
            && (if a.Renew? then s'.tasks[id] == s.tasks[id].(lockedAt := Some(s.now))
                else s'.tasks[id].leaseToken.None?)
  {
  }

  lemma HolderStepIsLeaseStep(cfg: Config, s: Store, a: Action)
    requires a.Renew? || a.Submit? || a.Defer? || a.RequireReview? || a.Fail?
    ensures LeaseStep(s, Step(cfg, s, a), RowOf(s, a))
  {
    var s' := Step(cfg, s, a);
    var id := RowOf(s, a);
    if s' != s {
      HolderStepRewritesRow(cfg, s, a);
      PutIsLeaseStep(s, id, s'.tasks[id], s');
    }
  }

  lemma AddOrRejectIsLeaseStep(cfg: Config, s: Store, a: Action)
    requires a.Enqueue? || a.RejectMalformed?
    ensures LeaseStep(s, Step(cfg, s, a), RowOf(s, a))
  {
    var s' := Step(cfg, s, a);
    if s' == s {
      UnchangedIsLeaseStep(s, s', RowOf(s, a));
    } else if a.RejectMalformed? {
      PutIsLeaseStep(s, a.id, Ended(s.tasks[a.id], TaskFailed), s');
    }
  }

  lemma StepIsLeaseStep(cfg: Config, s: Store, a: Action)
    requires QueueOk(cfg, s)
    ensures LeaseStep(s, Step(cfg, s, a), RowOf(s, a))
  {
    if IsContentStep(a) {
      ContentStepIsLeaseStep(cfg, s, a);
    } else if IsOutsideStep(a) {
      OutsideStepKeepsQueue(cfg, s, a);
      UnchangedIsLeaseStep(s, Step(cfg, s, a), RowOf(s, a));
    } else if a.Claim? {
      ClaimIsLeaseStep(s, a.id, a.worker, a.token);
    } else if a.Enqueue? || a.RejectMalformed? {
      AddOrRejectIsLeaseStep(cfg, s, a);
    } else {
      HolderStepIsLeaseStep(cfg, s, a);
    }
  }

  ghost predicate TokensIssued(s: Store) {
    forall k | k in s.tasks && s.tasks[k].leaseToken.Some? :: s.tasks[k].leaseToken.value in s.issued
  }

  lemma TokensAreIssued(cfg: Config, s: Store)
    requires QueueOk(cfg, s)
    ensures TokensIssued(s)
  {
    forall k | k in s.tasks && s.tasks[k].leaseToken.Some? ensures s.tasks[k].leaseToken.value in s.issued {
      RowIsAccountedFor(cfg, s, k);
    }
  }

  lemma TokensStayApart(s: Store, s': Store, id: string)
    requires TokensIssued(s) && TokensApart(s) && LeaseStep(s, s', id)
    ensures TokensApart(s')
  {
    forall i, j | i in s'.tasks && j in s'.tasks && i != j && s'.tasks[i].leaseToken.Some?
      ensures s'.tasks[i].leaseToken != s'.tasks[j].leaseToken
    {
      if i == id {
        assert s'.tasks[j] == s.tasks[j];
      } else {
        assert s'.tasks[i] == s.tasks[i];
      }
    }
  }

  lemma HolderKeptOrNew(s: Store, s': Store, id: string, k: string)
    requires LeaseStep(s, s', id) && k in s'.tasks && IsLeased(s'.tasks[k])
    ensures Fencing.Current(LeasesOf(s), k, HolderOf(s'.tasks[k])) || HolderOf(s'.tasks[k]).token !in s.issued
  {
  }

  lemma LeaseStepMoves(cfg: Config, s: Store, s': Store, id: string)
    requires LeasesOk(cfg, s) && QueueOk(cfg, s') && LeaseStep(s, s', id)
    ensures LeasesOk(cfg, s') && Fencing.Moves(LeasesOf(s), LeasesOf(s'))
  {
    TokensAreIssued(cfg, s);
    TokensStayApart(s, s', id);
    LeasesAreSound(cfg, s');
    forall k | k in LeasesOf(s').held
      ensures Fencing.Current(LeasesOf(s), k, LeasesOf(s').held[k]) || LeasesOf(s').held[k].token !in s.issued
    {
      HolderKeptOrNew(s, s', id, k);
    }
  }

  // ----- runs

  ghost function LeaseHistory(cfg: Config, s: Store, actions: seq<Action>): (vs: seq<Fencing.Leases>)
    ensures |vs| == |actions| + 1
    ensures forall i | 0 <= i <= |actions| :: vs[i] == LeasesOf(Run(cfg, s, actions[..i]))
  {
    seq(|actions| + 1, i requires 0 <= i <= |actions| => LeasesOf(Run(cfg, s, actions[..i])))
  }

  lemma StepMovesLeases(cfg: Config, s: Store, a: Action)
    requires LeasesOk(cfg, s)
    ensures LeasesOk(cfg, Step(cfg, s, a)) && Fencing.Moves(LeasesOf(s), LeasesOf(Step(cfg, s, a)))
  {
    StepKeeps(cfg, s, a);
    StepIsLeaseStep(cfg, s, a);
    LeaseStepMoves(cfg, s, Step(cfg, s, a), RowOf(s, a));
  }

  lemma {:induction false} RunKeepsLeases(cfg: Config, s: Store, actions: seq<Action>)
    requires LeasesOk(cfg, s)
    ensures LeasesOk(cfg, Run(cfg, s, actions))
  {
    if actions != [] {
      RunKeepsLeases(cfg, s, actions[..|actions| - 1]);
      StepMovesLeases(cfg, Run(cfg, s, actions[..|actions| - 1]), actions[|actions| - 1]);
    }
  }

  lemma RunIsLeaseHistory(cfg: Config, s: Store, actions: seq<Action>)
    requires LeasesOk(cfg, s)
    ensures Fencing.History(LeaseHistory(cfg, s, actions))
  {
    var vs := LeaseHistory(cfg, s, actions);
    assert actions[..0] == [];
    LeasesAreSound(cfg, s);
    forall i | 0 <= i < |vs| - 1 ensures Fencing.Moves(vs[i], vs[i + 1]) {
      RunKeepsLeases(cfg, s, actions[..i]);
      RunPrefix(cfg, s, actions, i);
      StepMovesLeases(cfg, Run(cfg, s, actions[..i]), actions[i]);
    }
  }

  // Jobs already handed out stay as they were.
  ghost predicate JobsKept(s: Store, s': Store) {
    forall token | token in s.jobs :: token in s'.jobs && s'.jobs[token] == s.jobs[token]
  }

  lemma {:induction false} RunKeepsJobs(cfg: Config, s: Store, actions: seq<Action>)
    requires QueueOk(cfg, s)
    ensures JobsKept(s, Run(cfg, s, actions))
  {
    if actions != [] {
      RunKeepsJobs(cfg, s, actions[..|actions| - 1]);
      RunKeeps(cfg, s, actions[..|actions| - 1]);
      StepIsLeaseStep(cfg, Run(cfg, s, actions[..|actions| - 1]), actions[|actions| - 1]);
    }
  }

  lemma JobsKeptBetween(cfg: Config, s: Store, actions: seq<Action>, i: nat, j: nat)
    requires QueueOk(cfg, s) && i <= j <= |actions|
    ensures JobsKept(Run(cfg, s, actions[..i]), Run(cfg, s, actions[..j]))
  {
    assert actions[..j] == actions[..i] + actions[i..j];
    RunConcat(cfg, s, actions[..i], actions[i..j]);
    RunKeeps(cfg, s, actions[..i]);
    RunKeepsJobs(cfg, Run(cfg, s, actions[..i]), actions[i..j]);
  }

  // ----- main results

  lemma HolderIsCurrent(cfg: Config, s: Store, token: nat)
    requires QueueOk(cfg, s) && token in s.jobs
    ensures token in s.issued
    ensures HoldsToken(s, token)
       <==> Fencing.Current(LeasesOf(s), s.jobs[token].id, Fencing.Holder(s.jobs[token].workerId, token))
  {
  }

  // What a job handed out by moment j is at moments j and k.
  lemma JobAtBoth(cfg: Config, s: Store, actions: seq<Action>, token: nat, j: nat, k: nat)
    requires QueueOk(cfg, s) && j <= k <= |actions| && token in Run(cfg, s, actions[..j]).jobs
    ensures var sj, sk := Run(cfg, s, actions[..j]), Run(cfg, s, actions[..k]);
            var h := Fencing.Holder(sj.jobs[token].workerId, token);
            && token in sj.issued && token in sk.jobs
            && (HoldsToken(sj, token) <==> Fencing.Current(LeasesOf(sj), sj.jobs[token].id, h))
            && (HoldsToken(sk, token) <==> Fencing.Current(LeasesOf(sk), sj.jobs[token].id, h))
  {
    RunKeeps(cfg, s, actions[..j]);
    RunKeeps(cfg, s, actions[..k]);
    JobsKeptBetween(cfg, s, actions, j, k);
    HolderIsCurrent(cfg, Run(cfg, s, actions[..j]), token);
    HolderIsCurrent(cfg, Run(cfg, s, actions[..k]), token);
  }

  // No ABA: a token that has been handed out and is not current never becomes current again.
  lemma LostLeaseStaysLost(cfg: Config, s: Store, actions: seq<Action>, token: nat, j: nat, k: nat)
    requires LeasesOk(cfg, s) && j <= k <= |actions|
    requires token in Run(cfg, s, actions[..j]).jobs && !HoldsToken(Run(cfg, s, actions[..j]), token)
    ensures !HoldsToken(Run(cfg, s, actions[..k]), token)
  {
    RunIsLeaseHistory(cfg, s, actions);
    JobAtBoth(cfg, s, actions, token, j, k);
    var job := Run(cfg, s, actions[..j]).jobs[token];
    Fencing.LostStaysLost(LeaseHistory(cfg, s, actions), j, k, job.id, Fencing.Holder(job.workerId, token));
  }

  predicate IsHolderStep(a: Action) {
    a.Renew? || a.Submit? || a.Defer? || a.SaveParsed? || a.RequireReview? || a.SaveEmbeddings? || a.Fail?
  }

  lemma StaleStepChangesNothing(cfg: Config, s: Store, a: Action)
    requires IsHolderStep(a) && !HoldsToken(s, a.token)
    ensures Step(cfg, s, a) == s
  {
  }

  // From then on its holder changes nothing: no row, no version, no chunk.
  lemma StaleHolderChangesNothing(cfg: Config, s: Store, actions: seq<Action>, token: nat, j: nat, k: nat)
    requires LeasesOk(cfg, s) && j <= k < |actions|
    requires token in Run(cfg, s, actions[..j]).jobs && !HoldsToken(Run(cfg, s, actions[..j]), token)
    requires IsHolderStep(actions[k]) && actions[k].token == token
    ensures Run(cfg, s, actions[..k + 1]) == Run(cfg, s, actions[..k])
  {
    LostLeaseStaysLost(cfg, s, actions, token, j, k);
    RunPrefix(cfg, s, actions, k);
    StaleStepChangesNothing(cfg, Run(cfg, s, actions[..k]), actions[k]);
  }

  // A token current at two moments was current at every moment between them.
  lemma HeldBetween(cfg: Config, s: Store, actions: seq<Action>, token: nat, i: nat, j: nat, k: nat)
    requires LeasesOk(cfg, s) && i <= j <= k <= |actions|
    requires HoldsToken(Run(cfg, s, actions[..i]), token)
    requires HoldsToken(Run(cfg, s, actions[..k]), token)
    ensures HoldsToken(Run(cfg, s, actions[..j]), token)
  {
    RunIsLeaseHistory(cfg, s, actions);
    JobAtBoth(cfg, s, actions, token, i, j);
    JobAtBoth(cfg, s, actions, token, i, k);
    var job := Run(cfg, s, actions[..i]).jobs[token];
    Fencing.HeldThroughout(LeaseHistory(cfg, s, actions), i, j, k, job.id, Fencing.Holder(job.workerId, token));
  }

  predicate Releases(a: Action) {
    a.Submit? || a.Defer? || a.SaveParsed? || a.RequireReview? || a.SaveEmbeddings? || a.Fail?
  }

  lemma ContentStepRewritesRow(cfg: Config, s: Store, a: Action)
    requires a.SaveParsed? || a.SaveEmbeddings?
    requires Step(cfg, s, a) != s
    ensures var id, s' := RowOf(s, a), Step(cfg, s, a);
            && a.token in s.jobs && id == s.jobs[a.token].id && Current(s, s.jobs[a.token])
            && s'.tasks == s.tasks[id := Ended(s.tasks[id], TaskSucceeded)] && s'.jobs == s.jobs
  {
  }

  // An effective releasing step gives the lease up.
  lemma EffectiveStepReleases(cfg: Config, s: Store, a: Action)
    requires QueueOk(cfg, s) && Releases(a) && Step(cfg, s, a) != s
    ensures HoldsToken(s, a.token) && a.token in Step(cfg, s, a).jobs && !HoldsToken(Step(cfg, s, a), a.token)
  {
    if IsContentStep(a) {
      ContentStepRewritesRow(cfg, s, a);
    } else {
      HolderStepRewritesRow(cfg, s, a);
    }
  }

  // Each token succeeds in at most one releasing step, publications included.
  lemma OneReleasePerToken(cfg: Config, s: Store, actions: seq<Action>, i: nat, j: nat)
    requires LeasesOk(cfg, s) && i < j < |actions|
    requires Releases(actions[i]) && Releases(actions[j])
    requires Run(cfg, s, actions[..i + 1]) != Run(cfg, s, actions[..i])
    requires Run(cfg, s, actions[..j + 1]) != Run(cfg, s, actions[..j])
    ensures actions[i].token != actions[j].token
  {
    hide Step, Run, HoldsToken, QueueOk;
    RunPrefix(cfg, s, actions, i);
    RunPrefix(cfg, s, actions, j);
    RunKeeps(cfg, s, actions[..i]);
    RunKeeps(cfg, s, actions[..j]);
    EffectiveStepReleases(cfg, Run(cfg, s, actions[..i]), actions[i]);
    EffectiveStepReleases(cfg, Run(cfg, s, actions[..j]), actions[j]);
    if actions[i].token == actions[j].token {
      LostLeaseStaysLost(cfg, s, actions, actions[i].token, i + 1, j);
    }
  }
}
