// Storage accounts agree with the attachments they pay for, in every run.
module AttachmentQuota {
  import opened Options
  import opened AttachmentTypes
  import opened AttachmentSteps
  import opened AttachmentProofs

  datatype Column = ReservedColumn | UsedColumn

  // What one attachment contributes to a user's account.
  function Share(r: Attachment, user: string, column: Column): nat {
    if r.userId != user then 0
    else match column
      case ReservedColumn => ReservedBytes(r)
      case UsedColumn => UsedBytes(r)
  }

  ghost function Total(rows: map<string, Attachment>, user: string, column: Column): nat
    decreases |rows|
  {
    if rows == map[] then 0
    else
      var id :| id in rows;
      assert |rows - {id}| < |rows| by { assert rows.Keys == (rows - {id}).Keys + {id}; }
      Share(rows[id], user, column) + Total(rows - {id}, user, column)
  }

  lemma SmallerWithout(rows: map<string, Attachment>, id: string)
    requires id in rows
    ensures |rows - {id}| == |rows| - 1
  {
    assert rows.Keys == (rows - {id}).Keys + {id};
  }

  lemma {:induction false} TotalWithout(rows: map<string, Attachment>, id: string, user: string, column: Column)
    requires id in rows
    ensures Total(rows, user, column) == Share(rows[id], user, column) + Total(rows - {id}, user, column)
    decreases |rows|
  {
    var picked :| picked in rows
      && Total(rows, user, column) == Share(rows[picked], user, column) + Total(rows - {picked}, user, column);
    if picked != id {
      SmallerWithout(rows, picked);
      SmallerWithout(rows, id);
      TotalWithout(rows - {picked}, id, user, column);
      TotalWithout(rows - {id}, picked, user, column);
      assert rows - {picked} - {id} == rows - {id} - {picked};
    }
  }

  lemma TotalPut(rows: map<string, Attachment>, id: string, r: Attachment, user: string, column: Column)
    ensures Total(rows[id := r], user, column)
         == Share(r, user, column) + Total(rows, user, column)
            - (if id in rows then Share(rows[id], user, column) else 0)
  {
    TotalWithout(rows[id := r], id, user, column);
    assert rows[id := r] - {id} == rows - {id};
    if id in rows {
      TotalWithout(rows, id, user, column);
    } else {
      assert rows - {id} == rows;
    }
  }

  lemma {:induction false} TotalOfStranger(rows: map<string, Attachment>, user: string, column: Column)
    requires forall id | id in rows :: rows[id].userId != user
    ensures Total(rows, user, column) == 0
    decreases |rows|
  {
    if rows != map[] {
      var id :| id in rows;
      TotalWithout(rows, id, user, column);
      SmallerWithout(rows, id);
      TotalOfStranger(rows - {id}, user, column);
    }
  }

  // Bytes charged to a user for generated artifacts; no step here changes them.
  function ArtifactBytes(artifacts: map<string, nat>, user: string): nat {
    if user in artifacts then artifacts[user] else 0
  }

  ghost predicate AccountOk(s: Store, artifacts: map<string, nat>, user: string)
    requires user in s.accounts
  {
    var a := s.accounts[user];
    && a.reserved == Total(s.attachments, user, ReservedColumn)
    && a.used == ArtifactBytes(artifacts, user) + Total(s.attachments, user, UsedColumn)
    && a.reserved + a.used <= a.limit
  }

  ghost predicate QuotaOk(s: Store, artifacts: map<string, nat>) {
    && (forall user | user in s.accounts :: AccountOk(s, artifacts, user))
    && (forall id | id in s.attachments :: s.attachments[id].userId in s.accounts)
    && (forall user | user in artifacts :: user in s.accounts)
  }

  // ----- the clamps never bite

  lemma RefundIsExact(s: Store, artifacts: map<string, nat>, id: string)
    requires QuotaOk(s, artifacts) && id in s.attachments
    ensures var r := s.attachments[id];
            var a := s.accounts[r.userId];
            && Refunded(a, r) == a.(reserved := a.reserved - ReservedBytes(r), used := a.used - UsedBytes(r))
            && 0 <= a.reserved - ReservedBytes(r) && 0 <= a.used - UsedBytes(r)
  {
    var r := s.attachments[id];
    TotalWithout(s.attachments, id, r.userId, ReservedColumn);
    TotalWithout(s.attachments, id, r.userId, UsedColumn);
    assert AccountOk(s, artifacts, r.userId);
  }

  lemma RemovedKeepsQuota(s: Store, artifacts: map<string, nat>, id: string, runAt: int)
    requires QuotaOk(s, artifacts) && id in s.attachments
    ensures QuotaOk(Removed(s, id, runAt), artifacts)
  {
    var s' := Removed(s, id, runAt);
    RefundIsExact(s, artifacts, id);
    forall user | user in s'.accounts ensures AccountOk(s', artifacts, user) {
      assert AccountOk(s, artifacts, user);
      TotalWithout(s.attachments, id, user, ReservedColumn);
      TotalWithout(s.attachments, id, user, UsedColumn);
    }
  }

  lemma {:induction false} RemovedAllKeepsQuota(s: Store, artifacts: map<string, nat>, ids: seq<string>)
    requires QuotaOk(s, artifacts)
    requires forall i | 0 <= i < |ids| :: ids[i] in s.attachments
    requires forall i, j | 0 <= i < j < |ids| :: ids[i] != ids[j]
    ensures QuotaOk(RemovedAll(s, ids), artifacts)
  {
    if ids != [] {
      var n := |ids| - 1;
      RemovedAllKeepsQuota(s, artifacts, ids[..n]);
      var m := RemovedAll(s, ids[..n]);
      RemovedKeepsQuota(m, artifacts, ids[n], m.now);
    }
  }

  // ----- steps that change one row

  // A row changes and the owner's account changes with it.
  lemma RowChangeKeepsQuota(s: Store, s': Store, artifacts: map<string, nat>, id: string)
    requires QuotaOk(s, artifacts) && id in s.attachments && id in s'.attachments
    requires s'.attachments == s.attachments[id := s'.attachments[id]]
    requires s'.attachments[id].userId == s.attachments[id].userId
    requires s'.accounts.Keys == s.accounts.Keys
    requires forall user | user in s.accounts && user != s.attachments[id].userId ::
               s'.accounts[user] == s.accounts[user]
    requires var user := s.attachments[id].userId;
             var a, a' := s.accounts[user], s'.accounts[user];
             && a'.reserved - a.reserved == ReservedBytes(s'.attachments[id]) - ReservedBytes(s.attachments[id])
             && a'.used - a.used == UsedBytes(s'.attachments[id]) - UsedBytes(s.attachments[id])
             && a'.reserved + a'.used <= a'.limit
    ensures QuotaOk(s', artifacts)
  {
    forall user | user in s'.accounts ensures AccountOk(s', artifacts, user) {
      assert AccountOk(s, artifacts, user);
      TotalPut(s.attachments, id, s'.attachments[id], user, ReservedColumn);
      TotalPut(s.attachments, id, s'.attachments[id], user, UsedColumn);
    }
  }

  // The row a step of the parse queue or of an upload is about.
  function Target(s: Store, a: Action): Option<string> {
    match a
    case BeginCompletion(id) => Some(id)
    case CompleteUpload(id, _) => Some(id)
    case Bind(id, _) => Some(id)
    case Claim(id, _, _) => Some(id)
    case Renew(token) => if token in s.jobs then Some(s.jobs[token].id) else None
    case Submit(token, _, _) => if token in s.jobs then Some(s.jobs[token].id) else None
    case Defer(token, _) => if token in s.jobs then Some(s.jobs[token].id) else None
    case Complete(token, _) => if token in s.jobs then Some(s.jobs[token].id) else None
    case Fail(token, _, _) => if token in s.jobs then Some(s.jobs[token].id) else None
    case _ => None
  }

  // Apart from the completion of an upload, no such step changes what a row counts for.
  lemma BytesStay(cfg: Config, s: Store, a: Action)
    requires Target(s, a).Some? && Step(cfg, s, a) != s && !a.CompleteUpload?
    ensures var id, s' := Target(s, a).value, Step(cfg, s, a);
            && id in s.attachments && id in s'.attachments
            && s'.attachments == s.attachments[id := s'.attachments[id]] && s'.accounts == s.accounts
            && s'.attachments[id].userId == s.attachments[id].userId
            && ReservedBytes(s'.attachments[id]) == ReservedBytes(s.attachments[id])
            && UsedBytes(s'.attachments[id]) == UsedBytes(s.attachments[id])
  {
  }

  lemma CompleteUploadKeepsQuota(s: Store, artifacts: map<string, nat>, id: string, size: nat)
    requires QuotaOk(s, artifacts) && CommitCompleteUpload(s, id, size) != s
    ensures QuotaOk(CommitCompleteUpload(s, id, size), artifacts)
  {
    assert AccountOk(s, artifacts, s.attachments[id].userId);
    RowChangeKeepsQuota(s, CommitCompleteUpload(s, id, size), artifacts, id);
  }

  lemma TargetStepKeepsQuota(cfg: Config, s: Store, artifacts: map<string, nat>, a: Action)
    requires QuotaOk(s, artifacts) && Target(s, a).Some? && Step(cfg, s, a) != s
    ensures QuotaOk(Step(cfg, s, a), artifacts)
  {
    if a.CompleteUpload? {
      CompleteUploadKeepsQuota(s, artifacts, a.id, a.size);
    } else {
      var id := Target(s, a).value;
      BytesStay(cfg, s, a);
      assert AccountOk(s, artifacts, s.attachments[id].userId);
      RowChangeKeepsQuota(s, Step(cfg, s, a), artifacts, id);
    }
  }

  lemma RegisteredAccount(cfg: Config, s: Store, artifacts: map<string, nat>, id: string, u: Upload, quota: int,
                          user: string)
    requires CommitRegister(cfg, s, id, u, quota) != s && user in CommitRegister(cfg, s, id, u, quota).accounts
    requires user in s.accounts ==> AccountOk(s, artifacts, user)
    requires user !in s.accounts ==>
      && user !in artifacts
      && Total(s.attachments, user, ReservedColumn) == Total(s.attachments, user, UsedColumn) == 0
    ensures AccountOk(CommitRegister(cfg, s, id, u, quota), artifacts, user)
  {
    TotalPut(s.attachments, id, Uploaded(cfg, u, s.now), user, ReservedColumn);
    TotalPut(s.attachments, id, Uploaded(cfg, u, s.now), user, UsedColumn);
  }

  lemma RegisterKeepsQuota(cfg: Config, s: Store, artifacts: map<string, nat>, id: string, u: Upload, quota: int)
    requires QuotaOk(s, artifacts)
    ensures QuotaOk(CommitRegister(cfg, s, id, u, quota), artifacts)
  {
    var s' := CommitRegister(cfg, s, id, u, quota);
    if s' != s {
      if u.userId !in s.accounts {
        TotalOfStranger(s.attachments, u.userId, ReservedColumn);
        TotalOfStranger(s.attachments, u.userId, UsedColumn);
      }
      forall user | user in s'.accounts ensures AccountOk(s', artifacts, user) {
        RegisteredAccount(cfg, s, artifacts, id, u, quota, user);
      }
    }
  }

  lemma QuotaIgnoresQueues(s: Store, s': Store, artifacts: map<string, nat>)
    requires QuotaOk(s, artifacts)
    requires s'.attachments == s.attachments && s'.accounts == s.accounts
    ensures QuotaOk(s', artifacts)
  {
    forall user | user in s'.accounts ensures AccountOk(s', artifacts, user) {
      assert AccountOk(s, artifacts, user);
    }
  }

  lemma DeletionStepKeepsQuota(cfg: Config, s: Store, artifacts: map<string, nat>, a: Action)
    requires QuotaOk(s, artifacts)
    requires a.Advance? || a.ClaimDeletion? || a.FinishDeletion? || a.FailDeletion?
    ensures QuotaOk(Step(cfg, s, a), artifacts)
  {
    QuotaIgnoresQueues(s, Step(cfg, s, a), artifacts);
  }

  lemma StepKeepsQuota(cfg: Config, s: Store, artifacts: map<string, nat>, a: Action)
    requires QuotaOk(s, artifacts)
    ensures QuotaOk(Step(cfg, s, a), artifacts)
  {
    if Step(cfg, s, a) != s {
      if Target(s, a).Some? {
        TargetStepKeepsQuota(cfg, s, artifacts, a);
      } else {
        match a
        case Register(id, upload, quota) => RegisterKeepsQuota(cfg, s, artifacts, id, upload, quota);
        case SweepOrphans(ids, _) => RemovedAllKeepsQuota(s, artifacts, ids);
        case DeleteUnbound(id, runAt) => RemovedKeepsQuota(s, artifacts, id, runAt);
        case _ => DeletionStepKeepsQuota(cfg, s, artifacts, a);
      }
    }
  }

  // Conservation: accounts that agree with their attachments agree after any
  // run, and stay within their limit.
  lemma {:induction false} RunKeepsQuota(cfg: Config, s: Store, artifacts: map<string, nat>, actions: seq<Action>)
    requires QuotaOk(s, artifacts)
    ensures QuotaOk(Run(cfg, s, actions), artifacts)
  {
    if actions != [] {
      var n := |actions| - 1;
      RunKeepsQuota(cfg, s, artifacts, actions[..n]);
      StepKeepsQuota(cfg, Run(cfg, s, actions[..n]), artifacts, actions[n]);
    }
  }

  // ----- nothing is removed without being enqueued for deletion

  lemma {:induction false} RemovedAllEnqueues(s: Store, ids: seq<string>)
    requires forall i | 0 <= i < |ids| :: ids[i] in s.attachments
    requires forall i, j | 0 <= i < j < |ids| :: ids[i] != ids[j]
    ensures var s' := RemovedAll(s, ids);
            && s.deletions.Keys <= s'.deletions.Keys
            && forall i | 0 <= i < |ids| :: s.attachments[ids[i]].objectKey in s'.deletions
  {
    if ids != [] {
      RemovedAllEnqueues(s, ids[..|ids| - 1]);
    }
  }

  // A step removes only attachments no message is bound to and that are not
  // retired, a sweep only those that have expired, and it enqueues the object of
  // everything it removes.
  lemma RemovedRowsAreEnqueued(cfg: Config, s: Store, a: Action, id: string)
    requires id in s.attachments && id !in Step(cfg, s, a).attachments
    ensures var r := s.attachments[id];
            && r.messageId.None? && r.deletionStatus == Active
            && (a.SweepOrphans? ==> id in a.ids && r.orphanExpiresAt <= s.now)
            && (a.SweepOrphans? || (a.DeleteUnbound? && a.id == id))
            && r.objectKey in Step(cfg, s, a).deletions
  {
    if a.SweepOrphans? && Sweepable(s, a.ids, a.limit) {
      RemovedAllEnqueues(s, a.ids);
    }
  }

  // An owner's request removes the attachment whenever no message is bound to it and it is not retired.
  lemma UnboundIsDeletedIff(cfg: Config, s: Store, id: string, runAt: int)
    requires id in s.attachments
    ensures var r, s' := s.attachments[id], Step(cfg, s, DeleteUnbound(id, runAt));
            if r.messageId.None? && r.deletionStatus == Active then s'.attachments == s.attachments - {id} else s' == s
  {
  }

  // A deletion that is due at runAt, five times at most, and that nobody has begun.
  ghost predicate IsNewDeletion(d: Deletion, runAt: int, now: int) {
    && d.state == DeletionQueued && d.attempts == 0 && d.maxAttempts == 5
    && d.runAt == runAt && d.createdAt == now
    && d.lockedAt.None? && d.lockedBy.None? && d.leaseToken.None?
  }

  // Nothing but rows added.
  ghost predicate AddsNewDeletions(s: Store, s': Store, runAt: int) {
    && (forall key | key in s.deletions :: key in s'.deletions && s'.deletions[key] == s.deletions[key])
    && (forall key | key in s'.deletions && key !in s.deletions :: IsNewDeletion(s'.deletions[key], runAt, s.now))
  }

  lemma {:induction false} RemovedAllAddsNew(s: Store, ids: seq<string>)
    requires forall i | 0 <= i < |ids| :: ids[i] in s.attachments
    requires forall i, j | 0 <= i < j < |ids| :: ids[i] != ids[j]
    ensures AddsNewDeletions(s, RemovedAll(s, ids), s.now)
  {
    if ids != [] {
      RemovedAllAddsNew(s, ids[..|ids| - 1]);
    }
  }

  // What a removal enqueues: a new deletion for each object that has none yet,
  // due at once after a sweep and at the given time otherwise.
  lemma RemovalAddsNew(cfg: Config, s: Store, a: Action)
    requires a.SweepOrphans? || a.DeleteUnbound?
    ensures AddsNewDeletions(s, Step(cfg, s, a), if a.SweepOrphans? then s.now else a.runAt)
  {
    if a.SweepOrphans? && Sweepable(s, a.ids, a.limit) {
      RemovedAllAddsNew(s, a.ids);
    }
  }

  // A message binds attachments that are committed, active and done, and not bound to another.
  lemma BindTakesEffectIff(cfg: Config, s: Store, id: string, messageId: string)
    requires id in s.attachments
    ensures var r, s' := s.attachments[id], Step(cfg, s, Bind(id, messageId));
            if && r.quotaState == Committed && r.deletionStatus == Active && r.status == Ready
               && (r.parseStatus == Parsed || r.parseStatus == NotRequired)
               && (r.messageId == None || r.messageId == Some(messageId))
            then s'.attachments == s.attachments[id := r.(messageId := Some(messageId))]
            else s' == s
  {
  }

  // ----- what a message refers to stays

  ghost predicate IsBound(s: Store, id: string, messageId: string) {
    id in s.attachments && s.attachments[id].messageId == Some(messageId)
  }

  lemma LeavingKeepsBound(cfg: Config, s: Store, a: Action, id: string, messageId: string)
    requires IsBound(s, id, messageId) && LeavesQueue(a)
    ensures IsBound(Step(cfg, s, a), id, messageId)
  {
    hide Step;
    OtherStepOnlyRemoves(cfg, s, a);
    if id !in Step(cfg, s, a).attachments {
      RemovedRowsAreEnqueued(cfg, s, a, id);
    }
  }

  lemma RewriteKeepsBound(cfg: Config, s: Store, a: Action, id: string, messageId: string)
    requires IsBound(s, id, messageId) && !LeavesQueue(a)
    ensures IsBound(Step(cfg, s, a), id, messageId)
  {
  }

  // In every run: an attachment once bound to a message stays in the table,
  // bound to that message.
  lemma {:induction false} BoundStaysBound(cfg: Config, s: Store, actions: seq<Action>, id: string, messageId: string)
    requires id in s.attachments && s.attachments[id].messageId == Some(messageId)
    ensures var s' := Run(cfg, s, actions);
            id in s'.attachments && s'.attachments[id].messageId == Some(messageId)
  {
    hide Step;
    if actions != [] {
      var n := |actions| - 1;
      BoundStaysBound(cfg, s, actions[..n], id, messageId);
      var m := Run(cfg, s, actions[..n]);
      if LeavesQueue(actions[n]) {
        LeavingKeepsBound(cfg, m, actions[n], id, messageId);
      } else {
        RewriteKeepsBound(cfg, m, actions[n], id, messageId);
      }
    }
  }

  // ----- over whole runs

  // The row is there with the object it had, or its object is enqueued for deletion.
  ghost predicate KeptOrEnqueued(s: Store, id: string, objectKey: string) {
    && id in s.tallies
    && (if id in s.attachments then s.attachments[id].objectKey == objectKey else objectKey in s.deletions)
  }

  lemma StepKeepsEnqueued(cfg: Config, s: Store, a: Action)
    ensures s.deletions.Keys <= Step(cfg, s, a).deletions.Keys
    ensures s.tallies.Keys <= Step(cfg, s, a).tallies.Keys
  {
    if a.SweepOrphans? && Sweepable(s, a.ids, a.limit) {
      RemovedAllEnqueues(s, a.ids);
      RemovedAllOnlyRemoves(s, a.ids);
    }
  }

  lemma StepKeepsObject(cfg: Config, s: Store, a: Action, id: string)
    requires id in s.tallies && id in Step(cfg, s, a).attachments
    ensures id in s.attachments && Step(cfg, s, a).attachments[id].objectKey == s.attachments[id].objectKey
  {
    if LeavesQueue(a) {
      OtherStepOnlyRemoves(cfg, s, a);
    }
  }

  // In every run, keys once enqueued stay enqueued, and whatever row has been
  // removed by its end, the key of its object is enqueued.
  lemma {:induction false} RunEnqueuesRemoved(cfg: Config, s: Store, actions: seq<Action>, id: string)
    requires id in s.attachments && id in s.tallies
    ensures s.deletions.Keys <= Run(cfg, s, actions).deletions.Keys
    ensures KeptOrEnqueued(Run(cfg, s, actions), id, s.attachments[id].objectKey)
  {
    if actions != [] {
      var n := |actions| - 1;
      RunEnqueuesRemoved(cfg, s, actions[..n], id);
      var m := Run(cfg, s, actions[..n]);
      StepKeepsEnqueued(cfg, m, actions[n]);
      if id in Step(cfg, m, actions[n]).attachments {
        StepKeepsObject(cfg, m, actions[n], id);
      } else if id in m.attachments {
        RemovedRowsAreEnqueued(cfg, m, actions[n], id);
      }
    }
  }

  lemma SweepRemovesExactly(s: Store, ids: seq<string>, limit: nat)
    requires Sweepable(s, ids, limit)
    ensures var s' := CommitSweep(s, ids, limit);
            && (forall id | id in s.attachments :: id in s'.attachments <==> id !in ids)
            && (forall id | id in s'.attachments :: id in s.attachments && s'.attachments[id] == s.attachments[id])
            && (forall id | id in ids :: s.attachments[id].objectKey in s'.deletions)
  {
    RemovedAllEnqueues(s, ids);
    forall id | id in ids ensures s.attachments[id].objectKey in CommitSweep(s, ids, limit).deletions {
      var i :| 0 <= i < |ids| && ids[i] == id;
    }
  }
}
