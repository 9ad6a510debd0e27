// What the attempts of a deletion job count, over whole runs (claims and marks
// of chat_storage_deletion_job in src/worker/chat-storage.ts).
module DeletionAccounting {
  import opened Options
  import opened AttachmentTypes
  import opened AttachmentSteps
  import opened AttachmentFencing

  // What a run has done to the deletion of one object.
  datatype Counts = Counts(claims: nat, expiries: nat, requeues: nat, ends: nat)

  const NOTHING_YET := Counts(0, 0, 0, 0)

  // Whether a step that changes anything claims or marks the deletion of the key.
  predicate ClaimsKey(a: Action, key: string) {
    a.ClaimDeletion? && a.key == key
  }

  predicate MarksKey(s: Store, a: Action, key: string) {
    Marks(a) && a.token in s.deletionJobs && s.deletionJobs[a.token].objectKey == key
  }

  // One claim or mark more, by the row before and after it.
  function Claimed(c: Counts, d: Deletion): Counts {
    c.(claims := c.claims + 1, expiries := c.expiries + if d.state == DeletionRunning then 1 else 0)
  }

  function Marked(c: Counts, d': Deletion): Counts {
    if d'.state == DeletionQueued then c.(requeues := c.requeues + 1) else c.(ends := c.ends + 1)
  }

  function CountStep(cfg: Config, s: Store, a: Action, key: string, c: Counts): Counts {
    var s' := Step(cfg, s, a);
    if s' == s || key !in s.deletions || key !in s'.deletions then c
    else if ClaimsKey(a, key) then Claimed(c, s.deletions[key])
    else if MarksKey(s, a, key) then Marked(c, s'.deletions[key])
    else c
  }

  function CountRun(cfg: Config, s: Store, actions: seq<Action>, key: string): Counts {
    if actions == [] then NOTHING_YET
    else
      var n := |actions| - 1;
      CountStep(cfg, Run(cfg, s, actions[..n]), actions[n], key, CountRun(cfg, s, actions[..n], key))
  }

  function Running(d: Deletion): nat {
    if d.state == DeletionRunning then 1 else 0
  }

  predicate IsEnded(d: Deletion) {
    d.state in {DeletionSucceeded, DeletionFailed}
  }

  ghost predicate AccountsFor(d: Deletion, c: Counts) {
    && d.attempts == c.claims == c.requeues + c.expiries + c.ends + Running(d)
    && c.ends == (if IsEnded(d) then 1 else 0)
    && c.requeues < d.maxAttempts
  }

  // A deletion that is not enqueued yet has no history.
  ghost predicate Accounted(s: Store, key: string, c: Counts) {
    if key in s.deletions then AccountsFor(s.deletions[key], c) else c == NOTHING_YET
  }

  // ----- one row

  lemma ClaimAccounts(d: Deletion, d': Deletion, c: Counts, now: int)
    requires AccountsFor(d, c) && DeletionClaimable(d, now)
    requires d'.state == DeletionRunning && d'.attempts == d.attempts + 1 && d'.maxAttempts == d.maxAttempts
    ensures AccountsFor(d', Claimed(c, d))
  {
  }

  lemma MarkAccounts(d: Deletion, d': Deletion, c: Counts)
    requires AccountsFor(d, c) && d.state == DeletionRunning
    requires d'.attempts == d.attempts && d'.maxAttempts == d.maxAttempts
    requires IsEnded(d') || (d'.state == DeletionQueued && d.attempts < d.maxAttempts)
    ensures AccountsFor(d', Marked(c, d'))
  {
  }

  // ----- the steps

  // A claim rewrites the row of its key and no other.
  lemma ClaimRewritesRow(cfg: Config, s: Store, a: Action, key: string)
    requires a.ClaimDeletion? && Step(cfg, s, a) != s
    ensures var s' := Step(cfg, s, a);
            && s'.deletions.Keys == s.deletions.Keys
            && a.key in s.deletions && DeletionClaimable(s.deletions[a.key], s.now)
            && (key in s.deletions ==>
              if a.key == key then
                && s'.deletions[key].state == DeletionRunning
                && s'.deletions[key].attempts == s.deletions[key].attempts + 1
                && s'.deletions[key].maxAttempts == s.deletions[key].maxAttempts
              else s'.deletions[key] == s.deletions[key])
  {
  }

  // So does a mark; it requeues only while attempts are left.
  lemma MarkRewritesRow(cfg: Config, s: Store, a: Action, key: string)
    requires DeletionsOk(s) && Marks(a) && Step(cfg, s, a) != s
    ensures var s' := Step(cfg, s, a);
            && s'.deletions.Keys == s.deletions.Keys
            && (key in s.deletions ==>
              if MarksKey(s, a, key) then
                && s.deletions[key].state == DeletionRunning
                && s'.deletions[key].attempts == s.deletions[key].attempts
                && s'.deletions[key].maxAttempts == s.deletions[key].maxAttempts
                && (IsEnded(s'.deletions[key])
                    || (s'.deletions[key].state == DeletionQueued
                        && s.deletions[key].attempts < s.deletions[key].maxAttempts))
              else s'.deletions[key] == s.deletions[key])
  {
    var job := s.deletionJobs[a.token];
    assert DeletionOk(s, job.objectKey);
  }

  lemma StepAccounts(cfg: Config, s: Store, a: Action, key: string, c: Counts)
    requires DeletionsOk(s) && Accounted(s, key, c)
    ensures Accounted(Step(cfg, s, a), key, CountStep(cfg, s, a, key, c))
  {
    hide Step;
    var s' := Step(cfg, s, a);
    if s' != s {
      if a.ClaimDeletion? {
        ClaimRewritesRow(cfg, s, a, key);
        if a.key == key {
          ClaimAccounts(s.deletions[key], s'.deletions[key], c, s.now);
        }
      } else if Marks(a) {
        MarkRewritesRow(cfg, s, a, key);
        if key in s.deletions && MarksKey(s, a, key) {
          MarkAccounts(s.deletions[key], s'.deletions[key], c);
        }
      } else {
        OtherStepOnlyEnqueues(cfg, s, a);
      }
    }
  }

  lemma {:induction false} RunAccounts(cfg: Config, s: Store, actions: seq<Action>, key: string)
    requires DeletionsOk(s) && key !in s.deletions
    ensures Accounted(Run(cfg, s, actions), key, CountRun(cfg, s, actions, key))
  {
    if actions != [] {
      var n := |actions| - 1;
      RunAccounts(cfg, s, actions[..n], key);
      RunKeepsDeletions(cfg, s, actions[..n]);
      StepAccounts(cfg, Run(cfg, s, actions[..n]), actions[n], key, CountRun(cfg, s, actions[..n], key));
    }
  }

  // ----- main result

  // From before it is enqueued on, the attempts of a deletion are its claims:
  // those that requeued it, the leases that expired, and one for the claim that
  // is running or that ended it. It ends at most once, and without expiries the
  // maximum is never exceeded.
  lemma AttemptsAccountedFor(cfg: Config, s: Store, actions: seq<Action>, key: string)
    requires DeletionsOk(s) && key !in s.deletions && key in Run(cfg, s, actions).deletions
    ensures var d, c := Run(cfg, s, actions).deletions[key], CountRun(cfg, s, actions, key);
            && d.attempts == c.claims == c.requeues + c.expiries + c.ends + Running(d)
            && c.ends == (if IsEnded(d) then 1 else 0)
            && d.attempts <= d.maxAttempts + c.expiries
  {
    RunAccounts(cfg, s, actions, key);
  }
}
