// The two looks at the published corpus before an evaluation (src/evals/live-v1.ts):
// is every source reviewed and published, and is every source available for
// retrieval? They differ in which versions they accept.
module CorpusGates {
  import opened Options
  import opened Sequences

  datatype Mode = FullText | MetadataOnly

  datatype Identity = Identity(sourceKey: string, canonicalUrl: string, mode: Mode)

  datatype CorpusState = CorpusState(
    identity: Identity,
    sourceTier: string,
    sourceEnabled: bool,
    sourceDeleted: bool,
    rightsStatus: Option<string>,
    rightsScope: Option<Mode>,
    rightsRecordUrl: Option<string>,
    documentStatus: Option<string>,
    versionStatus: Option<string>,
    contentHash: Option<string>,
    reviewStatus: Option<string>,
    retrievalStatus: Option<string>,
    retrievalContentHash: Option<string>,
    nestedReviewStatus: Option<string>,
    reviewedContentHash: Option<string>,
    chunkCount: nat,
    embeddedChunkCount: nat,
    embeddingModels: seq<string>)

  // ----- which versions count

  predicate IsSha256Hex(hash: string) {
    |hash| == 64 && forall c | c in hash :: '0' <= c <= '9' || 'a' <= c <= 'f'
  }

  predicate HasApprovedHash(state: CorpusState) {
    state.contentHash.Some? && IsSha256Hex(state.contentHash.value) && state.reviewedContentHash == state.contentHash
  }

  predicate TierMatches(mode: Mode, tier: string) {
    if mode == MetadataOnly then tier == "metadata_only" else tier in {"open_license", "internal"}
  }

  // Published, enabled, and with the rights for exactly this source.
  predicate IsPublished(identity: Identity, state: CorpusState) {
    && state.identity == identity
    && state.sourceEnabled && !state.sourceDeleted
    && TierMatches(identity.mode, state.sourceTier)
    && state.rightsStatus == Some("approved")
    && state.rightsScope == Some(identity.mode)
    && state.rightsRecordUrl == Some(identity.canonicalUrl)
    && state.documentStatus == Some("published")
    && state.versionStatus == Some("published")
  }

  predicate IsReviewed(state: CorpusState) {
    && state.reviewStatus == Some("approved")
    && state.nestedReviewStatus == Some("approved")
    && HasApprovedHash(state)
  }

  predicate IsPendingReview(state: CorpusState) {
    && state.reviewStatus == Some("required")
    && state.retrievalStatus == Some("active_pending_review")
    && state.contentHash.Some? && state.contentHash.value != ""
    && state.retrievalContentHash == state.contentHash
  }

  function Reviewed(identity: Identity): CorpusState -> bool {
    state => IsPublished(identity, state) && IsReviewed(state)
  }

  function Active(identity: Identity): CorpusState -> bool {
    state => IsPublished(identity, state) && (IsReviewed(state) || IsPendingReview(state))
  }

  // A version that may be searched although its review is still due.
  function Pending(identity: Identity): CorpusState -> bool {
    state => IsPublished(identity, state) && IsPendingReview(state)
  }

  // A version counts for a source exactly when the source is enabled and has
  // the rights, under its own URL and for its own mode, document and version are
  // published, and the review approved the very content; for retrieval a version
  // whose review is still due counts as well if that content is the active one.
  lemma CountsIff(identity: Identity, state: CorpusState)
    ensures Active(identity)(state) <==>
      && state.identity == identity && state.sourceEnabled && !state.sourceDeleted
      && (identity.mode == MetadataOnly ==> state.sourceTier == "metadata_only")
      && (identity.mode == FullText ==> state.sourceTier == "open_license" || state.sourceTier == "internal")
      && state.rightsStatus == Some("approved") && state.rightsScope == Some(identity.mode)
      && state.rightsRecordUrl == Some(identity.canonicalUrl)
      && state.documentStatus == Some("published") && state.versionStatus == Some("published")
      && state.contentHash.Some?
      && (|| HasApproval(state)
          || (&& state.reviewStatus == Some("required") && state.retrievalStatus == Some("active_pending_review")
              && state.contentHash.value != "" && state.retrievalContentHash == state.contentHash))
    ensures Reviewed(identity)(state) <==> Active(identity)(state) && HasApproval(state)
    ensures Pending(identity)(state) <==> Active(identity)(state) && !HasApproval(state)
  {
    if state.contentHash.Some? {
      EachDigit(state.contentHash.value);
    }
    NeverBoth(state);
  }

  lemma EachDigit(hash: string)
    ensures IsSha256Hex(hash)
       <==> |hash| == 64 && forall i | 0 <= i < 64 :: '0' <= hash[i] <= '9' || 'a' <= hash[i] <= 'f'
  {
    if IsSha256Hex(hash) {
      assert forall i | 0 <= i < 64 :: hash[i] in hash;
    }
    if |hash| == 64 && forall i | 0 <= i < 64 :: '0' <= hash[i] <= '9' || 'a' <= hash[i] <= 'f' {
      forall c | c in hash ensures '0' <= c <= '9' || 'a' <= c <= 'f' {
        var i :| 0 <= i < |hash| && hash[i] == c;
      }
    }
  }

  ghost predicate HasApproval(state: CorpusState) {
    && state.reviewStatus == Some("approved") && state.nestedReviewStatus == Some("approved")
    && state.contentHash.Some? && state.reviewedContentHash == state.contentHash
    && |state.contentHash.value| == 64
    && forall i | 0 <= i < 64 ::
         '0' <= state.contentHash.value[i] <= '9' || 'a' <= state.contentHash.value[i] <= 'f'
  }

  // ----- the reasons a source is held back

  // What is wrong with the content of the one version that counts.
  function ContentReason(identity: Identity, state: CorpusState): Option<string> {
    if identity.mode == FullText then
      if state.chunkCount < 1 || state.embeddedChunkCount != state.chunkCount || |state.embeddingModels| < 1
      then Some(identity.sourceKey + ":embedding_incomplete") else None
    else if state.chunkCount != 0 || state.embeddedChunkCount != 0
    then Some(identity.sourceKey + ":metadata_entered_chunks") else None
  }

  function ReadinessReason(identity: Identity, states: seq<CorpusState>): Option<string> {
    var eligible := Filter(states, Reviewed(identity));
    if |eligible| == 0 then Some(identity.sourceKey + ":not_reviewed_and_published")
    else if |eligible| > 1 then Some(identity.sourceKey + ":multiple_published_versions")
    else ContentReason(identity, eligible[0])
  }

  function AvailabilityReason(identity: Identity, states: seq<CorpusState>): Option<string> {
    var eligible := Filter(states, Active(identity));
    if |eligible| != 1
    then Some(identity.sourceKey + if |eligible| > 1 then ":multiple_active_versions" else ":not_active")
    else ContentReason(identity, eligible[0])
  }

  function Reasons(identities: seq<Identity>, reason: Identity -> Option<string>): seq<string> {
    if identities == [] then []
    else
      var last := reason(identities[|identities| - 1]);
      Reasons(identities[..|identities| - 1], reason) + if last.Some? then [last.value] else []
  }

  // ----- the two inspections

  predicate AllClear(identities: seq<Identity>, reason: Identity -> Option<string>) {
    forall i | 0 <= i < |identities| :: reason(identities[i]).None?
  }

  lemma {:induction false} NoReasonsIff(identities: seq<Identity>, reason: Identity -> Option<string>)
    ensures Reasons(identities, reason) == [] <==> AllClear(identities, reason)
  {
    if identities != [] {
      NoReasonsIff(identities[..|identities| - 1], reason);
    }
  }

  // ----- the same, said of the versions themselves

  // Embedded in full, or, for a metadata source, in no chunks at all.
  predicate HasCompleteContent(identity: Identity, state: CorpusState) {
    if identity.mode == FullText then
      state.chunkCount >= 1 && state.embeddedChunkCount == state.chunkCount && state.embeddingModels != []
    else state.chunkCount == 0 && state.embeddedChunkCount == 0
  }

  // One version meets the condition and no other, and it has complete content.
  ghost predicate ExactlyOneComplete(identity: Identity, states: seq<CorpusState>, p: CorpusState -> bool) {
    exists i :: IsOnlyOne(states, p, i) && HasCompleteContent(identity, states[i])
  }

  ghost predicate IsOnlyOne(states: seq<CorpusState>, p: CorpusState -> bool, i: int) {
    0 <= i < |states| && p(states[i]) && forall j | 0 <= j < |states| && j != i :: !p(states[j])
  }

  lemma {:induction false} OnlyOneIsFiltered(states: seq<CorpusState>, p: CorpusState -> bool, i: int)
    requires IsOnlyOne(states, p, i)
    ensures Filter(states, p) == [states[i]]
  {
    var n := |states| - 1;
    if i == n {
      forall x | x in states[..n] ensures !p(x) {
        var j :| 0 <= j < n && states[..n][j] == x;
        assert states[j] == x;
      }
      FilterIsExact(states[..n], p);
    } else {
      assert IsOnlyOne(states[..n], p, i);
      OnlyOneIsFiltered(states[..n], p, i);
    }
  }

  lemma {:induction false} FilteredIsOnlyOne(states: seq<CorpusState>, p: CorpusState -> bool) returns (i: int)
    requires |Filter(states, p)| == 1
    ensures IsOnlyOne(states, p, i)
  {
    var n := |states| - 1;
    if p(states[n]) {
      i := n;
      assert Filter(states[..n], p) == [];
      FilterIsExact(states[..n], p);
      forall j | 0 <= j < n ensures !p(states[j]) {
        assert states[..n][j] in states[..n];
      }
    } else {
      i := FilteredIsOnlyOne(states[..n], p);
      assert p(states[..n][i]);
      forall j | 0 <= j < n && j != i ensures !p(states[j]) {
        assert !p(states[..n][j]);
      }
    }
  }

  lemma NoReasonIff(identity: Identity, states: seq<CorpusState>, p: CorpusState -> bool)
    ensures |Filter(states, p)| == 1 && ContentReason(identity, Filter(states, p)[0]).None?
       <==> ExactlyOneComplete(identity, states, p)
  {
    if |Filter(states, p)| == 1 {
      var i := FilteredIsOnlyOne(states, p);
      OnlyOneIsFiltered(states, p, i);
    }
    forall i | IsOnlyOne(states, p, i) ensures Filter(states, p) == [states[i]] {
      OnlyOneIsFiltered(states, p, i);
    }
  }

  ghost predicate AllReviewed(identities: seq<Identity>, states: seq<CorpusState>) {
    forall identity | identity in identities :: ExactlyOneComplete(identity, states, Reviewed(identity))
  }

  ghost predicate AllActive(identities: seq<Identity>, states: seq<CorpusState>) {
    forall identity | identity in identities :: ExactlyOneComplete(identity, states, Active(identity))
  }

  // A source has no reason to be held back exactly when one version of it counts and is complete.
  lemma AllClearIff(identities: seq<Identity>, states: seq<CorpusState>)
    ensures AllClear(identities, identity => ReadinessReason(identity, states)) <==> AllReviewed(identities, states)
    ensures AllClear(identities, identity => AvailabilityReason(identity, states)) <==> AllActive(identities, states)
  {
    forall identity
      ensures ReadinessReason(identity, states).None? <==> ExactlyOneComplete(identity, states, Reviewed(identity))
      ensures AvailabilityReason(identity, states).None? <==> ExactlyOneComplete(identity, states, Active(identity))
    {
      NoReasonIff(identity, states, Reviewed(identity));
      NoReasonIff(identity, states, Active(identity));
    }
    EachIsClear(identities, identity => ReadinessReason(identity, states));
    EachIsClear(identities, identity => AvailabilityReason(identity, states));
  }

  lemma EachIsClear(identities: seq<Identity>, reason: Identity -> Option<string>)
    ensures AllClear(identities, reason) <==> forall identity | identity in identities :: reason(identity).None?
  {
  }

  datatype Inspection = Inspection(ready: bool, pendingReasons: seq<string>)

  method InspectCorpusReadiness(identities: seq<Identity>, states: seq<CorpusState>) returns (r: Inspection)
    ensures r.pendingReasons == Reasons(identities, identity => ReadinessReason(identity, states))
    ensures r.ready <==> AllClear(identities, identity => ReadinessReason(identity, states))
    ensures r.ready <==> AllReviewed(identities, states)
  {
    ghost var reason := identity => ReadinessReason(identity, states);
    var pendingReasons: seq<string> := [];
    for i := 0 to |identities|
      invariant pendingReasons == Reasons(identities[..i], reason)
    {
      var identity := identities[i];
      assert identities[..i + 1][..i] == identities[..i];
      var sourceStates := Filter(states, (state: CorpusState) => state.identity.sourceKey == identity.sourceKey);
      var eligible := Filter(sourceStates, Reviewed(identity));
      FilterTwice(states, (state: CorpusState) => state.identity.sourceKey == identity.sourceKey, Reviewed(identity),
                  Reviewed(identity));
      if |eligible| == 0 {
        pendingReasons := pendingReasons + [identity.sourceKey + ":not_reviewed_and_published"];
        continue;
      }
      if |eligible| > 1 {
        pendingReasons := pendingReasons + [identity.sourceKey + ":multiple_published_versions"];
        continue;
      }
      var problem := ContentReason(identity, eligible[0]);
      if problem.Some? {
        pendingReasons := pendingReasons + [problem.value];
      }
    }
    assert identities[..|identities|] == identities;
    NoReasonsIff(identities, reason);
    AllClearIff(identities, states);
    r := Inspection(pendingReasons == [], pendingReasons);
  }

  method InspectRetrievalCorpusAvailability(identities: seq<Identity>, states: seq<CorpusState>) returns (r: Inspection)
    ensures r.pendingReasons == Reasons(identities, identity => AvailabilityReason(identity, states))
    ensures r.ready <==> AllClear(identities, identity => AvailabilityReason(identity, states))
    ensures r.ready <==> AllActive(identities, states)
  {
    ghost var reason := identity => AvailabilityReason(identity, states);
    var pendingReasons: seq<string> := [];
    for i := 0 to |identities|
      invariant pendingReasons == Reasons(identities[..i], reason)
    {
      var identity := identities[i];
      assert identities[..i + 1][..i] == identities[..i];
      var eligible := Filter(states, Active(identity));
      if |eligible| != 1 {
        pendingReasons := pendingReasons
          + [identity.sourceKey + if |eligible| > 1 then ":multiple_active_versions" else ":not_active"];
        continue;
      }
      var problem := ContentReason(identity, eligible[0]);
      if problem.Some? {
        pendingReasons := pendingReasons + [problem.value];
      }
    }
    assert identities[..|identities|] == identities;
    NoReasonsIff(identities, reason);
    AllClearIff(identities, states);
    r := Inspection(pendingReasons == [], pendingReasons);
  }

  // ----- how the two looks relate

  lemma NeverBoth(state: CorpusState)
    ensures !(IsReviewed(state) && IsPendingReview(state))
  {
    assert "approved" != "required";
  }

  lemma {:induction false} ActiveSplits(identity: Identity, states: seq<CorpusState>)
    ensures |Filter(states, Active(identity))|
         == |Filter(states, Reviewed(identity))| + |Filter(states, Pending(identity))|
    ensures Filter(states, Pending(identity)) == [] ==>
              Filter(states, Active(identity)) == Filter(states, Reviewed(identity))
  {
    if states != [] {
      ActiveSplits(identity, states[..|states| - 1]);
      NeverBoth(states[|states| - 1]);
    }
  }

  // A version awaiting review beside, or instead of, the reviewed one.
  ghost predicate HasPending(identity: Identity, states: seq<CorpusState>) {
    exists state :: state in states && Pending(identity)(state)
  }

  ghost predicate SomePending(identities: seq<Identity>, states: seq<CorpusState>) {
    exists i :: 0 <= i < |identities| && HasPending(identities[i], states)
  }

  lemma SourceAvailableIff(identity: Identity, states: seq<CorpusState>)
    requires ReadinessReason(identity, states).None?
    ensures AvailabilityReason(identity, states).None? <==> !HasPending(identity, states)
  {
    ActiveSplits(identity, states);
    FilterIsExact(states, Pending(identity));
  }

  // A corpus that is ready can be searched exactly when no source has a version
  // awaiting review besides its reviewed one.
  lemma ReadyCorpusIsAvailableIff(identities: seq<Identity>, states: seq<CorpusState>)
    requires AllClear(identities, identity => ReadinessReason(identity, states))
    ensures AllClear(identities, identity => AvailabilityReason(identity, states)) <==> !SomePending(identities, states)
  {
    var ready := identity => ReadinessReason(identity, states);
    forall i | 0 <= i < |identities|
      ensures AvailabilityReason(identities[i], states).None? <==> !HasPending(identities[i], states)
    {
      assert ready(identities[i]).None?;
      SourceAvailableIff(identities[i], states);
    }
    var available := identity => AvailabilityReason(identity, states);
    if SomePending(identities, states) {
      var i :| 0 <= i < |identities| && HasPending(identities[i], states);
      assert available(identities[i]).Some?;
    }
  }
}
