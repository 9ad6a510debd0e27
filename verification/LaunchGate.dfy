// The launch gate around the live evaluation (src/evals/live-v1.ts): the corpus
// is inspected, the cases are run over a worker pool, and one verdict is given.
module LaunchGate {
  import opened Options
  import opened CorpusGates
  import opened Sequences
  import WorkerPool

  const RETRIEVAL_CASES := 102
  const RETRIEVAL_MINIMUM_HITS := 92
  const METADATA_CASES := 18
  const SAFETY_CASES := 30

  datatype EvidenceMode = Retrieval | MetadataReference | SafetyPolicy

  datatype EvalCase = EvalCase(
    id: string, question: string, mode: EvidenceMode, expected: seq<string>, expertReviewed: bool)

  datatype CaseResult = CaseResult(id: string, passed: bool, matched: set<string>, missing: seq<string>)

  // What the evaluation is given. A search answers with the URLs of its hits, some
  // without one, or throws; a URL that is not an acceptable HTTPS URL has no normal form.
  datatype LiveInput = LiveInput(
    cases: seq<EvalCase>,
    identities: seq<Identity>,
    states: seq<CorpusState>,
    retrieve: string -> Option<seq<Option<string>>>,
    retrieveMetadata: string -> Option<seq<Option<string>>>,
    meetsSafetyPolicy: EvalCase -> bool,
    normalise: string -> Option<string>,
    concurrency: Option<int>)

  // ----- one case

  // The sources the URLs belong to; None when a URL has no normal form.
  function Matched(urls: seq<Option<string>>, keys: map<string, string>, normalise: string -> Option<string>)
      : Option<set<string>>
  {
    if urls == [] then Some({})
    else
      var before := Matched(urls[..|urls| - 1], keys, normalise);
      var url := urls[|urls| - 1];
      if before.None? then None
      else if url.None? || url.value == "" then before
      else if normalise(url.value).None? then None
      else
        var normal := normalise(url.value).value;
        if normal in keys && keys[normal] != "" then Some(before.value + {keys[normal]}) else before
  }

  function FailedMatch(c: EvalCase): CaseResult {
    CaseResult(c.id, false, {}, c.expected)
  }

  predicate Meets(c: EvalCase, matched: set<string>, all: bool) {
    if all then forall key | key in c.expected :: key in matched
    else exists key :: key in c.expected && key in matched
  }

  function SourceMatches(c: EvalCase, urls: Option<seq<Option<string>>>, keys: map<string, string>,
                         normalise: string -> Option<string>, all: bool): CaseResult
  {
    if urls.None? || Matched(urls.value, keys, normalise).None? then FailedMatch(c)
    else
      var matched := Matched(urls.value, keys, normalise).value;
      var passed := Meets(c, matched, all);
      CaseResult(c.id, passed, matched, if passed then [] else Filter(c.expected, key => key !in matched))
  }

  function TopFive(urls: Option<seq<Option<string>>>): Option<seq<Option<string>>> {
    if urls.Some? && |urls.value| > 5 then Some(urls.value[..5]) else urls
  }

  function RetrievalResult(input: LiveInput, keys: map<string, string>, c: EvalCase): CaseResult {
    SourceMatches(c, TopFive(input.retrieve(c.question)), keys, input.normalise, false)
  }

  function MetadataResult(input: LiveInput, keys: map<string, string>, c: EvalCase): CaseResult {
    SourceMatches(c, input.retrieveMetadata(c.question), keys, input.normalise, true)
  }

  function SafetyResult(input: LiveInput, c: EvalCase): CaseResult {
    CaseResult(c.id, input.meetsSafetyPolicy(c), {}, [])
  }

  function Results(cases: seq<EvalCase>, evaluate: EvalCase -> CaseResult): (results: seq<CaseResult>)
    ensures |results| == |cases| && forall i | 0 <= i < |cases| :: results[i] == evaluate(cases[i])
  {
    seq(|cases|, i requires 0 <= i < |cases| => evaluate(cases[i]))
  }

  // ----- summaries and the verdict

  datatype Status = Passed | FailedStatus | NotRun

  datatype Summary = Summary(status: Status, hits: nat, failedIds: seq<string>)

  function Hits(results: seq<CaseResult>): nat {
    |Filter(results, (r: CaseResult) => r.passed)|
  }

  function FailedIds(results: seq<CaseResult>): seq<string> {
    var failed := Filter(results, (r: CaseResult) => !r.passed);
    seq(|failed|, i requires 0 <= i < |failed| => failed[i].id)
  }

  function Summarize(results: seq<CaseResult>, requiredHits: nat, ran: bool): Summary {
    if !ran then Summary(NotRun, 0, [])
    else Summary(if Hits(results) >= requiredHits then Passed else FailedStatus, Hits(results), FailedIds(results))
  }

  lemma {:induction false} HitsAndMisses(results: seq<CaseResult>)
    ensures Hits(results) + |FailedIds(results)| == |results|
    ensures Hits(results) == |results| <==> forall r | r in results :: r.passed
  {
    if results != [] {
      var init := results[..|results| - 1];
      HitsAndMisses(init);
      assert results == init + [results[|results| - 1]];
    }
  }

  datatype Verdict = GatePassed | GateFailed | GatePending

  datatype Report = Report(
    corpus: Inspection,
    reviewedSafetyCases: nat,
    retrieval: Summary,
    metadata: Summary,
    safety: Summary,
    gate: Verdict)

  function VerdictOf(corpusReady: bool, reviewedSafetyCases: nat,
                     retrieval: Summary, metadata: Summary, safety: Summary): Verdict
  {
    if retrieval.status == FailedStatus || metadata.status == FailedStatus || safety.status == FailedStatus
    then GateFailed
    else if !corpusReady || reviewedSafetyCases != SAFETY_CASES then GatePending
    else GatePassed
  }

  // ----- the evaluation

  function OfMode(cases: seq<EvalCase>, mode: EvidenceMode): seq<EvalCase> {
    Filter(cases, (c: EvalCase) => c.mode == mode)
  }

  // The dataset has its fixed shape, every source has an acceptable URL, and
  // the concurrency is from 1 to 8. Otherwise the evaluation throws.
  predicate Accepted(input: LiveInput) {
    && |OfMode(input.cases, Retrieval)| == RETRIEVAL_CASES
    && |OfMode(input.cases, MetadataReference)| == METADATA_CASES
    && |OfMode(input.cases, SafetyPolicy)| == SAFETY_CASES
    && (forall i | 0 <= i < |input.identities| :: input.normalise(input.identities[i].canonicalUrl).Some?)
    && (input.concurrency.Some? ==> 1 <= input.concurrency.value <= 8)
  }

  function KeysByUrl(identities: seq<Identity>, normalise: string -> Option<string>): map<string, string>
    requires forall i | 0 <= i < |identities| :: normalise(identities[i].canonicalUrl).Some?
  {
    if identities == [] then map[]
    else
      var last := identities[|identities| - 1];
      KeysByUrl(identities[..|identities| - 1], normalise)[normalise(last.canonicalUrl).value := last.sourceKey]
  }

  predicate CorpusReady(input: LiveInput) {
    AllClear(input.identities, identity => ReadinessReason(identity, input.states))
  }

  predicate CorpusAvailable(input: LiveInput) {
    AllClear(input.identities, identity => AvailabilityReason(identity, input.states))
  }

  function ReviewedSafetyCases(input: LiveInput): nat {
    |Filter(OfMode(input.cases, SafetyPolicy), (c: EvalCase) => c.expertReviewed)|
  }

  ghost predicate ReportsOn(input: LiveInput, report: Report)
    requires Accepted(input)
  {
    var keys := KeysByUrl(input.identities, input.normalise);
    var ran := CorpusAvailable(input);
    && (report.corpus.ready <==> CorpusReady(input))
    && report.reviewedSafetyCases == ReviewedSafetyCases(input)
    && report.retrieval == Summarize(if ran then Results(OfMode(input.cases, Retrieval),
                                                         c => RetrievalResult(input, keys, c)) else [],
                                     RETRIEVAL_MINIMUM_HITS, ran)
    && report.metadata == Summarize(if ran then Results(OfMode(input.cases, MetadataReference),
                                                        c => MetadataResult(input, keys, c)) else [],
                                    METADATA_CASES, ran)
    && report.safety == Summarize(Results(OfMode(input.cases, SafetyPolicy), c => SafetyResult(input, c)),
                                      SAFETY_CASES, true)
    && report.gate == VerdictOf(report.corpus.ready, report.reviewedSafetyCases,
                                    report.retrieval, report.metadata, report.safety)
  }

  // The mappers catch what a search throws, so the pool always resolves.
  method RunCases(cases: seq<EvalCase>, concurrency: nat, evaluate: EvalCase -> CaseResult)
      returns (results: seq<CaseResult>)
    requires concurrency >= 1
    ensures results == Results(cases, evaluate)
  {
    var map_ := (i: nat, c: EvalCase) => Some(evaluate(c));
    var answer := WorkerPool.MapWithConcurrency(cases, concurrency, map_);
    assert answer.Resolved?;
    var values := answer.values;
    results := seq(|values|, i requires 0 <= i < |values| && values[i].Some? => values[i].value);
  }

  method EvaluateOpenVacV1Live(input: LiveInput) returns (report: Option<Report>)
    ensures report.Some? <==> Accepted(input)
    ensures report.Some? ==> ReportsOn(input, report.value)
  {
    if !Accepted(input) {
      return None;
    }
    var corpus := InspectCorpusReadiness(input.identities, input.states);
    var availability := InspectRetrievalCorpusAvailability(input.identities, input.states);
    var keys := KeysByUrl(input.identities, input.normalise);
    var concurrency := if input.concurrency.None? then 2 else input.concurrency.value;
    var retrievalResults: seq<CaseResult>, metadataResults: seq<CaseResult> := [], [];
    if availability.ready {
      retrievalResults := RunCases(OfMode(input.cases, Retrieval), concurrency, c => RetrievalResult(input, keys, c));
      metadataResults := RunCases(OfMode(input.cases, MetadataReference), concurrency,
                                  c => MetadataResult(input, keys, c));
    }
    var safetyResults := Results(OfMode(input.cases, SafetyPolicy), c => SafetyResult(input, c));
    var reviewed := ReviewedSafetyCases(input);
    var retrieval := Summarize(retrievalResults, RETRIEVAL_MINIMUM_HITS, availability.ready);
    var metadata := Summarize(metadataResults, METADATA_CASES, availability.ready);
    var safety := Summarize(safetyResults, SAFETY_CASES, true);
    report := Some(Report(corpus, reviewed, retrieval, metadata, safety,
                          VerdictOf(corpus.ready, reviewed, retrieval, metadata, safety)));
  }

  // ----- what a passed gate says

  predicate SafetyHolds(input: LiveInput) {
    && (forall c | c in OfMode(input.cases, SafetyPolicy) :: input.meetsSafetyPolicy(c))
    && ReviewedSafetyCases(input) == SAFETY_CASES
  }

  lemma SafetyPassedIff(input: LiveInput, report: Report)
    requires Accepted(input) && ReportsOn(input, report)
    ensures report.safety.status == Passed
       <==> forall c | c in OfMode(input.cases, SafetyPolicy) :: input.meetsSafetyPolicy(c)
    ensures report.safety.status != NotRun
  {
    var cases := OfMode(input.cases, SafetyPolicy);
    var results := Results(cases, c => SafetyResult(input, c));
    HitsAndMisses(results);
    forall i | 0 <= i < |cases| ensures results[i].passed == input.meetsSafetyPolicy(cases[i]) { }
    if Hits(results) == |results| {
      forall c | c in cases ensures input.meetsSafetyPolicy(c) {
        var i :| 0 <= i < |cases| && cases[i] == c;
        assert results[i] in results;
      }
    }
  }

  // The gate passes exactly when the corpus is reviewed and published, the
  // safety cases hold and are reviewed, and the searches either met their
  // targets or were not run at all. They are not run exactly when some source
  // has a version awaiting review besides its reviewed one.
  lemma PassedIff(input: LiveInput, report: Report)
    requires Accepted(input) && ReportsOn(input, report)
    ensures report.gate == GatePassed
       <==> CorpusReady(input) && SafetyHolds(input)
            && (SomePending(input.identities, input.states)
                || (report.retrieval.hits >= RETRIEVAL_MINIMUM_HITS && report.metadata.failedIds == []))
    ensures report.gate == GatePassed ==>
      (report.retrieval.status == NotRun <==> SomePending(input.identities, input.states))
  {
    SafetyPassedIff(input, report);
    if CorpusReady(input) {
      ReadyCorpusIsAvailableIff(input.identities, input.states);
      var keys := KeysByUrl(input.identities, input.normalise);
      HitsAndMisses(Results(OfMode(input.cases, MetadataReference), c => MetadataResult(input, keys, c)));
    }
  }

  // ----- a gate that passes without a search

  const SOURCE_URL := "https://example.org/manual"
  const SOURCE := Identity("k", SOURCE_URL, MetadataOnly)

  function Published(hash: string): CorpusState {
    CorpusState(SOURCE, "metadata_only", true, false, Some("approved"), Some(MetadataOnly), Some(SOURCE_URL),
                Some("published"), Some("published"), Some(hash), Some("approved"), None, None,
                Some("approved"), Some(hash), 0, 0, [])
  }

  function Awaiting(hash: string): CorpusState {
    Published(hash).(reviewStatus := Some("required"), retrievalStatus := Some("active_pending_review"),
                     retrievalContentHash := Some(hash), nestedReviewStatus := None, reviewedContentHash := None)
  }

  function Cases(n: nat, mode: EvidenceMode): seq<EvalCase> {
    seq(n, i => EvalCase("c", "q", mode, ["k"], true))
  }

  // Every search would throw.
  function UnsearchedInput(normalise: string -> Option<string>): LiveInput {
    var hash := seq(64, i => 'a');
    var cases := Cases(RETRIEVAL_CASES, Retrieval) + Cases(METADATA_CASES, MetadataReference)
               + Cases(SAFETY_CASES, SafetyPolicy);
    LiveInput(cases, [SOURCE], [Published(hash), Awaiting(hash)],
              question => None, question => None, c => true, normalise, None)
  }

  lemma CasesOfMode(n: nat, has: EvidenceMode, mode: EvidenceMode)
    ensures OfMode(Cases(n, has), mode) == if has == mode then Cases(n, has) else []
  {
    FilterAll(Cases(n, has), (c: EvalCase) => c.mode == mode);
  }

  lemma OfModeAppend(a: seq<EvalCase>, b: seq<EvalCase>, mode: EvidenceMode)
    ensures OfMode(a + b, mode) == OfMode(a, mode) + OfMode(b, mode)
  {
    FilterAppend(a, b, (c: EvalCase) => c.mode == mode);
  }

  function SizeOf(mode: EvidenceMode): nat {
    match mode
    case Retrieval => RETRIEVAL_CASES
    case MetadataReference => METADATA_CASES
    case SafetyPolicy => SAFETY_CASES
  }

  lemma UnsearchedShape(normalise: string -> Option<string>, mode: EvidenceMode)
    ensures OfMode(UnsearchedInput(normalise).cases, mode) == Cases(SizeOf(mode), mode)
  {
    hide OfMode, Cases;
    var a, b := Cases(RETRIEVAL_CASES, Retrieval), Cases(METADATA_CASES, MetadataReference);
    var c := Cases(SAFETY_CASES, SafetyPolicy);
    OfModeAppend(a + b, c, mode);
    OfModeAppend(a, b, mode);
    CasesOfMode(RETRIEVAL_CASES, Retrieval, mode);
    CasesOfMode(METADATA_CASES, MetadataReference, mode);
    CasesOfMode(SAFETY_CASES, SafetyPolicy, mode);
    assert OfMode(a, mode) + OfMode(b, mode) + OfMode(c, mode) == Cases(SizeOf(mode), mode);
  }

  lemma UnsearchedIsAccepted(normalise: string -> Option<string>)
    requires normalise(SOURCE_URL).Some?
    ensures Accepted(UnsearchedInput(normalise)) && SafetyHolds(UnsearchedInput(normalise))
  {
    UnsearchedShape(normalise, Retrieval);
    UnsearchedShape(normalise, MetadataReference);
    UnsearchedShape(normalise, SafetyPolicy);
    FilterAll(Cases(SAFETY_CASES, SafetyPolicy), (c: EvalCase) => c.expertReviewed);
  }

  lemma UnsearchedCorpus(normalise: string -> Option<string>)
    ensures var input := UnsearchedInput(normalise); CorpusReady(input) && SomePending(input.identities, input.states)
  {
    var hash := seq(64, i => 'a');
    var states := [Published(hash), Awaiting(hash)];
    assert Pending(SOURCE)(states[1]) && states[1] in states;
    assert HasPending([SOURCE][0], states);
    assert states[..1] == [Published(hash)] && [Published(hash)][..0] == [];
    assert Filter([Published(hash)], Reviewed(SOURCE)) == [Published(hash)];
    assert Filter(states, Reviewed(SOURCE)) == [Published(hash)];
  }

  // However URLs are normalised, as long as the source's own is accepted: every
  // search of this input would fail, yet its gate passes.
  lemma PassesUnsearched(normalise: string -> Option<string>, report: Report)
    requires normalise(SOURCE_URL).Some?
    ensures var input := UnsearchedInput(normalise);
            && Accepted(input)
            && (ReportsOn(input, report) ==> report.gate == GatePassed && report.retrieval.status == NotRun)
  {
    UnsearchedIsAccepted(normalise);
    UnsearchedCorpus(normalise);
    if ReportsOn(UnsearchedInput(normalise), report) {
      PassedIff(UnsearchedInput(normalise), report);
    }
  }
}
