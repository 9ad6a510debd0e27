// When a search case of the live evaluation is a hit, said of the URLs the
// search answers with, and how many hits a report has (src/evals/live-v1.ts).
module SearchCases {
  import opened Options
  import opened CorpusGates
  import opened Sequences
  import opened LaunchGate

  // The URL is that of the source with this key: the last one listed under it.
  ghost predicate Names(input: LiveInput, url: Option<string>, key: string) {
    && key != "" && url.Some? && url.value != "" && input.normalise(url.value).Some?
    && exists i :: IsLastWith(input, i, input.normalise(url.value)) && input.identities[i].sourceKey == key
  }

  ghost predicate IsLastWith(input: LiveInput, i: int, normal: Option<string>) {
    && 0 <= i < |input.identities| && input.normalise(input.identities[i].canonicalUrl) == normal
    && forall j | i < j < |input.identities| :: input.normalise(input.identities[j].canonicalUrl) != normal
  }

  // A hit with a URL has an acceptable one.
  ghost predicate HasGoodUrl(input: LiveInput, url: Option<string>) {
    url.Some? && url.value != "" ==> input.normalise(url.value).Some?
  }

  // Among the first five hits there is one of an expected source.
  ghost predicate RetrievalHits(input: LiveInput, c: EvalCase) {
    && input.retrieve(c.question).Some?
    && var hits := input.retrieve(c.question).value;
       && (forall i | 0 <= i < |hits| && i < 5 :: HasGoodUrl(input, hits[i]))
       && exists i, key | 0 <= i < |hits| && i < 5 && key in c.expected :: Names(input, hits[i], key)
  }

  // Every expected source is among the evidence.
  ghost predicate MetadataHits(input: LiveInput, c: EvalCase) {
    && input.retrieveMetadata(c.question).Some?
    && var evidence := input.retrieveMetadata(c.question).value;
       && (forall i | 0 <= i < |evidence| :: HasGoodUrl(input, evidence[i]))
       && forall key | key in c.expected :: exists i | 0 <= i < |evidence| :: Names(input, evidence[i], key)
  }

  // ----- the keys found

  ghost predicate IsLastOf(identities: seq<Identity>, normalise: string -> Option<string>, normal: string, i: int) {
    && 0 <= i < |identities| && normalise(identities[i].canonicalUrl) == Some(normal)
    && forall j | i < j < |identities| :: normalise(identities[j].canonicalUrl) != Some(normal)
  }

  lemma LastOfMore(identities: seq<Identity>, normalise: string -> Option<string>, normal: string, i: int)
    requires identities != []
    ensures IsLastOf(identities, normalise, normal, i) <==>
            if normalise(identities[|identities| - 1].canonicalUrl) == Some(normal) then i == |identities| - 1
            else IsLastOf(identities[..|identities| - 1], normalise, normal, i)
  {
    var init := identities[..|identities| - 1];
    assert forall j | 0 <= j < |init| :: init[j] == identities[j];
  }

  lemma {:induction false} KeysAreLast(identities: seq<Identity>, normalise: string -> Option<string>, normal: string)
    requires forall i | 0 <= i < |identities| :: normalise(identities[i].canonicalUrl).Some?
    ensures normal in KeysByUrl(identities, normalise) <==> exists i :: IsLastOf(identities, normalise, normal, i)
    ensures forall i | IsLastOf(identities, normalise, normal, i) ::
              normal in KeysByUrl(identities, normalise)
              && KeysByUrl(identities, normalise)[normal] == identities[i].sourceKey
  {
    if identities == [] {
      assert !exists i :: IsLastOf(identities, normalise, normal, i);
    } else {
      var n := |identities| - 1;
      KeysAreLast(identities[..n], normalise, normal);
      LastOfMore(identities, normalise, normal, n);
      forall i ensures IsLastOf(identities, normalise, normal, i) <==>
          if normalise(identities[n].canonicalUrl) == Some(normal) then i == n
          else IsLastOf(identities[..n], normalise, normal, i)
      {
        LastOfMore(identities, normalise, normal, i);
      }
      hide IsLastOf;
    }
  }

  // A URL with a normal form names exactly the key that is looked up for it.
  lemma LookupNames(input: LiveInput, url: Option<string>, key: string)
    requires Accepted(input) && url.Some? && url.value != "" && input.normalise(url.value).Some?
    ensures var keys, normal := KeysByUrl(input.identities, input.normalise), input.normalise(url.value).value;
            Names(input, url, key) <==> normal in keys && keys[normal] == key && key != ""
  {
    hide KeysByUrl;
    var keys, normal := KeysByUrl(input.identities, input.normalise), input.normalise(url.value).value;
    KeysAreLast(input.identities, input.normalise, normal);
    assert forall i :: IsLastWith(input, i, Some(normal))
                  <==> IsLastOf(input.identities, input.normalise, normal, i);
    hide IsLastWith, IsLastOf;
  }

  lemma NamelessUrl(input: LiveInput, url: Option<string>, key: string)
    requires url.None? || url.value == ""
    ensures !Names(input, url, key)
  {
  }

  ghost predicate NamedAmong(input: LiveInput, urls: seq<Option<string>>, key: string) {
    exists i | 0 <= i < |urls| :: Names(input, urls[i], key)
  }

  lemma NamedInMore(input: LiveInput, urls: seq<Option<string>>, key: string)
    requires urls != []
    ensures NamedAmong(input, urls, key)
       <==> NamedAmong(input, urls[..|urls| - 1], key) || Names(input, urls[|urls| - 1], key)
  {
    var init := urls[..|urls| - 1];
    if NamedAmong(input, init, key) {
      var i :| 0 <= i < |init| && Names(input, init[i], key);
      assert Names(input, urls[i], key);
    }
    if NamedAmong(input, urls, key) {
      var i :| 0 <= i < |urls| && Names(input, urls[i], key);
      assert i < |init| ==> init[i] == urls[i];
    }
  }

  lemma {:induction false} MatchedAreNamed(input: LiveInput, urls: seq<Option<string>>)
    requires Accepted(input)
    ensures var m := Matched(urls, KeysByUrl(input.identities, input.normalise), input.normalise);
            && (m.Some? <==> forall i | 0 <= i < |urls| :: HasGoodUrl(input, urls[i]))
            && (m.Some? ==> forall key :: key in m.value <==> NamedAmong(input, urls, key))
  {
    hide OfMode, KeysByUrl, Names;
    if urls != [] {
      var n := |urls| - 1;
      MatchedAreNamed(input, urls[..n]);
      assert urls == urls[..n] + [urls[n]];
      assert (forall i | 0 <= i < |urls| :: HasGoodUrl(input, urls[i]))
        <==> (forall i | 0 <= i < n :: HasGoodUrl(input, urls[..n][i])) && HasGoodUrl(input, urls[n]);
      var keys := KeysByUrl(input.identities, input.normalise);
      if Matched(urls, keys, input.normalise).Some? {
        forall key
          ensures key in Matched(urls, keys, input.normalise).value <==> NamedAmong(input, urls, key)
        {
          NamedInMore(input, urls, key);
          if urls[n].None? || urls[n].value == "" {
            NamelessUrl(input, urls[n], key);
          } else {
            LookupNames(input, urls[n], key);
          }
        }
      }
    }
  }

  // ----- main results

  // A retrieval case passes exactly when one of its first five hits is of an
  // expected source, and a metadata case exactly when all expected sources are
  // found; a URL that is not acceptable fails the case.
  lemma RetrievalPassesIff(input: LiveInput, c: EvalCase)
    requires Accepted(input)
    ensures var r := RetrievalResult(input, KeysByUrl(input.identities, input.normalise), c);
            r.id == c.id && (r.passed <==> RetrievalHits(input, c))
  {
    hide OfMode, KeysByUrl, Names, Matched;
    if input.retrieve(c.question).Some? {
      var hits := input.retrieve(c.question).value;
      var top := if |hits| > 5 then hits[..5] else hits;
      assert forall i | 0 <= i < |top| :: top[i] == hits[i];
      MatchedAreNamed(input, top);
      assert RetrievalHits(input, c) <==>
        && (forall i | 0 <= i < |top| :: HasGoodUrl(input, top[i]))
        && exists key | key in c.expected :: NamedAmong(input, top, key);
    }
  }

  lemma MetadataPassesIff(input: LiveInput, c: EvalCase)
    requires Accepted(input)
    ensures var r := MetadataResult(input, KeysByUrl(input.identities, input.normalise), c);
            r.id == c.id && (r.passed <==> MetadataHits(input, c))
  {
    hide OfMode, KeysByUrl, Names, Matched;
    if input.retrieveMetadata(c.question).Some? {
      var evidence := input.retrieveMetadata(c.question).value;
      MatchedAreNamed(input, evidence);
      assert (forall key | key in c.expected :: NamedAmong(input, evidence, key))
        <==> forall key | key in c.expected :: exists i | 0 <= i < |evidence| :: Names(input, evidence[i], key);
    }
  }

  // ----- what a report counts

  ghost function Indices(cases: seq<EvalCase>, hits: EvalCase -> bool): set<int> {
    set i | 0 <= i < |cases| && hits(cases[i])
  }

  lemma {:induction false} HitsAreCounted(cases: seq<EvalCase>, evaluate: EvalCase -> CaseResult,
                                          hits: EvalCase -> bool)
    requires forall i | 0 <= i < |cases| :: evaluate(cases[i]).passed <==> hits(cases[i])
    ensures Hits(Results(cases, evaluate)) == |Indices(cases, hits)|
  {
    var results := Results(cases, evaluate);
    if cases == [] {
      assert Indices(cases, hits) == {};
    } else {
      var n := |cases| - 1;
      HitsAreCounted(cases[..n], evaluate, hits);
      assert results[..n] == Results(cases[..n], evaluate);
      assert results[n].passed <==> hits(cases[n]);
      IndicesOneMore(cases, hits);
      HitsOneMore(results);
    }
  }

  lemma HitsOneMore(results: seq<CaseResult>)
    requires results != []
    ensures Hits(results) == Hits(results[..|results| - 1]) + if results[|results| - 1].passed then 1 else 0
  {
  }

  lemma IndicesOneMore(cases: seq<EvalCase>, hits: EvalCase -> bool)
    requires cases != []
    ensures |Indices(cases, hits)| == |Indices(cases[..|cases| - 1], hits)| + if hits(cases[|cases| - 1]) then 1 else 0
  {
    var n := |cases| - 1;
    var before := Indices(cases[..n], hits);
    assert n !in before;
    assert Indices(cases, hits) == if hits(cases[n]) then before + {n} else before;
  }

  // The hits of a report are the search cases that hit.
  lemma HitsOfReport(input: LiveInput, report: Report)
    requires Accepted(input) && ReportsOn(input, report) && report.retrieval.status != NotRun
    ensures report.retrieval.hits == |Indices(OfMode(input.cases, Retrieval), c => RetrievalHits(input, c))|
    ensures report.metadata.hits == |Indices(OfMode(input.cases, MetadataReference), c => MetadataHits(input, c))|
    ensures report.metadata.failedIds == [] <==> report.metadata.hits == 18
  {
    var keys := KeysByUrl(input.identities, input.normalise);
    var retrieval, metadata := OfMode(input.cases, Retrieval), OfMode(input.cases, MetadataReference);
    forall i | 0 <= i < |retrieval|
      ensures RetrievalResult(input, keys, retrieval[i]).passed <==> RetrievalHits(input, retrieval[i])
    {
      RetrievalPassesIff(input, retrieval[i]);
    }
    forall i | 0 <= i < |metadata|
      ensures MetadataResult(input, keys, metadata[i]).passed <==> MetadataHits(input, metadata[i])
    {
      MetadataPassesIff(input, metadata[i]);
    }
    HitsAreCounted(retrieval, c => RetrievalResult(input, keys, c), c => RetrievalHits(input, c));
    HitsAreCounted(metadata, c => MetadataResult(input, keys, c), c => MetadataHits(input, c));
    HitsAndMisses(Results(metadata, c => MetadataResult(input, keys, c)));
  }

  // The gate passes exactly when the corpus is reviewed and published, the
  // thirty safety cases hold and are reviewed, and either some source has a
  // version pending besides, so that nothing is searched, or at least 92 of the
  // 102 retrieval cases and all 18 metadata cases hit.
  lemma GatePassesIff(input: LiveInput, report: Report)
    requires Accepted(input) && ReportsOn(input, report)
    ensures report.gate == GatePassed <==>
      && CorpusReady(input) && SafetyHolds(input)
      && (|| SomePending(input.identities, input.states)
          || (&& |Indices(OfMode(input.cases, Retrieval), c => RetrievalHits(input, c))| >= 92
              && |Indices(OfMode(input.cases, MetadataReference), c => MetadataHits(input, c))| == 18))
  {
    hide ReportsOn, Accepted, CorpusReady, SafetyHolds, SomePending, OfMode;
    PassedIff(input, report);
    if CorpusReady(input) {
      PendingIsNotRun(input, report);
    }
    if report.retrieval.status != NotRun {
      HitsOfReport(input, report);
    }
  }

  lemma PendingIsNotRun(input: LiveInput, report: Report)
    requires Accepted(input) && ReportsOn(input, report) && CorpusReady(input)
    ensures report.retrieval.status == NotRun <==> SomePending(input.identities, input.states)
  {
    ReadyCorpusIsAvailableIff(input.identities, input.states);
  }

  // It fails exactly when a safety case does, or when searches were run and fell short.
  lemma GateFailsIff(input: LiveInput, report: Report)
    requires Accepted(input) && ReportsOn(input, report)
    ensures report.gate == GateFailed <==>
      || (exists c :: c in OfMode(input.cases, SafetyPolicy) && !input.meetsSafetyPolicy(c))
      || (&& CorpusAvailable(input)
          && (|| |Indices(OfMode(input.cases, Retrieval), c => RetrievalHits(input, c))| < 92
              || |Indices(OfMode(input.cases, MetadataReference), c => MetadataHits(input, c))| != 18))
  {
    SafetyPassedIff(input, report);
    RanIff(input, report);
    if CorpusAvailable(input) {
      HitsOfReport(input, report);
    }
    GateIs(input, report);
    hide ReportsOn, Accepted, CorpusAvailable, OfMode;
  }

  lemma RanIff(input: LiveInput, report: Report)
    requires Accepted(input) && ReportsOn(input, report)
    ensures report.retrieval.status != NotRun <==> CorpusAvailable(input)
  {
  }

  lemma GateIs(input: LiveInput, report: Report)
    requires Accepted(input) && ReportsOn(input, report)
    ensures report.gate == GateFailed
       <==> || report.safety.status != Passed
            || (CorpusAvailable(input) && (report.retrieval.hits < 92 || report.metadata.hits != 18))
  {
    var keys := KeysByUrl(input.identities, input.normalise);
    HitsAndMisses(Results(OfMode(input.cases, MetadataReference), c => MetadataResult(input, keys, c)));
    SafetyPassedIff(input, report);
  }
}
