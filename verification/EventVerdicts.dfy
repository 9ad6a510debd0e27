// When the reader of the chat event stream raises which error, when the stream
// ends well, and what is handed on until then, said of the payloads alone
// (parseChatEventStream in src/lib/sse.ts).
module EventVerdicts {
  import opened Options
  import opened EventStream

  // ----- one payload after others

  // A sequenced event counts if its sequence is above zero and above all
  // sequences before it; an event of the first protocol always does.
  ghost predicate Counts(parse: Parser, before: seq<string>, e: ChatEvent) {
    IsV2(e) ==>
      && e.sequence.Usable? && e.sequence.value > 0
      && forall d | d in before && HasSequence(parse, d) :: parse(d).value.sequence.value < e.sequence.value
  }

  ghost predicate HasSequence(parse: Parser, data: string) {
    parse(data).Some? && IsV2(parse(data).value) && parse(data).value.sequence.Usable?
  }

  ghost predicate IsEnd(parse: Parser, payloads: seq<string>, i: nat) {
    && i < |payloads| && parse(payloads[i]).Some? && parse(payloads[i]).value.terminal
    && Counts(parse, payloads[..i], parse(payloads[i]).value)
  }

  ghost predicate Ended(parse: Parser, payloads: seq<string>) {
    exists i: nat :: IsEnd(parse, payloads, i)
  }

  ghost predicate OtherProtocol(parse: Parser, before: seq<string>, e: ChatEvent) {
    before != [] && parse(before[0]).Some? && IsV2(parse(before[0]).value) != IsV2(e)
  }

  // What is wrong with a payload after those before it.
  ghost predicate IsWrong(parse: Parser, before: seq<string>, data: string, failure: Failure) {
    match failure
    case BadJson => parse(data).None?
    case MixedProtocols => parse(data).Some? && OtherProtocol(parse, before, parse(data).value)
    case RepeatedEnd =>
      && parse(data).Some? && !OtherProtocol(parse, before, parse(data).value)
      && Counts(parse, before, parse(data).value) && Ended(parse, before) && parse(data).value.terminal
    case AfterEnd =>
      && parse(data).Some? && !OtherProtocol(parse, before, parse(data).value)
      && Counts(parse, before, parse(data).value) && Ended(parse, before) && !parse(data).value.terminal
    case NoEnd => false
  }

  ghost predicate NothingWrong(parse: Parser, payloads: seq<string>) {
    forall i, failure | 0 <= i < |payloads| :: !IsWrong(parse, payloads[..i], payloads[i], failure)
  }

  ghost function Counted(parse: Parser, payloads: seq<string>): seq<ChatEvent> {
    if payloads == [] then []
    else
      var n := |payloads| - 1;
      var parsed := parse(payloads[n]);
      Counted(parse, payloads[..n])
      + if parsed.Some? && Counts(parse, payloads[..n], parsed.value) then [parsed.value] else []
  }

  // ----- the reader's state after payloads with nothing wrong

  ghost predicate IsHighest(parse: Parser, payloads: seq<string>, last: int) {
    && last >= 0
    && (forall d | d in payloads && HasSequence(parse, d) :: parse(d).value.sequence.value <= last)
    && (last > 0 ==> exists d | d in payloads :: HasSequence(parse, d) && parse(d).value.sequence.value == last)
  }

  ghost predicate Fits(parse: Parser, payloads: seq<string>, p: Progress) {
    && p.failure.None?
    && (if payloads == [] then p.v2.None?
        else parse(payloads[0]).Some? && p.v2 == Some(IsV2(parse(payloads[0]).value)))
    && IsHighest(parse, payloads, p.lastSequence)
    && (p.completeSeen <==> Ended(parse, payloads))
    && p.yielded == Counted(parse, payloads)
  }

  lemma ReplayIff(parse: Parser, before: seq<string>, p: Progress, e: ChatEvent)
    requires IsHighest(parse, before, p.lastSequence)
    ensures IsReplay(p, e) <==> !Counts(parse, before, e)
  {
    if IsV2(e) && e.sequence.Usable? && p.lastSequence > 0 {
      var d :| d in before && HasSequence(parse, d) && parse(d).value.sequence.value == p.lastSequence;
    }
  }

  lemma EndedWithOneMore(parse: Parser, payloads: seq<string>, data: string)
    ensures var e := parse(data);
            Ended(parse, payloads + [data])
            <==> Ended(parse, payloads) || (e.Some? && e.value.terminal && Counts(parse, payloads, e.value))
  {
    hide Counts;
    var all := payloads + [data];
    assert all[..|payloads|] == payloads;
    forall i: nat | i < |payloads| ensures IsEnd(parse, all, i) <==> IsEnd(parse, payloads, i) {
      assert all[..i] == payloads[..i];
    }
    if Ended(parse, payloads) {
      var i: nat :| IsEnd(parse, payloads, i);
      assert IsEnd(parse, all, i);
    }
    if parse(data).Some? && parse(data).value.terminal && Counts(parse, payloads, parse(data).value) {
      assert IsEnd(parse, all, |payloads|);
    }
    if Ended(parse, all) {
      var i: nat :| IsEnd(parse, all, i);
      assert i < |payloads| ==> IsEnd(parse, payloads, i);
    }
  }

  lemma HighestWithOneMore(parse: Parser, before: seq<string>, last: int, data: string)
    requires IsHighest(parse, before, last) && parse(data).Some?
    ensures var e := parse(data).value;
            IsHighest(parse, before + [data],
                      if IsV2(e) && e.sequence.Usable? && e.sequence.value > last then e.sequence.value else last)
  {
    var all := before + [data];
    var e := parse(data).value;
    assert forall d :: d in all <==> d in before || d == data;
    if !(IsV2(e) && e.sequence.Usable? && e.sequence.value > last) && last > 0 {
      var d :| d in before && HasSequence(parse, d) && parse(d).value.sequence.value == last;
      assert d in all;
    }
  }

  lemma CountedWithOneMore(parse: Parser, before: seq<string>, data: string)
    requires parse(data).Some?
    ensures Counted(parse, before + [data])
         == Counted(parse, before) + if Counts(parse, before, parse(data).value) then [parse(data).value] else []
  {
    assert (before + [data])[..|before|] == before;
  }

  // A payload with something wrong raises just that; another is taken.
  lemma PayloadIsJudged(parse: Parser, before: seq<string>, p: Progress, data: string)
    requires Fits(parse, before, p)
    ensures var q := TakePayload(parse, p, data);
            && (forall failure :: IsWrong(parse, before, data, failure) <==> q.failure == Some(failure))
            && (q.failure.Some? ==> q.yielded == p.yielded)
            && (q.failure.None? ==> Fits(parse, before + [data], q))
  {
    if parse(data).Some? {
      var e := parse(data).value;
      ReplayIff(parse, before, p, e);
      EndedWithOneMore(parse, before, data);
      HighestWithOneMore(parse, before, p.lastSequence, data);
      CountedWithOneMore(parse, before, data);
      hide Counts, Ended, IsHighest, Counted;
      EventIsJudged(parse, before, p, data, e);
    }
  }

  lemma EventIsJudged(parse: Parser, before: seq<string>, p: Progress, data: string, e: ChatEvent)
    requires Fits(parse, before, p) && parse(data) == Some(e)
    requires IsReplay(p, e) <==> !Counts(parse, before, e)
    requires Ended(parse, before + [data]) <==> Ended(parse, before) || (e.terminal && Counts(parse, before, e))
    requires IsHighest(parse, before + [data],
                       if IsV2(e) && e.sequence.Usable? && e.sequence.value > p.lastSequence then e.sequence.value
                       else p.lastSequence)
    requires Counted(parse, before + [data])
          == Counted(parse, before) + if Counts(parse, before, e) then [e] else []
    ensures var q := TakeEvent(p, e);
            && (forall failure :: IsWrong(parse, before, data, failure) <==> q.failure == Some(failure))
            && (q.failure.Some? ==> q.yielded == p.yielded)
            && (q.failure.None? ==> Fits(parse, before + [data], q))
  {
    hide Counts, Ended, IsHighest, Counted;
    assert (before + [data])[0] == if before == [] then data else before[0];
    assert Counted(parse, before) + [] == Counted(parse, before);
  }

  lemma NothingWrongBefore(parse: Parser, payloads: seq<string>)
    requires payloads != [] && NothingWrong(parse, payloads)
    ensures var n := |payloads| - 1;
            NothingWrong(parse, payloads[..n])
            && forall failure :: !IsWrong(parse, payloads[..n], payloads[n], failure)
  {
    hide IsWrong;
    var n := |payloads| - 1;
    forall i, failure | 0 <= i < n ensures !IsWrong(parse, payloads[..n][..i], payloads[..n][i], failure) {
      assert payloads[..n][..i] == payloads[..i];
    }
  }

  lemma SomeFailure(f: Option<Failure>)
    ensures f.Some? ==> exists failure :: f == Some(failure)
  {
    if f.Some? {
      var failure := f.value;
      assert f == Some(failure);
    }
  }

  lemma {:induction false} FeedFits(parse: Parser, payloads: seq<string>)
    requires NothingWrong(parse, payloads)
    ensures Fits(parse, payloads, Feed(parse, START, payloads))
  {
    if payloads != [] {
      hide Fits, IsWrong, NothingWrong, TakePayload;
      var n := |payloads| - 1;
      NothingWrongBefore(parse, payloads);
      FeedFits(parse, payloads[..n]);
      var p := Feed(parse, START, payloads[..n]);
      PayloadIsJudged(parse, payloads[..n], p, payloads[n]);
      var q := TakePayload(parse, p, payloads[n]);
      SomeFailure(q.failure);
      assert payloads[..n] + [payloads[n]] == payloads;
    } else {
      assert !Ended(parse, []);
    }
  }

  // ----- main results

  // The first payload with something wrong is what the stream fails with, and
  // the events that count before it are what is handed on.
  lemma FailsAtFirstWrong(parse: Parser, payloads: seq<string>, i: nat, failure: Failure)
    requires i < |payloads| && NothingWrong(parse, payloads[..i])
    requires IsWrong(parse, payloads[..i], payloads[i], failure)
    ensures Finish(Feed(parse, START, payloads)) == Outcome(Counted(parse, payloads[..i]), Some(failure))
  {
    hide IsWrong, NothingWrong, TakePayload, Fits;
    FeedFits(parse, payloads[..i]);
    var p := Feed(parse, START, payloads[..i]);
    FitsHandsOn(parse, payloads[..i], p);
    PayloadIsJudged(parse, payloads[..i], p, payloads[i]);
    var upTo := payloads[..i] + [payloads[i]];
    assert upTo[..i] == payloads[..i] && upTo + payloads[i + 1..] == payloads;
    assert Feed(parse, START, upTo) == TakePayload(parse, p, payloads[i]);
    FeedAppend(parse, START, upTo, payloads[i + 1..]);
    hide Feed;
    FailureIsFinal(parse, TakePayload(parse, p, payloads[i]), payloads[i + 1..]);
  }

  lemma FitsHandsOn(parse: Parser, payloads: seq<string>, p: Progress)
    requires Fits(parse, payloads, p)
    ensures p.yielded == Counted(parse, payloads)
  {
  }

  // With nothing wrong, all events that count are handed on, and the stream
  // ends well exactly if one of them is an end marker.
  lemma EndsWellIff(parse: Parser, payloads: seq<string>)
    requires NothingWrong(parse, payloads)
    ensures Finish(Feed(parse, START, payloads))
         == Outcome(Counted(parse, payloads), if Ended(parse, payloads) then None else Some(NoEnd))
  {
    FeedFits(parse, payloads);
  }

  // Every stream is of one of these two kinds.
  lemma {:induction false} WrongOrNot(parse: Parser, payloads: seq<string>)
    ensures NothingWrong(parse, payloads)
            || exists i: nat, failure :: i < |payloads| && NothingWrong(parse, payloads[..i])
                                         && IsWrong(parse, payloads[..i], payloads[i], failure)
  {
    if payloads != [] {
      var n := |payloads| - 1;
      WrongOrNot(parse, payloads[..n]);
      hide IsWrong;
      if NothingWrong(parse, payloads[..n]) {
        assert forall i | 0 <= i < n :: payloads[..n][..i] == payloads[..i];
      } else {
        var i: nat, failure :| i < n && NothingWrong(parse, payloads[..n][..i])
                               && IsWrong(parse, payloads[..n][..i], payloads[..n][i], failure);
        assert payloads[..n][..i] == payloads[..i];
      }
    }
  }
}
