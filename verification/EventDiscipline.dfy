// What the consumer of the event stream can rely on, whatever the server sends.
module EventDiscipline {
  import opened Options
  import opened EventStream

  // ----- order, versions, and the end marker

  ghost predicate OneVersion(events: seq<ChatEvent>, v2: bool) {
    forall i | 0 <= i < |events| :: IsV2(events[i]) == v2
  }

  ghost predicate Increasing(events: seq<ChatEvent>) {
    && (forall i | 0 <= i < |events| && IsV2(events[i]) :: events[i].sequence.Usable? && events[i].sequence.value > 0)
    && (forall i, j | 0 <= i < j < |events| && IsV2(events[i]) && IsV2(events[j]) ::
          events[i].sequence.value < events[j].sequence.value)
  }

  // Only the last event can be an end marker.
  ghost predicate EndsOnce(events: seq<ChatEvent>, ended: bool) {
    && (forall i | 0 <= i < |events| - 1 :: !events[i].terminal)
    && (ended <==> events != [] && events[|events| - 1].terminal)
  }

  ghost predicate Bounded(events: seq<ChatEvent>, last: int) {
    && last >= 0
    && forall i | 0 <= i < |events| && IsV2(events[i]) ::
         events[i].sequence.Usable? && events[i].sequence.value <= last
  }

  ghost predicate Orderly(p: Progress) {
    && Increasing(p.yielded)
    && EndsOnce(p.yielded, p.completeSeen)
    && Bounded(p.yielded, p.lastSequence)
    && (if p.v2.Some? then OneVersion(p.yielded, p.v2.value) else p.yielded == [])
  }

  lemma OneMoreIncreases(events: seq<ChatEvent>, last: int, e: ChatEvent)
    requires Increasing(events) && Bounded(events, last)
    requires IsV2(e) ==> e.sequence.Usable? && e.sequence.value > last
    ensures Increasing(events + [e])
    ensures Bounded(events + [e], if IsV2(e) then e.sequence.value else last)
  {
  }

  lemma OneMoreEnds(events: seq<ChatEvent>, e: ChatEvent)
    requires EndsOnce(events, false)
    ensures EndsOnce(events + [e], e.terminal)
  {
  }

  // An event that is yielded.
  lemma YieldKeepsOrder(p: Progress, e: ChatEvent)
    requires Orderly(p) && !p.completeSeen && (p.v2.None? || p.v2 == Some(IsV2(e))) && !IsReplay(p, e)
    ensures Orderly(p.(v2 := Some(IsV2(e)), lastSequence := if IsV2(e) then e.sequence.value else p.lastSequence,
                       completeSeen := e.terminal, yielded := p.yielded + [e]))
  {
    OneMoreIncreases(p.yielded, p.lastSequence, e);
    OneMoreEnds(p.yielded, e);
  }

  lemma TakeEventKeepsOrder(p: Progress, e: ChatEvent)
    requires Orderly(p)
    ensures Orderly(TakeEvent(p, e))
  {
    if !p.completeSeen && (p.v2.None? || p.v2 == Some(IsV2(e))) && !IsReplay(p, e) {
      YieldKeepsOrder(p, e);
    }
  }

  lemma {:induction false} FeedKeepsOrder(parse: Parser, payloads: seq<string>)
    ensures Orderly(Feed(parse, START, payloads))
  {
    if payloads != [] {
      var p := Feed(parse, START, payloads[..|payloads| - 1]);
      FeedKeepsOrder(parse, payloads[..|payloads| - 1]);
      var parsed := parse(payloads[|payloads| - 1]);
      if parsed.Some? {
        TakeEventKeepsOrder(p, parsed.value);
      }
    }
  }

  // Events come out in strictly increasing sequence, never from two protocol
  // versions, and nothing follows an end marker. The stream ends well only if
  // its last event is one.
  lemma EventsAreInOrder(parse: Parser, text: string)
    ensures var o := OutcomeOf(parse, text);
            && Increasing(o.yielded)
            && (exists v2 :: OneVersion(o.yielded, v2))
            && (exists ended :: EndsOnce(o.yielded, ended))
            && (o.failure.None? ==> EndsOnce(o.yielded, true))
            && (o.failure == Some(NoEnd) ==> EndsOnce(o.yielded, false))
  {
    var p := Feed(parse, START, Payloads(text));
    FeedKeepsOrder(parse, Payloads(text));
    assert EndsOnce(p.yielded, p.completeSeen);
    assert OneVersion(p.yielded, p.v2.Some? && p.v2.value);
    FeedFailure(parse, Payloads(text));
  }

  // A missing end is found only at the end.
  lemma {:induction false} FeedFailure(parse: Parser, payloads: seq<string>)
    ensures Feed(parse, START, payloads).failure != Some(NoEnd)
  {
    if payloads != [] {
      FeedFailure(parse, payloads[..|payloads| - 1]);
    }
  }

  // ----- replays

  // A payload read as a sequenced event.
  ghost predicate IsSequenced(parse: Parser, data: string) {
    parse(data).Some? && IsV2(parse(data).value)
  }

  // A sequenced event that says nothing new after the payloads before it: its
  // sequence is unusable, or not above zero, or not above that of an earlier one.
  ghost predicate Replays(parse: Parser, before: seq<string>, data: string) {
    IsSequenced(parse, data) && exists earlier | earlier in before :: SaysNothingNew(parse, earlier, parse(data).value)
  }

  ghost predicate SaysNothingNew(parse: Parser, earlier: string, e: ChatEvent) {
    && IsSequenced(parse, earlier)
    && (|| !e.sequence.Usable? || e.sequence.value <= 0
        || (parse(earlier).value.sequence.Usable? && e.sequence.value <= parse(earlier).value.sequence.value))
  }

  // In particular a sequenced event that is sent once more.
  lemma RepetitionReplays(parse: Parser, before: seq<string>, data: string)
    requires data in before && IsSequenced(parse, data)
    ensures Replays(parse, before, data)
  {
    assert SaysNothingNew(parse, data, parse(data).value);
  }

  // Having taken a sequenced event, the reader takes no other version and no lower sequence.
  ghost predicate Past(p: Progress, e: ChatEvent) {
    p.failure.Some? || (p.v2 == Some(true) && IsReplay(p, e))
  }

  lemma {:induction false} NeverBelowZero(parse: Parser, payloads: seq<string>)
    ensures Feed(parse, START, payloads).lastSequence >= 0
  {
    if payloads != [] {
      NeverBelowZero(parse, payloads[..|payloads| - 1]);
    }
  }

  lemma {:induction false} TakenIsPast(parse: Parser, payloads: seq<string>, earlier: string, e: ChatEvent)
    requires earlier in payloads && IsV2(e) && SaysNothingNew(parse, earlier, e)
    ensures Past(Feed(parse, START, payloads), e)
  {
    var n := |payloads| - 1;
    var p := Feed(parse, START, payloads[..n]);
    if payloads[n] == earlier {
      NeverBelowZero(parse, payloads[..n]);
    } else {
      assert earlier in payloads[..n];
      TakenIsPast(parse, payloads[..n], earlier, e);
      StaysPast(parse, p, payloads[n], e);
    }
  }

  lemma StaysPast(parse: Parser, p: Progress, data: string, e: ChatEvent)
    requires Past(p, e)
    ensures Past(TakePayload(parse, p, data), e)
  {
  }

  // The longer stream is the shorter one with replays put in, each somewhere
  // after an event that outdates it, also after the end marker.
  ghost predicate WithReplays(parse: Parser, base: seq<string>, longer: seq<string>)
    decreases |longer|
  {
    if longer == [] then base == []
    else
      var init, data := longer[..|longer| - 1], longer[|longer| - 1];
      || (base != [] && base[|base| - 1] == data && WithReplays(parse, base[..|base| - 1], init))
      || (Replays(parse, init, data) && WithReplays(parse, base, init))
  }

  // Replays change neither the events nor the end of the stream.
  lemma {:induction false} ReplaysAreInvisible(parse: Parser, base: seq<string>, longer: seq<string>)
    requires WithReplays(parse, base, longer)
    ensures Feed(parse, START, longer) == Feed(parse, START, base)
    decreases |longer|
  {
    if longer != [] {
      var init, data := longer[..|longer| - 1], longer[|longer| - 1];
      if base != [] && base[|base| - 1] == data && WithReplays(parse, base[..|base| - 1], init) {
        ReplaysAreInvisible(parse, base[..|base| - 1], init);
      } else {
        ReplaysAreInvisible(parse, base, init);
        var earlier :| earlier in init && SaysNothingNew(parse, earlier, parse(data).value);
        TakenIsPast(parse, init, earlier, parse(data).value);
      }
    }
  }

  // Putting one replay in is such an extension, wherever it is put after the event.
  lemma {:induction false} OneReplay(parse: Parser, base: seq<string>, i: nat, data: string)
    requires i <= |base| && Replays(parse, base[..i], data)
    ensures WithReplays(parse, base, base[..i] + [data] + base[i..])
  {
    var longer := base[..i] + [data] + base[i..];
    if i == |base| {
      assert longer == base + [data];
      assert longer[..|longer| - 1] == base;
      NoReplay(parse, base);
    } else {
      var init := base[..|base| - 1];
      assert init[..i] == base[..i];
      OneReplay(parse, init, i, data);
      assert longer[..|longer| - 1] == init[..i] + [data] + init[i..];
    }
  }

  lemma {:induction false} NoReplay(parse: Parser, base: seq<string>)
    ensures WithReplays(parse, base, base)
  {
    if base != [] {
      NoReplay(parse, base[..|base| - 1]);
    }
  }
}
