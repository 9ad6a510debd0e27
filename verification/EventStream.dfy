// The chat event stream as the browser reads it (src/lib/sse.ts): payloads are
// taken from the blocks of the stream as they become complete, and every event
// passes a check of protocol version, sequence and end marker before it is
// handed on. The acceptance script has its own whole-stream reader
// (scripts/smoke-agent-v3-staging.ts); the two are related in StreamAgreement.
module EventStream {
  import opened Options
  import opened Text
  import opened EventFraming

  // A property of the parsed JSON value: missing, there with a value the
  // readers cannot use, or usable.
  datatype Field<T> = Absent | Unusable | Usable(value: T)

  // A parsed event, as far as the readers look at it. A usable sequence is a safe integer.
  datatype ChatEvent = ChatEvent(runId: Field<string>, sequence: Field<int>, terminal: bool, body: string)

  predicate IsV2(e: ChatEvent) {
    !e.runId.Absent? && !e.sequence.Absent?
  }

  // JSON.parse; None where it throws, or where the value is no object.
  type Parser = string -> Option<ChatEvent>

  // ----- payloads

  predicate IsData(line: string) { "data:" <= line }

  function DataLines(lines: seq<string>): seq<string> {
    if lines == [] then []
    else (if IsData(lines[0]) then [TrimStart(lines[0][5..])] else []) + DataLines(lines[1..])
  }

  function Payload(lines: seq<string>): string {
    Join(DataLines(lines), "\n")
  }

  predicate IsPayload(data: string) { data != "" && data != "[DONE]" }

  function PayloadsOf(blocks: seq<seq<string>>): seq<string> {
    if blocks == [] then []
    else
      var data := Payload(blocks[|blocks| - 1]);
      PayloadsOf(blocks[..|blocks| - 1]) + if IsPayload(data) then [data] else []
  }

  function LinesOf(blocks: seq<string>): (lines: seq<seq<string>>)
    ensures |lines| == |blocks|
    ensures forall i | 0 <= i < |blocks| :: lines[i] == Split(blocks[i], '\n')
  {
    seq(|blocks|, i requires 0 <= i < |blocks| => Split(blocks[i], '\n'))
  }

  // The payloads of a text whose line ends have been normalised.
  function Payloads(text: string): seq<string> {
    PayloadsOf(LinesOf(Blocks(text)))
  }

  lemma {:induction false} PayloadsAppend(a: seq<seq<string>>, b: seq<seq<string>>)
    ensures PayloadsOf(a + b) == PayloadsOf(a) + PayloadsOf(b)
  {
    if b == [] {
      assert a + b == a;
    } else {
      assert (a + b)[..|a + b| - 1] == a + b[..|b| - 1];
      PayloadsAppend(a, b[..|b| - 1]);
    }
  }

  lemma LinesAppend(a: seq<string>, b: seq<string>)
    ensures LinesOf(a + b) == LinesOf(a) + LinesOf(b)
  {
  }

  // ----- the protocol

  datatype Failure = BadJson | MixedProtocols | RepeatedEnd | AfterEnd | NoEnd

  // What the generator keeps between events, and what it has done so far.
  datatype Progress = Progress(
    v2: Option<bool>,
    lastSequence: int,
    completeSeen: bool,
    yielded: seq<ChatEvent>,
    failure: Option<Failure>)

  const START := Progress(None, 0, false, [], None)

  predicate IsReplay(p: Progress, e: ChatEvent) {
    IsV2(e) && (!e.sequence.Usable? || e.sequence.value <= p.lastSequence)
  }

  function TakeEvent(p: Progress, e: ChatEvent): Progress {
    var v2 := if p.v2.None? then IsV2(e) else p.v2.value;
    var p := p.(v2 := Some(v2));
    if v2 != IsV2(e) then p.(failure := Some(MixedProtocols))
    else if IsReplay(p, e) then p
    else
      var p := if IsV2(e) then p.(lastSequence := e.sequence.value) else p;
      if e.terminal && p.completeSeen then p.(failure := Some(RepeatedEnd))
      else if p.completeSeen then p.(failure := Some(AfterEnd))
      else p.(completeSeen := e.terminal, yielded := p.yielded + [e])
  }

  function TakePayload(parse: Parser, p: Progress, data: string): Progress {
    if p.failure.Some? then p
    else if parse(data).None? then p.(failure := Some(BadJson))
    else TakeEvent(p, parse(data).value)
  }

  function Feed(parse: Parser, p: Progress, payloads: seq<string>): Progress {
    if payloads == [] then p
    else TakePayload(parse, Feed(parse, p, payloads[..|payloads| - 1]), payloads[|payloads| - 1])
  }

  lemma {:induction false} FeedAppend(parse: Parser, p: Progress, a: seq<string>, b: seq<string>)
    ensures Feed(parse, p, a + b) == Feed(parse, Feed(parse, p, a), b)
  {
    if b == [] {
      assert a + b == a;
    } else {
      assert (a + b)[..|a + b| - 1] == a + b[..|b| - 1];
      FeedAppend(parse, p, a, b[..|b| - 1]);
    }
  }

  // A failure ends the stream.
  lemma {:induction false} FailureIsFinal(parse: Parser, p: Progress, payloads: seq<string>)
    requires p.failure.Some?
    ensures Feed(parse, p, payloads) == p
  {
    if payloads != [] {
      FailureIsFinal(parse, p, payloads[..|payloads| - 1]);
    }
  }

  // What the consumer sees: the events, and whether the stream ended well.
  datatype Outcome = Outcome(yielded: seq<ChatEvent>, failure: Option<Failure>)

  function Finish(p: Progress): Outcome {
    Outcome(p.yielded, if p.failure.Some? then p.failure else if p.completeSeen then None else Some(NoEnd))
  }

  // The outcome for a whole text, blocks first.
  function OutcomeOf(parse: Parser, text: string): Outcome {
    Finish(Feed(parse, START, Payloads(text)))
  }

  // ----- the generator

  lemma {:induction false} EachAppend(pieces: seq<string>, last: string)
    ensures NormaliseEach(pieces + [last]) == NormaliseEach(pieces) + Normalise(last)
  {
    if pieces == [] {
      assert pieces + [last] == [last];
    } else {
      assert (pieces + [last])[1..] == pieces[1..] + [last];
      EachAppend(pieces[1..], last);
    }
  }

  // A complete block at the front of the buffer is the next block of the text.
  lemma NextBlock(text: string, seen: seq<string>, buffer: string)
    requires Blocks(text) == seen + Blocks(buffer) && Rest(text) == Rest(buffer)
    ensures var i := IndexOfBreak(buffer);
            if i < 0 then Blocks(text) == seen && Rest(text) == buffer
            else Blocks(text) == (seen + [buffer[..i]]) + Blocks(buffer[i + 2..]) && Rest(text) == Rest(buffer[i + 2..])
  {
    var i := IndexOfBreak(buffer);
    if i < 0 {
      NoBreakNoBlock(buffer);
    } else {
      FirstBlock(buffer, i);
    }
  }

  lemma LastPayload(seen: seq<string>, block: string)
    ensures var data := Payload(Split(block, '\n'));
            PayloadsOf(LinesOf(seen + [block])) == PayloadsOf(LinesOf(seen)) + if IsPayload(data) then [data] else []
  {
    LinesAppend(seen, [block]);
    assert LinesOf([block]) == [Split(block, '\n')];
    var lines := LinesOf(seen) + [Split(block, '\n')];
    assert lines[..|lines| - 1] == LinesOf(seen);
  }

  lemma NextPayload(parse: Parser, seen: seq<string>, block: string)
    ensures var data := Payload(Split(block, '\n'));
            var before := Feed(parse, START, PayloadsOf(LinesOf(seen)));
            Feed(parse, START, PayloadsOf(LinesOf(seen + [block])))
            == (if IsPayload(data) then TakePayload(parse, before, data) else before)
  {
    var data := Payload(Split(block, '\n'));
    LastPayload(seen, block);
    var before := PayloadsOf(LinesOf(seen));
    if IsPayload(data) {
      assert (before + [data])[..|before|] == before;
    } else {
      assert before + [] == before;
    }
  }

  // Once an event failed, whatever follows in the text does not matter.
  lemma FailedEarly(parse: Parser, seen: seq<string>, later: seq<string>)
    requires Feed(parse, START, PayloadsOf(LinesOf(seen))).failure.Some?
    ensures Feed(parse, START, PayloadsOf(LinesOf(seen + later))) == Feed(parse, START, PayloadsOf(LinesOf(seen)))
  {
    LinesAppend(seen, later);
    PayloadsAppend(LinesOf(seen), LinesOf(later));
    FeedAppend(parse, START, PayloadsOf(LinesOf(seen)), PayloadsOf(LinesOf(later)));
    FailureIsFinal(parse, Feed(parse, START, PayloadsOf(LinesOf(seen))), PayloadsOf(LinesOf(later)));
  }

  // The blocks taken so far, those still in the buffer, and the progress after the former.
  ghost predicate Taken(parse: Parser, text: string, seen: seq<string>, buffer: string, p: Progress) {
    && Blocks(text) == seen + Blocks(buffer) && Rest(text) == Rest(buffer)
    && p == Feed(parse, START, PayloadsOf(LinesOf(seen)))
  }

  lemma OneMoreRead(parse: Parser, pieces: seq<string>, k: nat, seen: seq<string>, buffer: string, p: Progress)
    requires k < |pieces| && Taken(parse, NormaliseEach(pieces[..k]), seen, buffer, p) && IndexOfBreak(buffer) < 0
    ensures Taken(parse, NormaliseEach(pieces[..k + 1]), seen, buffer + Normalise(pieces[k]), p)
  {
    var text := NormaliseEach(pieces[..k]);
    assert pieces[..k + 1] == pieces[..k] + [pieces[k]];
    EachAppend(pieces[..k], pieces[k]);
    NextBlock(text, seen, buffer);
    AppendToRest(text, Normalise(pieces[k]));
  }

  lemma OneMoreBlock(parse: Parser, text: string, seen: seq<string>, buffer: string, i: nat, p: Progress, q: Progress)
    requires Taken(parse, text, seen, buffer, p) && i == IndexOfBreak(buffer)
    requires var data := Payload(Split(buffer[..i], '\n'));
             q == (if IsPayload(data) then TakePayload(parse, p, data) else p)
    ensures Taken(parse, text, seen + [buffer[..i]], buffer[i + 2..], q)
  {
    NextBlock(text, seen, buffer);
    NextPayload(parse, seen, buffer[..i]);
  }

  lemma AllTaken(parse: Parser, text: string, seen: seq<string>, buffer: string, p: Progress)
    requires Taken(parse, text, seen, buffer, p) && IndexOfBreak(buffer) < 0
    ensures OutcomeOf(parse, text) == Finish(p)
  {
    NextBlock(text, seen, buffer);
  }

  lemma FailedAt(parse: Parser, pieces: seq<string>, k: nat, seen: seq<string>, buffer: string, p: Progress)
    requires k <= |pieces| && Taken(parse, NormaliseEach(pieces[..k]), seen, buffer, p) && p.failure.Some?
    ensures OutcomeOf(parse, NormaliseEach(pieces)) == Finish(p)
  {
    FailedEarly(parse, seen, Blocks(buffer));
    FailedLater(parse, NormaliseEach(pieces[..k]), pieces, k);
  }

  // The text arrives in reads; the last one is what the decoder still had at the end.
  method ParseChatEventStream(parse: Parser, pieces: seq<string>)
      returns (yielded: seq<ChatEvent>, failure: Option<Failure>)
    ensures Outcome(yielded, failure) == OutcomeOf(parse, NormaliseEach(pieces))
  {
    var buffer := "";
    var progress := START;
    ghost var seen: seq<string> := [];
    for k := 0 to |pieces|
      invariant Taken(parse, NormaliseEach(pieces[..k]), seen, buffer, progress)
      invariant IndexOfBreak(buffer) < 0 && progress.failure.None?
    {
      ghost var text := NormaliseEach(pieces[..k + 1]);
      OneMoreRead(parse, pieces, k, seen, buffer, progress);
      buffer := buffer + Normalise(pieces[k]);
      var boundary := IndexOfBreak(buffer);
      while boundary >= 0
        invariant boundary == IndexOfBreak(buffer)
        invariant Taken(parse, text, seen, buffer, progress) && progress.failure.None?
        decreases |buffer|
      {
        var block := buffer[..boundary];
        ghost var before, all := progress, buffer;
        buffer := buffer[boundary + 2..];
        progress := TakeBlock(parse, block, progress);
        OneMoreBlock(parse, text, seen, all, boundary, before, progress);
        seen := seen + [block];
        if progress.failure.Some? {
          FailedAt(parse, pieces, k + 1, seen, buffer, progress);
          return progress.yielded, progress.failure;
        }
        boundary := IndexOfBreak(buffer);
      }
    }
    assert pieces[..|pieces|] == pieces;
    AllTaken(parse, NormaliseEach(pieces), seen, buffer, progress);
    yielded := progress.yielded;
    failure := if progress.completeSeen then None else Some(NoEnd);
  }

  lemma FailedLater(parse: Parser, text: string, pieces: seq<string>, k: nat)
    requires k <= |pieces| && text == NormaliseEach(pieces[..k])
    requires Feed(parse, START, Payloads(text)).failure.Some?
    ensures OutcomeOf(parse, NormaliseEach(pieces)) == Finish(Feed(parse, START, Payloads(text)))
  {
    assert pieces == pieces[..k] + pieces[k..];
    EachConcat(pieces[..k], pieces[k..]);
    AppendToRest(text, NormaliseEach(pieces[k..]));
    FailedEarly(parse, Blocks(text), Blocks(Rest(text) + NormaliseEach(pieces[k..])));
  }

  lemma {:induction false} EachConcat(a: seq<string>, b: seq<string>)
    ensures NormaliseEach(a + b) == NormaliseEach(a) + NormaliseEach(b)
  {
    if a == [] {
      assert a + b == b;
    } else {
      assert (a + b)[1..] == a[1..] + b;
      EachConcat(a[1..], b);
    }
  }

  // The body of the inner loop: one block taken from the buffer.
  method TakeBlock(parse: Parser, block: string, p: Progress) returns (q: Progress)
    requires p.failure.None?
    ensures var data := Payload(Split(block, '\n'));
            q == (if IsPayload(data) then TakePayload(parse, p, data) else p)
  {
    q := p;
    var data := Payload(Split(block, '\n'));
    if !IsPayload(data) {
      return;
    }
    var parsed := parse(data);
    if parsed.None? {
      return p.(failure := Some(BadJson));
    }
    var event := parsed.value;
    if q.v2.None? {
      q := q.(v2 := Some(IsV2(event)));
    }
    if q.v2.value != IsV2(event) {
      return q.(failure := Some(MixedProtocols));
    }
    if IsV2(event) {
      if !event.sequence.Usable? || event.sequence.value <= q.lastSequence {
        return;
      }
      q := q.(lastSequence := event.sequence.value);
    }
    if event.terminal {
      if q.completeSeen {
        return q.(failure := Some(RepeatedEnd));
      }
      q := q.(completeSeen := true);
    } else if q.completeSeen {
      return q.(failure := Some(AfterEnd));
    }
    q := q.(yielded := q.yielded + [event]);
  }
}
