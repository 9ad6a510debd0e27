// The acceptance script reads a whole stream at once (parseEvents and
// assertSequencedEvents, scripts/smoke-agent-v3-staging.ts); the browser reads it
// in pieces (src/lib/sse.ts). Both see the same payloads, and a stream the script
// accepts is handed on whole by the browser.
module StreamAgreement {
  import opened Options
  import opened Text
  import opened EventFraming
  import opened EventStream
  import opened EventDiscipline

  // ----- the script's blocks

  // The length of a line break at the start of the text, or 0.
  function Eol(s: string): (n: nat)
    ensures n <= |s|
  {
    if "\r\n" <= s then 2 else if "\n" <= s then 1 else 0
  }

  // The length of a match of two line breaks at the start of the text, or 0.
  function Break(s: string): (n: nat)
    ensures n <= |s|
  {
    if Eol(s) == 0 || Eol(s[Eol(s)..]) == 0 then 0 else Eol(s) + Eol(s[Eol(s)..])
  }

  // stream.split(/\r?\n\r?\n/u)
  function RawBlocks(s: string): (parts: seq<string>)
    ensures |parts| > 0
    decreases |s|
  {
    if s == "" then [""]
    else if Break(s) > 0 then [""] + RawBlocks(s[Break(s)..])
    else
      var rest := RawBlocks(s[1..]);
      [[s[0]] + rest[0]] + rest[1..]
  }

  lemma EolNormalised(s: string)
    ensures Eol(s) > 0 <==> "\n" <= Normalise(s)
    ensures Eol(s) > 0 ==> Normalise(s) == "\n" + Normalise(s[Eol(s)..])
  {
    if s != "" {
      NormaliseStep(s);
    }
  }

  lemma BreakNormalised(s: string)
    ensures Break(s) > 0 <==> "\n\n" <= Normalise(s)
    ensures Break(s) > 0 ==> Normalise(s) == "\n\n" + Normalise(s[Break(s)..])
  {
    EolNormalised(s);
    var t := s[Eol(s)..];
    EolNormalised(t);
    assert t[Eol(t)..] == s[Eol(s) + Eol(t)..];
    if Eol(s) > 0 {
      assert Normalise(s)[1..] == Normalise(t);
      if "\n\n" <= Normalise(s) {
        assert Normalise(t)[0] == Normalise(s)[1];
      }
      if Eol(t) > 0 {
        assert "\n" + ("\n" + Normalise(t[Eol(t)..])) == "\n\n" + Normalise(t[Eol(t)..]);
      }
    }
  }

  ghost predicate SameParts(raw: seq<string>, parts: seq<string>) {
    |raw| == |parts| && forall i | 0 <= i < |raw| :: Normalise(raw[i]) == parts[i]
  }

  // The first part of the split is a prefix of the text.
  lemma {:induction false} FirstPartIsPrefix(s: string)
    ensures RawBlocks(s)[0] <= s
    decreases |s|
  {
    if s != "" && Break(s) == 0 {
      FirstPartIsPrefix(s[1..]);
    }
  }

  lemma PrependOne(c: char, first: string)
    requires c == '\r' ==> !StartsWithLf(first)
    ensures Normalise([c] + first) == [c] + Normalise(first)
  {
    AppendAfterOne(c, first);
  }

  lemma PrependCrLf(first: string)
    ensures Normalise(['\r'] + (['\n'] + first)) == ['\n'] + Normalise(first)
  {
    var s := ['\r'] + (['\n'] + first);
    assert s[2..] == first && "\r\n" <= s;
    NormaliseStep(s);
  }

  // The first part grows on both sides, and the others stay.
  lemma SamePartsGrow(raw: seq<string>, parts: seq<string>, first: string, part: string)
    requires raw != [] && SameParts(raw, parts) && Normalise(first) == part
    ensures SameParts([first] + raw[1..], [part] + parts[1..])
  {
  }

  lemma PartsAgreeAtOther(s: string)
    requires s != "" && !("\r\n" <= s) && Break(s) == 0
    requires SameParts(RawBlocks(s[1..]), SplitBreaks(Normalise(s[1..])))
    ensures SameParts(RawBlocks(s), SplitBreaks(Normalise(s)))
  {
    var raw, parts := RawBlocks(s[1..]), SplitBreaks(Normalise(s[1..]));
    BreakNormalised(s);
    NormaliseStep(s);
    assert Normalise(s)[1..] == Normalise(s[1..]) && Normalise(s)[0] == s[0];
    FirstPartIsPrefix(s[1..]);
    PrependOne(s[0], raw[0]);
    SamePartsGrow(raw, parts, [s[0]] + raw[0], [s[0]] + parts[0]);
  }

  // Between a carriage return and its line feed the script's split does not cut.
  lemma RawBlocksAtCrLf(s: string)
    requires "\r\n" <= s && Break(s) == 0
    ensures var rest := RawBlocks(s[2..]); RawBlocks(s) == [['\r'] + (['\n'] + rest[0])] + rest[1..]
  {
    var rest := RawBlocks(s[2..]);
    assert s[1..][1..] == s[2..];
    assert Eol(s) == 2 && Eol(s[2..]) == 0;
    assert Eol(s[1..]) == 1 && Break(s[1..]) == 0;
    assert RawBlocks(s[1..]) == [['\n'] + rest[0]] + rest[1..];
  }

  lemma PartsAgreeAtCrLf(s: string)
    requires "\r\n" <= s && Break(s) == 0
    requires SameParts(RawBlocks(s[2..]), SplitBreaks(Normalise(s[2..])))
    ensures SameParts(RawBlocks(s), SplitBreaks(Normalise(s)))
  {
    var raw, parts := RawBlocks(s[2..]), SplitBreaks(Normalise(s[2..]));
    RawBlocksAtCrLf(s);
    BreakNormalised(s);
    NormaliseStep(s);
    assert Normalise(s)[1..] == Normalise(s[2..]) && Normalise(s)[0] == '\n';
    PrependCrLf(raw[0]);
    SamePartsGrow(raw, parts, ['\r'] + (['\n'] + raw[0]), ['\n'] + parts[0]);
  }

  lemma {:induction false} PartsAgree(s: string)
    ensures SameParts(RawBlocks(s), SplitBreaks(Normalise(s)))
    decreases |s|
  {
    if s != "" {
      BreakNormalised(s);
      if Break(s) > 0 {
        PartsAgree(s[Break(s)..]);
        assert Normalise(s)[2..] == Normalise(s[Break(s)..]);
      } else if "\r\n" <= s {
        PartsAgree(s[2..]);
        PartsAgreeAtCrLf(s);
      } else {
        PartsAgree(s[1..]);
        PartsAgreeAtOther(s);
      }
    }
  }

  // block.split(/\r?\n/u) on the raw block, block.split("\n") on the normalised one.
  lemma {:induction false} LinesAgree(s: string)
    ensures SplitLines(s) == Split(Normalise(s), '\n')
    decreases |s|
  {
    if s != "" {
      NormaliseStep(s);
      if "\r\n" <= s {
        LinesAgree(s[2..]);
        assert Normalise(s)[1..] == Normalise(s[2..]);
      } else {
        LinesAgree(s[1..]);
        assert Normalise(s)[1..] == Normalise(s[1..]);
      }
    }
  }

  // ----- payloads

  function RawLines(blocks: seq<string>): (lines: seq<seq<string>>)
    ensures |lines| == |blocks|
    ensures forall i | 0 <= i < |blocks| :: lines[i] == SplitLines(blocks[i])
  {
    seq(|blocks|, i requires 0 <= i < |blocks| => SplitLines(blocks[i]))
  }

  function RawPayloads(stream: string): seq<string> {
    PayloadsOf(RawLines(RawBlocks(stream)))
  }

  // What the last block holds when no empty line follows it.
  function Unfinished(text: string): string {
    Payload(Split(Rest(text), '\n'))
  }

  lemma LinesOfAllAgree(stream: string)
    ensures RawLines(RawBlocks(stream)) == LinesOf(SplitBreaks(Normalise(stream)))
  {
    var raw, parts := RawBlocks(stream), SplitBreaks(Normalise(stream));
    PartsAgree(stream);
    forall i | 0 <= i < |raw| ensures RawLines(raw)[i] == LinesOf(parts)[i] {
      LinesAgree(raw[i]);
    }
  }

  lemma BlocksAndRest(text: string)
    ensures SplitBreaks(text) == Blocks(text) + [Rest(text)]
  {
  }

  // The script sees what the browser sees, and the unfinished block besides.
  lemma PayloadsAgree(stream: string)
    ensures var text := Normalise(stream);
            RawPayloads(stream) == Payloads(text) + if IsPayload(Unfinished(text)) then [Unfinished(text)] else []
  {
    LinesOfAllAgree(stream);
    BlocksAndRest(Normalise(stream));
    LastPayload(Blocks(Normalise(stream)), Rest(Normalise(stream)));
  }

  // ----- the script's checks

  // Every payload parsed, or nothing if one of them does not parse.
  function Records(record: Parser, payloads: seq<string>): Option<seq<ChatEvent>> {
    if payloads == [] then Some([])
    else
      var before := Records(record, payloads[..|payloads| - 1]);
      var last := record(payloads[|payloads| - 1]);
      if before.None? || last.None? then None else Some(before.value + [last.value])
  }

  lemma {:induction false} UnreadableStaysUnreadable(record: Parser, a: seq<string>, b: seq<string>)
    requires Records(record, a).None?
    ensures Records(record, a + b).None?
  {
    if b == [] {
      assert a + b == a;
    } else {
      assert (a + b)[..|a + b| - 1] == a + b[..|b| - 1];
      UnreadableStaysUnreadable(record, a, b[..|b| - 1]);
    }
  }

  lemma NextRawPayload(blocks: seq<string>, k: nat)
    requires k < |blocks|
    ensures var data := Payload(SplitLines(blocks[k]));
            PayloadsOf(RawLines(blocks[..k + 1]))
            == PayloadsOf(RawLines(blocks[..k])) + if IsPayload(data) then [data] else []
  {
    var lines := RawLines(blocks[..k + 1]);
    assert lines[..k] == RawLines(blocks[..k]);
  }

  lemma OneUnreadable(record: Parser, blocks: seq<string>, k: nat)
    requires k <= |blocks| && Records(record, PayloadsOf(RawLines(blocks[..k]))).None?
    ensures Records(record, PayloadsOf(RawLines(blocks))).None?
  {
    assert blocks == blocks[..k] + blocks[k..];
    RawLinesAppend(blocks[..k], blocks[k..]);
    PayloadsAppend(RawLines(blocks[..k]), RawLines(blocks[k..]));
    UnreadableStaysUnreadable(record, PayloadsOf(RawLines(blocks[..k])), PayloadsOf(RawLines(blocks[k..])));
  }

  lemma OneMoreRecord(record: Parser, before: seq<string>, data: string)
    ensures Records(record, before + [data])
         == if Records(record, before).None? || record(data).None? then None
            else Some(Records(record, before).value + [record(data).value])
  {
    assert (before + [data])[..|before|] == before;
  }

  method ParseEvents(record: Parser, stream: string) returns (events: Option<seq<ChatEvent>>)
    ensures events == Records(record, RawPayloads(stream))
  {
    var blocks := RawBlocks(stream);
    var pushed: seq<ChatEvent> := [];
    for k := 0 to |blocks|
      invariant Records(record, PayloadsOf(RawLines(blocks[..k]))) == Some(pushed)
    {
      var payload := Payload(SplitLines(blocks[k]));
      NextRawPayload(blocks, k);
      ghost var before := PayloadsOf(RawLines(blocks[..k]));
      if !IsPayload(payload) {
        assert before + [] == before;
        continue;
      }
      OneMoreRecord(record, before, payload);
      var parsed := record(payload);
      if parsed.None? {
        OneUnreadable(record, blocks, k + 1);
        return None;
      }
      pushed := pushed + [parsed.value];
    }
    assert blocks[..|blocks|] == blocks;
    events := Some(pushed);
  }

  lemma RawLinesAppend(a: seq<string>, b: seq<string>)
    ensures RawLines(a + b) == RawLines(a) + RawLines(b)
  {
  }

  predicate OfRun(e: ChatEvent, runId: string) {
    e.runId == Usable(runId) && e.sequence.Usable?
  }

  // One run, and sequences that strictly increase from above zero.
  ghost predicate Sequenced(events: seq<ChatEvent>, runId: string) {
    && (forall i | 0 <= i < |events| :: OfRun(events[i], runId) && events[i].sequence.value > 0)
    && (forall i, j | 0 <= i < j < |events| :: events[i].sequence.value < events[j].sequence.value)
  }

  method AssertSequencedEvents(events: seq<ChatEvent>, runId: string) returns (ok: bool)
    ensures ok <==> Sequenced(events, runId)
  {
    var previous := 0;
    for k := 0 to |events|
      invariant Sequenced(events[..k], runId)
      invariant previous == if k == 0 then 0 else events[k - 1].sequence.value
    {
      if !OfRun(events[k], runId) || events[k].sequence.value <= previous {
        return false;
      }
      previous := events[k].sequence.value;
    }
    assert events[..|events|] == events;
    return true;
  }

  // ----- what the script accepts, the browser hands on

  lemma SequencedPrefix(events: seq<ChatEvent>, e: ChatEvent, runId: string)
    requires Sequenced(events + [e], runId)
    ensures Sequenced(events, runId) && OfRun(e, runId) && e.sequence.value > 0
    ensures forall i | 0 <= i < |events| :: events[i].sequence.value < e.sequence.value
  {
    var all := events + [e];
    assert all[|events|] == e;
    forall i | 0 <= i < |events| ensures all[i] == events[i] { }
  }

  ghost predicate ReadsAs(parse: Parser, record: Parser) {
    forall data | record(data).Some? :: parse(data) == record(data)
  }

  // After sequenced events without an end marker, the reader has handed all of them on.
  ghost predicate HandedOn(p: Progress, events: seq<ChatEvent>) {
    && p.yielded == events && p.failure.None?
    && p.v2 == (if events == [] then None else Some(true))
    && (events != [] ==> events[|events| - 1].sequence.Usable?)
    && p.lastSequence == (if events == [] then 0 else events[|events| - 1].sequence.value)
    && (p.completeSeen <==> events != [] && events[|events| - 1].terminal)
  }

  lemma TakesNext(p: Progress, events: seq<ChatEvent>, e: ChatEvent, runId: string)
    requires HandedOn(p, events) && Sequenced(events + [e], runId)
    requires events != [] ==> !events[|events| - 1].terminal
    ensures HandedOn(TakeEvent(p, e), events + [e])
  {
    SequencedPrefix(events, e, runId);
  }

  lemma {:induction false} SequencedIsHandedOn(parse: Parser, record: Parser, payloads: seq<string>,
                                               events: seq<ChatEvent>, runId: string)
    requires ReadsAs(parse, record)
    requires Records(record, payloads) == Some(events)
    requires Sequenced(events, runId)
    requires forall i | 0 <= i < |events| - 1 :: !events[i].terminal
    ensures |events| == |payloads| && HandedOn(Feed(parse, START, payloads), events)
  {
    if payloads != [] {
      var n := |payloads| - 1;
      var before := Records(record, payloads[..n]).value;
      var e := record(payloads[n]).value;
      assert events == before + [e];
      SequencedPrefix(before, e, runId);
      forall i | 0 <= i < |before| ensures before[i] == events[i] { }
      SequencedIsHandedOn(parse, record, payloads[..n], before, runId);
      TakesNext(Feed(parse, START, payloads[..n]), before, e, runId);
      assert parse(payloads[n]) == record(payloads[n]);
    }
  }

  // However a stream the script accepts is cut into reads, as long as no line
  // break is cut in two and the last block is finished, the browser hands on
  // exactly the script's events and ends well.
  lemma AcceptedStreamIsHandedOn(parse: Parser, record: Parser, stream: string, pieces: seq<string>,
                                 events: seq<ChatEvent>, runId: string)
    requires ReadsAs(parse, record)
    requires Records(record, RawPayloads(stream)) == Some(events)
    requires Sequenced(events, runId) && EndsOnce(events, true)
    requires !IsPayload(Unfinished(Normalise(stream)))
    requires Concat(pieces) == stream && !SeparatesCrLf(pieces)
    ensures OutcomeOf(parse, NormaliseEach(pieces)) == Outcome(events, None)
  {
    PiecesMatchWholeIff(pieces);
    PayloadsAgree(stream);
    assert Payloads(Normalise(stream)) + [] == Payloads(Normalise(stream));
    SequencedIsHandedOn(parse, record, Payloads(Normalise(stream)), events, runId);
  }
}
