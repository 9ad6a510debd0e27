// The event stream as the server writes it (src/server/agent/http-v2.ts), read
// by the browser (src/lib/sse.ts).
module EventEncoding {
  import opened Options
  import opened Text
  import opened EventFraming
  import opened EventStream

  function Frame(payload: string): string {
    "data: " + payload + "\n\n"
  }

  function Encoded(payloads: seq<string>): string {
    if payloads == [] then ""
    else Encoded(payloads[..|payloads| - 1]) + Frame(payloads[|payloads| - 1])
  }

  // One line of text that is no end-of-stream mark; a JSON object is.
  predicate IsLine(payload: string) {
    && payload != "" && payload != "[DONE]" && !IsSpace(payload[0])
    && '\n' !in payload && '\r' !in payload
  }

  lemma {:induction false} BreakAtEnd(line: string)
    requires '\n' !in line
    ensures IndexOfBreak(line + "\n\n") == |line|
  {
    var s := line + "\n\n";
    if line == "" {
      assert s == "\n\n";
    } else {
      assert line[0] in line && s[0] == line[0];
      assert s[1..] == line[1..] + "\n\n";
      BreakAtEnd(line[1..]);
    }
  }

  lemma {:induction false} SplitOneLine(line: string)
    requires '\n' !in line
    ensures Split(line, '\n') == [line]
  {
    if line != "" {
      assert line[0] in line;
      SplitOneLine(line[1..]);
      assert [line[0]] + line[1..] == line;
    }
  }

  lemma FrameIsOneBlock(payload: string)
    requires IsLine(payload)
    ensures Blocks(Frame(payload)) == ["data: " + payload] && Rest(Frame(payload)) == ""
  {
    var line := "data: " + payload;
    assert '\n' !in line;
    BreakAtEnd(line);
    FirstBlock(Frame(payload), |line|);
    assert Frame(payload)[..|line|] == line && Frame(payload)[|line| + 2..] == "";
    NoBreakNoBlock("");
  }

  lemma LineIsPayload(payload: string)
    requires IsLine(payload)
    ensures Payload(Split("data: " + payload, '\n')) == payload
  {
    var line := "data: " + payload;
    assert '\n' !in line;
    SplitOneLine(line);
    assert line[5..] == " " + payload && (" " + payload)[1..] == payload;
    assert TrimStart(payload) == payload;
    var lines := [line];
    assert lines[1..] == [] && DataLines(lines) == [payload] + DataLines([]) == [payload];
  }

  lemma {:induction false} EncodedBlocks(payloads: seq<string>)
    requires forall i | 0 <= i < |payloads| :: IsLine(payloads[i])
    ensures Rest(Encoded(payloads)) == "" && Payloads(Encoded(payloads)) == payloads
  {
    if payloads == [] {
      NoBreakNoBlock("");
    } else {
      hide Payload, IsLine;
      var n := |payloads| - 1;
      var before, last := Encoded(payloads[..n]), payloads[n];
      EncodedBlocks(payloads[..n]);
      FrameIsOneBlock(last);
      LineIsPayload(last);
      LineCounts(last);
      AppendToRest(before, Frame(last));
      assert "" + Frame(last) == Frame(last);
      LastPayload(Blocks(before), "data: " + last);
      assert payloads == payloads[..n] + [last];
    }
  }

  lemma LineCounts(payload: string)
    requires IsLine(payload)
    ensures IsPayload(payload)
  {
  }

  // ----- without carriage returns, reads do not matter

  lemma {:induction false} NothingToNormalise(s: string)
    requires '\r' !in s
    ensures Normalise(s) == s
  {
    if s != "" {
      assert s[0] in s;
      NothingToNormalise(s[1..]);
      assert [s[0]] + s[1..] == s;
    }
  }

  lemma {:induction false} NothingToNormaliseEach(pieces: seq<string>)
    requires '\r' !in Concat(pieces)
    ensures NormaliseEach(pieces) == Concat(pieces)
  {
    if pieces != [] {
      assert forall c | c in pieces[0] || c in Concat(pieces[1..]) :: c in Concat(pieces);
      NothingToNormalise(pieces[0]);
      NothingToNormaliseEach(pieces[1..]);
    }
  }

  lemma {:induction false} NoReturnsIn(payloads: seq<string>)
    requires forall i | 0 <= i < |payloads| :: IsLine(payloads[i])
    ensures '\r' !in Encoded(payloads)
  {
    if payloads != [] {
      NoReturnsIn(payloads[..|payloads| - 1]);
    }
  }

  // What the server wrote is what the browser takes, however it arrives.
  lemma EncodedIsRead(parse: Parser, payloads: seq<string>, pieces: seq<string>)
    requires forall i | 0 <= i < |payloads| :: IsLine(payloads[i])
    requires Concat(pieces) == Encoded(payloads)
    ensures Payloads(NormaliseEach(pieces)) == payloads
    ensures OutcomeOf(parse, NormaliseEach(pieces)) == Finish(Feed(parse, START, payloads))
  {
    NoReturnsIn(payloads);
    NothingToNormaliseEach(pieces);
    EncodedBlocks(payloads);
  }
}
