// How a stream was cut into reads on its way to the browser (src/lib/sse.ts)
// does not matter, as long as no line break is cut in two.
module EventReads {
  import opened Options
  import opened Text
  import opened EventFraming
  import opened EventStream

  // Two ways of reading the same text give the same events and the same end,
  // as long as neither puts a carriage return and its line feed in two reads.
  lemma FragmentationIndependence(parse: Parser, a: seq<string>, b: seq<string>)
    requires Concat(a) == Concat(b)
    requires !SeparatesCrLf(a) && !SeparatesCrLf(b)
    ensures OutcomeOf(parse, NormaliseEach(a)) == OutcomeOf(parse, NormaliseEach(b))
  {
    PiecesMatchWholeIff(a);
    PiecesMatchWholeIff(b);
  }

  // Two texts are the same to every parser exactly when their payloads are the same.
  lemma SameForEveryParserIff(s: string, t: string)
    ensures (forall parse: Parser :: OutcomeOf(parse, s) == OutcomeOf(parse, t)) <==> Payloads(s) == Payloads(t)
  {
    var parse: Parser := Verbatim;
    VerbatimYieldsAll(Payloads(s));
    VerbatimYieldsAll(Payloads(t));
    if OutcomeOf(parse, s) == OutcomeOf(parse, t) {
      var ys, yt := OutcomeOf(parse, s).yielded, OutcomeOf(parse, t).yielded;
      forall i | 0 <= i < |ys| ensures Payloads(s)[i] == Payloads(t)[i] {
        assert ys[i].body == Payloads(s)[i] && yt[i].body == Payloads(t)[i];
      }
    }
  }

  function Verbatim(data: string): Option<ChatEvent> {
    Some(ChatEvent(Absent, Absent, false, data))
  }

  lemma {:induction false} VerbatimYieldsAll(payloads: seq<string>)
    ensures var p := Feed(Verbatim, START, payloads);
            && p.failure.None? && !p.completeSeen && (p.v2 == None || p.v2 == Some(false))
            && |p.yielded| == |payloads|
            && forall i | 0 <= i < |payloads| :: p.yielded[i].body == payloads[i]
  {
    if payloads != [] {
      VerbatimYieldsAll(payloads[..|payloads| - 1]);
    }
  }

  lemma SameText(line: string)
    ensures Concat([line + "\r\n\r\n"]) == Concat([line + "\r\n\r", "\n"])
  {
    var first, last := line + "\r\n\r", "\n";
    assert [line + "\r\n\r\n"][1..] == [] && [first, last][1..] == [last] && [last][1..] == [];
    assert first + (last + "") == line + "\r\n\r\n" + "";
  }

  // Reads that put them in two lose events: an end marker that is handed on when
  // it arrives whole is never seen when the break after it arrives in two.
  lemma SeparatedCrLfLosesTheEnd(parse: Parser, line: string, e: ChatEvent)
    requires '\r' !in line && '\n' !in line && IsData(line) && IsPayload(TrimStart(line[5..]))
    requires parse(TrimStart(line[5..])) == Some(e) && e.terminal && !IsReplay(START, e)
    ensures var whole, parts := [line + "\r\n\r\n"], [line + "\r\n\r", "\n"];
            && Concat(whole) == Concat(parts)
            && OutcomeOf(parse, NormaliseEach(whole)) == Outcome([e], None)
            && OutcomeOf(parse, NormaliseEach(parts)) == Outcome([], Some(NoEnd))
  {
    var data := TrimStart(line[5..]);
    var whole, parts := [line + "\r\n\r\n"], [line + "\r\n\r", "\n"];
    SameText(line);
    ReadWhole(line);
    ReadCut(line);
    NoBreakInside(line);
    OnePayload(line);
    assert [data][..0] == [];
    assert Feed(parse, START, [data]) == TakePayload(parse, START, data);
  }

  lemma {:induction false} NoCrUnchanged(s: string)
    requires '\r' !in s
    ensures Normalise(s) == s
  {
    if s != "" {
      assert s[0] in s && forall c | c in s[1..] :: c in s;
      NoCrUnchanged(s[1..]);
      NormaliseStep(s);
      assert s == [s[0]] + s[1..];
    }
  }

  lemma {:induction false} OneLine(s: string)
    requires '\n' !in s
    ensures Split(s, '\n') == [s] && IndexOfBreak(s) == -1 && IndexOfBreak(s + "\n\n") == |s|
  {
    if s != "" {
      assert s[0] in s && forall c | c in s[1..] :: c in s;
      OneLine(s[1..]);
      assert (s + "\n\n")[0] == s[0] && (s + "\n\n")[1..] == s[1..] + "\n\n";
      assert s == [s[0]] + s[1..];
    } else {
      assert s + "\n\n" == "\n\n";
    }
  }

  lemma OnePayload(line: string)
    requires '\n' !in line && IsData(line) && IsPayload(TrimStart(line[5..]))
    ensures Payloads(line + "\n\n") == [TrimStart(line[5..])]
  {
    OneLine(line);
    var text := line + "\n\n";
    FirstBlock(text, |line|);
    assert text[..|line|] == line && text[|line| + 2..] == "";
    assert Blocks("") == [] && Blocks(text) == [line];
    LastPayload([], line);
    assert [] + [line] == [line] && LinesOf([]) == [] && PayloadsOf([]) == [];
    assert [line][1..] == [] && DataLines([]) == [];
    assert DataLines([line]) == [TrimStart(line[5..])];
  }

  lemma NormaliseCrLf(s: string)
    ensures Normalise("\r\n" + s) == "\n" + Normalise(s)
  {
    NormaliseStep("\r\n" + s);
    assert ("\r\n" + s)[2..] == s;
  }

  // Two line breaks that arrive whole, and two of which the last is cut.
  lemma TwoBreaks()
    ensures Normalise("\r\n\r\n") == "\n\n" && Normalise("\r\n\r") == "\n\r"
  {
    NormaliseCrLf("\r\n");
    NormaliseCrLf("\r");
    NormaliseCrLf("");
    AppendAfterOne('\r', "");
    assert "\r\n" + "" == "\r\n" && ['\r'] + "" == "\r" && "\r\n" + "\r\n" == "\r\n\r\n" && "\r\n" + "\r" == "\r\n\r";
  }

  lemma ReadWhole(line: string)
    requires '\r' !in line
    ensures NormaliseEach([line + "\r\n\r\n"]) == line + "\n\n"
  {
    var breaks := "\r\n\r\n";
    TwoBreaks();
    NoCrUnchanged(line);
    NormaliseAppend(line, breaks);
    assert [line + breaks][1..] == [] && line + "\n\n" + "" == line + "\n\n";
  }

  lemma ReadCut(line: string)
    requires '\r' !in line
    ensures NormaliseEach([line + "\r\n\r", "\n"]) == line + "\n\r\n"
  {
    var breaks, last := "\r\n\r", "\n";
    TwoBreaks();
    NoCrUnchanged(line);
    NoCrUnchanged(last);
    NormaliseAppend(line, breaks);
    assert [line + breaks, last][1..] == [last] && [last][1..] == [] && last + "" == last;
    assert NormaliseEach([last]) == last;
    assert line + "\n\r" + last == line + "\n\r\n";
  }

  lemma NoBreakAtStart(s: string)
    requires s != "" && !("\n\n" <= s) && IndexOfBreak(s[1..]) == -1
    ensures IndexOfBreak(s) == -1
  {
  }

  lemma {:induction false} NoBreakInside(line: string)
    requires '\n' !in line
    ensures IndexOfBreak(line + "\n\r\n") == -1 && Payloads(line + "\n\r\n") == []
  {
    var s := line + "\n\r\n";
    if line == "" {
      var lf: string := ['\n'];
      var crLf: string := ['\r', '\n'];
      assert lf[1..] == "" && IndexOfBreak("") == -1 && |lf| == 1;
      NoBreakAtStart(lf);
      assert crLf[1..] == lf && crLf[0] == '\r';
      NoBreakAtStart(crLf);
      assert s[1..] == crLf && s[1] == '\r';
    } else {
      assert line[0] in line && forall c | c in line[1..] :: c in line;
      NoBreakInside(line[1..]);
      assert s[0] == line[0] && s[1..] == line[1..] + "\n\r\n";
    }
    NoBreakAtStart(s);
    NoBreakNoBlock(s);
  }
}
