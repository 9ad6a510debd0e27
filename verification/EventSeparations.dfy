// Any number of reads that put a carriage return and its line feed apart: when
// the browser (src/lib/sse.ts) sees the events it would have seen in one read.
module EventSeparations {
  import opened Text
  import opened EventFraming
  import opened EventStream
  import opened EventReads
  import opened EventSeparation

  // ----- a harmful separation adds to what is read, unless it loses an end

  function Weight(payloads: seq<string>): nat {
    if payloads == [] then 0 else |payloads[0]| + Weight(payloads[1..])
  }

  lemma {:induction false} WeightAppend(a: seq<string>, b: seq<string>)
    ensures Weight(a + b) == Weight(a) + Weight(b)
  {
    if a == [] {
      assert a + b == b;
    } else {
      assert (a + b)[1..] == a[1..] + b && (a + b)[0] == a[0];
      WeightAppend(a[1..], b);
    }
  }

  lemma WeightOfKept(lines: seq<string>)
    ensures Weight(Kept(lines)) <= |Payload(lines)|
    ensures IsPayload(Payload(lines)) ==> Weight(Kept(lines)) == |Payload(lines)|
  {
    assert [Payload(lines)][1..] == [] && Weight([]) == 0;
  }

  lemma {:induction false} CrInside(a: seq<string>, d: string, b: seq<string>)
    ensures '\r' in Join(a + [d + "\r"] + b, "\n")
  {
    var s := a + [d + "\r"] + b;
    if a == [] {
      assert s[0] == d + "\r" && s[1..] == b && (d + "\r")[|d|] == '\r';
    } else {
      assert s[0] == a[0] && s[1..] == a[1..] + [d + "\r"] + b;
      CrInside(a[1..], d, b);
    }
  }

  lemma HeavierInBlock(a: seq<string>, line: string, b: seq<string>)
    requires HasData(line)
    ensures Weight(Kept(a + [line + "\r"] + b)) > Weight(Kept(a + [line] + b))
  {
    var d, da, db := TrimStart(line[5..]), DataLines(a), DataLines(b);
    DataAround(a, line, b);
    DataAround(a, line + "\r", b);
    DataWithCr(line);
    OneLongerInside(da, d, db);
    LengthOfJoin(da + [d] + db);
    LengthOfJoin(da + [d + "\r"] + db);
    CrInside(da, d, db);
    assert '\r' !in "[DONE]";
    WeightOfKept(a + [line] + b);
    WeightOfKept(a + [line + "\r"] + b);
  }

  lemma HeavierTogether(a: seq<string>, b: seq<string>)
    requires DataLines(a) != [] && DataLines(b) != []
    ensures Weight(Kept(a + ["\r"] + b)) > Weight(Kept(a) + Kept(b))
  {
    DataRunTogether(a, b);
    JoinConcat(DataLines(a), DataLines(b), "\n");
    BreakInPayload(Payload(a), Payload(b));
    WeightOfKept(a + ["\r"] + b);
    WeightOfKept(a);
    WeightOfKept(b);
    WeightAppend(Kept(a), Kept(b));
  }

  lemma HeavierInside(r: string, w: string, i: nat)
    requires IndexOfBreak(r) < 0 && !EndsInLf(r) && StartsWithLf(w) && IndexOfBreak(w) == i && HasData(LastLine(r))
    ensures Weight(Payloads(r + "\r" + w)) > Weight(Payloads(r + w))
  {
    var c, z := w[..i], Payloads(w[i + 2..]);
    AroundBlock(r, w, i);
    LinesOfBlock(r, c);
    HeavierInBlock(LinesBefore(r), LastLine(r), LinesAfter(c));
    WeightAppend(Kept(Split(r + c, '\n')), z);
    WeightAppend(Kept(Split(r + "\r" + c, '\n')), z);
  }

  lemma HeavierBetween(q: string, v: string, i: nat)
    requires IndexOfBreak(q + "\n") < 0 && !StartsWithLf(v) && IndexOfBreak(v) == i
    requires DataLines(Split(q, '\n')) != [] && DataLines(Split(v[..i], '\n')) != []
    ensures Weight(Payloads(q + "\n" + "\r" + ("\n" + v))) > Weight(Payloads(q + "\n" + ("\n" + v)))
  {
    var lines, next, z := Split(q, '\n'), Split(v[..i], '\n'), Payloads(v[i + 2..]);
    BeforeABlock(q, v, i);
    HeavierTogether(lines, next);
    WeightAppend(Kept(lines) + Kept(next), z);
    WeightAppend(Kept(lines + ["\r"] + next), z);
  }

  // A harmful separation with an empty line at or after it.
  lemma HarmIsHeavierAtRest(r: string, v: string)
    requires IndexOfBreak(r) < 0 && IndexOfBreak("\n" + v) >= 0 && !IsHarmless(r, v)
    ensures Weight(Payloads(r + "\r" + ("\n" + v))) > Weight(Payloads(r + ("\n" + v)))
  {
    if EndsInLf(r) {
      EndsWithLf(r);
      LfThenText(v);
      HeavierBetween(r[..|r| - 1], v, IndexOfBreak(v));
    } else {
      HeavierInside(r, "\n" + v, IndexOfBreak("\n" + v));
    }
  }

  lemma HarmIsHeavier(u: string, v: string)
    requires IndexOfBreak("\n" + v) >= 0 && !IsHarmless(Rest(u), v)
    ensures Weight(Payloads(u + "\r" + ("\n" + v))) > Weight(Payloads(u + ("\n" + v)))
  {
    var r := Rest(u);
    RestHasNoBreak(u);
    HarmIsHeavierAtRest(r, v);
    PayloadsAfter(u, "\n" + v);
    PayloadsAfter(u, "\r" + ("\n" + v));
    WeightAppend(Payloads(u), Payloads(r + ("\n" + v)));
    WeightAppend(Payloads(u), Payloads(r + ("\r" + ("\n" + v))));
    Associative(u, "\r", "\n" + v);
    Associative(r, "\r", "\n" + v);
  }

  // ----- one read after the other

  // Read i ends between a carriage return and its line feed.
  ghost predicate SeparatesAt(pieces: seq<string>, i: nat)
    requires i < |pieces|
  {
    EndsInCr(pieces[i]) && StartsWithLf(Concat(pieces[i + 1..]))
  }

  // All that the reads up to i bring, but for the carriage return.
  function TextUpTo(pieces: seq<string>, i: nat): string
    requires i < |pieces| && pieces[i] != ""
  {
    NormaliseEach(pieces[..i]) + Normalise(pieces[i][..|pieces[i]| - 1])
  }

  // All that comes after the line feed.
  function TextAfter(pieces: seq<string>, i: nat): string
    requires i < |pieces| && Concat(pieces[i + 1..]) != ""
  {
    Normalise(Concat(pieces[i + 1..])[1..])
  }

  // If read i separates a line break, that one is harmless, given what the
  // buffer holds by then.
  ghost predicate HarmlessAt(pieces: seq<string>, i: nat)
    requires i < |pieces|
  {
    SeparatesAt(pieces, i) ==> IsHarmless(Rest(TextUpTo(pieces, i)), TextAfter(pieces, i))
  }

  // If read i separates a line break, an empty line comes with it or after it.
  ghost predicate EndsAfter(pieces: seq<string>, i: nat)
    requires i < |pieces|
  {
    SeparatesAt(pieces, i) ==> IndexOfBreak("\n" + TextAfter(pieces, i)) >= 0
  }

  // The first k reads one by one, and the others at once.
  function Partly(pieces: seq<string>, k: nat): string
    requires k <= |pieces|
  {
    NormaliseEach(pieces[..k]) + Normalise(Concat(pieces[k..]))
  }

  lemma PartlyEnds(pieces: seq<string>)
    ensures Partly(pieces, 0) == Normalise(Concat(pieces)) && Partly(pieces, |pieces|) == NormaliseEach(pieces)
  {
    var n := |pieces|;
    assert pieces[..0] == [] && pieces[0..] == pieces && pieces[..n] == pieces && pieces[n..] == [];
    assert "" + Normalise(Concat(pieces)) == Normalise(Concat(pieces));
    assert NormaliseEach(pieces) + "" == NormaliseEach(pieces);
  }

  lemma OneMoreRead(pieces: seq<string>, k: nat)
    requires k < |pieces|
    ensures Partly(pieces, k) == NormaliseEach(pieces[..k]) + Normalise(pieces[k] + Concat(pieces[k + 1..]))
    ensures Partly(pieces, k + 1)
         == NormaliseEach(pieces[..k]) + (Normalise(pieces[k]) + Normalise(Concat(pieces[k + 1..])))
  {
    assert pieces[k..][1..] == pieces[k + 1..] && pieces[k..][0] == pieces[k];
    assert pieces[..k + 1] == pieces[..k] + [pieces[k]];
    EachAppend(pieces[..k], pieces[k]);
    Associative(NormaliseEach(pieces[..k]), Normalise(pieces[k]), Normalise(Concat(pieces[k + 1..])));
  }

  lemma UnseparatedRead(pieces: seq<string>, k: nat)
    requires k < |pieces| && !SeparatesAt(pieces, k)
    ensures Partly(pieces, k + 1) == Partly(pieces, k)
  {
    OneMoreRead(pieces, k);
    NormaliseAppend(pieces[k], Concat(pieces[k + 1..]));
  }

  lemma SeparatedRead(pieces: seq<string>, k: nat)
    requires k < |pieces| && SeparatesAt(pieces, k)
    ensures Partly(pieces, k) == TextUpTo(pieces, k) + ("\n" + TextAfter(pieces, k))
    ensures Partly(pieces, k + 1) == TextUpTo(pieces, k) + "\r" + ("\n" + TextAfter(pieces, k))
  {
    var x, y := pieces[k][..|pieces[k]| - 1], Concat(pieces[k + 1..])[1..];
    assert pieces[k] == x + "\r" && Concat(pieces[k + 1..]) == "\n" + y;
    OneMoreRead(pieces, k);
    SeparatedText(NormaliseEach(pieces[..k]), x, y);
  }

  lemma SeparatedText(before: string, x: string, y: string)
    ensures before + Normalise(x + "\r" + ("\n" + y)) == before + Normalise(x) + ("\n" + Normalise(y))
    ensures before + (Normalise(x + "\r") + Normalise("\n" + y))
         == before + Normalise(x) + "\r" + ("\n" + Normalise(y))
  {
    TwoReads(x + "\r", "\n" + y);
    ApartReading(x, y);
    Associative(before, Normalise(x), "\n" + Normalise(y));
    Associative(before, Normalise(x) + "\r", "\n" + Normalise(y));
    Associative(before, Normalise(x), "\r");
    WholeText(x, y);
  }

  lemma WholeText(x: string, y: string)
    ensures Normalise(x + "\r" + ("\n" + y)) == Normalise(x) + ("\n" + Normalise(y))
  {
    WholeReading(x, y);
    var s := x + "\r\n" + y;
    assert x + "\r" + ("\n" + y) == s && [s][1..] == [];
    assert Normalise(s) + "" == Normalise(s);
  }

  // ----- all reads

  lemma HarmlessRead(pieces: seq<string>, k: nat)
    requires k < |pieces| && HarmlessAt(pieces, k)
    ensures Payloads(Partly(pieces, k + 1)) == Payloads(Partly(pieces, k))
  {
    hide Partly, Payloads, IsHarmless;
    if SeparatesAt(pieces, k) {
      SeparatedRead(pieces, k);
      HarmlessToWhole(TextUpTo(pieces, k), TextAfter(pieces, k));
    } else {
      UnseparatedRead(pieces, k);
    }
  }

  lemma HarmfulRead(pieces: seq<string>, k: nat)
    requires k < |pieces| && EndsAfter(pieces, k) && !HarmlessAt(pieces, k)
    ensures Weight(Payloads(Partly(pieces, k + 1))) > Weight(Payloads(Partly(pieces, k)))
  {
    hide Partly, Payloads, IsHarmless;
    SeparatedRead(pieces, k);
    HarmIsHeavier(TextUpTo(pieces, k), TextAfter(pieces, k));
  }

  lemma {:induction false} HarmlessReads(pieces: seq<string>, k: nat)
    requires k <= |pieces| && forall i | 0 <= i < k :: HarmlessAt(pieces, i)
    ensures Payloads(Partly(pieces, k)) == Payloads(Partly(pieces, 0))
  {
    hide Partly, Payloads, HarmlessAt;
    if k > 0 {
      HarmlessReads(pieces, k - 1);
      HarmlessRead(pieces, k - 1);
    }
  }

  lemma {:induction false} ReadsOnlyAdd(pieces: seq<string>, k: nat)
    requires k <= |pieces| && forall i | 0 <= i < k :: EndsAfter(pieces, i)
    ensures Weight(Payloads(Partly(pieces, k))) >= Weight(Payloads(Partly(pieces, 0)))
    ensures (exists i | 0 <= i < k :: !HarmlessAt(pieces, i)) ==>
              Weight(Payloads(Partly(pieces, k))) > Weight(Payloads(Partly(pieces, 0)))
  {
    hide Partly, Payloads, Weight, HarmlessAt, EndsAfter;
    if k > 0 {
      ReadsOnlyAdd(pieces, k - 1);
      if HarmlessAt(pieces, k - 1) {
        HarmlessRead(pieces, k - 1);
      } else {
        HarmfulRead(pieces, k - 1);
      }
    }
  }

  // However many line breaks the reads separate: if each separation is harmless
  // by itself, every parser sees what it would have seen in one read.
  lemma HarmlessReadsChangeNothing(parse: Parser, pieces: seq<string>)
    requires forall i | 0 <= i < |pieces| :: HarmlessAt(pieces, i)
    ensures OutcomeOf(parse, NormaliseEach(pieces)) == OutcomeOf(parse, Normalise(Concat(pieces)))
  {
    PartlyEnds(pieces);
    HarmlessReads(pieces, |pieces|);
  }

  // Where every separation has an empty line with it or after it, no parser can
  // tell the reads from one read if and only if each separation is harmless:
  // what two harmful ones do never cancels out.
  lemma ReadsAreHarmlessIff(pieces: seq<string>)
    requires forall i | 0 <= i < |pieces| :: EndsAfter(pieces, i)
    ensures (forall parse: Parser ::
               OutcomeOf(parse, NormaliseEach(pieces)) == OutcomeOf(parse, Normalise(Concat(pieces))))
       <==> forall i | 0 <= i < |pieces| :: HarmlessAt(pieces, i)
  {
    PartlyEnds(pieces);
    SameForEveryParserIff(NormaliseEach(pieces), Normalise(Concat(pieces)));
    ReadsOnlyAdd(pieces, |pieces|);
    if forall i | 0 <= i < |pieces| :: HarmlessAt(pieces, i) {
      HarmlessReads(pieces, |pieces|);
    }
  }

  // ----- an empty line is needed

  // Two reads that end within a line break, and the rest of the last one.
  function ThreeReads(x: string, y: string): seq<string> {
    [x + "\r", "\n" + y + "\r", "\n"]
  }

  lemma ConcatOfRest(y: string)
    ensures Concat(["\n" + y + "\r", "\n"]) == "\n" + (y + "\r" + "\n") && Concat(["\n"]) == "\n" && Concat([]) == ""
  {
    var a, b := "\n" + y + "\r", "\n";
    assert [a, b][1..] == [b] && [b][1..] == [] && b + "" == b;
    assert Concat([b]) == b && Concat([a, b]) == a + b;
    assert a + b == "\n" + (y + "\r" + "\n");
  }

  lemma BreakAtTheEnd(y: string)
    ensures Normalise(y + "\r" + "\n") == Normalise(y) + "\n"
  {
    WholeText(y, "");
    assert "\n" + "" == "\n";
  }

  lemma PartlyFirst(x: string, y: string)
    ensures var pieces := ThreeReads(x, y);
            && Partly(pieces, 0) == Normalise(x) + ("\n" + (Normalise(y) + "\n"))
            && Partly(pieces, 1) == Normalise(x) + "\r" + ("\n" + (Normalise(y) + "\n"))
  {
    var pieces := ThreeReads(x, y);
    assert pieces[..0] == [] && pieces[1..] == ["\n" + y + "\r", "\n"];
    ConcatOfRest(y);
    BreakAtTheEnd(y);
    assert (x + "\r")[..|x + "\r"| - 1] == x && ("\n" + (y + "\r" + "\n"))[1..] == y + "\r" + "\n";
    SeparatedRead(pieces, 0);
    assert "" + Normalise(x) == Normalise(x);
  }

  lemma UpToSecond(x: string, y: string)
    ensures TextUpTo(ThreeReads(x, y), 1) == Normalise(x) + "\r" + ("\n" + Normalise(y))
    ensures SeparatesAt(ThreeReads(x, y), 1) && TextAfter(ThreeReads(x, y), 1) == ""
  {
    var pieces := ThreeReads(x, y);
    ConcatOfRest(y);
    assert pieces[..1] == [x + "\r"] && pieces[2..] == ["\n"] && [x + "\r"][1..] == [];
    assert NormaliseEach([x + "\r"]) == Normalise(x + "\r") + "" == Normalise(x + "\r");
    assert ("\n" + y + "\r")[..|"\n" + y + "\r"| - 1] == "\n" + y && "\n"[1..] == "";
    NormaliseLastCr(x);
    NormaliseFirstLf(y);
  }

  lemma Regrouped(a: string, b: string)
    ensures a + "\r" + ("\n" + b) + "\r" + ("\n" + "") == a + "\r" + ("\n" + (b + "\r" + "\n"))
  {
  }

  lemma PartlyLast(x: string, y: string)
    ensures var pieces := ThreeReads(x, y);
            Partly(pieces, 2) == Normalise(x) + "\r" + ("\n" + (Normalise(y) + "\r" + "\n")) == Partly(pieces, 3)
  {
    hide Partly, Normalise, TextUpTo, TextAfter;
    var pieces := ThreeReads(x, y);
    UpToSecond(x, y);
    SeparatedRead(pieces, 1);
    Regrouped(Normalise(x), Normalise(y));
    assert pieces[2] == "\n";
    UnseparatedRead(pieces, 2);
  }

  // A line that is read as one empty piece of data.
  ghost predicate IsEmptyData(line: string) {
    IsData(line) && Blank(line[5..]) && '\r' !in line && '\n' !in line
  }

  lemma EmptyDataLines(line: string)
    requires IsEmptyData(line)
    ensures Kept([line]) == [] && DataLines([line]) == [""]
    ensures Kept([line] + [line]) == ["\n"] && Kept([line] + ["\r"] + [line]) == ["\n"]
  {
    TrimStartOfBlank(line[5..]);
    DataOfOne(line);
    DataAppend([line], [line]);
    DataRunTogether([line], [line]);
    JoinConcat([""], [""], "\n");
    assert "" + "\n" + "" == "\n";
  }

  lemma LineThenLf(line: string)
    requires '\n' !in line
    ensures IndexOfBreak(line + "\n") < 0 && !EndsInLf(line)
  {
    var lf: string := "\n";
    OneLine(line);
    NoBreakAtFront(lf);
    assert lf[1..] == "";
    IndexAfter(line, lf);
  }

  // An empty piece of data and then another, each in its block, and the two run together.
  lemma TwoOfEmptyData(line: string, w: string)
    requires IsEmptyData(line)
    ensures var v := line + "\n" + ("\n" + w);
            && Payloads(line + "\n" + ("\n" + v)) == Payloads(w)
            && Payloads(line + "\n" + "\r" + ("\n" + v)) == ["\n"] + Payloads(w)
  {
    hide Payloads, Kept, IsEmptyData, Split, IndexOfBreak;
    var v := line + "\n" + ("\n" + w);
    StartsAsLine(line, w);
    WholeAtEmptyLine(line, v);
    WholeAtEmptyLine(line, w);
    EmptyDataLines(line);
    BeforeABlock(line, v, |line|);
    assert [] + ([] + Payloads(w)) == Payloads(w);
  }

  lemma StartsAsLine(line: string, w: string)
    requires IsEmptyData(line)
    ensures var v := line + "\n" + ("\n" + w);
            && IndexOfBreak(v) == |line| && v[..|line|] == line && v[|line| + 2..] == w && !StartsWithLf(v)
    ensures Split(line, '\n') == [line] && IndexOfBreak(line + "\n") < 0
  {
    hide Split, IndexOfBreak;
    OneLine(line);
    LineThenLf(line);
    BreakStays(line + "\n\n", w);
    FrontOfThree(line, w);
  }

  lemma FrontOfThree(line: string, w: string)
    requires IsData(line)
    ensures var v := line + "\n" + ("\n" + w);
            && v == line + "\n\n" + w && v[..|line|] == line && v[|line| + 2..] == w && !StartsWithLf(v)
  {
    assert (line + "\n" + ("\n" + w))[0] == line[0] == "data:"[0];
  }

  // A block of two, and the same block when its end is lost.
  lemma BlockOfEmptyData(line: string)
    requires IsEmptyData(line)
    ensures var q := line + "\n" + line;
            && Payloads(q + "\n" + ("\n" + "")) == ["\n"]
            && Payloads(q + "\n" + "\r" + ("\n" + "")) == []
  {
    hide Payloads, Kept, Split;
    var q := line + "\n" + line;
    LineThenLf(line);
    OneLine(line);
    assert !StartsWithLf(line + "\n");
    IndexAfter(line + "\n", line + "\n");
    assert q + "\n" == line + "\n" + (line + "\n");
    SplitTwo(line, line);
    EmptyDataLines(line);
    WholeAtEmptyLine(q, "");
    BeforeTheEnd(q, "");
    PayloadsOfNone("");
    assert ["\n"] + [] == ["\n"];
  }

  lemma NormaliseLine(line: string, rest: string)
    requires '\r' !in line
    ensures Normalise(line + ("\r\n" + rest)) == line + ("\n" + Normalise(rest))
  {
    NoCrUnchanged(line);
    NormaliseCrLf(rest);
    NormaliseAppend(line, "\r\n" + rest);
  }

  function FirstText(line: string): string {
    line + "\r\n"
  }

  function SecondText(line: string): string {
    line + "\r\n\r\n" + line + "\r\n" + line + "\r\n"
  }

  lemma NormaliseTexts(line: string)
    requires '\r' !in line
    ensures Normalise(FirstText(line)) == line + "\n"
    ensures Normalise(SecondText(line)) == line + "\n\n" + line + "\n" + line + "\n"
  {
    hide Normalise;
    var last := line + ("\r\n" + "");
    var two := line + ("\r\n" + last);
    var after := "" + ("\r\n" + two);
    NormaliseLine(line, "");
    NormaliseLine(line, last);
    NormaliseLine("", two);
    NormaliseLine(line, after);
    NoCrUnchanged("");
    assert FirstText(line) == last && SecondText(line) == line + ("\r\n" + after);
    assert line + ("\n" + ("" + ("\n" + (line + ("\n" + (line + ("\n" + "")))))))
        == line + "\n\n" + line + "\n" + line + "\n";
  }

  lemma TextsInParts(line: string)
    ensures var n, q := line + "\n\n" + line + "\n" + line + "\n", line + "\n" + line;
            && n + "\n" == line + "\n" + ("\n" + (q + "\n" + ("\n" + "")))
            && n + "\r" + "\n" == line + "\n" + ("\n" + (q + "\n" + "\r" + ("\n" + "")))
  {
  }

  // Without it, two harmful separations can cancel out: the first runs two blocks
  // of empty data together, which reads as one event more, and the second loses
  // the end of the last block, which reads as one event less.
  lemma HarmCanCancelOut(line: string)
    requires IsEmptyData(line)
    ensures var pieces := ThreeReads(FirstText(line), SecondText(line));
            && !HarmlessAt(pieces, 0) && !HarmlessAt(pieces, 1)
            && forall parse: Parser ::
                 OutcomeOf(parse, NormaliseEach(pieces)) == OutcomeOf(parse, Normalise(Concat(pieces)))
  {
    hide Payloads, Kept, Partly, HarmlessAt, NormaliseEach, Normalise, FirstText, SecondText;
    var q := line + "\n" + line;
    var pieces := ThreeReads(FirstText(line), SecondText(line));
    PartlyFirst(FirstText(line), SecondText(line));
    PartlyLast(FirstText(line), SecondText(line));
    NormaliseTexts(line);
    TextsInParts(line);
    TwoOfEmptyData(line, q + "\n" + ("\n" + ""));
    TwoOfEmptyData(line, q + "\n" + "\r" + ("\n" + ""));
    BlockOfEmptyData(line);
    assert Payloads(Partly(pieces, 0)) == ["\n"] && Payloads(Partly(pieces, 3)) == ["\n"] + [];
    assert Payloads(Partly(pieces, 1)) == ["\n"] + ["\n"] && Payloads(Partly(pieces, 2)) == ["\n"] + [];
    if HarmlessAt(pieces, 0) {
      HarmlessRead(pieces, 0);
    }
    if HarmlessAt(pieces, 1) {
      HarmlessRead(pieces, 1);
    }
    PartlyEnds(pieces);
  }
}
