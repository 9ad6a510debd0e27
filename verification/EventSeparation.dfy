// Two reads that put one carriage return and its line feed apart: when exactly
// the browser (src/lib/sse.ts) sees the events it would have seen in one read.
module EventSeparation {
  import opened Text
  import opened EventFraming
  import opened EventStream
  import opened EventReads

  lemma Associative<T>(a: seq<T>, b: seq<T>, c: seq<T>)
    ensures a + (b + c) == a + b + c
  {
  }

  // ----- what the two readings leave in the buffer

  lemma TwoReads(a: string, b: string)
    ensures NormaliseEach([a, b]) == Normalise(a) + Normalise(b)
  {
    assert [a, b][1..] == [b] && [b][1..] == [];
    assert NormaliseEach([b]) == Normalise(b) + "";
  }

  lemma NormaliseLastCr(x: string)
    ensures Normalise(x + "\r") == Normalise(x) + "\r"
  {
    AppendAfterOne('\r', "");
    assert ['\r'] + "" == "\r";
    NormaliseAppend(x, "\r");
  }

  lemma NormaliseFirstLf(y: string)
    ensures Normalise("\n" + y) == "\n" + Normalise(y)
  {
    AppendAfterOne('\n', y);
    assert ['\n'] + y == "\n" + y;
  }

  lemma ApartReading(x: string, y: string)
    ensures NormaliseEach([x + "\r", "\n" + y]) == Normalise(x) + "\r" + ("\n" + Normalise(y))
  {
    TwoReads(x + "\r", "\n" + y);
    NormaliseLastCr(x);
    NormaliseFirstLf(y);
  }

  lemma WholeReading(x: string, y: string)
    ensures NormaliseEach([x + "\r\n" + y]) == Normalise(x) + ("\n" + Normalise(y))
  {
    var s := "\r\n" + y;
    assert [x + s][1..] == [] && x + s == x + "\r\n" + y;
    NormaliseStep(s);
    assert s[2..] == y;
    NormaliseAppend(x, s);
  }

  predicate EndsInLf(s: string) { s != "" && s[|s| - 1] == '\n' }

  lemma {:induction false} RestHasNoBreak(s: string)
    ensures IndexOfBreak(Rest(s)) < 0
    decreases |s|
  {
    if IndexOfBreak(s) < 0 {
      NoBreakNoBlock(s);
    } else {
      FirstBlock(s, IndexOfBreak(s));
      RestHasNoBreak(s[IndexOfBreak(s) + 2..]);
    }
  }

  // Where no break lies across the seam, the first one of what follows is the first one.
  lemma {:induction false} IndexAfter(r: string, w: string)
    requires IndexOfBreak(r) < 0 && !(EndsInLf(r) && StartsWithLf(w))
    ensures IndexOfBreak(r + w) == if IndexOfBreak(w) < 0 then -1 else |r| + IndexOfBreak(w)
  {
    if r == "" {
      assert r + w == w;
    } else {
      assert (r + w)[1..] == r[1..] + w && (r + w)[0] == r[0];
      if |r| > 1 {
        assert (r + w)[1] == r[1];
      } else if w != "" {
        assert (r + w)[1] == w[0];
      }
      IndexAfter(r[1..], w);
    }
  }

  // ----- what a block contributes

  function Kept(lines: seq<string>): seq<string> {
    if IsPayload(Payload(lines)) then [Payload(lines)] else []
  }

  lemma PayloadsAfter(u: string, w: string)
    ensures Payloads(u + w) == Payloads(u) + Payloads(Rest(u) + w)
  {
    AppendToRest(u, w);
    LinesAppend(Blocks(u), Blocks(Rest(u) + w));
    PayloadsAppend(LinesOf(Blocks(u)), LinesOf(Blocks(Rest(u) + w)));
  }

  lemma PayloadsOfNone(s: string)
    requires IndexOfBreak(s) < 0
    ensures Payloads(s) == []
  {
    NoBreakNoBlock(s);
  }

  lemma PayloadsOfFirst(s: string)
    requires IndexOfBreak(s) >= 0
    ensures var i := IndexOfBreak(s); Payloads(s) == Kept(Split(s[..i], '\n')) + Payloads(s[i + 2..])
  {
    var i := IndexOfBreak(s);
    FirstBlock(s, i);
    LinesAppend([s[..i]], Blocks(s[i + 2..]));
    PayloadsAppend(LinesOf([s[..i]]), LinesOf(Blocks(s[i + 2..])));
    LastPayload([], s[..i]);
    assert [] + [s[..i]] == [s[..i]] && LinesOf([]) == [] && PayloadsOf([]) == [];
    assert [] + Kept(Split(s[..i], '\n')) == Kept(Split(s[..i], '\n'));
  }

  lemma PayloadsFrom(s: string, i: nat, b: string, z: string)
    requires i == IndexOfBreak(s) && b == s[..i] && z == s[i + 2..]
    ensures Payloads(s) == Kept(Split(b, '\n')) + Payloads(z)
  {
    PayloadsOfFirst(s);
  }

  // The first block of r + w, when the break comes after r.
  lemma PayloadsAcross(r: string, w: string)
    requires IndexOfBreak(r) < 0 && !(EndsInLf(r) && StartsWithLf(w))
    ensures var i := IndexOfBreak(w);
            Payloads(r + w) == if i < 0 then [] else Kept(Split(r + w[..i], '\n')) + Payloads(w[i + 2..])
  {
    IndexAfter(r, w);
    if IndexOfBreak(w) < 0 {
      PayloadsOfNone(r + w);
    } else {
      var i := IndexOfBreak(w);
      CutAcross(r, w, i);
      PayloadsFrom(r + w, |r| + i, r + w[..i], w[i + 2..]);
    }
  }

  lemma PayloadsAcrossAt(r: string, w: string, i: nat, c: string, z: string)
    requires IndexOfBreak(r) < 0 && !(EndsInLf(r) && StartsWithLf(w))
    requires i == IndexOfBreak(w) && c == w[..i] && z == w[i + 2..]
    ensures Payloads(r + w) == Kept(Split(r + c, '\n')) + Payloads(z)
  {
    PayloadsAcross(r, w);
  }

  lemma CutAcross(r: string, w: string, i: nat)
    requires i + 2 <= |w|
    ensures (r + w)[..|r| + i] == r + w[..i] && (r + w)[|r| + i + 2..] == w[i + 2..]
  {
  }

  lemma LeadingLineBeforeText(z: string)
    requires !StartsWithLf(z)
    ensures Payloads("\n" + z) == Payloads(z)
  {
    var s := "\n" + z;
    assert s[1..] == z && !("\n\n" <= s);
    NoBreakAtFront(s);
    var i := IndexOfBreak(z);
    if i < 0 {
      PayloadsOfNone(s);
      PayloadsOfNone(z);
    } else {
      assert s[..i + 1] == "\n" + z[..i] && s[i + 3..] == z[i + 2..];
      PayloadsFrom(s, i + 1, "\n" + z[..i], z[i + 2..]);
      PayloadsFrom(z, i, z[..i], z[i + 2..]);
      EmptyLineAddsNothing(z[..i]);
    }
  }

  // An empty line before a block adds nothing.
  lemma {:induction false} LeadingLineAddsNothing(z: string)
    ensures Payloads("\n" + z) == Payloads(z)
    decreases |z|
  {
    if StartsWithLf(z) {
      var s := "\n" + z;
      assert s[1] == z[0] && "\n\n" <= s && s[2..] == z[1..] && s[..0] == "";
      PayloadsFrom(s, 0, "", z[1..]);
      EmptyBlockKeepsNothing();
      LeadingLineAddsNothing(z[1..]);
      assert "\n" + z[1..] == z && [] + Payloads(z[1..]) == Payloads(z[1..]);
    } else {
      LeadingLineBeforeText(z);
    }
  }

  lemma EmptyBlockKeepsNothing()
    ensures Kept(Split("", '\n')) == []
  {
    assert Split("", '\n') == [""] && [""][1..] == [] && !IsData("");
    assert DataLines([""]) == [] + DataLines([]);
  }

  lemma NoBreakAtFront(s: string)
    requires s != "" && !("\n\n" <= s)
    ensures IndexOfBreak(s) == if IndexOfBreak(s[1..]) < 0 then -1 else IndexOfBreak(s[1..]) + 1
  {
  }

  lemma EmptyLineAddsNothing(b: string)
    ensures Kept(Split("\n" + b, '\n')) == Kept(Split(b, '\n'))
  {
    var s, lines := "\n" + b, Split(b, '\n');
    assert s[1..] == b && s[0] == '\n' && !IsData("");
    assert Split(s, '\n') == [""] + lines && ([""] + lines)[1..] == lines && ([""] + lines)[0] == "";
    assert DataLines([""] + lines) == [] + DataLines(lines) == DataLines(lines);
  }

  // ----- lines

  function LinesBefore(r: string): seq<string> {
    Split(r, '\n')[..|Split(r, '\n')| - 1]
  }

  function LastLine(r: string): string {
    var lines := Split(r, '\n');
    lines[|lines| - 1]
  }

  // What one character more at the front makes of the lines.
  function InFront(c: char, lines: seq<string>): seq<string>
    requires lines != []
  {
    if c == '\n' then [""] + lines else [[c] + lines[0]] + lines[1..]
  }

  lemma SplitInFront(c: char, s: string)
    ensures Split([c] + s, '\n') == InFront(c, Split(s, '\n'))
  {
    assert ([c] + s)[1..] == s;
  }

  lemma InFrontOfMore(c: char, a: seq<string>, b: seq<string>)
    requires a != []
    ensures InFront(c, a + b) == InFront(c, a) + b
  {
    assert (a + b)[1..] == a[1..] + b;
  }

  lemma {:induction false} SplitTwo(a: string, b: string)
    ensures Split(a + "\n" + b, '\n') == Split(a, '\n') + Split(b, '\n')
  {
    if a == "" {
      assert a + "\n" + b == ['\n'] + b;
      SplitInFront('\n', b);
    } else {
      var c, rest := a[0], a[1..];
      assert a == [c] + rest && a + "\n" + b == [c] + (rest + "\n" + b);
      SplitTwo(rest, b);
      SplitInFront(c, rest);
      SplitInFront(c, rest + "\n" + b);
      InFrontOfMore(c, Split(rest, '\n'), Split(b, '\n'));
    }
  }

  lemma SplitOneCr()
    ensures Split("\r", '\n') == ["\r"] && IndexOfBreak("\r") < 0
  {
    SplitInFront('\r', "");
    assert ['\r'] + "" == "\r" && Split("", '\n') == [""];
  }

  // A carriage return at the end belongs to the last line.
  lemma {:induction false} SplitCr(r: string)
    ensures Split(r + "\r", '\n') == WithCr(Split(r, '\n'))
  {
    if r == "" {
      SplitOneCr();
      assert r + "\r" == "\r" && Split(r, '\n') == [""] && [""][..0] == [] && "" + "\r" == "\r";
    } else {
      var c, rest := r[0], r[1..];
      assert r == [c] + rest && r + "\r" == [c] + (rest + "\r");
      SplitCr(rest);
      SplitInFront(c, rest);
      SplitInFront(c, rest + "\r");
      WithCrInFront(c, Split(rest, '\n'));
    }
  }

  function WithCr(lines: seq<string>): (more: seq<string>)
    requires lines != []
    ensures more != []
  {
    lines[..|lines| - 1] + [lines[|lines| - 1] + "\r"]
  }

  lemma WithCrAfter(a: seq<string>, last: string)
    ensures WithCr(a + [last]) == a + [last + "\r"]
  {
    assert (a + [last])[..|a|] == a;
  }

  lemma WithCrInFront(c: char, rest: seq<string>)
    requires rest != []
    ensures WithCr(InFront(c, rest)) == InFront(c, WithCr(rest))
  {
    var init, last := rest[..|rest| - 1], rest[|rest| - 1];
    assert rest == init + [last];
    WithCrAfter(init, last);
    if c == '\n' {
      assert [""] + (init + [last]) == ([""] + init) + [last];
      WithCrAfter([""] + init, last);
      assert [""] + (init + [last + "\r"]) == ([""] + init) + [last + "\r"];
    } else if init == [] {
      assert rest == [last] && rest[1..] == [] && [[c] + last] + [] == [] + [[c] + last];
      WithCrAfter([], [c] + last);
      assert [c] + (last + "\r") == [c] + last + "\r";
    } else {
      InFrontOfMore(c, init, [last]);
      InFrontOfMore(c, init, [last + "\r"]);
      WithCrAfter(InFront(c, init), last);
    }
  }

  lemma {:induction false} DataAppend(a: seq<string>, b: seq<string>)
    ensures DataLines(a + b) == DataLines(a) + DataLines(b)
  {
    if a == [] {
      assert a + b == b;
    } else {
      assert (a + b)[1..] == a[1..] + b;
      DataAppend(a[1..], b);
    }
  }

  // The data of one line, none or one.
  function DataOf(line: string): seq<string> {
    if IsData(line) then [TrimStart(line[5..])] else []
  }

  lemma DataOfOne(line: string)
    ensures DataLines([line]) == DataOf(line)
  {
    assert [line][1..] == [] && DataLines([]) == [];
  }

  lemma DataAround(a: seq<string>, line: string, b: seq<string>)
    ensures DataLines(a + [line] + b) == DataLines(a) + DataOf(line) + DataLines(b)
  {
    DataAppend(a + [line], b);
    DataAppend(a, [line]);
    DataOfOne(line);
  }

  lemma {:induction false} TrimStartCr(s: string)
    ensures TrimStart(s + "\r") == if Blank(s) then "" else TrimStart(s) + "\r"
  {
    var t := s + "\r";
    if s == "" {
      assert t == "\r" && IsSpace('\r') && t[1..] == "";
    } else {
      assert t[0] == s[0] && t[1..] == s[1..] + "\r";
      assert s == [s[0]] + s[1..];
      BlankConcat([s[0]], s[1..]);
      TrimStartCr(s[1..]);
    }
  }

  lemma {:induction false} TrimStartOfBlank(s: string)
    ensures Blank(s) <==> TrimStart(s) == ""
  {
    if s != "" {
      assert s == [s[0]] + s[1..];
      BlankConcat([s[0]], s[1..]);
      TrimStartOfBlank(s[1..]);
    }
  }

  // A data line with ink takes the carriage return into its data; any other line ignores it.
  lemma DataWithCr(line: string)
    ensures DataOf(line + "\r")
         == if IsData(line) && !Blank(line[5..]) then [TrimStart(line[5..]) + "\r"] else DataOf(line)
    ensures IsData(line) && !Blank(line[5..]) ==> TrimStart(line[5..]) != ""
  {
    var s := line + "\r";
    if IsData(line) {
      assert IsData(s) && s[5..] == line[5..] + "\r";
      TrimStartCr(line[5..]);
      TrimStartOfBlank(line[5..]);
    } else {
      assert !IsData(s) by {
        if |line| >= 5 {
          assert s[..5] == line[..5];
        } else if |line| == 4 {
          assert s[4] == '\r';
        }
      }
    }
  }

  // ----- joined data

  function JoinLength(a: seq<string>): nat {
    if a == [] then 0 else if |a| == 1 then |a[0]| else |a[0]| + 1 + JoinLength(a[1..])
  }

  lemma {:induction false} LengthOfJoin(a: seq<string>)
    ensures |Join(a, "\n")| == JoinLength(a)
  {
    if |a| > 1 {
      LengthOfJoin(a[1..]);
    }
  }

  lemma {:induction false} OneLongerInside(a: seq<string>, d: string, b: seq<string>)
    ensures JoinLength(a + [d + "\r"] + b) == JoinLength(a + [d] + b) + 1
    ensures JoinLength(a + [d] + b) >= |d|
  {
    var s, t := a + [d] + b, a + [d + "\r"] + b;
    if a == [] {
      assert s[0] == d && t[0] == d + "\r" && s[1..] == b && t[1..] == b;
    } else {
      assert s[1..] == a[1..] + [d] + b && t[1..] == a[1..] + [d + "\r"] + b;
      OneLongerInside(a[1..], d, b);
    }
  }

  // One more character of data is another payload, or a payload where there was none.
  lemma LongerIsOther(p: string, q: string)
    requires |q| == |p| + 1 && p != ""
    ensures (if IsPayload(p) then [p] else []) != (if IsPayload(q) then [q] else [])
  {
  }

  // ----- the separated line within a block

  ghost predicate HasData(line: string) {
    IsData(line) && !Blank(line[5..])
  }

  lemma CrInBlock(a: seq<string>, line: string, b: seq<string>)
    ensures Kept(a + [line + "\r"] + b) == Kept(a + [line] + b) <==> !HasData(line)
  {
    DataAround(a, line, b);
    DataAround(a, line + "\r", b);
    DataWithCr(line);
    if HasData(line) {
      var d := TrimStart(line[5..]);
      OneLongerInside(DataLines(a), d, DataLines(b));
      LengthOfJoin(DataLines(a) + [d] + DataLines(b));
      LengthOfJoin(DataLines(a) + [d + "\r"] + DataLines(b));
      LongerIsOther(Payload(a + [line] + b), Payload(a + [line + "\r"] + b));
    }
  }

  // The lines of a block that begins with r, with or without the carriage return.
  lemma LinesWithCr(r: string)
    ensures Split(r, '\n') == LinesBefore(r) + [LastLine(r)]
    ensures Split(r + "\r", '\n') == LinesBefore(r) + [LastLine(r) + "\r"]
  {
    SplitCr(r);
  }

  lemma MoreLinesWithCr(r: string, d: string)
    ensures Split(r + ("\n" + d), '\n') == LinesBefore(r) + [LastLine(r)] + Split(d, '\n')
    ensures Split(r + "\r" + ("\n" + d), '\n') == LinesBefore(r) + [LastLine(r) + "\r"] + Split(d, '\n')
  {
    LinesWithCr(r);
    Associative(r, "\n", d);
    Associative(r + "\r", "\n", d);
    SplitTwo(r, d);
    SplitTwo(r + "\r", d);
  }

  lemma SameFront(a: seq<string>, b: seq<string>, z: seq<string>)
    ensures a + z == b + z <==> a == b
  {
    if a + z == b + z {
      assert |a| == |b|;
      forall i | 0 <= i < |a| ensures a[i] == b[i] {
        assert (a + z)[i] == a[i] && (b + z)[i] == b[i];
      }
    }
  }

  // The lines of what follows the separated line.
  function LinesAfter(c: string): seq<string>
    requires c == "" || StartsWithLf(c)
  {
    if c == "" then [] else Split(c[1..], '\n')
  }

  // The block that begins with r and goes on with c, together and apart.
  lemma LinesOfBlock(r: string, c: string)
    requires c == "" || StartsWithLf(c)
    ensures Split(r + c, '\n') == LinesBefore(r) + [LastLine(r)] + LinesAfter(c)
    ensures Split(r + "\r" + c, '\n') == LinesBefore(r) + [LastLine(r) + "\r"] + LinesAfter(c)
  {
    if c == "" {
      LinesWithCr(r);
      NothingAfter(LinesBefore(r) + [LastLine(r)]);
      NothingAfter(LinesBefore(r) + [LastLine(r) + "\r"]);
      assert r + c == r && r + "\r" + c == r + "\r";
    } else {
      assert c == "\n" + c[1..];
      MoreLinesWithCr(r, c[1..]);
    }
  }

  lemma NothingAfter(a: seq<string>)
    ensures a + [] == a
  {
  }

  lemma CrInFirstBlock(r: string, c: string)
    requires c == "" || StartsWithLf(c)
    ensures Kept(Split(r + "\r" + c, '\n')) == Kept(Split(r + c, '\n')) <==> !HasData(LastLine(r))
  {
    LinesOfBlock(r, c);
    CrInBlock(LinesBefore(r), LastLine(r), LinesAfter(c));
  }

  lemma StillNoBreak(r: string)
    requires IndexOfBreak(r) < 0 && !EndsInLf(r)
    ensures IndexOfBreak(r + "\r") < 0 && !EndsInLf(r + "\r")
  {
    SplitOneCr();
    IndexAfter(r, "\r");
  }

  // Where the block of the separated line ends, it is followed by the same payloads.
  lemma AroundBlock(r: string, w: string, i: nat)
    requires IndexOfBreak(r) < 0 && !EndsInLf(r) && StartsWithLf(w) && IndexOfBreak(w) == i
    ensures Payloads(r + w) == Kept(Split(r + w[..i], '\n')) + Payloads(w[i + 2..])
    ensures Payloads(r + "\r" + w) == Kept(Split(r + "\r" + w[..i], '\n')) + Payloads(w[i + 2..])
  {
    StillNoBreak(r);
    PayloadsAcross(r, w);
    PayloadsAcross(r + "\r", w);
  }

  lemma NeverEnds(r: string, w: string)
    requires IndexOfBreak(r) < 0 && !EndsInLf(r) && IndexOfBreak(w) < 0
    ensures Payloads(r + w) == [] == Payloads(r + "\r" + w)
  {
    StillNoBreak(r);
    PayloadsAcross(r, w);
    PayloadsAcross(r + "\r", w);
  }

  lemma InsideBlock(r: string, v: string)
    requires IndexOfBreak(r) < 0 && !EndsInLf(r)
    ensures Payloads(r + "\r" + ("\n" + v)) == Payloads(r + ("\n" + v))
       <==> IndexOfBreak("\n" + v) < 0 || !HasData(LastLine(r))
  {
    var w := "\n" + v;
    var i := IndexOfBreak(w);
    if i < 0 {
      NeverEnds(r, w);
    } else {
      AroundBlock(r, w, i);
      CrInFirstBlock(r, w[..i]);
      SameFront(Kept(Split(r + "\r" + w[..i], '\n')), Kept(Split(r + w[..i], '\n')), Payloads(w[i + 2..]));
    }
  }

  // ----- the separated line between two blocks

  lemma DataRunTogether(a: seq<string>, b: seq<string>)
    ensures DataLines(a + ["\r"] + b) == DataLines(a) + DataLines(b)
  {
    DataAround(a, "\r", b);
    assert DataLines(a) + [] + DataLines(b) == DataLines(a) + DataLines(b);
  }

  // Two blocks with data give other payloads than the two run together.
  lemma RunTogether(a: seq<string>, b: seq<string>)
    ensures Kept(a + ["\r"] + b) == Kept(a) + Kept(b) <==> DataLines(a) == [] || DataLines(b) == []
  {
    DataRunTogether(a, b);
    if DataLines(a) == [] {
      assert [] + DataLines(b) == DataLines(b) && Kept(a) == [];
      assert [] + Kept(b) == Kept(b);
    } else if DataLines(b) == [] {
      assert DataLines(a) + [] == DataLines(a) && Kept(b) == [];
      assert Kept(a) + [] == Kept(a);
    } else {
      JoinConcat(DataLines(a), DataLines(b), "\n");
      BreakInPayload(Payload(a), Payload(b));
    }
  }

  lemma BreakInPayload(p: string, q: string)
    ensures IsPayload(p + "\n" + q)
    ensures (if IsPayload(p) then [p] else []) + (if IsPayload(q) then [q] else []) != [p + "\n" + q]
  {
    var s := p + "\n" + q;
    assert s[|p|] == '\n' && '\n' in s && '\n' !in "[DONE]";
    assert |s| == |p| + 1 + |q| && p != s && q != s;
    var both := (if IsPayload(p) then [p] else []) + (if IsPayload(q) then [q] else []);
    assert |both| == 1 ==> both[0] == p || both[0] == q;
  }

  // What the block after the empty line is made of, if it ends.
  ghost predicate NextHasData(v: string) {
    IndexOfBreak(v) >= 0 && DataLines(Split(v[..IndexOfBreak(v)], '\n')) != []
  }

  lemma WholeAtEmptyLine(q: string, v: string)
    requires IndexOfBreak(q + "\n") < 0
    ensures Payloads(q + "\n" + ("\n" + v)) == Kept(Split(q, '\n')) + Payloads(v)
  {
    hide Payloads, Kept, Split;
    var w := "\n\n" + v;
    assert q + "\n" + ("\n" + v) == q + w && q + "" == q;
    NoBreakBefore(q);
    assert IndexOfBreak(w) == 0 && w[..0] == "" && w[2..] == v;
    PayloadsAcrossAt(q, w, 0, "", v);
  }

  lemma {:induction false} NoBreakBefore(q: string)
    requires IndexOfBreak(q + "\n") < 0
    ensures IndexOfBreak(q) < 0 && !EndsInLf(q)
  {
    if q != "" {
      assert (q + "\n")[0] == q[0] && (q + "\n")[1..] == q[1..] + "\n";
      if |q| > 1 {
        assert (q + "\n")[1] == q[1];
      } else {
        assert (q + "\n")[1] == '\n' && q + "\n" == [q[0], '\n'];
      }
      NoBreakBefore(q[1..]);
    }
  }

  // The lines of the two blocks run together by the separated empty line.
  lemma LinesRunTogether(q: string, c: string)
    ensures Split(q + "\n" + "\r", '\n') == Split(q, '\n') + ["\r"] + []
    ensures Split(q + "\n" + "\r" + ("\n" + c), '\n') == Split(q, '\n') + ["\r"] + Split(c, '\n')
  {
    SplitTwo(q, "\r");
    SplitOneCr();
    assert q + "\n" + "\r" + ("\n" + c) == q + "\n" + "\r" + "\n" + c;
    SplitTwo(q + "\n" + "\r", c);
  }

  lemma NoBreakWithCr(q: string)
    requires IndexOfBreak(q + "\n") < 0
    ensures IndexOfBreak(q + "\n" + "\r") < 0 && !EndsInLf(q + "\n" + "\r")
  {
    SplitOneCr();
    IndexAfter(q + "\n", "\r");
  }

  // Apart, the empty line no longer ends the block, and the next break does.
  lemma SeparatedNeverEnds(q: string, v: string)
    requires IndexOfBreak(q + "\n") < 0 && IndexOfBreak("\n" + v) < 0
    ensures Payloads(q + "\n" + "\r" + ("\n" + v)) == []
  {
    NoBreakWithCr(q);
    PayloadsAcross(q + "\n" + "\r", "\n" + v);
  }

  lemma SeparatedBeforeLf(q: string, v: string)
    requires IndexOfBreak(q + "\n") < 0 && StartsWithLf(v)
    ensures Payloads(q + "\n" + "\r" + ("\n" + v)) == Kept(Split(q, '\n') + ["\r"] + []) + Payloads(v[1..])
  {
    var r := q + "\n" + "\r";
    NoBreakWithCr(q);
    LfThenLf(v);
    PayloadsAcrossAt(r, "\n" + v, 0, "", v[1..]);
    LinesRunTogether(q, "");
    assert r + "" == r;
  }

  lemma LfThenLf(v: string)
    requires StartsWithLf(v)
    ensures var w := "\n" + v; IndexOfBreak(w) == 0 && w[..0] == "" && w[2..] == v[1..] && "\n" + v[1..] == v
  {
    var w := "\n" + v;
    assert w[0] == '\n' && w[1] == v[0] && "\n\n" <= w;
  }

  lemma LfThenText(v: string)
    requires !StartsWithLf(v)
    ensures var w, i := "\n" + v, IndexOfBreak(v);
            && IndexOfBreak(w) == (if i < 0 then -1 else i + 1)
            && (i >= 0 ==> w[..i + 1] == "\n" + v[..i] && w[i + 3..] == v[i + 2..])
  {
    var w := "\n" + v;
    assert w[1..] == v && !("\n\n" <= w);
    NoBreakAtFront(w);
  }

  lemma SeparatedBeforeText(q: string, v: string, i: nat)
    requires IndexOfBreak(q + "\n") < 0 && !StartsWithLf(v) && IndexOfBreak(v) == i
    ensures Payloads(q + "\n" + "\r" + ("\n" + v))
         == Kept(Split(q, '\n') + ["\r"] + Split(v[..i], '\n')) + Payloads(v[i + 2..])
  {
    NoBreakWithCr(q);
    LfThenText(v);
    PayloadsAcrossAt(q + "\n" + "\r", "\n" + v, i + 1, "\n" + v[..i], v[i + 2..]);
    LinesRunTogether(q, v[..i]);
  }

  ghost predicate PartsHarmlessly(q: string, v: string) {
    var lines := Split(q, '\n');
    || StartsWithLf(v)
    || (if IndexOfBreak(v) < 0 then Kept(lines) == [] else DataLines(lines) == [] || !NextHasData(v))
  }

  lemma BeforeEmptyLine(q: string, v: string)
    requires IndexOfBreak(q + "\n") < 0 && StartsWithLf(v)
    ensures Payloads(q + "\n" + "\r" + ("\n" + v)) == Payloads(q + "\n" + ("\n" + v))
  {
    var lines := Split(q, '\n');
    WholeAtEmptyLine(q, v);
    SeparatedBeforeLf(q, v);
    LfThenLf(v);
    LeadingLineAddsNothing(v[1..]);
    RunTogether(lines, []);
    assert Kept([]) == [] && Kept(lines) + [] == Kept(lines);
  }

  // No block ends after the empty line.
  lemma BeforeTheEnd(q: string, v: string)
    requires IndexOfBreak(q + "\n") < 0 && !StartsWithLf(v) && IndexOfBreak(v) < 0
    ensures Payloads(q + "\n" + "\r" + ("\n" + v)) == []
    ensures Payloads(q + "\n" + ("\n" + v)) == Kept(Split(q, '\n'))
  {
    LfThenText(v);
    SeparatedNeverEnds(q, v);
    WholeAtEmptyLine(q, v);
    PayloadsOfNone(v);
    assert Kept(Split(q, '\n')) + [] == Kept(Split(q, '\n'));
  }

  // The block after the empty line ends: apart, the two run together.
  lemma BeforeABlock(q: string, v: string, i: nat)
    requires IndexOfBreak(q + "\n") < 0 && !StartsWithLf(v) && IndexOfBreak(v) == i
    ensures var lines, next, z := Split(q, '\n'), Split(v[..i], '\n'), Payloads(v[i + 2..]);
            && Payloads(q + "\n" + "\r" + ("\n" + v)) == Kept(lines + ["\r"] + next) + z
            && Payloads(q + "\n" + ("\n" + v)) == Kept(lines) + Kept(next) + z
  {
    SeparatedBeforeText(q, v, i);
    WholeAtEmptyLine(q, v);
    PayloadsOfFirst(v);
    Associative(Kept(Split(q, '\n')), Kept(Split(v[..i], '\n')), Payloads(v[i + 2..]));
  }

  lemma BeforeNextBlock(q: string, v: string)
    requires IndexOfBreak(q + "\n") < 0 && !StartsWithLf(v)
    ensures Payloads(q + "\n" + "\r" + ("\n" + v)) == Payloads(q + "\n" + ("\n" + v)) <==> PartsHarmlessly(q, v)
  {
    var i := IndexOfBreak(v);
    if i < 0 {
      BeforeTheEnd(q, v);
    } else {
      var lines, next := Split(q, '\n'), Split(v[..i], '\n');
      BeforeABlock(q, v, i);
      RunTogether(lines, next);
      SameFront(Kept(lines + ["\r"] + next), Kept(lines) + Kept(next), Payloads(v[i + 2..]));
    }
  }

  // ----- the exact condition

  // What the buffer held of an unfinished block, and the text after the break.
  // Inside a block: the separated line has no data, or its block never ends. At
  // the empty line that ends a block: another line break follows, or one of the
  // blocks it parts has no data, or, when the next one never ends, the first has
  // no payload.
  ghost predicate IsHarmless(r: string, v: string) {
    if EndsInLf(r) then PartsHarmlessly(r[..|r| - 1], v)
    else IndexOfBreak("\n" + v) < 0 || !HasData(LastLine(r))
  }

  lemma AtEmptyLine(q: string, v: string)
    requires IndexOfBreak(q + "\n") < 0
    ensures Payloads(q + "\n" + "\r" + ("\n" + v)) == Payloads(q + "\n" + ("\n" + v)) <==> PartsHarmlessly(q, v)
  {
    if StartsWithLf(v) {
      BeforeEmptyLine(q, v);
    } else {
      BeforeNextBlock(q, v);
    }
  }

  lemma EndsWithLf(r: string)
    requires EndsInLf(r)
    ensures r == r[..|r| - 1] + "\n"
  {
  }

  lemma HarmlessToRest(r: string, v: string)
    requires IndexOfBreak(r) < 0
    ensures Payloads(r + "\r" + ("\n" + v)) == Payloads(r + ("\n" + v)) <==> IsHarmless(r, v)
  {
    if EndsInLf(r) {
      EndsWithLf(r);
      AtEmptyLine(r[..|r| - 1], v);
    } else {
      InsideBlock(r, v);
    }
  }

  lemma HarmlessToWhole(u: string, v: string)
    ensures Payloads(u + "\r" + ("\n" + v)) == Payloads(u + ("\n" + v)) <==> IsHarmless(Rest(u), v)
  {
    var r := Rest(u);
    assert u + "\r" + ("\n" + v) == u + ("\r" + ("\n" + v));
    assert r + "\r" + ("\n" + v) == r + ("\r" + ("\n" + v));
    PayloadsAfter(u, "\r" + ("\n" + v));
    PayloadsAfter(u, "\n" + v);
    RestHasNoBreak(u);
    HarmlessToRest(r, v);
    SameBack(Payloads(u), Payloads(r + "\r" + ("\n" + v)), Payloads(r + ("\n" + v)));
  }

  // Reading a carriage return and its line feed apart is the same to every JSON
  // parser as reading them together if and only if the separated line is harmless.
  lemma SeparationIsHarmlessIff(x: string, y: string)
    ensures var apart, together := NormaliseEach([x + "\r", "\n" + y]), NormaliseEach([x + "\r\n" + y]);
            (forall parse: Parser :: OutcomeOf(parse, apart) == OutcomeOf(parse, together))
            <==> IsHarmless(Rest(Normalise(x)), Normalise(y))
  {
    ApartReading(x, y);
    WholeReading(x, y);
    SameForEveryParserIff(NormaliseEach([x + "\r", "\n" + y]), NormaliseEach([x + "\r\n" + y]));
    HarmlessToWhole(Normalise(x), Normalise(y));
  }

  lemma SameBack(a: seq<string>, b: seq<string>, c: seq<string>)
    ensures a + b == a + c <==> b == c
  {
    if a + b == a + c {
      assert |b| == |c|;
      forall i | 0 <= i < |b| ensures b[i] == c[i] {
        assert (a + b)[|a| + i] == b[i] && (a + c)[|a| + i] == c[i];
      }
    }
  }
}
