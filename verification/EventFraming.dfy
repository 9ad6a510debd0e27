// Blocks of a server-sent event stream (src/lib/sse.ts), read in pieces. Line
// ends are brought to one form piece by piece, and a block ends at an empty
// line, a subset of sections 9.2.5 and 9.2.6 of the WHATWG HTML Standard.
module EventFraming {
  // piece.replace(/\r\n/g, "\n")
  function Normalise(s: string): string {
    if s == "" then ""
    else if "\r\n" <= s then "\n" + Normalise(s[2..])
    else [s[0]] + Normalise(s[1..])
  }

  function Concat(pieces: seq<string>): string {
    if pieces == [] then "" else pieces[0] + Concat(pieces[1..])
  }

  // What the buffer receives in all.
  function NormaliseEach(pieces: seq<string>): string {
    if pieces == [] then "" else Normalise(pieces[0]) + NormaliseEach(pieces[1..])
  }

  // ----- blocks

  // The text up to each empty line, and the unfinished rest last.
  function SplitBreaks(s: string): (parts: seq<string>)
    ensures parts != []
  {
    if s == "" then [""]
    else if "\n\n" <= s then [""] + SplitBreaks(s[2..])
    else
      var rest := SplitBreaks(s[1..]);
      [[s[0]] + rest[0]] + rest[1..]
  }

  function Blocks(s: string): seq<string> {
    SplitBreaks(s)[..|SplitBreaks(s)| - 1]
  }

  function Rest(s: string): string {
    SplitBreaks(s)[|SplitBreaks(s)| - 1]
  }

  // buffer.indexOf("\n\n"), or -1.
  function IndexOfBreak(s: string): (i: int)
    ensures -1 <= i && (i >= 0 ==> i + 2 <= |s|)
  {
    if s == "" then -1
    else if "\n\n" <= s then 0
    else
      var i := IndexOfBreak(s[1..]);
      if i < 0 then -1 else i + 1
  }

  // One character before a text moves its first break on by one.
  lemma CutOneOn(s: string, i: nat)
    requires s != "" && i + 2 <= |s[1..]|
    ensures s[..i + 1] == [s[0]] + s[1..][..i] && s[i + 3..] == s[1..][i + 2..]
  {
  }

  lemma CutAfterOne(s: string)
    requires s != "" && !("\n\n" <= s)
    requires var i := IndexOfBreak(s[1..]);
             SplitBreaks(s[1..]) == if i < 0 then [s[1..]] else [s[1..][..i]] + SplitBreaks(s[1..][i + 2..])
    ensures var i := IndexOfBreak(s);
            SplitBreaks(s) == if i < 0 then [s] else [s[..i]] + SplitBreaks(s[i + 2..])
  {
    assert s == [s[0]] + s[1..];
    var i := IndexOfBreak(s[1..]);
    if i >= 0 {
      CutOneOn(s, i);
    }
  }

  lemma {:induction false} CutAtBreak(s: string)
    ensures var i := IndexOfBreak(s);
            SplitBreaks(s) == if i < 0 then [s] else [s[..i]] + SplitBreaks(s[i + 2..])
  {
    if s == "" {
    } else if "\n\n" <= s {
      assert s[..0] == "";
    } else {
      CutAtBreak(s[1..]);
      CutAfterOne(s);
    }
  }

  lemma {:induction false} BreakStays(a: string, b: string)
    requires IndexOfBreak(a) >= 0
    ensures IndexOfBreak(a + b) == IndexOfBreak(a)
  {
    if "\n\n" <= a {
      assert "\n\n" <= a + b;
    } else {
      BreakStays(a[1..], b);
      assert (a + b)[1..] == a[1..] + b;
      assert !("\n\n" <= a + b) by {
        assert |a| >= 2 && (a + b)[0] == a[0] && (a + b)[1] == a[1];
      }
    }
  }

  lemma FirstBlockOfLonger(a: string, b: string)
    requires IndexOfBreak(a) >= 0
    ensures var i := IndexOfBreak(a);
            Blocks(a + b) == [a[..i]] + Blocks(a[i + 2..] + b) && Rest(a + b) == Rest(a[i + 2..] + b)
  {
    var i := IndexOfBreak(a);
    BreakStays(a, b);
    FirstBlock(a + b, i);
    assert (a + b)[..i] == a[..i] && (a + b)[i + 2..] == a[i + 2..] + b;
  }

  lemma OneThenTwo(x: string, a: seq<string>, b: seq<string>)
    ensures [x] + (a + b) == [x] + a + b
  {
  }

  // Appending to the unfinished rest is appending to the whole.
  lemma {:induction false} AppendToRest(a: string, b: string)
    ensures Blocks(a + b) == Blocks(a) + Blocks(Rest(a) + b)
    ensures Rest(a + b) == Rest(Rest(a) + b)
    decreases |a|
  {
    var i := IndexOfBreak(a);
    if i >= 0 {
      AppendToRest(a[i + 2..], b);
      FirstBlock(a, i);
      FirstBlockOfLonger(a, b);
      OneThenTwo(a[..i], Blocks(a[i + 2..]), Blocks(Rest(a) + b));
    } else {
      NoBreakNoBlock(a);
      assert [] + Blocks(a + b) == Blocks(a + b);
    }
  }

  lemma FirstBlock(s: string, i: int)
    requires i == IndexOfBreak(s) >= 0
    ensures Blocks(s) == [s[..i]] + Blocks(s[i + 2..]) && Rest(s) == Rest(s[i + 2..])
  {
    CutAtBreak(s);
    var tail := SplitBreaks(s[i + 2..]);
    assert SplitBreaks(s)[..|tail|] == [s[..i]] + tail[..|tail| - 1];
  }

  lemma NoBreakNoBlock(s: string)
    requires IndexOfBreak(s) < 0
    ensures Blocks(s) == [] && Rest(s) == s
  {
    CutAtBreak(s);
  }

  // ----- pieces and the whole

  predicate EndsInCr(s: string) { s != "" && s[|s| - 1] == '\r' }

  predicate StartsWithLf(s: string) { s != "" && s[0] == '\n' }

  // Some piece ends between a carriage return and its line feed.
  ghost predicate SeparatesCrLf(pieces: seq<string>) {
    exists i | 0 <= i < |pieces| :: EndsInCr(pieces[i]) && StartsWithLf(Concat(pieces[i + 1..]))
  }

  // What normalising a text that starts with x does to x.
  lemma NormaliseStep(s: string)
    requires s != ""
    ensures "\r\n" <= s ==> Normalise(s) == "\n" + Normalise(s[2..])
    ensures !("\r\n" <= s) ==> Normalise(s) == [s[0]] + Normalise(s[1..])
  {
  }

  lemma AppendAfterBreak(a: string, b: string)
    requires "\r\n" <= a
    ensures Normalise(a + b) == "\n" + Normalise(a[2..] + b)
  {
    assert (a + b)[2..] == a[2..] + b;
    assert (a + b)[0] == a[0] && (a + b)[1] == a[1];
  }

  lemma AppendAfterOther(a: string, b: string)
    requires |a| >= 2 && !("\r\n" <= a)
    ensures Normalise(a + b) == [a[0]] + Normalise(a[1..] + b)
  {
    assert (a + b)[1..] == a[1..] + b;
    assert (a + b)[0] == a[0] && (a + b)[1] == a[1];
  }

  lemma AppendAfterOne(c: char, b: string)
    ensures if c == '\r' && StartsWithLf(b) then Normalise([c] + b) == Normalise(b)
            else Normalise([c] + b) == [c] + Normalise(b)
  {
    var s := [c] + b;
    assert s[1..] == b;
    if c == '\r' && StartsWithLf(b) {
      assert s[2..] == b[1..] && s[0] == c && s[1] == b[0];
      NormaliseStep(b);
      assert b[0] != '\r';
    } else if b != "" {
      assert s[1] == b[0];
    }
  }

  // Between a carriage return and its line feed, one character too many is kept; nowhere else.
  ghost predicate Appends(a: string, b: string) {
    if EndsInCr(a) && StartsWithLf(b) then |Normalise(a + b)| + 1 == |Normalise(a)| + |Normalise(b)|
    else Normalise(a + b) == Normalise(a) + Normalise(b)
  }

  lemma BreakThenAppends(a: string, b: string)
    requires "\r\n" <= a && Appends(a[2..], b)
    ensures Appends(a, b)
  {
    AppendAfterBreak(a, b);
    NormaliseStep(a);
    assert EndsInCr(a) <==> EndsInCr(a[2..]);
  }

  lemma OtherThenAppends(a: string, b: string)
    requires |a| >= 2 && !("\r\n" <= a) && Appends(a[1..], b)
    ensures Appends(a, b)
  {
    AppendAfterOther(a, b);
    NormaliseStep(a);
    assert EndsInCr(a) <==> EndsInCr(a[1..]);
  }

  lemma {:induction false} NormaliseAppend(a: string, b: string)
    ensures Appends(a, b)
    decreases |a|
  {
    if a == "" {
      assert a + b == b;
    } else if "\r\n" <= a {
      NormaliseAppend(a[2..], b);
      BreakThenAppends(a, b);
    } else if |a| == 1 {
      assert a == [a[0]] && Normalise(a) == a;
      AppendAfterOne(a[0], b);
    } else {
      NormaliseAppend(a[1..], b);
      OtherThenAppends(a, b);
    }
  }

  lemma {:induction false} EachIsNoShorter(pieces: seq<string>)
    ensures |Normalise(Concat(pieces))| <= |NormaliseEach(pieces)|
    ensures SeparatesCrLf(pieces) ==> |Normalise(Concat(pieces))| < |NormaliseEach(pieces)|
    ensures !SeparatesCrLf(pieces) ==> Normalise(Concat(pieces)) == NormaliseEach(pieces)
  {
    if pieces != [] {
      EachIsNoShorter(pieces[1..]);
      NormaliseAppend(pieces[0], Concat(pieces[1..]));
      SeparatesHeadOrTail(pieces);
    }
  }

  lemma SeparatesHeadOrTail(pieces: seq<string>)
    requires pieces != []
    ensures SeparatesCrLf(pieces)
       <==> (EndsInCr(pieces[0]) && StartsWithLf(Concat(pieces[1..]))) || SeparatesCrLf(pieces[1..])
  {
    var tail := pieces[1..];
    forall i | 0 <= i < |tail| ensures tail[i] == pieces[i + 1] && tail[i + 1..] == pieces[i + 2..] { }
    if SeparatesCrLf(tail) {
      var i :| 0 <= i < |tail| && EndsInCr(tail[i]) && StartsWithLf(Concat(tail[i + 1..]));
      assert EndsInCr(pieces[i + 1]) && StartsWithLf(Concat(pieces[i + 2..]));
    }
    if i :| 1 <= i < |pieces| && EndsInCr(pieces[i]) && StartsWithLf(Concat(pieces[i + 1..])) {
      assert EndsInCr(tail[i - 1]) && StartsWithLf(Concat(tail[i..]));
    }
  }

  // Normalising piece by piece is normalising the whole exactly when no piece
  // ends between a carriage return and its line feed.
  lemma PiecesMatchWholeIff(pieces: seq<string>)
    ensures NormaliseEach(pieces) == Normalise(Concat(pieces)) <==> !SeparatesCrLf(pieces)
  {
    EachIsNoShorter(pieces);
  }
}
