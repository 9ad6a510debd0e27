// Strings as the chunkers use them. A char stands for one code unit.
module Text {

  // The characters String.prototype.trim removes.
  predicate IsSpace(c: char) {
    || '\t' <= c <= '\r' || c == ' ' || c == '\U{A0}' || c == '\U{1680}' || '\U{2000}' <= c <= '\U{200A}'
    || '\U{2028}' <= c <= '\U{2029}' || c == '\U{202F}' || c == '\U{205F}' || c == '\U{3000}' || c == '\U{FEFF}'
  }

  predicate Blank(s: string) {
    forall i | 0 <= i < |s| :: IsSpace(s[i])
  }

  function TrimStart(s: string): (r: string)
    ensures |r| <= |s|
  {
    if s != "" && IsSpace(s[0]) then TrimStart(s[1..]) else s
  }

  lemma {:induction false} TrimStartCuts(s: string)
    ensures var r := TrimStart(s);
            r == s[|s| - |r|..] && Blank(s[..|s| - |r|]) && (r != "" ==> !IsSpace(r[0]))
  {
    if s != "" && IsSpace(s[0]) {
      TrimStartCuts(s[1..]);
      var k := |s| - |TrimStart(s)|;
      assert s[..k] == [s[0]] + s[1..][..k - 1];
    }
  }

  function TrimEnd(s: string): (r: string)
    ensures |r| <= |s|
  {
    if s != "" && IsSpace(s[|s| - 1]) then TrimEnd(s[..|s| - 1]) else s
  }

  lemma {:induction false} TrimEndCuts(s: string)
    ensures var r := TrimEnd(s);
            r == s[..|r|] && Blank(s[|r|..]) && (r != "" ==> !IsSpace(r[|r| - 1]))
  {
    if s != "" && IsSpace(s[|s| - 1]) {
      var init := s[..|s| - 1];
      TrimEndCuts(init);
      var r := TrimEnd(s);
      assert s[|r|..] == init[|r|..] + [s[|s| - 1]];
    }
  }

  function Trim(s: string): string {
    TrimEnd(TrimStart(s))
  }

  // No space at either end.
  predicate IsTrimmed(s: string) {
    s != "" ==> !IsSpace(s[0]) && !IsSpace(s[|s| - 1])
  }

  function Leading(s: string): nat {
    |s| - |TrimStart(s)|
  }

  // What Trim does: it cuts blank ends and nothing else.
  lemma TrimCutsBlankEnds(s: string)
    ensures var t, k := Trim(s), Leading(s);
            && k + |t| <= |s| && t == s[k..k + |t|]
            && IsTrimmed(t) && Blank(s[..k]) && Blank(s[k + |t|..])
  {
    var r := TrimStart(s);
    var t, k := Trim(s), Leading(s);
    TrimStartCuts(s);
    TrimEndCuts(r);
    assert t == s[k..k + |t|] && s[k + |t|..] == r[|t|..] by {
      SliceOfSlice(s, k, |t|);
    }
    if t != "" {
      assert t[0] == r[0];
    }
  }

  lemma SliceOfSlice(s: string, k: nat, n: nat)
    requires k + n <= |s|
    ensures s[k..][..n] == s[k..k + n] && s[k..][n..] == s[k + n..]
  {
  }

  lemma BlankConcat(a: string, b: string)
    ensures Blank(a + b) <==> Blank(a) && Blank(b)
  {
    forall i | 0 <= i < |a| ensures (a + b)[i] == a[i] { }
    forall i | 0 <= i < |b| ensures (a + b)[|a| + i] == b[i] { }
  }

  lemma BlankTrimsToNothing(s: string)
    ensures Blank(s) <==> Trim(s) == ""
  {
    TrimCutsBlankEnds(s);
    var t, k := Trim(s), Leading(s);
    if t == "" {
      BlankConcat(s[..k], s[k..]);
      assert s == s[..k] + s[k..];
    } else {
      assert s[k] == t[0];
    }
  }

  // The first and the last character that is not a space.
  predicate Inked(s: string, first: nat, last: nat) {
    && first <= last < |s| && !IsSpace(s[first]) && !IsSpace(s[last])
    && (forall i | 0 <= i < first :: IsSpace(s[i]))
    && (forall i | last < i < |s| :: IsSpace(s[i]))
  }

  lemma BetweenBlanks(a: string, t: string, b: string)
    requires Blank(a) && Blank(b) && IsTrimmed(t) && t != ""
    ensures Inked(a + t + b, |a|, |a| + |t| - 1)
  {
    var s := a + t + b;
    assert s[|a|] == t[0] && s[|a| + |t| - 1] == t[|t| - 1];
    forall i | 0 <= i < |a| ensures IsSpace(s[i]) { assert s[i] == a[i]; }
    forall i | |a| + |t| - 1 < i < |s| ensures IsSpace(s[i]) { assert s[i] == b[i - |a| - |t|]; }
  }

  // The trimmed part is the only way to see a string as a trimmed text between blanks.
  lemma TrimIsUnique(a: string, t: string, b: string)
    requires Blank(a) && Blank(b) && IsTrimmed(t) && t != ""
    ensures Trim(a + t + b) == t && Leading(a + t + b) == |a|
  {
    var s := a + t + b;
    BetweenBlanks(a, t, b);
    TrimCutsBlankEnds(s);
    BlankTrimsToNothing(s);
    var u, k := Trim(s), Leading(s);
    BetweenBlanks(s[..k], u, s[k + |u|..]);
    ThreeParts(s, k, k + |u|);
    assert s[|a|..|a| + |t|] == t;
  }

  lemma ThreeParts(s: string, i: nat, j: nat)
    requires i <= j <= |s|
    ensures s == s[..i] + s[i..j] + s[j..]
  {
    assert s[..j] == s[..i] + s[i..j];
  }

  lemma BlankPrefixTrims(a: string, s: string)
    requires Blank(a)
    ensures Trim(a + s) == Trim(s)
  {
    TrimCutsBlankEnds(s);
    var t, k := Trim(s), Leading(s);
    if t == "" {
      BlankTrimsToNothing(s);
      BlankConcat(a, s);
      BlankTrimsToNothing(a + s);
    } else {
      ThreeParts(s, k, k + |t|);
      var front, back := s[..k], s[k + |t|..];
      BlankConcat(a, front);
      TrimIsUnique(a + front, t, back);
      assert a + s == a + front + t + back;
    }
  }

  // ----- lines

  function Join(parts: seq<string>, separator: string): string {
    if parts == [] then ""
    else if |parts| == 1 then parts[0]
    else parts[0] + separator + Join(parts[1..], separator)
  }

  lemma {:induction false} JoinAppend(parts: seq<string>, last: string, separator: string)
    ensures Join(parts + [last], separator)
         == if parts == [] then last else Join(parts, separator) + separator + last
  {
    if |parts| <= 1 {
      if |parts| == 1 {
        assert (parts + [last])[1..] == [last];
      }
    } else {
      assert (parts + [last])[1..] == parts[1..] + [last];
      JoinAppend(parts[1..], last, separator);
    }
  }

  lemma {:induction false} JoinConcat(a: seq<string>, b: seq<string>, separator: string)
    requires a != [] && b != []
    ensures Join(a + b, separator) == Join(a, separator) + separator + Join(b, separator)
  {
    if |a| == 1 {
      assert (a + b)[1..] == b;
    } else {
      assert (a + b)[1..] == a[1..] + b;
      JoinConcat(a[1..], b, separator);
    }
  }

  function Split(s: string, c: char): (parts: seq<string>)
    ensures |parts| > 0
  {
    if s == "" then [""]
    else
      var rest := Split(s[1..], c);
      if s[0] == c then [""] + rest else [[s[0]] + rest[0]] + rest[1..]
  }

  // s.split(/\r?\n/): a carriage return right before a line feed belongs to the break.
  function SplitLines(s: string): (parts: seq<string>)
    ensures |parts| > 0
  {
    if s == "" then [""]
    else if "\r\n" <= s then [""] + SplitLines(s[2..])
    else
      var rest := SplitLines(s[1..]);
      if s[0] == '\n' then [""] + rest else [[s[0]] + rest[0]] + rest[1..]
  }

  // Splitting loses nothing.
  lemma {:induction false} JoinSplit(s: string, c: char)
    ensures Join(Split(s, c), [c]) == s
  {
    if s != "" {
      JoinSplit(s[1..], c);
      var rest := Split(s[1..], c);
      if s[0] == c {
        assert ([""] + rest)[1..] == rest;
        assert Join(Split(s, c), [c]) == "" + [c] + s[1..];
      } else {
        var parts := [[s[0]] + rest[0]] + rest[1..];
        assert parts[1..] == rest[1..];
        if |rest| > 1 {
          assert Join(parts, [c]) == [s[0]] + (rest[0] + [c] + Join(rest[1..], [c]));
        }
      }
    }
  }

  lemma SplitInjective(s: string, t: string, c: char)
    ensures Split(s, c) == Split(t, c) <==> s == t
  {
    JoinSplit(s, c);
    JoinSplit(t, c);
  }

  function Count(s: string, c: char): nat {
    if s == "" then 0 else (if s[0] == c then 1 else 0) + Count(s[1..], c)
  }

  lemma {:induction false} CountConcat(s: string, t: string, c: char)
    ensures Count(s + t, c) == Count(s, c) + Count(t, c)
  {
    if s == "" {
      assert s + t == t;
    } else {
      assert (s + t)[1..] == s[1..] + t;
      CountConcat(s[1..], t, c);
    }
  }

  lemma CountSlice(s: string, i: nat, j: nat, c: char)
    requires i <= j <= |s|
    ensures Count(s[..j], c) == Count(s[..i], c) + Count(s[i..j], c) <= Count(s, c)
  {
    assert s[..j] == s[..i] + s[i..j];
    CountConcat(s[..i], s[i..j], c);
    assert s == s[..j] + s[j..];
    CountConcat(s[..j], s[j..], c);
  }

  lemma {:induction false} SplitCounts(s: string, c: char)
    ensures |Split(s, c)| == Count(s, c) + 1
  {
    if s != "" {
      SplitCounts(s[1..], c);
    }
  }

  // ----- what is left of a text without its spaces

  function Ink(s: string): string {
    if s == "" then "" else (if IsSpace(s[0]) then "" else [s[0]]) + Ink(s[1..])
  }

  lemma {:induction false} InkConcat(s: string, t: string)
    ensures Ink(s + t) == Ink(s) + Ink(t)
  {
    if s == "" {
      assert s + t == t;
    } else {
      assert (s + t)[1..] == s[1..] + t;
      InkConcat(s[1..], t);
    }
  }

  lemma {:induction false} BlankHasNoInk(s: string)
    requires Blank(s)
    ensures Ink(s) == ""
  {
    if s != "" {
      BlankHasNoInk(s[1..]);
    }
  }

  lemma TrimKeepsInk(s: string)
    ensures Ink(Trim(s)) == Ink(s)
  {
    TrimCutsBlankEnds(s);
    var t, k := Trim(s), Leading(s);
    ThreeParts(s, k, k + |t|);
    InkConcat(s[..k] + t, s[k + |t|..]);
    InkConcat(s[..k], t);
    BlankHasNoInk(s[..k]);
    BlankHasNoInk(s[k + |t|..]);
  }
}
