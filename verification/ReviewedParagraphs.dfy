// What the paragraphs and headings of reviewed text are, said of the text
// itself (chunkReviewedMarkdown and inferSectionPath in
// src/worker/knowledge-ingestion.ts).
module ReviewedParagraphs {
  import opened Text
  import opened SlidingWindows
  import opened ReviewedChunks

  // ----- paragraphs

  ghost predicate BreakAt(s: string, i: nat) {
    i + 1 < |s| && s[i] == '\n' && s[i + 1] == '\n'
  }

  ghost predicate HasBreak(s: string) {
    exists i: nat :: BreakAt(s, i)
  }

  lemma BreakAhead(s: string)
    requires s != ""
    ensures HasBreak(s) <==> BreakAt(s, 0) || HasBreak(s[1..])
  {
    if HasBreak(s[1..]) {
      var i: nat :| BreakAt(s[1..], i);
      assert BreakAt(s, i + 1);
    }
    if HasBreak(s) && !BreakAt(s, 0) {
      var i: nat :| BreakAt(s, i);
      assert BreakAt(s[1..], i - 1);
    }
  }

  lemma BreakIsAhead(s: string)
    ensures BreakAt(s, 0) <==> "\n\n" <= s
  {
    if BreakAt(s, 0) {
      assert s[..2] == "\n\n";
    }
  }

  lemma {:induction false} FirstPartBegins(s: string)
    ensures var first := SplitParagraphs(s)[0]; first <= s
  {
    if s != "" && !("\n\n" <= s) {
      FirstPartBegins(s[1..]);
    }
  }

  lemma {:induction false} PartsHaveNoBreak(s: string)
    ensures forall p | p in SplitParagraphs(s) :: !HasBreak(p)
    decreases |s|
  {
    if s == "" {
    } else if "\n\n" <= s {
      PartsHaveNoBreak(DropBreaks(s[2..]));
    } else {
      PartsHaveNoBreak(s[1..]);
      FirstPartBegins(s[1..]);
      var rest := SplitParagraphs(s[1..]);
      var first := [s[0]] + rest[0];
      assert first[1..] == rest[0] && rest[0] in rest;
      BreakIsAhead(s);
      assert rest[0] != "" ==> first[1] == rest[0][0] == s[1];
      assert first[0] == s[0] && !BreakAt(first, 0);
      BreakAhead(first);
      assert forall p | p in rest[1..] :: p in rest;
    }
  }

  lemma TrimAddsNoBreak(s: string)
    ensures HasBreak(Trim(s)) ==> HasBreak(s)
  {
    TrimCutsBlankEnds(s);
    var t, k := Trim(s), Leading(s);
    if HasBreak(t) {
      var i: nat :| BreakAt(t, i);
      assert BreakAt(s, k + i);
    }
  }

  lemma {:induction false} TrimmedPartsHaveNoBreak(parts: seq<string>)
    requires forall p | p in parts :: !HasBreak(p)
    ensures forall p | p in TrimmedParts(parts) :: !HasBreak(p)
  {
    hide HasBreak;
    if parts != [] {
      TrimAddsNoBreak(parts[0]);
      assert forall p | p in parts[1..] :: p in parts;
      TrimmedPartsHaveNoBreak(parts[1..]);
    }
  }

  // No paragraph has an empty line in it.
  lemma ParagraphsHaveNoBreak(text: string)
    ensures forall p | p in Paragraphs(text) :: !HasBreak(p)
  {
    PartsHaveNoBreak(text);
    TrimmedPartsHaveNoBreak(SplitParagraphs(text));
  }

  ghost predicate IsParagraph(p: string) {
    HasInkAtEnds(p) && !HasBreak(p)
  }

  // A text without a break, up to the break after it.
  lemma {:induction false} SplitAtBreak(p: string, rest: string)
    requires !HasBreak(p) && (p != "" ==> p[|p| - 1] != '\n')
    requires rest != "" && rest[0] != '\n'
    ensures SplitParagraphs(p + "\n\n" + rest) == [p] + SplitParagraphs(rest)
  {
    var s := p + "\n\n" + rest;
    if p == "" {
      assert s == "\n\n" + rest && s[2..] == rest;
    } else {
      BreakAhead(p);
      BreakIsAhead(s);
      assert s[0] == p[0] && (|p| > 1 ==> s[1] == p[1]);
      assert s[1..] == p[1..] + "\n\n" + rest;
      SplitAtBreak(p[1..], rest);
      assert ([p[1..]] + SplitParagraphs(rest))[1..] == SplitParagraphs(rest);
      assert [p[0]] + p[1..] == p;
    }
  }

  lemma {:induction false} SplitWithoutBreak(p: string)
    requires !HasBreak(p)
    ensures SplitParagraphs(p) == [p]
  {
    if p != "" {
      BreakAhead(p);
      BreakIsAhead(p);
      SplitWithoutBreak(p[1..]);
      assert [p[0]] + p[1..] == p;
    }
  }

  lemma ParagraphsOfMore(p: string, rest: string)
    requires IsParagraph(p) && rest != "" && !IsSpace(rest[0])
    ensures Paragraphs(p + "\n\n" + rest) == [p] + Paragraphs(rest)
  {
    SplitAtBreak(p, rest);
    var parts := SplitParagraphs(rest);
    assert ([p] + parts)[1..] == parts;
    TrimIsUnique("", p, "");
    assert "" + p + "" == p;
  }

  lemma OneParagraph(p: string)
    requires IsParagraph(p)
    ensures Paragraphs(p) == [p]
  {
    SplitWithoutBreak(p);
    TrimIsUnique("", p, "");
    assert "" + p + "" == p;
    var parts := [p];
    assert parts[1..] == [] && TrimmedParts(parts[1..]) == [];
    assert TrimmedParts(parts) == [p] + TrimmedParts(parts[1..]) == [p];
  }

  lemma JoinStarts(ps: seq<string>)
    requires ps != [] && HasInkAtEnds(ps[0])
    ensures Join(ps, "\n\n") != "" && Join(ps, "\n\n")[0] == ps[0][0]
  {
  }

  // Paragraphs joined by empty lines are found again, all of them and no others.
  lemma {:induction false} ParagraphsRoundTrip(ps: seq<string>)
    requires forall i | 0 <= i < |ps| :: IsParagraph(ps[i])
    ensures Paragraphs(Join(ps, "\n\n")) == ps
  {
    if ps == [] {
      BlankTrimsToNothing("");
    } else if |ps| == 1 {
      OneParagraph(ps[0]);
      assert [ps[0]] == ps;
    } else {
      ParagraphsRoundTrip(ps[1..]);
      assert IsParagraph(ps[0]) && IsParagraph(ps[1]);
      JoinStarts(ps[1..]);
      ParagraphsOfMore(ps[0], Join(ps[1..], "\n\n"));
    }
  }

  // ----- headings

  // One to six hash signs, then spaces, then something else, at column m.
  ghost predicate IsHeadingAt(line: string, n: nat, m: nat) {
    && 1 <= n <= 6 && n < m < |line|
    && (forall i | 0 <= i < n :: line[i] == '#')
    && (forall i | n <= i < m :: IsSpace(line[i]))
    && !IsSpace(line[m])
  }

  lemma {:induction false} HashRunCounts(line: string)
    ensures var n := HashRun(line);
            (forall i | 0 <= i < n :: line[i] == '#') && (n < |line| ==> line[n] != '#')
  {
    if line != "" && line[0] == '#' {
      HashRunCounts(line[1..]);
      var n := HashRun(line[1..]);
      assert forall i | 1 <= i < n + 1 :: line[i] == line[1..][i - 1];
    }
  }

  lemma HeadingIff(line: string)
    ensures IsHeading(line) <==> exists n: nat, m: nat :: IsHeadingAt(line, n, m)
    ensures forall n: nat, m: nat | IsHeadingAt(line, n, m) ::
              n == HashRun(line) && Trim(line[n..]) == Trim(line[m..])
  {
    HashRunCounts(line);
    var h := HashRun(line);
    forall n: nat, m: nat | IsHeadingAt(line, n, m)
      ensures n == h && Trim(line[n..]) == Trim(line[m..]) && IsHeading(line)
    {
      assert line[n] != '#';
      SpacesTrimAway(line, n, m);
    }
    if IsHeading(line) {
      TrimCutsBlankEnds(line[h..]);
      var k := Leading(line[h..]);
      assert line[h..][0] == line[h];
      FirstInk(line, h, k);
    }
  }

  lemma SpacesTrimAway(line: string, n: nat, m: nat)
    requires n <= m < |line| && !IsSpace(line[m]) && forall i | n <= i < m :: IsSpace(line[i])
    ensures Trim(line[n..]) == Trim(line[m..]) != ""
  {
    var a, b := line[n..m], line[m..];
    assert line[n..] == a + b && b[0] == line[m];
    BlankPrefixTrims(a, b);
    BlankTrimsToNothing(b);
  }

  lemma FirstInk(line: string, h: nat, k: nat)
    requires 1 <= h <= 6 && h < |line| && IsSpace(line[h]) && k == Leading(line[h..])
    requires forall i | 0 <= i < h :: line[i] == '#'
    requires Trim(line[h..]) != ""
    ensures IsHeadingAt(line, h, h + k)
  {
    var rest := line[h..];
    TrimCutsBlankEnds(rest);
    var t := Trim(rest);
    assert rest[k] == t[0] && rest[k] == line[h + k];
    assert rest[0] == line[h];
    forall i | h <= i < h + k ensures IsSpace(line[i]) {
      assert rest[..k][i - h] == line[i];
    }
  }

  // The section of a chunk is the text of its first heading, if it has any.
  lemma SectionIsFirstHeading(content: string, k: nat, n: nat, m: nat)
    requires k < |Split(content, '\n')| && IsHeadingAt(Split(content, '\n')[k], n, m)
    requires forall j | 0 <= j < k :: !exists a: nat, b: nat :: IsHeadingAt(Split(content, '\n')[j], a, b)
    ensures InferSectionPath(content) == [Trim(Split(content, '\n')[k][m..])]
  {
    var lines := Split(content, '\n');
    forall j | 0 <= j < k ensures !IsHeading(lines[j]) {
      HeadingIff(lines[j]);
    }
    HeadingIff(lines[k]);
    FirstHeadingIs(lines, k);
  }

  lemma {:induction false} FirstHeadingIs(lines: seq<string>, k: nat)
    requires k < |lines| && IsHeading(lines[k]) && forall j | 0 <= j < k :: !IsHeading(lines[j])
    ensures FirstHeading(lines).Some? && FirstHeading(lines).value == lines[k]
  {
    if k > 0 {
      assert forall j | 0 <= j < k - 1 :: lines[1..][j] == lines[j + 1];
      FirstHeadingIs(lines[1..], k - 1);
    }
  }

  lemma {:induction false} NoFirstHeading(lines: seq<string>)
    requires forall j | 0 <= j < |lines| :: !IsHeading(lines[j])
    ensures FirstHeading(lines).None?
  {
    if lines != [] {
      NoFirstHeading(lines[1..]);
    }
  }

  lemma NoSectionWithoutHeading(content: string)
    requires forall line | line in Split(content, '\n') :: !exists n: nat, m: nat :: IsHeadingAt(line, n, m)
    ensures InferSectionPath(content) == []
  {
    var lines := Split(content, '\n');
    forall j | 0 <= j < |lines| ensures !IsHeading(lines[j]) {
      assert lines[j] in lines;
      HeadingIff(lines[j]);
    }
    NoFirstHeading(lines);
  }
}
