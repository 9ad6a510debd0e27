// Windows of a fixed width that overlap: how a text too long for one chunk is cut.
module SlidingWindows {
  import opened Text

  // A trimmed passage, and where it stands in its text.
  datatype TextChunk = TextChunk(content: string, start: nat, end: nat)

  function WindowEnd(width: nat, text: string, start: nat): nat {
    if start + width < |text| then start + width else |text|
  }

  // The chunk of one window: its trimmed text, or nothing when the window is blank.
  function WindowChunk(width: nat, text: string, start: nat): seq<TextChunk>
    requires start <= |text|
  {
    var raw := text[start..WindowEnd(width, text, start)];
    var content := Trim(raw);
    if content == "" then []
    else [TextChunk(content, start + Leading(raw), start + Leading(raw) + |content|)]
  }

  function Cut(width: nat, overlap: nat, text: string, start: nat): seq<TextChunk>
    requires overlap < width
    decreases |text| - start
  {
    if start >= |text| then []
    else if start + width >= |text| then WindowChunk(width, text, start)
    else WindowChunk(width, text, start) + Cut(width, overlap, text, start + width - overlap)
  }

  // The chunks of the windows after the one at start.
  function AfterWindow(width: nat, overlap: nat, text: string, start: nat): seq<TextChunk>
    requires overlap < width
  {
    if start + width >= |text| then [] else Cut(width, overlap, text, start + width - overlap)
  }

  lemma CutFirst(width: nat, overlap: nat, text: string, start: nat)
    requires overlap < width && start < |text|
    ensures Cut(width, overlap, text, start)
         == WindowChunk(width, text, start) + AfterWindow(width, overlap, text, start)
  {
    hide WindowChunk;
    if start + width >= |text| {
      assert WindowChunk(width, text, start) + [] == WindowChunk(width, text, start);
    }
  }

  lemma WindowFirst(width: nat, overlap: nat, text: string, start: nat, before: seq<TextChunk>, all: seq<TextChunk>)
    requires overlap < width
    requires start < |text| && before + Cut(width, overlap, text, start) == all
    ensures before + WindowChunk(width, text, start) + AfterWindow(width, overlap, text, start) == all
  {
    hide WindowChunk;
    CutFirst(width, overlap, text, start);
    Associative(before, WindowChunk(width, text, start), AfterWindow(width, overlap, text, start));
  }

  // One window on: what is left to cut is that of the next window, or nothing.
  lemma WindowTaken(width: nat, overlap: nat, text: string, start: nat, before: seq<TextChunk>, all: seq<TextChunk>)
    requires overlap < width
    requires start < |text| && before + Cut(width, overlap, text, start) == all
    ensures start + width >= |text| ==> before + WindowChunk(width, text, start) == all
    ensures start + width < |text| ==>
      before + WindowChunk(width, text, start) + Cut(width, overlap, text, start + width - overlap) == all
  {
    hide WindowChunk;
    WindowFirst(width, overlap, text, start, before, all);
    if start + width >= |text| {
      assert before + WindowChunk(width, text, start) + [] == before + WindowChunk(width, text, start);
    }
  }

  lemma NoWindowLeft(width: nat, overlap: nat, text: string, start: nat, before: seq<TextChunk>, all: seq<TextChunk>)
    requires overlap < width
    requires start >= |text| && before + Cut(width, overlap, text, start) == all
    ensures before == all
  {
    assert before + [] == before;
  }

  lemma Associative<T>(a: seq<T>, b: seq<T>, c: seq<T>)
    ensures a + (b + c) == a + b + c
  {
  }

  // ----- passages

  ghost predicate HasInkAtEnds(p: string) {
    p != "" && IsTrimmed(p)
  }

  predicate FoundAt(s: string, p: string, i: nat) {
    i + |p| <= |s| && s[i..i + |p|] == p
  }

  ghost predicate Contains(s: string, p: string) {
    exists i: nat :: FoundAt(s, p, i)
  }

  // Trimming cuts no passage with ink at its ends.
  lemma TrimKeepsPassage(s: string, p: string)
    requires HasInkAtEnds(p) && Contains(s, p)
    ensures Contains(Trim(s), p) && Trim(s) != ""
  {
    hide Trim, Leading;
    TrimCutsBlankEnds(s);
    var t, k := Trim(s), Leading(s);
    var i: nat :| FoundAt(s, p, i);
    assert s[i] == p[0] && s[i + |p| - 1] == p[|p| - 1];
    assert forall x | 0 <= x < k :: s[..k][x] == s[x];
    assert forall x | k + |t| <= x < |s| :: s[k + |t|..][x - k - |t|] == s[x];
    SliceInSlice(s, k, k + |t|, i - k, |p|);
    assert FoundAt(t, p, i - k);
  }

  // ----- what the windows are

  ghost predicate FromText(width: nat, text: string, c: TextChunk) {
    && c.start < c.end <= |text|
    && c.content == text[c.start..c.end]
    && |c.content| <= width
    && !IsSpace(text[c.start]) && !IsSpace(text[c.end - 1])
  }

  lemma SliceInSlice(s: string, i: nat, j: nat, k: nat, n: nat)
    requires i <= j <= |s| && k + n <= j - i
    ensures s[i..j][k..k + n] == s[i + k..i + k + n]
  {
    var inner, outer := s[i..j][k..k + n], s[i + k..i + k + n];
    assert |inner| == |outer| == n;
    forall x | 0 <= x < n ensures inner[x] == outer[x] {
      assert s[i..j][k + x] == s[i + k + x];
    }
  }

  lemma WindowChunkIsFromText(width: nat, text: string, start: nat)
    requires start <= |text|
    ensures forall c | c in WindowChunk(width, text, start) ::
              FromText(width, text, c) && start <= c.start && c.end <= WindowEnd(width, text, start)
  {
    hide Trim, Leading;
    var raw := text[start..WindowEnd(width, text, start)];
    var content, k := Trim(raw), Leading(raw);
    TrimCutsBlankEnds(raw);
    if content != "" {
      SliceInSlice(text, start, WindowEnd(width, text, start), k, |content|);
      assert text[start + k] == content[0] && text[start + k + |content| - 1] == content[|content| - 1];
    }
  }

  // Every chunk is a trimmed, non-blank passage of the text, no wider than a window, and says where it stands.
  lemma {:induction false} ChunksAreFromText(width: nat, overlap: nat, text: string, start: nat)
    requires overlap < width
    ensures forall c | c in Cut(width, overlap, text, start) :: FromText(width, text, c) && start <= c.start
    decreases |text| - start
  {
    hide WindowChunk;
    if start < |text| {
      CutFirst(width, overlap, text, start);
      WindowChunkIsFromText(width, text, start);
      if start + width < |text| {
        ChunksAreFromText(width, overlap, text, start + width - overlap);
      }
    }
  }

  ghost predicate Covers(chunks: seq<TextChunk>, i: nat, j: nat) {
    exists c | c in chunks :: c.start <= i && j <= c.end
  }

  lemma WindowKeepsInk(width: nat, text: string, start: nat, i: nat, j: nat)
    requires start <= i < j <= WindowEnd(width, text, start) && start <= |text|
    requires !IsSpace(text[i]) && !IsSpace(text[j - 1])
    ensures Covers(WindowChunk(width, text, start), i, j)
  {
    hide Trim, Leading;
    var raw := text[start..WindowEnd(width, text, start)];
    TrimCutsBlankEnds(raw);
    BlankTrimsToNothing(raw);
    assert raw[i - start] == text[i] && raw[j - 1 - start] == text[j - 1];
    var content, k := Trim(raw), Leading(raw);
    assert forall p | 0 <= p < k :: raw[..k][p] == raw[p];
    assert forall p | k + |content| <= p < |raw| :: raw[k + |content|..][p - k - |content|] == raw[p];
    var c := TextChunk(content, start + k, start + k + |content|);
    assert c in WindowChunk(width, text, start) && c.start <= i && j <= c.end;
  }

  lemma CoveredInBoth(a: seq<TextChunk>, b: seq<TextChunk>, i: nat, j: nat)
    requires Covers(a, i, j) || Covers(b, i, j)
    ensures Covers(a + b, i, j)
  {
    var c :| (c in a || c in b) && c.start <= i && j <= c.end;
    assert c in a + b;
  }

  // The overlap at work: any passage at most one character longer than the
  // overlap that begins and ends with ink lies whole inside one chunk. With
  // i + 1 == j: no ink is lost.
  lemma {:induction false} PassagesAreKept(width: nat, overlap: nat, text: string, start: nat, i: nat, j: nat)
    requires overlap < width
    requires start <= i < j <= |text| && j - i <= overlap + 1
    requires !IsSpace(text[i]) && !IsSpace(text[j - 1])
    ensures Covers(Cut(width, overlap, text, start), i, j)
    decreases |text| - start
  {
    hide WindowChunk;
    CutFirst(width, overlap, text, start);
    if j <= WindowEnd(width, text, start) {
      WindowKeepsInk(width, text, start, i, j);
    } else {
      PassagesAreKept(width, overlap, text, start + width - overlap, i, j);
    }
    CoveredInBoth(WindowChunk(width, text, start), AfterWindow(width, overlap, text, start), i, j);
  }

  lemma BlankHasNoWindows(width: nat, overlap: nat, text: string, start: nat)
    requires overlap < width && Blank(text)
    ensures Cut(width, overlap, text, start) == []
  {
    var cut := Cut(width, overlap, text, start);
    assert cut == [] || cut[0] in cut;
    ChunksAreFromText(width, overlap, text, start);
  }
}
