// Chunks of reviewed markdown (chunkReviewedMarkdown in
// src/worker/knowledge-ingestion.ts): within a page, paragraphs are gathered
// up to the limit, each chunk carries over the end of the one before, and a
// paragraph that is too long is cut into overlapping windows.
module ReviewedChunks {
  import opened Options
  import opened Text
  import opened SlidingWindows
  import opened PageMarkers

  const DEFAULT_CHUNK_CHARACTERS := 2400
  const DEFAULT_CHUNK_OVERLAP := 200

  datatype KnowledgeChunk = KnowledgeChunk(
    chunkIndex: nat, content: string, page: Option<nat>, sectionPath: seq<string>)

  // ----- pages

  datatype PageText = PageText(page: Option<nat>, text: string)

  // Without markers the whole text is one page; with markers, text before the first one is no page.
  function Pages(content: string): seq<PageText> {
    var marked := Trimmed(SplitPages(content).pages);
    if marked == [] then [PageText(None, Trim(content))]
    else seq(|marked|, i requires 0 <= i < |marked| => PageText(Some(marked[i].page), marked[i].text))
  }

  // ----- paragraphs

  function DropBreaks(s: string): (r: string)
    ensures |r| <= |s|
  {
    if s != "" && s[0] == '\n' then DropBreaks(s[1..]) else s
  }

  // text.split(/\n{2,}/)
  function SplitParagraphs(s: string): (parts: seq<string>)
    ensures parts != []
    decreases |s|
  {
    if s == "" then [""]
    else if "\n\n" <= s then [""] + SplitParagraphs(DropBreaks(s[2..]))
    else
      var rest := SplitParagraphs(s[1..]);
      [[s[0]] + rest[0]] + rest[1..]
  }

  function TrimmedParts(parts: seq<string>): seq<string> {
    if parts == [] then []
    else
      var p := Trim(parts[0]);
      (if p == "" then [] else [p]) + TrimmedParts(parts[1..])
  }

  function Paragraphs(text: string): seq<string> {
    TrimmedParts(SplitParagraphs(text))
  }

  lemma {:induction false} TrimmedPartsAreParagraphs(parts: seq<string>)
    ensures forall p | p in TrimmedParts(parts) :: HasInkAtEnds(p)
  {
    if parts != [] {
      TrimCutsBlankEnds(parts[0]);
      TrimmedPartsAreParagraphs(parts[1..]);
    }
  }

  function InkOfAll(parts: seq<string>): string {
    if parts == [] then "" else Ink(parts[0]) + InkOfAll(parts[1..])
  }

  lemma {:induction false} DropBreaksKeepsInk(s: string)
    ensures Ink(DropBreaks(s)) == Ink(s)
  {
    if s != "" && s[0] == '\n' {
      DropBreaksKeepsInk(s[1..]);
    }
  }

  lemma EmptyPartHasNoInk(rest: seq<string>)
    ensures InkOfAll([""] + rest) == InkOfAll(rest)
  {
    assert ([""] + rest)[1..] == rest;
  }

  lemma LongerFirstPart(c: char, rest: seq<string>)
    requires rest != []
    ensures InkOfAll([[c] + rest[0]] + rest[1..]) == Ink([c]) + InkOfAll(rest)
  {
    var parts := [[c] + rest[0]] + rest[1..];
    assert parts[1..] == rest[1..];
    InkConcat([c], rest[0]);
    Associative(Ink([c]), Ink(rest[0]), InkOfAll(rest[1..]));
  }

  lemma {:induction false} SplitKeepsInk(s: string)
    ensures InkOfAll(SplitParagraphs(s)) == Ink(s)
    decreases |s|
  {
    if s == "" {
      EmptyPartHasNoInk([]);
      assert [""] + [] == [""];
    } else if "\n\n" <= s {
      SplitKeepsInk(DropBreaks(s[2..]));
      DropBreaksKeepsInk(s[2..]);
      EmptyPartHasNoInk(SplitParagraphs(DropBreaks(s[2..])));
      BlankHasNoInk("\n\n");
      InkConcat("\n\n", s[2..]);
      assert s == "\n\n" + s[2..];
    } else {
      SplitKeepsInk(s[1..]);
      LongerFirstPart(s[0], SplitParagraphs(s[1..]));
      InkConcat([s[0]], s[1..]);
      assert s == [s[0]] + s[1..];
    }
  }

  lemma {:induction false} TrimmedPartsKeepInk(parts: seq<string>)
    ensures InkOfAll(TrimmedParts(parts)) == InkOfAll(parts)
  {
    if parts != [] {
      TrimKeepsInk(parts[0]);
      TrimmedPartsKeepInk(parts[1..]);
      var p, rest := Trim(parts[0]), TrimmedParts(parts[1..]);
      if p == "" {
        assert [] + rest == rest;
      } else {
        assert ([p] + rest)[1..] == rest;
      }
    }
  }

  // The paragraphs hold every character of the page that is not a space, in order.
  lemma ParagraphsKeepInk(text: string)
    ensures InkOfAll(Paragraphs(text)) == Ink(text)
    ensures forall p | p in Paragraphs(text) :: HasInkAtEnds(p)
  {
    SplitKeepsInk(text);
    TrimmedPartsKeepInk(SplitParagraphs(text));
    TrimmedPartsAreParagraphs(SplitParagraphs(text));
  }

  // ----- one page

  // normalized.slice(-overlap), or nothing when there is no overlap.
  function CarriedOver(s: string, overlap: nat): string {
    if overlap == 0 then "" else if |s| <= overlap then s else s[|s| - overlap..]
  }

  // The contents pushed so far and the buffer.
  datatype Gathering = Gathering(contents: seq<string>, buffer: string)

  function Flush(overlap: nat, g: Gathering): Gathering {
    var normalized := Trim(g.buffer);
    if normalized == "" then g
    else Gathering(g.contents + [normalized], CarriedOver(normalized, overlap))
  }

  function Contents(chunks: seq<TextChunk>): (contents: seq<string>)
    ensures |contents| == |chunks|
    ensures forall i | 0 <= i < |chunks| :: contents[i] == chunks[i].content
  {
    seq(|chunks|, i requires 0 <= i < |chunks| => chunks[i].content)
  }

  function Extended(buffer: string, paragraph: string): string {
    if buffer != "" then buffer + "\n\n" + paragraph else paragraph
  }

  function Gather(width: nat, overlap: nat, g: Gathering, paragraph: string): Gathering
    requires overlap < width
  {
    if |paragraph| > width then
      var f := if Trim(g.buffer) != "" then Flush(overlap, g).(buffer := "") else g;
      f.(contents := f.contents + Contents(Cut(width, overlap, paragraph, 0)))
    else if |Extended(g.buffer, paragraph)| > width then
      var f := Flush(overlap, g);
      var buffer := Extended(f.buffer, paragraph);
      f.(buffer := if |buffer| > width then paragraph else buffer)
    else g.(buffer := Extended(g.buffer, paragraph))
  }

  function GatherAll(width: nat, overlap: nat, paragraphs: seq<string>): Gathering
    requires overlap < width
  {
    if paragraphs == [] then Gathering([], "")
    else Gather(width, overlap, GatherAll(width, overlap, paragraphs[..|paragraphs| - 1]), paragraphs[|paragraphs| - 1])
  }

  function PageContents(width: nat, overlap: nat, text: string): seq<string>
    requires overlap < width
  {
    Flush(overlap, GatherAll(width, overlap, Paragraphs(text))).contents
  }

  // ----- headings

  function HashRun(line: string): (n: nat)
    ensures n <= |line|
  {
    if line != "" && line[0] == '#' then 1 + HashRun(line[1..]) else 0
  }

  // /^#{1,6}\s+\S/
  predicate IsHeading(line: string) {
    var n := HashRun(line);
    1 <= n <= 6 && n < |line| && IsSpace(line[n]) && Trim(line[n..]) != ""
  }

  function FirstHeading(lines: seq<string>): Option<string> {
    if lines == [] then None
    else if IsHeading(lines[0]) then Some(lines[0])
    else FirstHeading(lines[1..])
  }

  function InferSectionPath(content: string): seq<string> {
    var heading := FirstHeading(Split(content, '\n'));
    if heading.None? then [] else [Trim(heading.value[HashRun(heading.value)..])]
  }

  // ----- the whole text

  function Numbered(from: nat, page: Option<nat>, contents: seq<string>): (chunks: seq<KnowledgeChunk>)
    ensures |chunks| == |contents|
    ensures forall i | 0 <= i < |contents| ::
              chunks[i] == KnowledgeChunk(from + i, contents[i], page, InferSectionPath(contents[i]))
  {
    seq(|contents|, i requires 0 <= i < |contents| =>
      KnowledgeChunk(from + i, contents[i], page, InferSectionPath(contents[i])))
  }

  // The contents of each page.
  function ContentsOfPages(width: nat, overlap: nat, pages: seq<PageText>): (all: seq<seq<string>>)
    requires overlap < width
    ensures |all| == |pages|
    ensures forall k | 0 <= k < |pages| :: all[k] == PageContents(width, overlap, pages[k].text)
  {
    seq(|pages|, k requires 0 <= k < |pages| => PageContents(width, overlap, pages[k].text))
  }

  // The chunks of the first k pages, given the contents of each.
  function NumberedPages(pages: seq<PageText>, all: seq<seq<string>>, k: nat): seq<KnowledgeChunk>
    requires |all| == |pages| && k <= |pages|
  {
    if k == 0 then []
    else
      var done := NumberedPages(pages, all, k - 1);
      done + Numbered(|done|, pages[k - 1].page, all[k - 1])
  }

  function ChunksOf(width: nat, overlap: nat, content: string): seq<KnowledgeChunk>
    requires overlap < width
  {
    var pages := Pages(content);
    NumberedPages(pages, ContentsOfPages(width, overlap, pages), |pages|)
  }

  // ----- the algorithm

  method CutParagraph(width: nat, overlap: nat, paragraph: string) returns (pieces: seq<string>)
    requires overlap < width
    ensures pieces == Contents(Cut(width, overlap, paragraph, 0))
  {
    hide WindowChunk;
    var chunks: seq<TextChunk> := [];
    var offset := 0;
    ghost var all := Cut(width, overlap, paragraph, 0);
    assert [] + all == all;
    while offset < |paragraph|
      invariant chunks + Cut(width, overlap, paragraph, offset) == all
      decreases |paragraph| - offset
    {
      WindowTaken(width, overlap, paragraph, offset, chunks, all);
      chunks := chunks + WindowChunk(width, paragraph, offset);
      if offset + width >= |paragraph| {
        return Contents(chunks);
      }
      offset := offset + width - overlap;
    }
    NoWindowLeft(width, overlap, paragraph, offset, chunks, all);
    pieces := Contents(chunks);
  }

  lemma GatherNext(width: nat, overlap: nat, paragraphs: seq<string>, i: nat)
    requires overlap < width && i < |paragraphs|
    ensures GatherAll(width, overlap, paragraphs[..i + 1])
         == Gather(width, overlap, GatherAll(width, overlap, paragraphs[..i]), paragraphs[i])
  {
    assert paragraphs[..i + 1][..i] == paragraphs[..i];
  }

  method ChunkPage(width: nat, overlap: nat, text: string) returns (contents: seq<string>)
    requires overlap < width
    ensures contents == PageContents(width, overlap, text)
  {
    var paragraphs := Paragraphs(text);
    var g := Gathering([], "");
    for i := 0 to |paragraphs|
      invariant g == GatherAll(width, overlap, paragraphs[..i])
    {
      var paragraph := paragraphs[i];
      ghost var before := g;
      if |paragraph| > width {
        if Trim(g.buffer) != "" {
          g := Flush(overlap, g).(buffer := "");
        }
        var pieces := CutParagraph(width, overlap, paragraph);
        g := g.(contents := g.contents + pieces);
      } else if |Extended(g.buffer, paragraph)| > width {
        g := Flush(overlap, g);
        g := g.(buffer := Extended(g.buffer, paragraph));
        if |g.buffer| > width {
          g := g.(buffer := paragraph);
        }
      } else {
        g := g.(buffer := Extended(g.buffer, paragraph));
      }
      assert g == Gather(width, overlap, before, paragraph);
      GatherNext(width, overlap, paragraphs, i);
    }
    assert paragraphs[..|paragraphs|] == paragraphs;
    if Trim(g.buffer) != "" {
      g := Flush(overlap, g);
    }
    contents := g.contents;
  }

  // The limits are refused unless 0 <= overlap < width.
  method ChunkReviewedMarkdown(content: string, width: int, overlap: int) returns (r: Option<seq<KnowledgeChunk>>)
    ensures r.Some? <==> 0 < width && 0 <= overlap < width
    ensures r.Some? ==> r.value == ChunksOf(width, overlap, content)
  {
    if width <= 0 || overlap < 0 || overlap >= width {
      return None;
    }
    var pages := Pages(content);
    var chunks: seq<KnowledgeChunk> := [];
    ghost var all := ContentsOfPages(width, overlap, pages);
    for k := 0 to |pages|
      invariant chunks == NumberedPages(pages, all, k)
    {
      var contents := ChunkPage(width, overlap, pages[k].text);
      chunks := chunks + Numbered(|chunks|, pages[k].page, contents);
    }
    r := Some(chunks);
  }

  // ----- sizes

  ghost predicate Fits(width: nat, content: string) {
    1 <= |content| <= width && IsTrimmed(content)
  }

  ghost predicate AllFit(width: nat, contents: seq<string>) {
    forall i | 0 <= i < |contents| :: Fits(width, contents[i])
  }

  ghost predicate GatheringFits(width: nat, g: Gathering) {
    (forall c | c in g.contents :: Fits(width, c)) && |g.buffer| <= width
  }

  lemma FlushFits(width: nat, overlap: nat, g: Gathering)
    requires GatheringFits(width, g)
    ensures GatheringFits(width, Flush(overlap, g))
  {
    TrimCutsBlankEnds(g.buffer);
  }

  lemma CutFits(width: nat, overlap: nat, paragraph: string)
    requires overlap < width
    ensures forall c | c in Contents(Cut(width, overlap, paragraph, 0)) :: Fits(width, c)
  {
    ChunksAreFromText(width, overlap, paragraph, 0);
    var cut := Cut(width, overlap, paragraph, 0);
    forall i | 0 <= i < |cut| ensures Fits(width, Contents(cut)[i]) {
      assert FromText(width, paragraph, cut[i]);
    }
  }

  lemma MorePiecesFit(width: nat, g: Gathering, pieces: seq<string>)
    requires GatheringFits(width, g) && forall c | c in pieces :: Fits(width, c)
    ensures GatheringFits(width, g.(contents := g.contents + pieces))
  {
  }

  lemma GatherFits(width: nat, overlap: nat, g: Gathering, paragraph: string)
    requires overlap < width && GatheringFits(width, g)
    ensures GatheringFits(width, Gather(width, overlap, g, paragraph))
  {
    FlushFits(width, overlap, g);
    if |paragraph| > width {
      CutFits(width, overlap, paragraph);
      var cleared := if Trim(g.buffer) != "" then Flush(overlap, g).(buffer := "") else g;
      MorePiecesFit(width, cleared, Contents(Cut(width, overlap, paragraph, 0)));
    }
  }

  lemma {:induction false} GatherAllFits(width: nat, overlap: nat, paragraphs: seq<string>)
    requires overlap < width
    ensures GatheringFits(width, GatherAll(width, overlap, paragraphs))
  {
    if paragraphs != [] {
      var n := |paragraphs| - 1;
      GatherAllFits(width, overlap, paragraphs[..n]);
      GatherFits(width, overlap, GatherAll(width, overlap, paragraphs[..n]), paragraphs[n]);
    }
  }

  lemma PageContentsFit(width: nat, overlap: nat, text: string)
    requires overlap < width
    ensures AllFit(width, PageContents(width, overlap, text))
  {
    GatherAllFits(width, overlap, Paragraphs(text));
    FlushFits(width, overlap, GatherAll(width, overlap, Paragraphs(text)));
    var contents := PageContents(width, overlap, text);
    forall i | 0 <= i < |contents| ensures Fits(width, contents[i]) {
      assert contents[i] in contents;
    }
  }

  // ----- nothing is lost within a page

  ghost predicate SomeContains(contents: seq<string>, p: string) {
    exists c | c in contents :: Contains(c, p)
  }

  // A paragraph is either in a chunk or still in the buffer.
  ghost predicate Kept(g: Gathering, p: string) {
    SomeContains(g.contents, p) || Contains(g.buffer, p)
  }

  lemma FlushKeeps(overlap: nat, g: Gathering, p: string)
    requires HasInkAtEnds(p) && Kept(g, p)
    ensures SomeContains(Flush(overlap, g).contents, p)
  {
    if SomeContains(g.contents, p) {
      var c :| c in g.contents && Contains(c, p);
      assert c in Flush(overlap, g).contents;
    } else {
      TrimKeepsPassage(g.buffer, p);
      assert Trim(g.buffer) in Flush(overlap, g).contents;
    }
  }

  lemma ExtendedContains(buffer: string, paragraph: string, p: string)
    requires Contains(buffer, p) || p == paragraph
    requires p != ""
    ensures Contains(Extended(buffer, paragraph), p)
  {
    var e := Extended(buffer, paragraph);
    if p == paragraph {
      assert FoundAt(e, p, |e| - |p|);
    } else {
      var i: nat :| FoundAt(buffer, p, i);
      assert FoundAt(e, p, i);
    }
  }

  lemma GatherKeepsOld(width: nat, overlap: nat, g: Gathering, paragraph: string, p: string)
    requires overlap < width && HasInkAtEnds(p) && Kept(g, p)
    ensures Kept(Gather(width, overlap, g, paragraph), p)
  {
    FlushKeeps(overlap, g, p);
    var f := Flush(overlap, g);
    var q := Gather(width, overlap, g, paragraph);
    if |paragraph| <= width && |Extended(g.buffer, paragraph)| <= width {
      if Contains(g.buffer, p) {
        ExtendedContains(g.buffer, paragraph, p);
      }
    } else {
      var c :| c in f.contents && Contains(c, p);
      assert Trim(g.buffer) == "" ==> f == g;
      assert c in q.contents;
    }
  }

  lemma GatherKeepsNew(width: nat, overlap: nat, g: Gathering, paragraph: string)
    requires overlap < width && HasInkAtEnds(paragraph) && |paragraph| <= width
    ensures Kept(Gather(width, overlap, g, paragraph), paragraph)
  {
    ExtendedContains(g.buffer, paragraph, paragraph);
    ExtendedContains(Flush(overlap, g).buffer, paragraph, paragraph);
    ExtendedContains("", paragraph, paragraph);
  }

  lemma InTheInit(s: seq<string>, x: string)
    requires x in s && x != s[|s| - 1]
    ensures x in s[..|s| - 1]
  {
    assert s == s[..|s| - 1] + [s[|s| - 1]];
  }

  lemma {:induction false} GatherAllKeeps(width: nat, overlap: nat, paragraphs: seq<string>, p: string)
    requires overlap < width && HasInkAtEnds(p) && p in paragraphs && |p| <= width
    ensures Kept(GatherAll(width, overlap, paragraphs), p)
  {
    var init, last := paragraphs[..|paragraphs| - 1], paragraphs[|paragraphs| - 1];
    var g := GatherAll(width, overlap, init);
    if p == last {
      GatherKeepsNew(width, overlap, g, p);
    } else {
      InTheInit(paragraphs, p);
      GatherAllKeeps(width, overlap, init, p);
      GatherKeepsOld(width, overlap, g, last, p);
    }
  }

  // A paragraph within the limit is whole inside one chunk of its own page.
  lemma ParagraphsAreWhole(width: nat, overlap: nat, text: string, p: string)
    requires overlap < width && p in Paragraphs(text) && |p| <= width
    ensures SomeContains(PageContents(width, overlap, text), p)
  {
    TrimmedPartsAreParagraphs(SplitParagraphs(text));
    GatherAllKeeps(width, overlap, Paragraphs(text), p);
    FlushKeeps(overlap, GatherAll(width, overlap, Paragraphs(text)), p);
  }

  // A longer paragraph is covered: each passage of it that the overlap allows
  // for is whole inside one chunk of its page, single characters included.
  lemma GatherCoversLong(width: nat, overlap: nat, g: Gathering, paragraph: string, i: nat, j: nat)
    requires overlap < width < |paragraph|
    requires i < j <= |paragraph| && j - i <= overlap + 1
    requires !IsSpace(paragraph[i]) && !IsSpace(paragraph[j - 1])
    ensures SomeContains(Gather(width, overlap, g, paragraph).contents, paragraph[i..j])
  {
    var content := PassageInCut(width, overlap, paragraph, i, j);
    assert content in Gather(width, overlap, g, paragraph).contents;
  }

  lemma PassageInCut(width: nat, overlap: nat, paragraph: string, i: nat, j: nat) returns (content: string)
    requires overlap < width
    requires i < j <= |paragraph| && j - i <= overlap + 1
    requires !IsSpace(paragraph[i]) && !IsSpace(paragraph[j - 1])
    ensures content in Contents(Cut(width, overlap, paragraph, 0)) && Contains(content, paragraph[i..j])
  {
    PassagesAreKept(width, overlap, paragraph, 0, i, j);
    ChunksAreFromText(width, overlap, paragraph, 0);
    var cut := Cut(width, overlap, paragraph, 0);
    var c :| c in cut && c.start <= i && j <= c.end;
    var n :| 0 <= n < |cut| && cut[n] == c;
    assert Contents(cut)[n] == c.content;
    content := c.content;
    PassageInChunk(width, paragraph, c, i, j);
  }

  lemma PassageInChunk(width: nat, paragraph: string, c: TextChunk, i: nat, j: nat)
    requires FromText(width, paragraph, c) && c.start <= i < j <= c.end
    ensures Contains(c.content, paragraph[i..j])
  {
    SliceInSlice(paragraph, c.start, c.end, i - c.start, j - i);
    assert FoundAt(c.content, paragraph[i..j], i - c.start);
  }

  lemma {:induction false} GatherAllCoversLong(width: nat, overlap: nat, paragraphs: seq<string>,
                                               k: nat, i: nat, j: nat)
    requires overlap < width && k < |paragraphs| && |paragraphs[k]| > width
    requires i < j <= |paragraphs[k]| && j - i <= overlap + 1
    requires !IsSpace(paragraphs[k][i]) && !IsSpace(paragraphs[k][j - 1])
    ensures SomeContains(GatherAll(width, overlap, paragraphs).contents, paragraphs[k][i..j])
  {
    var n := |paragraphs| - 1;
    var g := GatherAll(width, overlap, paragraphs[..n]);
    if k == n {
      GatherCoversLong(width, overlap, g, paragraphs[n], i, j);
    } else {
      GatherAllCoversLong(width, overlap, paragraphs[..n], k, i, j);
      var c :| c in g.contents && Contains(c, paragraphs[k][i..j]);
      assert c in GatherAll(width, overlap, paragraphs).contents;
    }
  }

  lemma LongParagraphsAreCovered(width: nat, overlap: nat, text: string, k: nat, i: nat, j: nat)
    requires overlap < width && k < |Paragraphs(text)| && |Paragraphs(text)[k]| > width
    requires i < j <= |Paragraphs(text)[k]| && j - i <= overlap + 1
    requires !IsSpace(Paragraphs(text)[k][i]) && !IsSpace(Paragraphs(text)[k][j - 1])
    ensures SomeContains(PageContents(width, overlap, text), Paragraphs(text)[k][i..j])
  {
    GatherAllCoversLong(width, overlap, Paragraphs(text), k, i, j);
    var g := GatherAll(width, overlap, Paragraphs(text));
    var c :| c in g.contents && Contains(c, Paragraphs(text)[k][i..j]);
    assert c in Flush(overlap, g).contents;
  }

  // ----- the whole text

  lemma {:induction false} EarlierPagesFirst(pages: seq<PageText>, all: seq<seq<string>>, i: nat, k: nat)
    requires |all| == |pages| && i <= k <= |pages|
    ensures NumberedPages(pages, all, i) <= NumberedPages(pages, all, k)
  {
    if i < k {
      EarlierPagesFirst(pages, all, i, k - 1);
    }
  }

  ghost predicate NumberedAndSized(width: nat, chunks: seq<KnowledgeChunk>) {
    && (forall i | 0 <= i < |chunks| :: chunks[i].chunkIndex == i)
    && (forall i | 0 <= i < |chunks| :: Fits(width, chunks[i].content))
  }

  lemma {:induction false} ChunksAreNumberedAndSized(width: nat, pages: seq<PageText>, all: seq<seq<string>>, k: nat)
    requires |all| == |pages| && k <= |pages|
    requires forall i | 0 <= i < |all| :: AllFit(width, all[i])
    ensures NumberedAndSized(width, NumberedPages(pages, all, k))
  {
    if k > 0 {
      ChunksAreNumberedAndSized(width, pages, all, k - 1);
      AppendNumbered(width, NumberedPages(pages, all, k - 1), pages[k - 1].page, all[k - 1]);
    }
  }

  lemma AppendNumbered(width: nat, done: seq<KnowledgeChunk>, page: Option<nat>, contents: seq<string>)
    requires NumberedAndSized(width, done) && AllFit(width, contents)
    ensures NumberedAndSized(width, done + Numbered(|done|, page, contents))
  {
    var chunks := done + Numbered(|done|, page, contents);
    forall i | 0 <= i < |chunks| ensures chunks[i].chunkIndex == i && Fits(width, chunks[i].content) {
      if i < |done| {
        assert chunks[i] == done[i];
      } else {
        assert chunks[i] == Numbered(|done|, page, contents)[i - |done|];
        assert Fits(width, contents[i - |done|]);
      }
    }
  }

  // For every legal pair of limits: indices count from zero, and every chunk has 1 to width characters.
  lemma ReviewedChunksAreSized(width: nat, overlap: nat, content: string)
    requires overlap < width
    ensures NumberedAndSized(width, ChunksOf(width, overlap, content))
  {
    var pages := Pages(content);
    var all := ContentsOfPages(width, overlap, pages);
    forall k | 0 <= k < |all| ensures AllFit(width, all[k]) {
      PageContentsFit(width, overlap, pages[k].text);
    }
    ChunksAreNumberedAndSized(width, pages, all, |pages|);
  }

  lemma NumberedStand(before: seq<KnowledgeChunk>, page: Option<nat>, contents: seq<string>,
                      chunks: seq<KnowledgeChunk>)
    requires before + Numbered(|before|, page, contents) <= chunks
    ensures |before| + |contents| <= |chunks|
    ensures forall i | 0 <= i < |contents| :: chunks[|before| + i]
              == KnowledgeChunk(|before| + i, contents[i], page, InferSectionPath(contents[i]))
  {
    var mine := Numbered(|before|, page, contents);
    forall i | 0 <= i < |contents| ensures chunks[|before| + i] == mine[i] {
      assert (before + mine)[|before| + i] == mine[i];
    }
  }

  // The chunks of page k stand together, after those of the pages before it,
  // and under its number.
  lemma PagesStandInOrder(pages: seq<PageText>, all: seq<seq<string>>, k: nat)
    requires |all| == |pages| && k < |pages|
    ensures var chunks := NumberedPages(pages, all, |pages|);
            var from := |NumberedPages(pages, all, k)|;
            && from + |all[k]| <= |chunks|
            && from + |all[k]| == |NumberedPages(pages, all, k + 1)|
            && forall i | 0 <= i < |all[k]| ::
                 chunks[from + i] == KnowledgeChunk(from + i, all[k][i], pages[k].page, InferSectionPath(all[k][i]))
  {
    hide InferSectionPath, Numbered;
    var before := NumberedPages(pages, all, k);
    EarlierPagesFirst(pages, all, k + 1, |pages|);
    assert NumberedPages(pages, all, k + 1) == before + Numbered(|before|, pages[k].page, all[k]);
    NumberedStand(before, pages[k].page, all[k], NumberedPages(pages, all, |pages|));
  }

  lemma PageContentIsChunk(width: nat, overlap: nat, content: string, k: nat, c: string)
    requires overlap < width && k < |Pages(content)| && c in PageContents(width, overlap, Pages(content)[k].text)
    ensures exists chunk | chunk in ChunksOf(width, overlap, content) ::
              chunk.content == c && chunk.page == Pages(content)[k].page
  {
    var pages := Pages(content);
    var all := ContentsOfPages(width, overlap, pages);
    PagesStandInOrder(pages, all, k);
    var i :| 0 <= i < |all[k]| && all[k][i] == c;
    var chunk := ChunksOf(width, overlap, content)[|NumberedPages(pages, all, k)| + i];
    assert chunk in ChunksOf(width, overlap, content);
  }

  // Every paragraph within the limit is whole in a chunk of its own page.
  lemma ReviewedParagraphsAreWhole(width: nat, overlap: nat, content: string, k: nat, p: string)
    requires overlap < width && k < |Pages(content)|
    requires p in Paragraphs(Pages(content)[k].text) && |p| <= width
    ensures exists chunk | chunk in ChunksOf(width, overlap, content) ::
              Contains(chunk.content, p) && chunk.page == Pages(content)[k].page
  {
    ParagraphsAreWhole(width, overlap, Pages(content)[k].text, p);
    var c :| c in PageContents(width, overlap, Pages(content)[k].text) && Contains(c, p);
    PageContentIsChunk(width, overlap, content, k, c);
  }

  // Every passage the overlap allows for of a longer paragraph is, too.
  lemma ReviewedPassagesAreKept(width: nat, overlap: nat, content: string, k: nat, n: nat, i: nat, j: nat)
    requires overlap < width && k < |Pages(content)|
    requires n < |Paragraphs(Pages(content)[k].text)| && |Paragraphs(Pages(content)[k].text)[n]| > width
    requires i < j <= |Paragraphs(Pages(content)[k].text)[n]| && j - i <= overlap + 1
    requires var p := Paragraphs(Pages(content)[k].text)[n]; !IsSpace(p[i]) && !IsSpace(p[j - 1])
    ensures exists chunk | chunk in ChunksOf(width, overlap, content) ::
              && Contains(chunk.content, Paragraphs(Pages(content)[k].text)[n][i..j])
              && chunk.page == Pages(content)[k].page
  {
    var text := Pages(content)[k].text;
    LongParagraphsAreCovered(width, overlap, text, n, i, j);
    var c :| c in PageContents(width, overlap, text) && Contains(c, Paragraphs(text)[n][i..j]);
    PageContentIsChunk(width, overlap, content, k, c);
  }
}