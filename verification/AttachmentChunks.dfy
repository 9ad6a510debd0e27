// Chunks of plain text and of parsed documents (src/worker/chat-storage.ts).
module AttachmentChunks {
  import opened Options
  import opened Text
  import opened SlidingWindows
  import opened TextWindows
  import opened AttachmentTypes
  import CsvChunks

  datatype Page = Page(markdown: Option<string>, pageNumber: Option<int>)

  // ----- plain text

  function LineNumberAt(text: string, offset: nat): nat {
    |Split(text[..if offset <= |text| then offset else |text|], '\n')|
  }

  function TextLocator(markdown: bool, text: string, c: TextChunk): Locator {
    Lines(markdown, LineNumberAt(text, c.start), LineNumberAt(text, c.end))
  }

  function LocalChunks(markdown: bool, text: string, windows: seq<TextChunk>): (chunks: seq<Chunk>)
    ensures |chunks| == |windows|
    ensures forall i | 0 <= i < |windows| ::
              chunks[i] == Chunk(i, windows[i].content, TextLocator(markdown, text, windows[i]))
  {
    seq(|windows|, i requires 0 <= i < |windows| =>
      Chunk(i, windows[i].content, TextLocator(markdown, text, windows[i])))
  }

  // A locator spans as many line breaks as its chunk contains.
  lemma LocatorSpansContent(text: string, c: TextChunk)
    requires IsPassage(text, c)
    ensures LineNumberAt(text, c.end) - LineNumberAt(text, c.start) == Count(c.content, '\n')
    ensures LineNumberAt(text, c.start) == 1 + Count(text[..c.start], '\n')
    ensures LineNumberAt(text, c.end) <= |Split(text, '\n')|
  {
    SplitCounts(text[..c.start], '\n');
    SplitCounts(text[..c.end], '\n');
    SplitCounts(text, '\n');
    CountSlice(text, c.start, c.end, '\n');
  }

  lemma LocalLocatorsAreExact(markdown: bool, text: string)
    ensures forall c | c in LocalChunks(markdown, text, Windows(text)) ::
              && c.locator.Lines? && c.locator.markdown == markdown
              && 1 <= c.locator.lineStart
              && c.locator.lineEnd - c.locator.lineStart == Count(c.content, '\n')
              && c.locator.lineEnd <= |Split(text, '\n')|
  {
    var windows := Windows(text);
    WindowsArePassages(text);
    forall i | 0 <= i < |windows|
      ensures var c := LocalChunks(markdown, text, windows)[i];
              && c.locator.markdown == markdown && 1 <= c.locator.lineStart
              && c.locator.lineEnd - c.locator.lineStart == Count(c.content, '\n')
              && c.locator.lineEnd <= |Split(text, '\n')|
    {
      assert windows[i] in windows;
      LocatorSpansContent(text, windows[i]);
    }
  }

  // The chunks of a local file, or nothing when it is not text worth chunking:
  // not UTF-8, blank, with a NUL, or with too many chunks.
  function LocalTextChunks(mimeType: string, text: Option<string>): Option<seq<Chunk>> {
    if text.None? || Trim(text.value) == "" || '\0' in text.value then None
    else if mimeType == "text/csv" then
      var chunks := CsvChunks.CsvChunksOf(SplitLines(text.value));
      if 1 <= |chunks| <= AttachmentTypes.MAX_CHUNKS then Some(chunks) else None
    else
      var windows := Windows(text.value);
      if |windows| <= AttachmentTypes.MAX_CHUNKS then
        Some(LocalChunks(mimeType == "text/markdown", text.value, windows))
      else None
  }

  method ChunksForLocalText(mimeType: string, text: Option<string>) returns (r: Option<seq<Chunk>>)
    ensures r == LocalTextChunks(mimeType, text)
  {
    if text.None? || Trim(text.value) == "" || '\0' in text.value {
      return None;
    }
    if mimeType == "text/csv" {
      r := CsvChunks.ChunksForCsv(text.value);
      return;
    }
    var windows := ChunkText(text.value);
    if windows.None? {
      return None;
    }
    r := Some(LocalChunks(mimeType == "text/markdown", text.value, windows.value));
  }

  // ----- parsed documents

  function PageText(p: Page): string {
    if p.markdown.Some? then Trim(p.markdown.value) else ""
  }

  // A page without a number takes its position in the document.
  function PageNumber(pages: seq<Page>, k: nat): int
    requires k < |pages|
  {
    if pages[k].pageNumber.Some? then pages[k].pageNumber.value else k + 1
  }

  function PageChunk(page: int, ordinal: nat, c: TextChunk): Chunk {
    Chunk(ordinal, c.content, PageSpan(page, c.start, c.end))
  }

  function PageChunks(page: int, from: nat, windows: seq<TextChunk>): (chunks: seq<Chunk>)
    ensures |chunks| == |windows|
    ensures forall i | 0 <= i < |windows| :: chunks[i] == PageChunk(page, from + i, windows[i])
  {
    seq(|windows|, i requires 0 <= i < |windows| => PageChunk(page, from + i, windows[i]))
  }

  // The chunks of the first k pages.
  function DocumentChunks(pages: seq<Page>, k: nat): seq<Chunk>
    requires k <= |pages|
  {
    if k == 0 then []
    else
      var done := DocumentChunks(pages, k - 1);
      done + PageChunks(PageNumber(pages, k - 1), |done|, Windows(PageText(pages[k - 1])))
  }

  lemma {:induction false} DocumentChunksGrow(pages: seq<Page>, i: nat, k: nat)
    requires i <= k <= |pages|
    ensures DocumentChunks(pages, i) <= DocumentChunks(pages, k)
  {
    hide PageChunks, Windows, PageText;
    if i < k {
      DocumentChunksGrow(pages, i, k - 1);
      var done := DocumentChunks(pages, k - 1);
      PrefixOfMore(DocumentChunks(pages, i), done,
                   PageChunks(PageNumber(pages, k - 1), |done|, Windows(PageText(pages[k - 1]))));
    }
  }

  lemma PrefixOfMore(a: seq<Chunk>, b: seq<Chunk>, more: seq<Chunk>)
    requires a <= b
    ensures a <= b + more
  {
  }

  // The inner loop: one page's windows are pushed one by one until the limit is exceeded.
  method PushPage(before: seq<Chunk>, page: int, windows: seq<TextChunk>) returns (r: Option<seq<Chunk>>)
    requires |before| <= AttachmentTypes.MAX_CHUNKS
    ensures r.Some? <==> |before| + |windows| <= AttachmentTypes.MAX_CHUNKS
    ensures r.Some? ==> r.value == before + PageChunks(page, |before|, windows)
  {
    var chunks := before;
    ghost var pushed := PageChunks(page, |before|, windows);
    for i := 0 to |windows|
      invariant chunks == before + pushed[..i]
      invariant |chunks| <= AttachmentTypes.MAX_CHUNKS
    {
      assert pushed[..i + 1] == pushed[..i] + [pushed[i]];
      chunks := chunks + [PageChunk(page, |chunks|, windows[i])];
      if |chunks| > AttachmentTypes.MAX_CHUNKS {
        return None;
      }
    }
    assert pushed[..|windows|] == pushed;
    r := Some(chunks);
  }

  lemma EmptyHasNoWindows()
    ensures Windows("") == []
  {
  }

  // Nothing extractable is an error, and so are too many chunks.
  method ChunksForParsedDocument(pages: seq<Page>) returns (r: Option<seq<Chunk>>)
    ensures r.Some? <==> 1 <= |DocumentChunks(pages, |pages|)| <= AttachmentTypes.MAX_CHUNKS
    ensures r.Some? ==> r.value == DocumentChunks(pages, |pages|)
  {
    hide PageChunks, Windows, Trim;
    EmptyHasNoWindows();
    var chunks: seq<Chunk> := [];
    for pageIndex := 0 to |pages|
      invariant chunks == DocumentChunks(pages, pageIndex) && |chunks| <= AttachmentTypes.MAX_CHUNKS
    {
      DocumentChunksGrow(pages, pageIndex + 1, |pages|);
      var markdown := PageText(pages[pageIndex]);
      if markdown == "" {
        continue;
      }
      var windows := ChunkText(markdown);
      if windows.None? {
        return None;
      }
      var pushed := PushPage(chunks, PageNumber(pages, pageIndex), windows.value);
      if pushed.None? {
        return None;
      }
      chunks := pushed.value;
    }
    r := if |chunks| == 0 then None else Some(chunks);
  }

  ghost predicate FromPage(pages: seq<Page>, k: nat, c: Chunk)
    requires k < |pages|
  {
    && c.locator.PageSpan?
    && c.locator.page == (if pages[k].pageNumber.Some? then pages[k].pageNumber.value else k + 1)
    && pages[k].markdown.Some?
    && IsPassage(Trim(pages[k].markdown.value),
                 TextChunk(c.content, c.locator.characterStart, c.locator.characterEnd))
  }

  ghost predicate FromFirstPages(pages: seq<Page>, k: nat, c: Chunk)
    requires k <= |pages|
  {
    exists p | 0 <= p < k :: FromPage(pages, p, c)
  }

  // Numbered on from the given ordinal, each the passage of one of the first k pages that its locator says.
  ghost predicate AreExact(pages: seq<Page>, k: nat, from: nat, chunks: seq<Chunk>)
    requires k <= |pages|
  {
    forall i | 0 <= i < |chunks| :: chunks[i].ordinal == from + i && FromFirstPages(pages, k, chunks[i])
  }

  lemma PageIsExact(pages: seq<Page>, k: nat, from: nat)
    requires k < |pages|
    ensures AreExact(pages, k + 1, from, PageChunks(PageNumber(pages, k), from, Windows(PageText(pages[k]))))
  {
    hide Windows;
    var windows := Windows(PageText(pages[k]));
    WindowsArePassages(PageText(pages[k]));
    forall i | 0 <= i < |windows|
      ensures FromFirstPages(pages, k + 1, PageChunk(PageNumber(pages, k), from + i, windows[i]))
    {
      var w := windows[i];
      assert w in windows && w == TextChunk(w.content, w.start, w.end);
      assert FromPage(pages, k, PageChunk(PageNumber(pages, k), from + i, w));
    }
  }

  lemma MoreAreExact(pages: seq<Page>, k: nat, a: seq<Chunk>, b: seq<Chunk>)
    requires k < |pages| && AreExact(pages, k, 0, a) && AreExact(pages, k + 1, |a|, b)
    ensures AreExact(pages, k + 1, 0, a + b)
  {
    hide FromPage;
    forall i | 0 <= i < |a + b| ensures (a + b)[i].ordinal == i && FromFirstPages(pages, k + 1, (a + b)[i]) {
      if i < |a| {
        assert (a + b)[i] == a[i] && FromFirstPages(pages, k, a[i]);
      } else {
        assert (a + b)[i] == b[i - |a|];
      }
    }
  }

  // Ordinals count from zero, and every chunk is the passage of its page that its locator says.
  lemma {:induction false} DocumentChunksAreExact(pages: seq<Page>, k: nat)
    requires k <= |pages|
    ensures AreExact(pages, k, 0, DocumentChunks(pages, k))
  {
    hide AreExact, PageChunks, Windows, PageText, PageNumber;
    if k == 0 {
      NoneAreExact(pages);
    } else {
      DocumentChunksAreExact(pages, k - 1);
      var done := DocumentChunks(pages, k - 1);
      PageIsExact(pages, k - 1, |done|);
      MoreAreExact(pages, k - 1, done, PageChunks(PageNumber(pages, k - 1), |done|, Windows(PageText(pages[k - 1]))));
    }
  }

  lemma NoneAreExact(pages: seq<Page>)
    ensures AreExact(pages, 0, 0, [])
  {
  }

  lemma WindowIsChunk(pages: seq<Page>, p: nat, n: nat)
    requires p < |pages| && n < |Windows(PageText(pages[p]))|
    ensures exists c | c in DocumentChunks(pages, |pages|) ::
              c == PageChunk(PageNumber(pages, p), c.ordinal, Windows(PageText(pages[p]))[n])
  {
    hide Windows, PageText;
    var done, windows := DocumentChunks(pages, p), Windows(PageText(pages[p]));
    var mine := PageChunks(PageNumber(pages, p), |done|, windows);
    var c := mine[n];
    assert c == PageChunk(PageNumber(pages, p), c.ordinal, windows[n]);
    DocumentChunksGrow(pages, p + 1, |pages|);
    assert DocumentChunks(pages, p + 1) == done + mine && (done + mine)[|done| + n] == c;
    assert DocumentChunks(pages, |pages|)[|done| + n] == c;
  }

  // Every passage of a page that fits the overlap is found under the page's own number.
  lemma DocumentPassagesAreKept(pages: seq<Page>, p: nat, i: nat, j: nat)
    requires p < |pages| && pages[p].markdown.Some?
    requires i < j <= |Trim(pages[p].markdown.value)| && j - i <= 201
    requires !IsSpace(Trim(pages[p].markdown.value)[i]) && !IsSpace(Trim(pages[p].markdown.value)[j - 1])
    ensures exists c | c in DocumentChunks(pages, |pages|) ::
              FromPage(pages, p, c) && c.locator.characterStart <= i && j <= c.locator.characterEnd
  {
    hide Trim;
    var text := Trim(pages[p].markdown.value);
    WindowsKeepPassages(text, i, j);
    WindowsArePassages(text);
    var w :| w in Windows(text) && w.start <= i && j <= w.end;
    var n :| 0 <= n < |Windows(text)| && Windows(text)[n] == w;
    WindowIsChunk(pages, p, n);
    assert IsPassage(text, w) && w == TextChunk(w.content, w.start, w.end);
  }
}
