// How chunkReviewedMarkdown (src/worker/knowledge-ingestion.ts) lays a page out
// in chunks, said of the chunks alone: consecutive paragraphs are gathered for
// as long as they fit, each gathered chunk begins with the end of the one
// before it if there is room, and a paragraph that is too long stands by itself
// in pieces.
module ReviewedLayout {
  import opened Options
  import opened Text
  import opened SlidingWindows
  import opened PageMarkers
  import opened ReviewedChunks

  // Paragraphs start to end, in one chunk or in the pieces of one long paragraph.
  datatype Segment =
    | Gathered(start: nat, end: nat, chunk: string)
    | Pieces(start: nat, end: nat, pieces: seq<string>)

  // The end of the chunk before, if the paragraph has room for it.
  function Lead(width: nat, overlap: nat, before: seq<Segment>, paragraph: string): string {
    if before == [] || before[|before| - 1].Pieces? then ""
    else
      var c := before[|before| - 1].chunk;
      var n := if overlap < |c| then overlap else |c|;
      if n == 0 || n + 2 + |paragraph| > width then "" else c[|c| - n..] + "\n\n"
  }

  function StartAfter(before: seq<Segment>): nat {
    if before == [] then 0 else before[|before| - 1].end
  }

  ghost predicate IsSegment(width: nat, overlap: nat, paragraphs: seq<string>, before: seq<Segment>, segment: Segment)
    requires overlap < width
  {
    && segment.start == StartAfter(before) && segment.start < segment.end <= |paragraphs|
    && match segment
       case Pieces(i, j, pieces) =>
         j == i + 1 && |paragraphs[i]| > width && pieces == Contents(Cut(width, overlap, paragraphs[i], 0))
       case Gathered(i, j, chunk) =>
         && (forall k | i <= k < j :: |paragraphs[k]| <= width)
         && var text := Lead(width, overlap, before, paragraphs[i]) + Join(paragraphs[i..j], "\n\n");
            && chunk == Trim(text) && |text| <= width
            && (j < |paragraphs| && |paragraphs[j]| <= width ==> |text| + 2 + |paragraphs[j]| > width)
  }

  ghost predicate AreSegments(width: nat, overlap: nat, paragraphs: seq<string>, segments: seq<Segment>)
    requires overlap < width
  {
    forall i | 0 <= i < |segments| :: IsSegment(width, overlap, paragraphs, segments[..i], segments[i])
  }

  ghost predicate IsLayout(width: nat, overlap: nat, paragraphs: seq<string>, segments: seq<Segment>)
    requires overlap < width
  {
    AreSegments(width, overlap, paragraphs, segments) && StartAfter(segments) == |paragraphs|
  }

  function ContentsOf(segments: seq<Segment>): seq<string> {
    if segments == [] then []
    else
      var last := segments[|segments| - 1];
      ContentsOf(segments[..|segments| - 1]) + if last.Gathered? then [last.chunk] else last.pieces
  }

  // ----- the gathering builds a layout

  // After the first i paragraphs: closed segments, and those gathered in the buffer.
  ghost predicate LaidOut(width: nat, overlap: nat, paragraphs: seq<string>, i: nat, segments: seq<Segment>,
                          g: Gathering)
    requires overlap < width && i <= |paragraphs|
  {
    && AreSegments(width, overlap, paragraphs, segments)
    && g.contents == ContentsOf(segments)
    && StartAfter(segments) <= i
    && if StartAfter(segments) == i then IsCleared(segments, g)
       else IsOpen(width, overlap, paragraphs, segments, i, g.buffer)
  }

  ghost predicate IsCleared(segments: seq<Segment>, g: Gathering) {
    g.buffer == "" && (segments == [] || segments[|segments| - 1].Pieces?)
  }

  ghost predicate IsOpen(width: nat, overlap: nat, paragraphs: seq<string>, segments: seq<Segment>, i: nat,
                         buffer: string)
    requires overlap < width
  {
    var from := StartAfter(segments);
    && from < i <= |paragraphs| && (forall k | from <= k < i :: |paragraphs[k]| <= width)
    && buffer == Lead(width, overlap, segments, paragraphs[from]) + Join(paragraphs[from..i], "\n\n")
    && |buffer| <= width
  }

  lemma OneMoreSegment(width: nat, overlap: nat, paragraphs: seq<string>, segments: seq<Segment>, s: Segment)
    requires overlap < width && AreSegments(width, overlap, paragraphs, segments)
    requires IsSegment(width, overlap, paragraphs, segments, s)
    ensures AreSegments(width, overlap, paragraphs, segments + [s])
    ensures ContentsOf(segments + [s]) == ContentsOf(segments) + if s.Gathered? then [s.chunk] else s.pieces
  {
    hide IsSegment;
    var all := segments + [s];
    assert all[..|segments|] == segments;
    forall i | 0 <= i < |all| ensures IsSegment(width, overlap, paragraphs, all[..i], all[i]) {
      if i < |segments| {
        assert all[..i] == segments[..i];
      }
    }
  }

  lemma OpenHasInk(width: nat, overlap: nat, paragraphs: seq<string>, segments: seq<Segment>, i: nat, buffer: string)
    requires overlap < width && IsOpen(width, overlap, paragraphs, segments, i, buffer)
    requires forall k | 0 <= k < |paragraphs| :: HasInkAtEnds(paragraphs[k])
    ensures Trim(buffer) != ""
  {
    OpenIsNotEmpty(width, overlap, paragraphs, segments, i, buffer);
    hide IsOpen;
    BlankTrimsToNothing(buffer);
  }

  // The open paragraphs become a chunk.
  lemma CloseOpen(width: nat, overlap: nat, paragraphs: seq<string>, segments: seq<Segment>, i: nat, g: Gathering)
      returns (closed: seq<Segment>)
    requires overlap < width && i <= |paragraphs|
    requires forall k | 0 <= k < |paragraphs| :: HasInkAtEnds(paragraphs[k])
    requires LaidOut(width, overlap, paragraphs, i, segments, g) && StartAfter(segments) < i
    requires i < |paragraphs| && |paragraphs[i]| <= width ==> |g.buffer| + 2 + |paragraphs[i]| > width
    ensures AreSegments(width, overlap, paragraphs, closed) && StartAfter(closed) == i
    ensures closed != [] && closed[|closed| - 1].Gathered? && closed[|closed| - 1].chunk == Trim(g.buffer)
    ensures Flush(overlap, g).contents == ContentsOf(closed) && Trim(g.buffer) != ""
  {
    OpenHasInk(width, overlap, paragraphs, segments, i, g.buffer);
    var s := Gathered(StartAfter(segments), i, Trim(g.buffer));
    OneMoreSegment(width, overlap, paragraphs, segments, s);
    closed := segments + [s];
  }

  lemma GatherLong(width: nat, overlap: nat, paragraphs: seq<string>, segments: seq<Segment>, i: nat, g: Gathering)
      returns (more: seq<Segment>)
    requires overlap < width && i < |paragraphs| && |paragraphs[i]| > width
    requires forall k | 0 <= k < |paragraphs| :: HasInkAtEnds(paragraphs[k])
    requires LaidOut(width, overlap, paragraphs, i, segments, g)
    ensures LaidOut(width, overlap, paragraphs, i + 1, more, Gather(width, overlap, g, paragraphs[i]))
  {
    hide AreSegments, Cut;
    var closed := segments;
    if StartAfter(segments) < i {
      closed := CloseOpen(width, overlap, paragraphs, segments, i, g);
    } else {
      BlankTrimsToNothing(g.buffer);
    }
    var s := Pieces(i, i + 1, Contents(Cut(width, overlap, paragraphs[i], 0)));
    OneMoreSegment(width, overlap, paragraphs, closed, s);
    more := closed + [s];
  }

  lemma OverflowBuffer(width: nat, overlap: nat, g: Gathering, p: string)
    requires overlap < width && |p| <= width && |ReviewedChunks.Extended(g.buffer, p)| > width && Trim(g.buffer) != ""
    ensures Gather(width, overlap, g, p).contents == Flush(overlap, g).contents
    ensures var c := Trim(g.buffer);
            var n := if overlap < |c| then overlap else |c|;
            Gather(width, overlap, g, p).buffer
            == if n == 0 || n + 2 + |p| > width then p else c[|c| - n..] + "\n\n" + p
  {
    hide Trim;
  }

  lemma OpensWith(width: nat, overlap: nat, paragraphs: seq<string>, segments: seq<Segment>, i: nat, buffer: string)
    requires overlap < width && i < |paragraphs| && |paragraphs[i]| <= width && StartAfter(segments) == i
    requires buffer == Lead(width, overlap, segments, paragraphs[i]) + paragraphs[i]
    ensures IsOpen(width, overlap, paragraphs, segments, i + 1, buffer)
  {
    assert paragraphs[i..i + 1] == [paragraphs[i]];
  }

  lemma GatherOverflow(width: nat, overlap: nat, paragraphs: seq<string>, segments: seq<Segment>, i: nat, g: Gathering)
      returns (more: seq<Segment>)
    requires overlap < width && i < |paragraphs| && |paragraphs[i]| <= width
    requires |ReviewedChunks.Extended(g.buffer, paragraphs[i])| > width
    requires forall k | 0 <= k < |paragraphs| :: HasInkAtEnds(paragraphs[k])
    requires LaidOut(width, overlap, paragraphs, i, segments, g)
    ensures LaidOut(width, overlap, paragraphs, i + 1, more, Gather(width, overlap, g, paragraphs[i]))
  {
    hide AreSegments, IsOpen, Gather, Flush, Trim, HasInkAtEnds;
    more := CloseOpen(width, overlap, paragraphs, segments, i, g);
    var p := paragraphs[i];
    OverflowBuffer(width, overlap, g, p);
    OpensWith(width, overlap, paragraphs, more, i, Gather(width, overlap, g, p).buffer);
  }

  lemma OpenGoesOn(width: nat, overlap: nat, paragraphs: seq<string>, segments: seq<Segment>, i: nat, buffer: string)
    requires overlap < width && i < |paragraphs| && |paragraphs[i]| <= width
    requires IsOpen(width, overlap, paragraphs, segments, i, buffer) && |buffer| + 2 + |paragraphs[i]| <= width
    ensures IsOpen(width, overlap, paragraphs, segments, i + 1, buffer + "\n\n" + paragraphs[i])
  {
    hide Lead, Join;
    var from, p := StartAfter(segments), paragraphs[i];
    assert paragraphs[from..i + 1] == paragraphs[from..i] + [p];
    JoinAppend(paragraphs[from..i], p, "\n\n");
    Regroup(Lead(width, overlap, segments, paragraphs[from]), Join(paragraphs[from..i], "\n\n"), p);
  }

  lemma Regroup(a: string, b: string, p: string)
    ensures a + b + "\n\n" + p == a + (b + "\n\n" + p)
  {
  }

  lemma GatherFitting(width: nat, overlap: nat, paragraphs: seq<string>, segments: seq<Segment>, i: nat, g: Gathering)
    requires overlap < width && i < |paragraphs| && |paragraphs[i]| <= width
    requires |ReviewedChunks.Extended(g.buffer, paragraphs[i])| <= width
    requires forall k | 0 <= k < |paragraphs| :: HasInkAtEnds(paragraphs[k])
    requires LaidOut(width, overlap, paragraphs, i, segments, g)
    ensures LaidOut(width, overlap, paragraphs, i + 1, segments, Gather(width, overlap, g, paragraphs[i]))
  {
    hide AreSegments, IsOpen, HasInkAtEnds;
    var p := paragraphs[i];
    if StartAfter(segments) < i {
      OpenIsNotEmpty(width, overlap, paragraphs, segments, i, g.buffer);
      OpenGoesOn(width, overlap, paragraphs, segments, i, g.buffer);
    } else {
      assert "" + p == p;
      OpensWith(width, overlap, paragraphs, segments, i, p);
    }
  }

  lemma OpenIsNotEmpty(width: nat, overlap: nat, paragraphs: seq<string>, segments: seq<Segment>, i: nat,
                       buffer: string)
    requires overlap < width && IsOpen(width, overlap, paragraphs, segments, i, buffer)
    requires forall k | 0 <= k < |paragraphs| :: HasInkAtEnds(paragraphs[k])
    ensures buffer != "" && !IsSpace(buffer[|buffer| - 1])
  {
    hide Lead, Join;
    var from, p := StartAfter(segments), paragraphs[i - 1];
    assert paragraphs[from..i] == paragraphs[from..i - 1] + [p];
    JoinAppend(paragraphs[from..i - 1], p, "\n\n");
    assert HasInkAtEnds(p);
  }

  lemma {:induction false} GatherAllIsLaidOut(width: nat, overlap: nat, paragraphs: seq<string>, i: nat)
      returns (segments: seq<Segment>)
    requires overlap < width && i <= |paragraphs|
    requires forall k | 0 <= k < |paragraphs| :: HasInkAtEnds(paragraphs[k])
    ensures LaidOut(width, overlap, paragraphs, i, segments, GatherAll(width, overlap, paragraphs[..i]))
  {
    hide LaidOut, Gather;
    if i == 0 {
      segments := [];
      NothingLaidOut(width, overlap, paragraphs);
      assert paragraphs[..0] == [];
    } else {
      segments := GatherAllIsLaidOut(width, overlap, paragraphs, i - 1);
      GatherNext(width, overlap, paragraphs, i - 1);
      var g := GatherAll(width, overlap, paragraphs[..i - 1]);
      if |paragraphs[i - 1]| > width {
        segments := GatherLong(width, overlap, paragraphs, segments, i - 1, g);
      } else if |ReviewedChunks.Extended(g.buffer, paragraphs[i - 1])| > width {
        segments := GatherOverflow(width, overlap, paragraphs, segments, i - 1, g);
      } else {
        GatherFitting(width, overlap, paragraphs, segments, i - 1, g);
      }
    }
  }

  lemma NothingLaidOut(width: nat, overlap: nat, paragraphs: seq<string>)
    requires overlap < width
    ensures LaidOut(width, overlap, paragraphs, 0, [], Gathering([], ""))
  {
  }

  // The chunks of a page are those of a layout of its paragraphs.
  lemma PageIsLaidOut(width: nat, overlap: nat, text: string)
    requires overlap < width
    ensures exists segments :: IsLayout(width, overlap, Paragraphs(text), segments)
                               && PageContents(width, overlap, text) == ContentsOf(segments)
  {
    var ps := Paragraphs(text);
    TrimmedPartsAreParagraphs(SplitParagraphs(text));
    forall k | 0 <= k < |ps| ensures HasInkAtEnds(ps[k]) {
      assert ps[k] in ps;
    }
    var segments := GatherAllIsLaidOut(width, overlap, ps, |ps|);
    assert ps[..|ps|] == ps;
    var g := GatherAll(width, overlap, ps);
    if StartAfter(segments) < |ps| {
      segments := CloseOpen(width, overlap, ps, segments, |ps|, g);
    } else {
      BlankTrimsToNothing(g.buffer);
    }
  }

  // ----- there is only one layout

  lemma SameSegment(width: nat, overlap: nat, paragraphs: seq<string>, before: seq<Segment>, a: Segment, b: Segment)
    requires overlap < width
    requires IsSegment(width, overlap, paragraphs, before, a) && IsSegment(width, overlap, paragraphs, before, b)
    ensures a == b
  {
    hide Lead, Cut, Trim;
    var i := StartAfter(before);
    if a.Gathered? && b.Gathered? {
      var lead := Lead(width, overlap, before, paragraphs[i]);
      if a.end < b.end {
        LongerJoin(paragraphs, i, a.end, b.end);
      } else if b.end < a.end {
        LongerJoin(paragraphs, i, b.end, a.end);
      }
    }
  }

  // One paragraph more at least.
  lemma {:induction false} LongerJoin(paragraphs: seq<string>, i: nat, j: nat, k: nat)
    requires i < j < k <= |paragraphs|
    ensures |Join(paragraphs[i..k], "\n\n")| >= |Join(paragraphs[i..j], "\n\n")| + 2 + |paragraphs[j]|
  {
    hide Join;
    var last := paragraphs[k - 1];
    assert paragraphs[i..k - 1] != [];
    assert paragraphs[i..k] == paragraphs[i..k - 1] + [last];
    JoinAppend(paragraphs[i..k - 1], last, "\n\n");
    if j < k - 1 {
      LongerJoin(paragraphs, i, j, k - 1);
    }
  }

  lemma {:induction false} SamePrefix(width: nat, overlap: nat, paragraphs: seq<string>, a: seq<Segment>,
                                      b: seq<Segment>, n: nat)
    requires overlap < width && n <= |a| && n <= |b|
    requires AreSegments(width, overlap, paragraphs, a) && AreSegments(width, overlap, paragraphs, b)
    ensures a[..n] == b[..n]
  {
    hide IsSegment;
    if n > 0 {
      SamePrefix(width, overlap, paragraphs, a, b, n - 1);
      assert IsSegment(width, overlap, paragraphs, a[..n - 1], a[n - 1]);
      assert IsSegment(width, overlap, paragraphs, b[..n - 1], b[n - 1]);
      SameSegment(width, overlap, paragraphs, a[..n - 1], a[n - 1], b[n - 1]);
      assert a[..n] == a[..n - 1] + [a[n - 1]] && b[..n] == b[..n - 1] + [b[n - 1]];
    }
  }

  // A layout that covers the page cannot be a beginning of another.
  lemma CoversOnce(width: nat, overlap: nat, paragraphs: seq<string>, a: seq<Segment>, b: seq<Segment>)
    requires overlap < width && IsLayout(width, overlap, paragraphs, a)
    requires AreSegments(width, overlap, paragraphs, b) && |a| < |b|
    ensures a != b[..|a|]
  {
    assert IsSegment(width, overlap, paragraphs, b[..|a|], b[|a|]);
  }

  // The paragraphs determine the layout, and with it the chunks.
  lemma LayoutIsUnique(width: nat, overlap: nat, paragraphs: seq<string>, a: seq<Segment>, b: seq<Segment>)
    requires overlap < width
    requires IsLayout(width, overlap, paragraphs, a) && IsLayout(width, overlap, paragraphs, b)
    ensures a == b
  {
    hide AreSegments;
    var n := if |a| < |b| then |a| else |b|;
    SamePrefix(width, overlap, paragraphs, a, b, n);
    if |a| < |b| {
      CoversOnce(width, overlap, paragraphs, a, b);
    } else if |b| < |a| {
      CoversOnce(width, overlap, paragraphs, b, a);
    }
    assert a == a[..n] && b == b[..n];
  }

  // ----- the overlap

  lemma BlankTail(s: string, k: nat)
    requires k <= |s| && Blank(s[k..])
    ensures forall j | k <= j < |s| :: IsSpace(s[j])
  {
    forall j | k <= j < |s| ensures IsSpace(s[j]) {
      assert s[j] == s[k..][j - k];
    }
  }

  lemma TrimEndsInInk(s: string, rest: string)
    requires s != "" && !IsSpace(s[|s| - 1])
    ensures Trim(s) != "" && Trim(s) <= Trim(s + rest)
  {
    TrimCutsBlankEnds(s);
    BlankTrimsToNothing(s);
    var t, k := Trim(s), Leading(s);
    var tail := TrimEnd(rest);
    TrimEndCuts(rest);
    BlankTail(s, k + |t|);
    TrimIsUnique(s[..k], t + tail, rest[|tail|..]);
    assert s + rest == s[..k] + (t + tail) + rest[|tail|..];
  }

  lemma JoinBegins(paragraphs: seq<string>, i: nat, j: nat)
    requires i < j <= |paragraphs|
    ensures paragraphs[i] <= Join(paragraphs[i..j], "\n\n")
  {
    assert paragraphs[i..j][0] == paragraphs[i];
  }

  // The text of a gathered chunk begins with its lead and its first paragraph.
  lemma GatheredBegins(width: nat, overlap: nat, paragraphs: seq<string>, before: seq<Segment>, segment: Segment)
    requires overlap < width && IsSegment(width, overlap, paragraphs, before, segment) && segment.Gathered?
    requires HasInkAtEnds(paragraphs[segment.start])
    ensures Trim(Lead(width, overlap, before, paragraphs[segment.start]) + paragraphs[segment.start]) <= segment.chunk
  {
    hide Lead, Trim;
    var p, joined := paragraphs[segment.start], Join(paragraphs[segment.start..segment.end], "\n\n");
    var lead := Lead(width, overlap, before, p);
    JoinBegins(paragraphs, segment.start, segment.end);
    TrimEndsInInk(lead + p, joined[|p|..]);
    assert lead + p + joined[|p|..] == lead + joined;
  }

  lemma TrimsToItself(p: string)
    requires HasInkAtEnds(p)
    ensures Trim("" + p) == p
  {
    TrimIsUnique("", p, "");
    assert "" + p + "" == p;
  }

  // A chunk gathered after a gathered chunk begins with the end of that one if
  // its first paragraph leaves room for it, and with that paragraph otherwise;
  // at the top of a page and after the pieces of a long paragraph nothing is
  // carried over.
  lemma OverlapIsCarried(width: nat, overlap: nat, paragraphs: seq<string>, segments: seq<Segment>, k: nat)
    requires overlap < width && IsLayout(width, overlap, paragraphs, segments)
    requires k < |segments| && segments[k].Gathered?
    requires segments[k].start < |paragraphs| && HasInkAtEnds(paragraphs[segments[k].start])
    ensures var p, chunk := paragraphs[segments[k].start], segments[k].chunk;
            if k == 0 || segments[k - 1].Pieces? then p <= chunk
            else
              var c := segments[k - 1].chunk;
              var n := if overlap < |c| then overlap else |c|;
              if n > 0 && n + 2 + |p| <= width then Trim(c[|c| - n..] + "\n\n" + p) <= chunk else p <= chunk
  {
    hide IsSegment, Trim, HasInkAtEnds;
    var p := paragraphs[segments[k].start];
    assert IsSegment(width, overlap, paragraphs, segments[..k], segments[k]);
    GatheredBegins(width, overlap, paragraphs, segments[..k], segments[k]);
    TrimsToItself(p);
    hide IsLayout, AreSegments;
    LeadIs(width, overlap, segments, k, p);
    hide Lead;
  }

  lemma LeadIs(width: nat, overlap: nat, segments: seq<Segment>, k: nat, p: string)
    requires k <= |segments|
    ensures Lead(width, overlap, segments[..k], p) ==
            if k == 0 || segments[k - 1].Pieces? then ""
            else
              var c := segments[k - 1].chunk;
              var n := if overlap < |c| then overlap else |c|;
              if n > 0 && n + 2 + |p| <= width then c[|c| - n..] + "\n\n" else ""
  {
  }

  // ----- pages

  lemma UnmarkedHasNoPages(s: string, i: nat)
    requires i <= |s| && !HasMarker(s)
    ensures SplitPages(s[i..]).pages == []
    decreases |s| - i
  {
    if i < |s| {
      assert MatchMarker(s[i..]).None?;
      UnmarkedHasNoPages(s, i + 1);
      assert s[i..][1..] == s[i + 1..];
    }
  }

  // Text without a marker is one page without a number.
  lemma UnmarkedIsOnePage(content: string)
    requires !HasMarker(content)
    ensures Pages(content) == [PageText(None, Trim(content))]
  {
    UnmarkedHasNoPages(content, 0);
    assert content[0..] == content;
  }

  // The text put up for a parsed document has its pages again, under their numbers.
  lemma RenderedPagesComeBack(pages: seq<ParsedPage>)
    requires PagesWithText(pages) != []
    requires forall p | p in PagesWithText(pages) :: forall i | 0 <= i < |p.text| :: !(OPEN <= p.text[i..])
    ensures var rendered, found := PagesWithText(pages), Pages(RenderParsedDocument(pages));
            && |found| == |rendered|
            && forall k | 0 <= k < |rendered| :: found[k] == PageText(Some(rendered[k].page), rendered[k].text)
  {
    hide SplitPages, RenderParsedDocument, PagesWithText;
    ParsedDocumentRoundTrip(pages);
  }

  // ----- the whole text

  // In every reviewed text, the chunks of a page stand together and are those
  // of the layout of its paragraphs.
  lemma PagesAreLaidOut(width: nat, overlap: nat, content: string, k: nat)
    requires overlap < width && k < |Pages(content)|
    ensures exists segments, from: nat :: IsPageAt(width, overlap, content, k, segments, from)
  {
    hide Pages, Paragraphs, IsLayout, PageContents, NumberedPages;
    var pages := Pages(content);
    var all := ContentsOfPages(width, overlap, pages);
    PageIsLaidOut(width, overlap, pages[k].text);
    var segments :| IsLayout(width, overlap, Paragraphs(pages[k].text), segments)
      && PageContents(width, overlap, pages[k].text) == ContentsOf(segments);
    PagesStandInOrder(pages, all, k);
    StandsAt(ChunksOf(width, overlap, content), pages[k].page, all[k], |NumberedPages(pages, all, k)|);
    assert IsPageAt(width, overlap, content, k, segments, |NumberedPages(pages, all, k)|);
  }

  lemma StandsAt(chunks: seq<KnowledgeChunk>, page: Option<nat>, contents: seq<string>, from: nat)
    requires from + |contents| <= |chunks|
    requires forall i | 0 <= i < |contents| ::
               chunks[from + i] == KnowledgeChunk(from + i, contents[i], page, InferSectionPath(contents[i]))
    ensures AreContents(chunks, page, contents, from)
  {
    hide InferSectionPath;
    var own := chunks[from..from + |contents|];
    forall i | 0 <= i < |contents| ensures own[i].content == contents[i] && own[i].page == page {
      var c := contents[i];
      assert own[i] == KnowledgeChunk(from + i, c, page, InferSectionPath(c));
    }
  }

  ghost predicate AreContents(chunks: seq<KnowledgeChunk>, page: Option<nat>, contents: seq<string>, from: nat) {
    && from + |contents| <= |chunks|
    && var own := chunks[from..from + |contents|];
       forall i | 0 <= i < |contents| :: own[i].content == contents[i] && own[i].page == page
  }

  ghost predicate IsPageAt(width: nat, overlap: nat, content: string, k: nat, segments: seq<Segment>, from: nat)
    requires overlap < width && k < |Pages(content)|
  {
    && IsLayout(width, overlap, Paragraphs(Pages(content)[k].text), segments)
    && AreContents(ChunksOf(width, overlap, content), Pages(content)[k].page, ContentsOf(segments), from)
  }
}
