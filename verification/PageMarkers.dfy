// Page markers: a parsed document is rendered as one text with a marker in
// front of every page, and the text is taken apart again at its markers
// (renderParsedDocument and the first half of chunkReviewedMarkdown in
// src/worker/knowledge-ingestion.ts).
module PageMarkers {
  import opened Options
  import opened Text

  // ----- numbers

  function Digit(n: nat): char
    requires n < 10
  {
    "0123456789"[n]
  }

  predicate IsDigit(c: char) { '0' <= c <= '9' }

  function DigitValue(c: char): nat
    requires IsDigit(c)
  {
    c as int - '0' as int
  }

  function Decimal(n: nat): (s: string)
    ensures s != "" && forall i | 0 <= i < |s| :: IsDigit(s[i])
  {
    if n < 10 then [Digit(n)] else Decimal(n / 10) + [Digit(n % 10)]
  }

  function NumberOf(s: string): nat
    requires forall i | 0 <= i < |s| :: IsDigit(s[i])
  {
    if s == "" then 0 else NumberOf(s[..|s| - 1]) * 10 + DigitValue(s[|s| - 1])
  }

  lemma {:induction false} DecimalRoundTrip(n: nat)
    ensures NumberOf(Decimal(n)) == n
  {
    if n < 10 {
      assert Decimal(n)[..0] == "";
    } else {
      DecimalRoundTrip(n / 10);
      assert Decimal(n)[..|Decimal(n)| - 1] == Decimal(n / 10);
    }
  }

  // ----- the marker pattern  <!--\s*openvac-page:(\d+)\s*-->\s*

  const OPEN := "<!--"
  const NAME := "openvac-page:"
  const CLOSE := "-->"

  function Literal(s: string, literal: string): (rest: Option<string>)
    ensures rest.Some? ==> |rest.value| == |s| - |literal|
  {
    if literal <= s then Some(s[|literal|..]) else None
  }

  function DigitRun(s: string): (n: nat)
    ensures n <= |s| && forall i | 0 <= i < n :: IsDigit(s[i])
    ensures n < |s| ==> !IsDigit(s[n])
  {
    if s != "" && IsDigit(s[0]) then 1 + DigitRun(s[1..]) else 0
  }

  datatype Marker = Marker(page: nat, rest: string)

  // The marker at the beginning of s, and what follows it.
  function MatchMarker(s: string): (m: Option<Marker>)
    ensures m.Some? ==> |m.value.rest| < |s|
  {
    var open := Literal(s, OPEN);
    if open.None? then None
    else AfterOpen(open.value)
  }

  function AfterOpen(s: string): (m: Option<Marker>)
    ensures m.Some? ==> |m.value.rest| < |s|
  {
    var name := Literal(TrimStart(s), NAME);
    if name.None? || DigitRun(name.value) == 0 then None
    else AfterNumber(NumberOf(name.value[..DigitRun(name.value)]), name.value[DigitRun(name.value)..])
  }

  function AfterNumber(page: nat, s: string): (m: Option<Marker>)
    ensures m.Some? ==> |m.value.rest| < |s|
  {
    var close := Literal(TrimStart(s), CLOSE);
    if close.None? then None else Some(Marker(page, TrimStart(close.value)))
  }

  datatype Section = Section(page: nat, text: string)

  // The text before the first marker, and for each marker the text up to the next.
  datatype Sections = Sections(before: string, pages: seq<Section>)

  function SplitPages(s: string): Sections
    decreases |s|
  {
    if s == "" then Sections("", [])
    else
      var m := MatchMarker(s);
      if m.Some? then
        var rest := SplitPages(m.value.rest);
        Sections("", [Section(m.value.page, rest.before)] + rest.pages)
      else
        var rest := SplitPages(s[1..]);
        Sections([s[0]] + rest.before, rest.pages)
  }

  function Trimmed(pages: seq<Section>): (trimmed: seq<Section>)
    ensures |trimmed| == |pages|
    ensures forall i | 0 <= i < |pages| :: trimmed[i] == Section(pages[i].page, Trim(pages[i].text))
  {
    seq(|pages|, i requires 0 <= i < |pages| => Section(pages[i].page, Trim(pages[i].text)))
  }

  // ----- rendering

  datatype ParsedPage = ParsedPage(markdown: Option<string>, pageNumber: Option<nat>)

  predicate HasText(p: ParsedPage) {
    p.markdown.Some? && Trim(p.markdown.value) != ""
  }

  // The pages with text; a page without a number takes its position among them.
  function PagesWithText(pages: seq<ParsedPage>): seq<Section> {
    if pages == [] then []
    else
      var before, p := PagesWithText(pages[..|pages| - 1]), pages[|pages| - 1];
      if HasText(p) then
        before + [Section(if p.pageNumber.Some? then p.pageNumber.value else |before| + 1, Trim(p.markdown.value))]
      else before
  }

  function Header(page: nat): string {
    OPEN + " " + NAME + Decimal(page) + " " + CLOSE + "\n"
  }

  function Render(pages: seq<Section>): string {
    if pages == [] then ""
    else if |pages| == 1 then Header(pages[0].page) + pages[0].text
    else Header(pages[0].page) + pages[0].text + "\n\n" + Render(pages[1..])
  }

  function RenderParsedDocument(pages: seq<ParsedPage>): string {
    Render(PagesWithText(pages))
  }

  // ----- a marker does not reach across the end of a page

  // What follows a page in the rendering.
  ghost predicate Stops(r: string) {
    r == "" || "\n\n<" <= r
  }

  lemma LiteralBeforeStop(b: string, r: string, literal: string)
    requires Stops(r) && '\n' !in literal && literal != ""
    ensures var here := Literal(b, literal);
            Literal(b + r, literal) == if here.None? then None else Some(here.value + r)
  {
    if |literal| <= |b| {
      assert (b + r)[..|literal|] == b[..|literal|];
      assert (b + r)[|literal|..] == b[|literal|..] + r;
    } else if |literal| <= |b + r| {
      assert (b + r)[|b|] == r[0] == '\n';
      assert literal[|b|] in literal;
    }
  }

  lemma {:induction false} TrimStartBeforeStop(b: string, r: string)
    ensures TrimStart(b + r) == if TrimStart(b) == "" then TrimStart(r) else TrimStart(b) + r
  {
    if b == "" {
      assert b + r == r;
    } else if IsSpace(b[0]) {
      assert (b + r)[1..] == b[1..] + r;
      TrimStartBeforeStop(b[1..], r);
    }
  }

  lemma TrimmedStop(r: string)
    requires Stops(r)
    ensures Literal(TrimStart(r), NAME).None? && Literal(TrimStart(r), CLOSE).None?
    ensures DigitRun(r) == 0
  {
    if r != "" {
      assert r[0] == '\n' && r[1] == '\n' && r[2] == '<';
      assert TrimStart(r) == TrimStart(r[1..]) == TrimStart(r[1..][1..]);
      assert r[1..][1..] == r[2..];
      assert TrimStart(r[2..]) == r[2..];
    }
  }

  lemma {:induction false} DigitRunBeforeStop(b: string, r: string)
    requires Stops(r)
    ensures DigitRun(b + r) == DigitRun(b)
  {
    if b == "" {
      assert b + r == r;
      TrimmedStop(r);
    } else if IsDigit(b[0]) {
      assert (b + r)[1..] == b[1..] + r;
      DigitRunBeforeStop(b[1..], r);
    }
  }

  // What a marker at the end of b leaves when r follows.
  ghost function Extended(m: Option<Marker>, r: string): Option<Marker> {
    if m.None? then None
    else if m.value.rest == "" then Some(Marker(m.value.page, TrimStart(r)))
    else Some(Marker(m.value.page, m.value.rest + r))
  }

  lemma AfterNumberBeforeStop(page: nat, b: string, r: string)
    requires Stops(r)
    ensures AfterNumber(page, b + r) == Extended(AfterNumber(page, b), r)
  {
    TrimStartBeforeStop(b, r);
    TrimmedStop(r);
    if TrimStart(b) != "" {
      LiteralBeforeStop(TrimStart(b), r, CLOSE);
      var close := Literal(TrimStart(b), CLOSE);
      if close.Some? {
        TrimStartBeforeStop(close.value, r);
      }
    }
  }

  lemma NumberBeforeStop(v: string, r: string)
    requires Stops(r)
    ensures var n := DigitRun(v);
            && DigitRun(v + r) == n && (v + r)[..n] == v[..n]
            && AfterNumber(NumberOf(v[..n]), (v + r)[n..]) == Extended(AfterNumber(NumberOf(v[..n]), v[n..]), r)
  {
    DigitRunBeforeStop(v, r);
    var n := DigitRun(v);
    assert (v + r)[..n] == v[..n] && (v + r)[n..] == v[n..] + r;
    AfterNumberBeforeStop(NumberOf(v[..n]), v[n..], r);
  }

  lemma AfterOpenBeforeStop(b: string, r: string)
    requires Stops(r)
    ensures AfterOpen(b + r) == Extended(AfterOpen(b), r)
  {
    TrimStartBeforeStop(b, r);
    TrimmedStop(r);
    if TrimStart(b) != "" {
      LiteralBeforeStop(TrimStart(b), r, NAME);
      var name := Literal(TrimStart(b), NAME);
      if name.Some? {
        NumberBeforeStop(name.value, r);
      }
    }
  }

  lemma MarkerBeforeStop(b: string, r: string)
    requires Stops(r) && b != ""
    ensures MatchMarker(b + r) == Extended(MatchMarker(b), r)
  {
    LiteralBeforeStop(b, r, OPEN);
    if Literal(b, OPEN).Some? {
      AfterOpenBeforeStop(Literal(b, OPEN).value, r);
    }
  }

  // ----- headers are markers

  lemma {:induction false} DigitRunOfDigits(d: string, s: string)
    requires forall i | 0 <= i < |d| :: IsDigit(d[i])
    requires s != "" && !IsDigit(s[0])
    ensures DigitRun(d + s) == |d|
  {
    if d == "" {
      assert d + s == s;
    } else {
      assert (d + s)[1..] == d[1..] + s;
      DigitRunOfDigits(d[1..], s);
    }
  }

  lemma LiteralFirst(literal: string, s: string)
    ensures Literal(literal + s, literal) == Some(s)
  {
    assert (literal + s)[|literal|..] == s;
  }

  lemma HeaderCloses(page: nat, s: string)
    requires s != "" && !IsSpace(s[0])
    ensures AfterNumber(page, " " + (CLOSE + ("\n" + s))) == Some(Marker(page, s))
  {
    var closing := " " + (CLOSE + ("\n" + s));
    assert TrimStart(closing) == CLOSE + ("\n" + s) by {
      assert closing[1..] == CLOSE + ("\n" + s);
      assert (CLOSE + ("\n" + s))[0] == '-';
    }
    LiteralFirst(CLOSE, "\n" + s);
    assert TrimStart("\n" + s) == s by {
      assert ("\n" + s)[1..] == s;
    }
  }

  lemma HeaderNames(page: nat, s: string)
    requires s != "" && !IsSpace(s[0])
    ensures AfterOpen(" " + (NAME + (Decimal(page) + (" " + (CLOSE + ("\n" + s)))))) == Some(Marker(page, s))
  {
    var d := Decimal(page);
    var closing := " " + (CLOSE + ("\n" + s));
    var named := d + closing;
    assert TrimStart(" " + (NAME + named)) == NAME + named by {
      assert (" " + (NAME + named))[1..] == NAME + named;
      assert (NAME + named)[0] == 'o';
    }
    LiteralFirst(NAME, named);
    DigitRunOfDigits(d, closing);
    assert named[..|d|] == d && named[|d|..] == closing;
    DecimalRoundTrip(page);
    HeaderCloses(page, s);
  }

  lemma FourParts(a: string, b: string, c: string, d: string)
    ensures a + b + c + d == a + (b + (c + d))
  {
  }

  lemma EightParts(a: string, b: string, c: string, d: string, e: string, f: string, g: string, h: string)
    ensures a + b + c + d + e + f + g + h == a + (b + (c + (d + (e + (f + (g + h))))))
  {
    FourParts(a, b, c, d + (e + (f + (g + h))));
    FourParts(a + b + c, d, e, f + (g + h));
    FourParts(a + b + c + d + e, f, g, h);
  }

  lemma HeaderMatches(page: nat, s: string)
    requires s != "" && !IsSpace(s[0])
    ensures MatchMarker(Header(page) + s) == Some(Marker(page, s))
  {
    var inside := " " + (NAME + (Decimal(page) + (" " + (CLOSE + ("\n" + s)))));
    EightParts(OPEN, " ", NAME, Decimal(page), " ", CLOSE, "\n", s);
    LiteralFirst(OPEN, inside);
    HeaderNames(page, s);
  }

  // ----- the round trip

  ghost predicate HasMarker(s: string) {
    exists i | 0 <= i < |s| :: MatchMarker(s[i..]).Some?
  }

  // Pages as they are rendered: trimmed, and not blank.
  ghost predicate Printable(pages: seq<Section>) {
    forall i | 0 <= i < |pages| :: pages[i].text != "" && IsTrimmed(pages[i].text)
  }

  lemma {:induction false} PagesWithTextArePrintable(pages: seq<ParsedPage>)
    ensures Printable(PagesWithText(pages))
  {
    if pages != [] {
      PagesWithTextArePrintable(pages[..|pages| - 1]);
      if HasText(pages[|pages| - 1]) {
        TrimCutsBlankEnds(pages[|pages| - 1].markdown.value);
      }
    }
  }

  function Following(pages: seq<Section>): string
    requires pages != []
  {
    if |pages| == 1 then "" else "\n\n" + Render(pages[1..])
  }

  lemma RenderIsHeaderFirst(pages: seq<Section>)
    requires pages != []
    ensures Render(pages) == Header(pages[0].page) + (pages[0].text + Following(pages))
  {
    var h, t := Header(pages[0].page), pages[0].text;
    if |pages| == 1 {
      assert t + "" == t;
    } else {
      FourParts(h, t, "\n\n", Render(pages[1..]));
    }
  }

  lemma RenderSplitsAtHeader(pages: seq<Section>)
    requires pages != [] && Printable(pages)
    ensures var rest := SplitPages(pages[0].text + Following(pages));
            SplitPages(Render(pages)) == Sections("", [Section(pages[0].page, rest.before)] + rest.pages)
  {
    RenderIsHeaderFirst(pages);
    HeaderMatches(pages[0].page, pages[0].text + Following(pages));
  }

  lemma FollowingStops(pages: seq<Section>)
    requires pages != [] && Printable(pages)
    ensures Stops(Following(pages))
    ensures SplitPages(Following(pages)).pages == SplitPages(Render(pages[1..])).pages
    ensures Blank(SplitPages(Following(pages)).before)
  {
    if |pages| > 1 {
      RenderIsHeaderFirst(pages[1..]);
      RenderSplitsAtHeader(pages[1..]);
      TwoBreaks(Render(pages[1..]));
      HeaderStops(pages[1].page, pages[1].text + Following(pages[1..]));
      hide SplitPages, Render, Header, Decimal;
    }
  }

  lemma HeaderStops(page: nat, rest: string)
    ensures Stops("\n\n" + (Header(page) + rest))
  {
    hide Decimal;
  }

  lemma TwoBreaks(s: string)
    requires s != "" && SplitPages(s).before == ""
    ensures SplitPages("\n\n" + s) == Sections("\n\n", SplitPages(s).pages)
  {
    var one, two := "\n" + s, "\n\n" + s;
    assert one[1..] == s && two[1..] == one;
    assert one[0] != OPEN[0] && two[0] != OPEN[0];
    assert SplitPages(one) == Sections(['\n'] + "", SplitPages(s).pages);
    assert SplitPages(two) == Sections(['\n'] + SplitPages(one).before, SplitPages(s).pages);
    assert ['\n'] + (['\n'] + "") == "\n\n";
  }

  lemma MarkersAfterFirst(b: string)
    requires b != "" && MatchMarker(b).None?
    ensures HasMarker(b) <==> HasMarker(b[1..])
  {
    assert b[0..] == b;
    forall i | 0 <= i < |b[1..]| ensures b[1..][i..] == b[i + 1..] { }
    if HasMarker(b) {
      var i :| 0 <= i < |b| && MatchMarker(b[i..]).Some?;
      assert MatchMarker(b[1..][i - 1..]).Some?;
    }
    if HasMarker(b[1..]) {
      var i :| 0 <= i < |b[1..]| && MatchMarker(b[1..][i..]).Some?;
      assert MatchMarker(b[i + 1..]).Some?;
    }
  }

  lemma MarkerAtFront(b: string)
    requires b != "" && MatchMarker(b).Some?
    ensures HasMarker(b)
  {
    assert b[0..] == b;
  }

  lemma NoMarkerAfterFirst(b: string)
    requires b != "" && !HasMarker(b)
    ensures MatchMarker(b).None? && !HasMarker(b[1..])
  {
    if MatchMarker(b).Some? {
      MarkerAtFront(b);
    } else {
      MarkersAfterFirst(b);
    }
  }

  lemma FirstAndRest(b: string, r: string)
    requires b != ""
    ensures (b + r)[0] == b[0] && (b + r)[1..] == b[1..] + r && [b[0]] + (b[1..] + r) == b + r
  {
  }

  lemma TextGoesOn(s: string)
    requires s != "" && MatchMarker(s).None?
    ensures SplitPages(s) == Sections([s[0]] + SplitPages(s[1..]).before, SplitPages(s[1..]).pages)
  {
  }

  lemma {:induction false} UnmarkedTextIsKept(b: string, r: string)
    requires Stops(r) && !HasMarker(b)
    ensures SplitPages(b + r) == Sections(b + SplitPages(r).before, SplitPages(r).pages)
  {
    if b == "" {
      assert b + r == r;
    } else {
      NoMarkerAfterFirst(b);
      MarkerBeforeStop(b, r);
      UnmarkedTextIsKept(b[1..], r);
      FirstAndRest(b, r);
      FirstAndRest(b, SplitPages(r).before);
      TextGoesOn(b + r);
    }
  }

  lemma TrimBeforeBlank(b: string, blank: string)
    requires b != "" && IsTrimmed(b) && Blank(blank)
    ensures Trim(b + blank) == b
  {
    TrimIsUnique("", b, blank);
    assert "" + b + blank == b + blank;
  }

  lemma TrimmedFirst(first: Section, rest: seq<Section>)
    ensures Trimmed([first] + rest) == [Section(first.page, Trim(first.text))] + Trimmed(rest)
  {
  }

  // The first page comes back, and after it the pages of what follows.
  lemma FirstPageComesBack(pages: seq<Section>)
    requires pages != [] && Printable(pages) && !HasMarker(pages[0].text)
    ensures Trimmed(SplitPages(Render(pages)).pages) == [pages[0]] + Trimmed(SplitPages(Following(pages)).pages)
  {
    RenderSplitsAtHeader(pages);
    FollowingStops(pages);
    UnmarkedTextIsKept(pages[0].text, Following(pages));
    var following := SplitPages(Following(pages));
    TrimBeforeBlank(pages[0].text, following.before);
    TrimmedFirst(Section(pages[0].page, pages[0].text + following.before), following.pages);
  }

  // Taking the rendered text apart gives back the pages it was made of, each
  // with its number, as long as no page contains a marker of its own.
  lemma {:induction false} SplitRender(pages: seq<Section>)
    requires Printable(pages)
    requires forall i | 0 <= i < |pages| :: !HasMarker(pages[i].text)
    ensures Trimmed(SplitPages(Render(pages)).pages) == pages
  {
    if pages != [] {
      SplitRender(pages[1..]);
      FirstPageComesBack(pages);
      FollowingStops(pages);
      assert pages == [pages[0]] + pages[1..];
    }
  }

  // ----- and only then

  lemma {:induction false} MarkersAddUp(b: string, r: string)
    requires Stops(r)
    ensures |SplitPages(b + r).pages| == |SplitPages(b).pages| + |SplitPages(r).pages|
    decreases |b|
  {
    if b == "" {
      assert b + r == r;
    } else {
      MarkerBeforeStop(b, r);
      var m := MatchMarker(b);
      if m.None? {
        assert (b + r)[1..] == b[1..] + r;
        MarkersAddUp(b[1..], r);
      } else if m.value.rest != "" {
        MarkersAddUp(m.value.rest, r);
      } else {
        SpacesHideNoMarker(r);
      }
    }
  }

  lemma SpacesHideNoMarker(r: string)
    requires Stops(r)
    ensures SplitPages(TrimStart(r)).pages == SplitPages(r).pages
  {
    if r != "" {
      assert r[0] == '\n' && r[1] == '\n' && r[2] == '<';
      assert r[1..][1..] == r[2..];
      assert TrimStart(r) == TrimStart(r[1..]) == r[2..];
      assert r[0] != OPEN[0] && r[1..][0] != OPEN[0];
      assert SplitPages(r).pages == SplitPages(r[1..]).pages == SplitPages(r[2..]).pages;
    }
  }

  // A text contains a marker exactly when splitting it finds one.
  lemma {:induction false} SplitFindsMarkers(s: string)
    ensures HasMarker(s) <==> SplitPages(s).pages != []
  {
    if s != "" {
      if MatchMarker(s).Some? {
        MarkerAtFront(s);
      } else {
        SplitFindsMarkers(s[1..]);
        MarkersAfterFirst(s);
      }
    }
  }

  lemma {:induction false} SplitCountsPages(pages: seq<Section>)
    requires Printable(pages)
    ensures |SplitPages(Render(pages)).pages| >= |pages|
    ensures (exists i | 0 <= i < |pages| :: HasMarker(pages[i].text)) ==>
              |SplitPages(Render(pages)).pages| > |pages|
  {
    if pages != [] {
      SplitCountsPages(pages[1..]);
      RenderSplitsAtHeader(pages);
      FollowingStops(pages);
      MarkersAddUp(pages[0].text, Following(pages));
      SplitFindsMarkers(pages[0].text);
      if i :| 0 <= i < |pages| && HasMarker(pages[i].text) {
        if i > 0 {
          assert pages[1..][i - 1] == pages[i];
        }
      }
    }
  }

  lemma RoundTripIff(pages: seq<Section>)
    requires Printable(pages)
    ensures Trimmed(SplitPages(Render(pages)).pages) == pages
       <==> forall i | 0 <= i < |pages| :: !HasMarker(pages[i].text)
  {
    SplitCountsPages(pages);
    if forall i | 0 <= i < |pages| :: !HasMarker(pages[i].text) {
      SplitRender(pages);
    }
  }

  // Each page with text is rendered in its place, trimmed, under its own number
  // or else its position among those rendered; a page without text is left out.
  lemma {:induction false} EachPageIsRendered(pages: seq<ParsedPage>, k: nat)
    requires k < |pages|
    ensures var rendered, j := PagesWithText(pages), |PagesWithText(pages[..k])|;
            if pages[k].markdown.Some? && Trim(pages[k].markdown.value) != ""
            then && j < |rendered| && |PagesWithText(pages[..k + 1])| == j + 1
                 && rendered[j] == Section(if pages[k].pageNumber.Some? then pages[k].pageNumber.value else j + 1,
                                           Trim(pages[k].markdown.value))
            else |PagesWithText(pages[..k + 1])| == j
    ensures |PagesWithText(pages[..0])| == 0 && pages[..|pages|] == pages
  {
    hide Trim;
    var n := |pages| - 1;
    assert pages[..k + 1][..k] == pages[..k];
    if k < n {
      EachPageIsRendered(pages[..n], k);
      assert pages[..n][..k] == pages[..k] && pages[..n][..k + 1] == pages[..k + 1];
    } else {
      assert pages[..k + 1] == pages;
    }
  }

  // A marker needs the opening of a comment, so pages without one are safe.
  lemma NoCommentNoMarker(s: string)
    requires forall i | 0 <= i < |s| :: !(OPEN <= s[i..])
    ensures !HasMarker(s)
  {
  }

  // The round trip of a parsed document.
  lemma ParsedDocumentRoundTrip(pages: seq<ParsedPage>)
    requires forall p | p in PagesWithText(pages) :: forall i | 0 <= i < |p.text| :: !(OPEN <= p.text[i..])
    ensures Trimmed(SplitPages(RenderParsedDocument(pages)).pages) == PagesWithText(pages)
  {
    PagesWithTextArePrintable(pages);
    var printed := PagesWithText(pages);
    forall i | 0 <= i < |printed| ensures !HasMarker(printed[i].text) {
      assert printed[i] in printed;
      NoCommentNoMarker(printed[i].text);
    }
    RoundTripIff(printed);
  }
}
