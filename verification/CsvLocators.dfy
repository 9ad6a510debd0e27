// When do the chunks of a CSV file name the rows they come from? Exactly when
// no over-long row arrives while only blank rows are waiting in the buffer: a
// blank buffer is not flushed, so the over-long row is then numbered too low.
module CsvLocators {
  import opened Text
  import opened SlidingWindows
  import opened TextWindows
  import opened AttachmentTypes
  import opened CsvChunks

  ghost predicate BlankRows(rows: seq<string>) {
    forall i | 0 <= i < |rows| :: Blank(rows[i])
  }

  // The rows waiting in the buffer, told from the rows read so far.
  ghost function Pending(rows: seq<string>): seq<string> {
    if rows == [] then []
    else
      var p, row := Pending(rows[..|rows| - 1]), rows[|rows| - 1];
      if Overlong(row) then (if BlankRows(p) then p else [])
      else if Overflows(p, row) && !BlankRows(p) then [row]
      else p + [row]
  }

  ghost predicate MisplacedAt(rows: seq<string>, i: nat)
    requires i < |rows|
  {
    Overlong(rows[i]) && !Blank(rows[i]) && Pending(rows[..i]) != [] && BlankRows(Pending(rows[..i]))
  }

  ghost predicate Misplaces(rows: seq<string>) {
    exists i | 0 <= i < |rows| :: MisplacedAt(rows, i)
  }

  // The chunk says the truth about where it comes from.
  ghost predicate LocatorExact(rows: seq<string>, c: Chunk) {
    match c.locator
    case CsvRows(a, b) => 1 <= a <= b <= |rows| && c.content == Trim(Join(rows[a - 1..b], "\n"))
    case CsvRow(r) => 1 <= r <= |rows| && exists w | w in Windows(rows[r - 1]) :: w.content == c.content
    case _ => false
  }

  ghost predicate AllExact(rows: seq<string>, chunks: seq<Chunk>) {
    forall c | c in chunks :: LocatorExact(rows, c)
  }

  // ----- blank rows

  lemma {:induction false} BlankJoin(rows: seq<string>)
    ensures Blank(Join(rows, "\n")) <==> BlankRows(rows)
  {
    if |rows| > 1 {
      BlankJoin(rows[1..]);
      BlankConcat(rows[0] + "\n", Join(rows[1..], "\n"));
      BlankConcat(rows[0], "\n");
      assert BlankRows(rows) <==> Blank(rows[0]) && BlankRows(rows[1..]) by {
        if Blank(rows[0]) && BlankRows(rows[1..]) {
          forall i | 0 <= i < |rows| ensures Blank(rows[i]) {
            if i > 0 { assert rows[i] == rows[1..][i - 1]; }
          }
        }
      }
    }
  }

  lemma NoInkNoWindows(text: string)
    requires Blank(text)
    ensures Windows(text) == []
  {
    BlankHasNoWindows(MAX_CHUNK_CHARACTERS, CHUNK_OVERLAP_CHARACTERS, text, 0);
  }

  // Two runs of rows that differ only in blank rows at the front.
  ghost predicate SameButFront(b: seq<string>, n: seq<string>, k: nat) {
    && k <= |b| == |n|
    && b[k..] == n[k..]
    && BlankRows(b[..k]) && BlankRows(n[..k])
  }

  lemma BlankFrontTrims(rows: seq<string>, k: nat)
    requires k <= |rows| && BlankRows(rows[..k])
    ensures Trim(Join(rows, "\n")) == Trim(Join(rows[k..], "\n"))
  {
    var x, y := rows[..k], rows[k..];
    assert rows == x + y;
    BlankJoin(x);
    if x == [] {
      assert y == rows;
    } else if y == [] {
      assert x == rows;
      BlankTrimsToNothing(Join(rows, "\n"));
      BlankTrimsToNothing("");
    } else {
      JoinConcat(x, y, "\n");
      BlankConcat(Join(x, "\n"), "\n");
      BlankPrefixTrims(Join(x, "\n") + "\n", Join(y, "\n"));
    }
  }

  lemma SameButFrontTrims(b: seq<string>, n: seq<string>, k: nat)
    requires SameButFront(b, n, k)
    ensures Trim(Join(b, "\n")) == Trim(Join(n, "\n"))
    ensures BlankRows(b) <==> BlankRows(n)
  {
    BlankFrontTrims(b, k);
    BlankFrontTrims(n, k);
    BlankJoin(b);
    BlankJoin(n);
    BlankTrimsToNothing(Join(b, "\n"));
    BlankTrimsToNothing(Join(n, "\n"));
  }

  // ----- the invariant of the loop while nothing is misplaced

  // The rows the locator of the next flush would name.
  ghost function Named(rows: seq<string>, p: Progress): seq<string>
    requires 1 <= p.rowStart <= |rows| + 1
  {
    rows[p.rowStart - 1..]
  }

  ghost predicate OnTrack(rows: seq<string>, p: Progress) {
    && 1 <= p.rowStart && p.rowStart + |p.buffer| == |rows| + 1
    && p.buffer == Pending(rows)
    && AllExact(rows, p.chunks)
    && exists k: nat :: SameButFront(p.buffer, Named(rows, p), k)
  }

  lemma ExactStays(rows: seq<string>, row: string, chunks: seq<Chunk>)
    requires AllExact(rows, chunks)
    ensures AllExact(rows + [row], chunks)
  {
    forall c | c in chunks ensures LocatorExact(rows + [row], c) {
      assert LocatorExact(rows, c);
      match c.locator
      case CsvRows(a, b) => assert (rows + [row])[a - 1..b] == rows[a - 1..b];
      case _ =>
    }
  }

  // What is waiting and what the next locator would name trim to the same text.
  lemma WaitingIsNamed(rows: seq<string>, p: Progress)
    requires OnTrack(rows, p)
    ensures Trim(Join(p.buffer, "\n")) == Trim(Join(Named(rows, p), "\n"))
    ensures BlankRows(p.buffer) <==> Trim(Join(p.buffer, "\n")) == ""
    ensures BlankRows(p.buffer) <==> BlankRows(Named(rows, p))
  {
    var k: nat :| SameButFront(p.buffer, Named(rows, p), k);
    SameButFrontTrims(p.buffer, Named(rows, p), k);
    BlankJoin(p.buffer);
    BlankTrimsToNothing(Join(p.buffer, "\n"));
  }

  lemma NamedExact(rows: seq<string>, content: string, ordinal: nat, a: nat, b: nat)
    requires 1 <= a <= b == |rows| && content == Trim(Join(rows[a - 1..], "\n"))
    ensures LocatorExact(rows, Chunk(ordinal, content, CsvRows(a, b)))
  {
    assert rows[a - 1..b] == rows[a - 1..];
  }

  lemma OneMoreExact(rows: seq<string>, chunks: seq<Chunk>, c: Chunk)
    requires AllExact(rows, chunks) && LocatorExact(rows, c)
    ensures AllExact(rows, chunks + [c])
  {
  }

  lemma InkIsFlushed(rows: seq<string>, p: Progress, content: string)
    requires 1 <= p.rowStart && p.rowStart + |p.buffer| == |rows| + 1 && AllExact(rows, p.chunks)
    requires content == Trim(Join(p.buffer, "\n")) == Trim(Join(rows[p.rowStart - 1..], "\n")) && content != ""
    ensures AllExact(rows, Flush(p).chunks) && Flush(p).buffer == [] && Flush(p).rowStart == |rows| + 1
  {
    if p.buffer == [] {
      BlankTrimsToNothing("");
    } else {
      var c := Chunk(|p.chunks|, content, CsvRows(p.rowStart, p.rowStart + |p.buffer| - 1));
      NamedExact(rows, content, |p.chunks|, p.rowStart, p.rowStart + |p.buffer| - 1);
      OneMoreExact(rows, p.chunks, c);
    }
  }

  lemma FlushIsExact(rows: seq<string>, p: Progress)
    requires OnTrack(rows, p)
    ensures AllExact(rows, Flush(p).chunks)
    ensures !BlankRows(p.buffer) ==> Flush(p).buffer == [] && Flush(p).rowStart == |rows| + 1
    ensures BlankRows(p.buffer) ==> Flush(p) == p
  {
    WaitingIsNamed(rows, p);
    var content := Trim(Join(p.buffer, "\n"));
    if content != "" {
      InkIsFlushed(rows, p, content);
    } else {
      assert Flush(p) == p;
    }
  }

  lemma ShortRowStaysOnTrack(rows: seq<string>, p: Progress, row: string)
    requires OnTrack(rows, p) && !Overlong(row)
    ensures OnTrack(rows + [row], Take(p, row))
  {
    var rows' := rows + [row];
    assert rows'[..|rows'| - 1] == rows;
    FlushIsExact(rows, p);
    ExactStays(rows, row, Flush(p).chunks);
    ExactStays(rows, row, p.chunks);
    var q := Take(p, row);
    if Overflows(p.buffer, row) && !BlankRows(p.buffer) {
      assert Named(rows', q) == [row];
      assert SameButFront(q.buffer, Named(rows', q), 0);
    } else {
      var k: nat :| SameButFront(p.buffer, Named(rows, p), k);
      AppendSame(p.buffer, Named(rows, p), k, row);
      assert Named(rows', q) == Named(rows, p) + [row];
    }
  }

  lemma AppendSame(b: seq<string>, n: seq<string>, k: nat, row: string)
    requires SameButFront(b, n, k)
    ensures SameButFront(b + [row], n + [row], k)
  {
    assert (b + [row])[..k] == b[..k] && (n + [row])[..k] == n[..k];
    assert (b + [row])[k..] == b[k..] + [row] && (n + [row])[k..] == n[k..] + [row];
  }

  lemma PiecesAreExact(rows: seq<string>, r: nat, from: nat)
    requires 1 <= r <= |rows|
    ensures AllExact(rows, RowPieces(r, from, Windows(rows[r - 1])))
  {
    var windows := Windows(rows[r - 1]);
    forall i | 0 <= i < |windows| ensures LocatorExact(rows, RowPieces(r, from, windows)[i]) {
      assert windows[i] in windows;
    }
  }

  // An over-long row that finds nothing waiting after the flush.
  lemma LongRowAfterFlush(rows: seq<string>, p: Progress, row: string)
    requires OnTrack(rows, p) && Overlong(row)
    requires p.buffer == [] || !BlankRows(p.buffer)
    ensures OnTrack(rows + [row], Take(p, row))
  {
    var rows' := rows + [row];
    assert rows'[..|rows'| - 1] == rows;
    FlushIsExact(rows, p);
    var f, q := Flush(p), Take(p, row);
    assert q == Progress(f.chunks + RowPieces(f.rowStart, |f.chunks|, Windows(row)), f.rowStart + 1, f.buffer);
    ExactStays(rows, row, f.chunks);
    assert rows'[|rows'| - 1] == row;
    PiecesAreExact(rows', |rows'|, |f.chunks|);
    assert SameButFront(q.buffer, Named(rows', q), 0);
  }

  // A blank over-long row leaves no chunk, only a number.
  lemma BlankLongRow(rows: seq<string>, p: Progress, row: string)
    requires OnTrack(rows, p) && Overlong(row) && Blank(row) && p.buffer != [] && BlankRows(p.buffer)
    ensures OnTrack(rows + [row], Take(p, row))
  {
    var rows' := rows + [row];
    assert rows'[..|rows'| - 1] == rows;
    FlushIsExact(rows, p);
    WaitingIsNamed(rows, p);
    NoInkNoWindows(row);
    ExactStays(rows, row, p.chunks);
    var q := Take(p, row);
    assert q == Progress(p.chunks, p.rowStart + 1, p.buffer);
    AllBlankRows(rows, row, p.rowStart);
    assert SameButFront(q.buffer, Named(rows', q), |q.buffer|) by {
      AllBlankAreSame(q.buffer, Named(rows', q));
    }
  }

  lemma AllBlankRows(rows: seq<string>, row: string, from: nat)
    requires 1 <= from <= |rows| && BlankRows(rows[from - 1..]) && Blank(row)
    ensures BlankRows((rows + [row])[from..])
  {
    forall i | 0 <= i < |rows| + 1 - from ensures Blank((rows + [row])[from..][i]) {
      assert (rows + [row])[from..][i] == if from + i < |rows| then rows[from - 1..][i + 1] else row;
    }
  }

  lemma AllBlankAreSame(b: seq<string>, n: seq<string>)
    requires |b| == |n| && BlankRows(b) && BlankRows(n)
    ensures SameButFront(b, n, |b|)
  {
    assert b[..|b|] == b && n[..|n|] == n;
  }

  // An over-long row keeps everything exact unless it meets waiting blank rows.
  lemma LongRowStaysOnTrack(rows: seq<string>, p: Progress, row: string)
    requires OnTrack(rows, p) && Overlong(row)
    requires Blank(row) || p.buffer == [] || !BlankRows(p.buffer)
    ensures OnTrack(rows + [row], Take(p, row))
  {
    if p.buffer == [] || !BlankRows(p.buffer) {
      LongRowAfterFlush(rows, p, row);
    } else {
      BlankLongRow(rows, p, row);
    }
  }

  lemma {:induction false} StaysOnTrack(rows: seq<string>)
    requires !Misplaces(rows)
    ensures OnTrack(rows, TakeAll(rows))
  {
    if rows == [] {
      assert Named(rows, START) == [];
      assert SameButFront(START.buffer, Named(rows, START), 0);
    } else {
      var init, row := rows[..|rows| - 1], rows[|rows| - 1];
      forall i | 0 <= i < |init| ensures !MisplacedAt(init, i) {
        assert init[..i] == rows[..i];
        assert !MisplacedAt(rows, i);
      }
      StaysOnTrack(init);
      assert rows == init + [row];
      assert !MisplacedAt(rows, |init|);
      if Overlong(row) {
        LongRowStaysOnTrack(init, TakeAll(init), row);
      } else {
        ShortRowStaysOnTrack(init, TakeAll(init), row);
      }
    }
  }

  // ----- the first misplaced row has a chunk that names a blank row instead

  lemma FlushOnlyAdds(p: Progress)
    ensures p.chunks <= Flush(p).chunks
  {
  }

  lemma TakeOnlyAdds(p: Progress, row: string)
    ensures p.chunks <= Take(p, row).chunks
  {
    FlushOnlyAdds(p);
    FlushOnlyAdds(Flush(p));
  }

  lemma {:induction false} EarlierChunksStay(rows: seq<string>, i: nat)
    requires i <= |rows|
    ensures TakeAll(rows[..i]).chunks <= TakeAll(rows).chunks <= CsvChunksOf(rows)
  {
    FlushOnlyAdds(TakeAll(rows));
    if i < |rows| {
      EarlierChunksStay(rows[..|rows| - 1], i);
      assert rows[..|rows| - 1][..i] == rows[..i];
      TakeOnlyAdds(TakeAll(rows[..|rows| - 1]), rows[|rows| - 1]);
    } else {
      assert rows[..i] == rows;
    }
  }

  lemma InkHasAWindow(text: string)
    requires !Blank(text)
    ensures Windows(text) != []
  {
    var i :| 0 <= i < |text| && !IsSpace(text[i]);
    WindowsKeepPassages(text, i, i + 1);
  }

  // Its first piece goes out under the number of the first waiting row.
  lemma WrongNumber(rows: seq<string>, p: Progress, row: string)
    requires OnTrack(rows, p) && p.buffer != [] && BlankRows(p.buffer) && Overlong(row) && !Blank(row)
    ensures var q := Take(p, row);
            && |p.chunks| < |q.chunks|
            && q.chunks[|p.chunks|].locator == CsvRow(p.rowStart)
            && 1 <= p.rowStart <= |rows| && Blank(rows[p.rowStart - 1])
  {
    FlushIsExact(rows, p);
    WaitingIsNamed(rows, p);
    assert Named(rows, p)[0] == rows[p.rowStart - 1];
    InkHasAWindow(row);
    assert Take(p, row).chunks == p.chunks + RowPieces(p.rowStart, |p.chunks|, Windows(row));
  }

  // A chunk whose locator names a blank row is not exact.
  lemma BlankRowIsWrong(rows: seq<string>, i: nat, k: nat, c: Chunk)
    requires 1 <= k <= i <= |rows| && c.locator == CsvRow(k) && Blank(rows[..i][k - 1])
    ensures !LocatorExact(rows, c)
  {
    assert rows[..i][k - 1] == rows[k - 1];
    NoInkNoWindows(rows[k - 1]);
  }

  lemma TakeNext(rows: seq<string>, i: nat)
    requires i < |rows|
    ensures TakeAll(rows[..i + 1]) == Take(TakeAll(rows[..i]), rows[i])
  {
    assert rows[..i + 1][..i] == rows[..i];
  }

  lemma WrongChunkStays(rows: seq<string>, i: nat, chunks: seq<Chunk>, n: nat, k: nat)
    requires chunks <= CsvChunksOf(rows) && n < |chunks| && chunks[n].locator == CsvRow(k)
    requires 1 <= k <= i <= |rows| && Blank(rows[..i][k - 1])
    ensures !AllExact(rows, CsvChunksOf(rows))
  {
    var c := CsvChunksOf(rows)[n];
    assert c == chunks[n] && c in CsvChunksOf(rows);
    BlankRowIsWrong(rows, i, k, c);
  }

  lemma MisplacedIsWrong(rows: seq<string>, i: nat)
    requires i < |rows| && MisplacedAt(rows, i) && !Misplaces(rows[..i])
    ensures !AllExact(rows, CsvChunksOf(rows))
  {
    hide Take, CsvChunksOf, AllExact;
    var p := TakeAll(rows[..i]);
    StaysOnTrack(rows[..i]);
    WrongNumber(rows[..i], p, rows[i]);
    TakeNext(rows, i);
    EarlierChunksStay(rows, i + 1);
    WrongChunkStays(rows, i, Take(p, rows[i]).chunks, |p.chunks|, p.rowStart);
  }

  lemma {:induction false} FirstMisplaced(rows: seq<string>, j: nat) returns (i: nat)
    requires j < |rows| && MisplacedAt(rows, j)
    ensures i < |rows| && MisplacedAt(rows, i) && !Misplaces(rows[..i])
  {
    i := j;
    if Misplaces(rows[..j]) {
      var m :| 0 <= m < j && MisplacedAt(rows[..j], m);
      assert rows[..j][..m] == rows[..m];
      i := FirstMisplaced(rows, m);
    }
  }

  // Locators are exact if and only if no over-long row with ink arrives while
  // only blank rows are waiting.
  lemma LocatorsExactIff(rows: seq<string>)
    ensures AllExact(rows, CsvChunksOf(rows)) <==> !Misplaces(rows)
  {
    if Misplaces(rows) {
      var j :| 0 <= j < |rows| && MisplacedAt(rows, j);
      var i := FirstMisplaced(rows, j);
      MisplacedIsWrong(rows, i);
    } else {
      StaysOnTrack(rows);
      FlushIsExact(rows, TakeAll(rows));
    }
  }

  // In particular when no blank row comes before an over-long one.
  lemma NoBlankBeforeLong(rows: seq<string>)
    requires forall i, j | 0 <= i < j < |rows| && Overlong(rows[j]) :: !Blank(rows[i])
    ensures AllExact(rows, CsvChunksOf(rows))
  {
    forall j | 0 <= j < |rows| ensures !MisplacedAt(rows, j) {
      if Overlong(rows[j]) {
        PendingAreRows(rows[..j]);
        if Pending(rows[..j]) != [] {
          assert Pending(rows[..j])[0] in rows[..j];
        }
      }
    }
    LocatorsExactIff(rows);
  }

  lemma {:induction false} PendingAreRows(rows: seq<string>)
    ensures forall row | row in Pending(rows) :: row in rows
  {
    if rows != [] {
      PendingAreRows(rows[..|rows| - 1]);
    }
  }

  lemma {:induction false} OneRow(s: string)
    requires '\n' !in s
    ensures SplitLines(s) == [s]
  {
    if s != "" {
      assert s[0] in s && s == [s[0]] + s[1..];
      assert forall c | c in s[1..] :: c in s;
      OneRow(s[1..]);
    }
  }

  lemma RowsOfBreak(long: string)
    requires '\n' !in long
    ensures SplitLines("\n" + long) == ["", long]
  {
    OneRow(long);
    var text := "\n" + long;
    assert text[1..] == long && text[0] == '\n' && !("\r\n" <= text);
    assert [""] + [long] == ["", long];
  }

  lemma BlankRowWaits(long: string)
    requires Overlong(long) && !Blank(long)
    ensures Misplaces(["", long])
  {
    var rows := ["", long];
    assert rows[..1] == [""] && rows[..1][..0] == [];
    assert Pending([""]) == [""];
    assert MisplacedAt(rows, 1);
  }

  // The smallest failing file: a blank row, then an over-long one.
  lemma BlankRowMisplacesLongRow(long: string)
    requires '\n' !in long && Overlong(long) && !Blank(long)
    ensures SplitLines("\n" + long) == ["", long]
    ensures !AllExact(SplitLines("\n" + long), CsvChunksOf(SplitLines("\n" + long)))
  {
    RowsOfBreak(long);
    BlankRowWaits(long);
    LocatorsExactIff(["", long]);
  }
}
