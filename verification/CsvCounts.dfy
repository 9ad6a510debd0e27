// How many chunks a CSV file comes to (chunksForCsv in
// src/worker/chat-storage.ts): rows are gathered for as long as they fit, so the
// number of chunks is bounded by the length of the file.
module CsvCounts {
  import opened Options
  import opened Text
  import opened SlidingWindows
  import opened TextWindows
  import opened AttachmentTypes
  import opened CsvChunks

  // ----- rows are gathered for as long as they fit

  function Contents(chunks: seq<Chunk>): (contents: seq<string>)
    ensures |contents| == |chunks|
  {
    seq(|chunks|, i requires 0 <= i < |chunks| => chunks[i].content)
  }

  lemma ContentsOfMore(a: seq<Chunk>, b: seq<Chunk>)
    ensures Contents(a + b) == Contents(a) + Contents(b)
  {
  }

  // A row of at most 8000 characters closes what was gathered before it exactly
  // if that has ink and would exceed 8000 characters with the row.
  lemma RowsAreGathered(rows: seq<string>, i: nat)
    requires i < |rows| && |rows[i]| <= 8000
    ensures var before, after := TakeAll(rows[..i]), TakeAll(rows[..i + 1]);
            var joined := Join(before.buffer, "\n");
            if before.buffer != [] && |joined| + 1 + |rows[i]| > 8000 && Trim(joined) != ""
            then Contents(after.chunks) == Contents(before.chunks) + [Trim(joined)] && after.buffer == [rows[i]]
            else after.chunks == before.chunks && after.buffer == before.buffer + [rows[i]]
  {
    hide Contents;
    var before := TakeAll(rows[..i]);
    assert rows[..i + 1][..i] == rows[..i];
    JoinRow(before.buffer, rows[i]);
    FlushCloses(before);
    hide Flush, Join, Trim;
  }

  // A longer row closes it whenever it has ink, and stands by itself in windows.
  lemma LongRowsStandAlone(rows: seq<string>, i: nat)
    requires i < |rows| && |rows[i]| > 8000
    ensures var before, after := TakeAll(rows[..i]), TakeAll(rows[..i + 1]);
            var content := Trim(Join(before.buffer, "\n"));
            && Contents(after.chunks)
               == Contents(before.chunks) + (if content == "" then [] else [content]) + WindowContents(rows[i])
            && after.buffer == if content == "" then before.buffer else []
  {
    hide Windows, Trim, Take, Flush, Join, Contents, RowPieces;
    var before, after := TakeAll(rows[..i]), TakeAll(rows[..i + 1]);
    assert rows[..i + 1][..i] == rows[..i];
    assert after == Take(before, rows[i]);
    LongRowIsCut(before, rows[i]);
    FlushCloses(before);
    var f := Flush(before);
    ContentsOfMore(f.chunks, RowPieces(f.rowStart, |f.chunks|, Windows(rows[i])));
    PiecesAreWindows(f.rowStart, |f.chunks|, rows[i]);
    assert Contents(before.chunks) + [] == Contents(before.chunks);
  }

  function WindowContents(row: string): (contents: seq<string>)
    ensures |contents| == |Windows(row)|
  {
    seq(|Windows(row)|, i requires 0 <= i < |Windows(row)| => Windows(row)[i].content)
  }

  lemma PiecesAreWindows(rowStart: nat, from: nat, row: string)
    ensures Contents(RowPieces(rowStart, from, Windows(row))) == WindowContents(row)
  {
    hide Windows;
  }

  lemma FlushCloses(p: Progress)
    ensures var content, f := Trim(Join(p.buffer, "\n")), Flush(p);
            if content == "" then f == p
            else Contents(f.chunks) == Contents(p.chunks) + [content] && f.buffer == []
  {
    hide Trim;
    BlankTrimsToNothing("");
    if Flush(p) != p {
      var c := Flush(p).chunks[|p.chunks|];
      ContentsOfMore(p.chunks, [c]);
      assert Contents([c]) == [c.content];
    }
  }

  lemma LongRowIsCut(p: Progress, row: string)
    requires |row| > 8000
    ensures var f := Flush(p);
            var q := Take(p, row);
            q.buffer == f.buffer && q.chunks == f.chunks + RowPieces(f.rowStart, |f.chunks|, Windows(row))
  {
    hide Windows, Trim;
    FlushTwice(p);
  }

  lemma FlushTwice(p: Progress)
    ensures Flush(Flush(p)) == Flush(p)
  {
    BlankTrimsToNothing("");
  }

  // ----- and so chunks are few

  // Characters of the rows, with a line break each.
  function Length(rows: seq<string>): nat {
    if rows == [] then 0 else Length(rows[..|rows| - 1]) + |rows[|rows| - 1]| + 1
  }

  // What the rows still waiting must have left over to pay for their chunk.
  function Due(gathered: nat): nat {
    if gathered > 4000 then 8000 else 2 * gathered
  }

  ghost predicate Paid(rows: seq<string>, p: Progress) {
    8000 * |p.chunks| + Due(Gathered(p)) <= 3 * Length(rows)
  }

  lemma WindowsArePaid(row: string)
    requires |row| > 8000
    ensures 8000 * (|Windows(row)| + 1) <= 3 * (|row| + 1)
  {
    WindowsAreFew(row, 0);
    assert |Windows(row)| <= WindowCount(|row|);
    FewWindows(|row|);
  }

  lemma FewWindows(length: nat)
    requires length > 8000
    ensures 8000 * (WindowCount(length) + 1) <= 3 * (length + 1)
  {
    var q := (length - 8000 + 7800 - 1) / 7800;
    assert WindowCount(length) == 1 + q;
    assert 7800 * q <= length - 8000 + 7799;
    if q >= 2 {
      assert 8000 * (q + 2) <= 3 * (7800 * q - 7799 + 8000);
    }
  }

  function Gathered(p: Progress): nat {
    |Join(p.buffer, "\n")|
  }

  lemma GatheredWith(buffer: seq<string>, row: string)
    ensures |Join(buffer + [row], "\n")| <= |Join(buffer, "\n")| + 1 + |row|
    ensures |Join([row], "\n")| == |row|
  {
    JoinRow(buffer, row);
  }

  lemma ShortRowCosts(rows: seq<string>, n: nat)
    requires n < |rows| && |rows[n]| <= 8000
    ensures var before, after := TakeAll(rows[..n]), TakeAll(rows[..n + 1]);
            if |after.chunks| == |before.chunks| then Gathered(after) <= Gathered(before) + 1 + |rows[n]|
            else && |after.chunks| == |before.chunks| + 1 && Gathered(after) == |rows[n]|
                 && Gathered(before) + 1 + |rows[n]| > 8000
  {
    RowsAreGathered(rows, n);
    GatheredWith(TakeAll(rows[..n]).buffer, rows[n]);
    hide Trim, Join, TakeAll, Contents;
  }

  // The arithmetic of a row of length r, with g characters waiting before it and h after it.
  lemma RowPays(chunks: nat, g: nat, h: nat, r: nat, closes: bool, length: nat)
    requires 8000 * chunks + Due(g) <= 3 * length
    requires closes ==> h == r && g + 1 + r > 8000
    requires !closes ==> h <= g + 1 + r
    ensures 8000 * (chunks + if closes then 1 else 0) + Due(h) <= 3 * (length + r + 1)
  {
  }

  lemma ShortRowIsPaid(rows: seq<string>)
    requires rows != [] && |rows[|rows| - 1]| <= 8000
    requires Paid(rows[..|rows| - 1], TakeAll(rows[..|rows| - 1]))
    ensures Paid(rows, TakeAll(rows))
  {
    hide TakeAll, Due;
    var n := |rows| - 1;
    var before, after := TakeAll(rows[..n]), TakeAll(rows);
    assert rows[..n + 1] == rows;
    ShortRowCosts(rows, n);
    RowPays(|before.chunks|, Gathered(before), Gathered(after), |rows[n]|, |after.chunks| != |before.chunks|,
            Length(rows[..n]));
  }

  lemma LongRowCosts(rows: seq<string>, n: nat)
    requires n < |rows| && |rows[n]| > 8000
    ensures var before, after := TakeAll(rows[..n]), TakeAll(rows[..n + 1]);
            && |after.chunks| <= |before.chunks| + 1 + |Windows(rows[n])|
            && Gathered(after) <= Gathered(before)
  {
    LongRowsStandAlone(rows, n);
    hide Trim, Windows, TakeAll, Contents, WindowContents;
  }

  lemma LongRowIsPaid(rows: seq<string>)
    requires rows != [] && |rows[|rows| - 1]| > 8000
    requires Paid(rows[..|rows| - 1], TakeAll(rows[..|rows| - 1]))
    ensures Paid(rows, TakeAll(rows))
  {
    hide TakeAll, Windows, Gathered;
    var n := |rows| - 1;
    assert rows[..n + 1] == rows;
    LongRowCosts(rows, n);
    WindowsArePaid(rows[n]);
  }

  lemma {:induction false} RowsArePaid(rows: seq<string>)
    ensures Paid(rows, TakeAll(rows))
  {
    if rows != [] {
      RowsArePaid(rows[..|rows| - 1]);
      if |rows[|rows| - 1]| <= 8000 {
        ShortRowIsPaid(rows);
      } else {
        LongRowIsPaid(rows);
      }
    }
  }

  // Three chunks for every 8000 characters, and one more.
  lemma ChunksAreFew(rows: seq<string>)
    ensures 8000 * |CsvChunksOf(rows)| <= 3 * Length(rows) + 8000
  {
    RowsArePaid(rows);
  }

  lemma LengthOfMore(first: string, rest: seq<string>)
    ensures Length([first] + rest) == |first| + 1 + Length(rest)
    decreases |rest|
  {
    var all := [first] + rest;
    if rest == [] {
      assert all[..0] == [] && Length(all[..0]) == 0;
    } else {
      assert all[..|all| - 1] == [first] + rest[..|rest| - 1];
      LengthOfMore(first, rest[..|rest| - 1]);
    }
  }

  lemma {:induction false} LinesAreShort(text: string)
    ensures Length(SplitLines(text)) <= |text| + 1
  {
    if text == "" {
      LengthOfMore("", []);
      assert [""] + [] == [""];
    } else if "\r\n" <= text {
      LinesAreShort(text[2..]);
      LengthOfMore("", SplitLines(text[2..]));
    } else {
      LinesAreShort(text[1..]);
      var rest := SplitLines(text[1..]);
      if text[0] == '\n' {
        LengthOfMore("", rest);
      } else {
        assert rest == [rest[0]] + rest[1..];
        LengthOfMore(rest[0], rest[1..]);
        LengthOfMore([text[0]] + rest[0], rest[1..]);
      }
    }
  }

  // A CSV file of up to 10 919 999 characters has at most 4096 chunks, whatever
  // is in it, and one of up to 25 MiB at most 9831.
  lemma FilesHaveFewChunks(text: string)
    ensures 8000 * |CsvChunksOf(SplitLines(text))| <= 3 * (|text| + 1) + 8000
    ensures |text| <= 10_919_999 ==> |CsvChunksOf(SplitLines(text))| <= 4096
    ensures |text| <= 26_214_400 ==> |CsvChunksOf(SplitLines(text))| <= 9831
  {
    ChunksAreFew(SplitLines(text));
    LinesAreShort(text);
  }
}
