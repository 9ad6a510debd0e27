// Chunks of a CSV file (chunksForCsv in src/worker/chat-storage.ts): rows are
// gathered up to 8000 characters, an over-long row is cut into windows, and
// each chunk names the rows it comes from.
module CsvChunks {
  import opened Options
  import opened Text
  import opened SlidingWindows
  import opened TextWindows
  import opened AttachmentTypes

  // The variables of the loop.
  datatype Progress = Progress(chunks: seq<Chunk>, rowStart: nat, buffer: seq<string>)

  const START := Progress([], 1, [])

  // A blank buffer is not flushed, and stays.
  function Flush(p: Progress): Progress {
    var content := Trim(Join(p.buffer, "\n"));
    if content == "" || p.buffer == [] then p
    else Progress(p.chunks + [Chunk(|p.chunks|, content, CsvRows(p.rowStart, p.rowStart + |p.buffer| - 1))],
                  p.rowStart + |p.buffer|, [])
  }

  function RowPieces(row: nat, from: nat, windows: seq<TextChunk>): (chunks: seq<Chunk>)
    ensures |chunks| == |windows|
    ensures forall i | 0 <= i < |windows| :: chunks[i] == Chunk(from + i, windows[i].content, CsvRow(row))
  {
    seq(|windows|, i requires 0 <= i < |windows| => Chunk(from + i, windows[i].content, CsvRow(row)))
  }

  predicate Overlong(row: string) {
    |row| > MAX_CHUNK_CHARACTERS
  }

  predicate Overflows(buffer: seq<string>, row: string) {
    buffer != [] && |Join(buffer + [row], "\n")| > MAX_CHUNK_CHARACTERS
  }

  function Take(p: Progress, row: string): Progress {
    var q := if Overflows(p.buffer, row) then Flush(p) else p;
    if Overlong(row) then
      var f := Flush(q);
      Progress(f.chunks + RowPieces(f.rowStart, |f.chunks|, Windows(row)), f.rowStart + 1, f.buffer)
    else q.(buffer := q.buffer + [row])
  }

  // The progress after the rows, from the start.
  function TakeAll(rows: seq<string>): Progress {
    if rows == [] then START else Take(TakeAll(rows[..|rows| - 1]), rows[|rows| - 1])
  }

  function CsvChunksOf(rows: seq<string>): seq<Chunk> {
    Flush(TakeAll(rows)).chunks
  }

  lemma {:induction false} TakeAllGrows(rows: seq<string>, i: nat)
    requires i <= |rows|
    ensures |TakeAll(rows[..i]).chunks| <= |TakeAll(rows).chunks| <= |CsvChunksOf(rows)|
  {
    if i < |rows| {
      TakeAllGrows(rows[..|rows| - 1], i);
      assert rows[..|rows| - 1][..i] == rows[..i];
    } else {
      assert rows[..i] == rows;
    }
  }

  // A row that alone has too many windows makes the whole too many.
  lemma TooManyWindows(rows: seq<string>, i: nat)
    requires i < |rows| && Overlong(rows[i])
    ensures |Windows(rows[i])| <= |CsvChunksOf(rows)|
  {
    TakeAllGrows(rows, i + 1);
    assert rows[..i + 1][..i] == rows[..i];
  }

  // One turn of the loop; fails when a row has too many windows on its own.
  method TakeRow(p: Progress, line: string) returns (r: Option<Progress>)
    ensures r.None? <==> Overlong(line) && |Windows(line)| > AttachmentTypes.MAX_CHUNKS
    ensures r.Some? ==> r.value == Take(p, line)
  {
    var chunks, rowStart, buffer := p.chunks, p.rowStart, p.buffer;
    if |buffer| > 0 && |Join(buffer + [line], "\n")| > MAX_CHUNK_CHARACTERS {
      var flushed := Flush(Progress(chunks, rowStart, buffer));
      chunks, rowStart, buffer := flushed.chunks, flushed.rowStart, flushed.buffer;
    }
    if |line| > MAX_CHUNK_CHARACTERS {
      if |buffer| > 0 {
        var flushed := Flush(Progress(chunks, rowStart, buffer));
        chunks, rowStart, buffer := flushed.chunks, flushed.rowStart, flushed.buffer;
      }
      var windows := ChunkText(line);
      if windows.None? {
        return None;
      }
      chunks := chunks + RowPieces(rowStart, |chunks|, windows.value);
      rowStart := rowStart + 1;
    } else {
      buffer := buffer + [line];
    }
    r := Some(Progress(chunks, rowStart, buffer));
  }

  // No rows at all is an error, and so are too many chunks.
  method ChunksForCsv(text: string) returns (r: Option<seq<Chunk>>)
    ensures r.Some? <==> 1 <= |CsvChunksOf(SplitLines(text))| <= AttachmentTypes.MAX_CHUNKS
    ensures r.Some? ==> r.value == CsvChunksOf(SplitLines(text))
  {
    var lines := SplitLines(text);
    var p := START;
    for i := 0 to |lines|
      invariant p == TakeAll(lines[..i])
      invariant |p.chunks| <= AttachmentTypes.MAX_CHUNKS
    {
      var taken := TakeRow(p, lines[i]);
      if taken.None? {
        TooManyWindows(lines, i);
        return None;
      }
      assert taken.value == TakeAll(lines[..i + 1]) by {
        assert lines[..i + 1][..i] == lines[..i];
      }
      p := taken.value;
      TakeAllGrows(lines, i + 1);
      if |p.chunks| > AttachmentTypes.MAX_CHUNKS {
        return None;
      }
    }
    assert lines[..|lines|] == lines;
    var chunks := if |p.buffer| > 0 then Flush(p).chunks else p.chunks;
    if |chunks| == 0 || |chunks| > AttachmentTypes.MAX_CHUNKS {
      return None;
    }
    r := Some(chunks);
  }

  // ----- at every step

  // Every row consumed is either behind rowStart or in the buffer.
  lemma {:induction false} RowsAreCounted(rows: seq<string>)
    ensures var p := TakeAll(rows); p.rowStart + |p.buffer| == |rows| + 1
  {
    if rows != [] {
      RowsAreCounted(rows[..|rows| - 1]);
    }
  }

  ghost predicate WellSized(chunks: seq<Chunk>) {
    forall i | 0 <= i < |chunks| ::
      chunks[i].ordinal == i && 1 <= |chunks[i].content| <= MAX_CHUNK_CHARACTERS
  }

  lemma JoinRow(buffer: seq<string>, row: string)
    ensures Join(buffer + [row], "\n") == if buffer == [] then row else Join(buffer, "\n") + "\n" + row
  {
    JoinAppend(buffer, row, "\n");
  }

  // A row after a blank buffer trims to the row alone.
  lemma TrimAfterBlank(buffer: seq<string>, row: string)
    requires Blank(Join(buffer, "\n"))
    ensures Trim(Join(buffer + [row], "\n")) == Trim(row)
  {
    JoinRow(buffer, row);
    if buffer != [] {
      BlankConcat(Join(buffer, "\n"), "\n");
      BlankPrefixTrims(Join(buffer, "\n") + "\n", row);
    }
  }

  lemma {:induction false} ProgressIsWellSized(rows: seq<string>)
    ensures var p := TakeAll(rows);
            WellSized(p.chunks) && |Trim(Join(p.buffer, "\n"))| <= MAX_CHUNK_CHARACTERS
  {
    if rows != [] {
      var row := rows[|rows| - 1];
      ProgressIsWellSized(rows[..|rows| - 1]);
      var p := TakeAll(rows[..|rows| - 1]);
      TakeKeepsSizes(p, row);
    }
  }

  lemma FlushKeepsSizes(p: Progress)
    requires WellSized(p.chunks) && |Trim(Join(p.buffer, "\n"))| <= MAX_CHUNK_CHARACTERS
    ensures var q := Flush(p); WellSized(q.chunks) && |Trim(Join(q.buffer, "\n"))| <= MAX_CHUNK_CHARACTERS
  {
    TrimCutsBlankEnds("");
  }

  ghost predicate SizedFrom(from: nat, chunks: seq<Chunk>) {
    forall i | 0 <= i < |chunks| ::
      chunks[i].ordinal == from + i && 1 <= |chunks[i].content| <= MAX_CHUNK_CHARACTERS
  }

  lemma PiecesAreSized(rowStart: nat, from: nat, row: string)
    ensures SizedFrom(from, RowPieces(rowStart, from, Windows(row)))
  {
    hide Windows;
    WindowsArePassages(row);
    var windows, pieces := Windows(row), RowPieces(rowStart, from, Windows(row));
    forall i | 0 <= i < |pieces| ensures 1 <= |pieces[i].content| <= MAX_CHUNK_CHARACTERS {
      assert windows[i] in windows;
    }
  }

  lemma MoreWellSized(chunks: seq<Chunk>, more: seq<Chunk>)
    requires WellSized(chunks) && SizedFrom(|chunks|, more)
    ensures WellSized(chunks + more)
  {
  }

  lemma TakeKeepsSizesOfLong(p: Progress, row: string)
    requires WellSized(p.chunks) && |Trim(Join(p.buffer, "\n"))| <= MAX_CHUNK_CHARACTERS && Overlong(row)
    ensures var q := Take(p, row);
            WellSized(q.chunks) && |Trim(Join(q.buffer, "\n"))| <= MAX_CHUNK_CHARACTERS
  {
    var q := if Overflows(p.buffer, row) then Flush(p) else p;
    FlushKeepsSizes(p);
    FlushKeepsSizes(q);
    var f := Flush(q);
    PiecesAreSized(f.rowStart, |f.chunks|, row);
    MoreWellSized(f.chunks, RowPieces(f.rowStart, |f.chunks|, Windows(row)));
  }

  lemma TakeKeepsSizesOfShort(p: Progress, row: string)
    requires WellSized(p.chunks) && |Trim(Join(p.buffer, "\n"))| <= MAX_CHUNK_CHARACTERS && !Overlong(row)
    ensures var q := Take(p, row);
            WellSized(q.chunks) && |Trim(Join(q.buffer, "\n"))| <= MAX_CHUNK_CHARACTERS
  {
    FlushKeepsSizes(p);
    BlankTrimsToNothing(Join(p.buffer, "\n"));
    var q := if Overflows(p.buffer, row) then Flush(p) else p;
    JoinRow(q.buffer, row);
    TrimCutsBlankEnds(Join(q.buffer + [row], "\n"));
    TrimCutsBlankEnds(row);
    if Overflows(p.buffer, row) && q == p {
      TrimAfterBlank(q.buffer, row);
    }
  }

  lemma TakeKeepsSizes(p: Progress, row: string)
    requires WellSized(p.chunks) && |Trim(Join(p.buffer, "\n"))| <= MAX_CHUNK_CHARACTERS
    ensures var q := Take(p, row);
            WellSized(q.chunks) && |Trim(Join(q.buffer, "\n"))| <= MAX_CHUNK_CHARACTERS
  {
    if Overlong(row) {
      TakeKeepsSizesOfLong(p, row);
    } else {
      TakeKeepsSizesOfShort(p, row);
    }
  }

  // Every chunk has 1 to 8000 characters, and ordinals count from zero.
  lemma ChunksAreWellSized(rows: seq<string>)
    ensures WellSized(CsvChunksOf(rows))
  {
    ProgressIsWellSized(rows);
  }
}
