// Nothing of a CSV file is lost on the way into its chunks (chunksForCsv in
// src/worker/chat-storage.ts), whatever becomes of the locators.
module CsvPassages {
  import opened Text
  import opened SlidingWindows
  import opened TextWindows
  import opened CsvChunks
  import opened AttachmentTypes

  ghost predicate InSomeChunk(chunks: seq<Chunk>, passage: string) {
    exists c | c in chunks :: Contains(c.content, passage)
  }

  // A passage is in a chunk or still waiting in the buffer.
  ghost predicate Kept(p: Progress, passage: string) {
    InSomeChunk(p.chunks, passage) || Contains(Join(p.buffer, "\n"), passage)
  }

  lemma MoreChunks(chunks: seq<Chunk>, more: seq<Chunk>, passage: string)
    requires InSomeChunk(chunks, passage) || InSomeChunk(more, passage)
    ensures InSomeChunk(chunks + more, passage)
  {
    var c :| (c in chunks || c in more) && Contains(c.content, passage);
    assert c in chunks + more;
  }

  lemma FlushKeeps(p: Progress, passage: string)
    requires HasInkAtEnds(passage) && Kept(p, passage)
    ensures InSomeChunk(Flush(p).chunks, passage)
  {
    if InSomeChunk(p.chunks, passage) {
      if Flush(p) != p {
        MoreChunks(p.chunks, Flush(p).chunks[|p.chunks|..], passage);
        assert Flush(p).chunks == p.chunks + Flush(p).chunks[|p.chunks|..];
      }
    } else {
      var content := Trim(Join(p.buffer, "\n"));
      TrimKeepsPassage(Join(p.buffer, "\n"), passage);
      BlankTrimsToNothing("");
      assert p.buffer != [];
      assert Flush(p).chunks[|p.chunks|].content == content;
    }
  }

  lemma PartHolds(a: string, b: string, c: string, passage: string)
    requires Contains(b, passage)
    ensures Contains(a + b + c, passage)
  {
    var i: nat :| FoundAt(b, passage, i);
    var s := a + b + c;
    assert s[|a| + i..|a| + i + |passage|] == b[i..i + |passage|];
    assert FoundAt(s, passage, |a| + i);
  }

  // A row at the end of the buffer hides nothing before it, and is there itself.
  lemma BufferContains(buffer: seq<string>, row: string, passage: string)
    requires Contains(Join(buffer, "\n"), passage) || Contains(row, passage)
    requires passage != ""
    ensures Contains(Join(buffer + [row], "\n"), passage)
  {
    JoinRow(buffer, row);
    var before := Join(buffer, "\n");
    if buffer != [] {
      if Contains(before, passage) {
        PartHolds("", before, "\n" + row, passage);
        assert "" + before + ("\n" + row) == before + "\n" + row;
      } else {
        PartHolds(before + "\n", row, "", passage);
        assert before + "\n" + row + "" == before + "\n" + row;
      }
    }
  }

  lemma TakeKeepsOld(p: Progress, row: string, passage: string)
    requires HasInkAtEnds(passage) && Kept(p, passage)
    ensures Kept(Take(p, row), passage)
  {
    FlushKeeps(p, passage);
    var q := if Overflows(p.buffer, row) then Flush(p) else p;
    if Overlong(row) {
      FlushKeeps(q, passage);
      var f := Flush(q);
      MoreChunks(f.chunks, RowPieces(f.rowStart, |f.chunks|, Windows(row)), passage);
    } else if !InSomeChunk(q.chunks, passage) {
      BufferContains(q.buffer, row, passage);
    }
  }

  lemma TakeKeepsShortRow(p: Progress, row: string, passage: string)
    requires !Overlong(row) && passage != "" && Contains(row, passage)
    ensures Kept(Take(p, row), passage)
  {
    var q := if Overflows(p.buffer, row) then Flush(p) else p;
    BufferContains(q.buffer, row, passage);
  }

  lemma PassageOfWindow(row: string, w: TextChunk, i: nat, j: nat)
    requires IsPassage(row, w) && w.start <= i < j <= w.end
    ensures Contains(w.content, row[i..j])
  {
    SliceInSlice(row, w.start, w.end, i - w.start, j - i);
    assert FoundAt(w.content, row[i..j], i - w.start);
  }

  // Some window of the row holds the passage whole.
  lemma WindowHolds(row: string, i: nat, j: nat) returns (n: nat)
    requires i < j <= |row| && j - i <= CHUNK_OVERLAP_CHARACTERS + 1
    requires !IsSpace(row[i]) && !IsSpace(row[j - 1])
    ensures n < |Windows(row)| && Contains(Windows(row)[n].content, row[i..j])
  {
    WindowsKeepPassages(row, i, j);
    var w :| w in Windows(row) && w.start <= i && j <= w.end;
    n :| 0 <= n < |Windows(row)| && Windows(row)[n] == w;
    WindowsArePassages(row);
    PassageOfWindow(row, w, i, j);
  }

  lemma TakeKeepsWindow(p: Progress, row: string, n: nat, passage: string)
    requires Overlong(row) && n < |Windows(row)| && Contains(Windows(row)[n].content, passage)
    ensures Kept(Take(p, row), passage)
  {
    var f := Flush(if Overflows(p.buffer, row) then Flush(p) else p);
    var pieces := RowPieces(f.rowStart, |f.chunks|, Windows(row));
    assert pieces[n] in pieces && pieces[n].content == Windows(row)[n].content;
    MoreChunks(f.chunks, pieces, passage);
  }

  // From the row on, the passage is kept.
  lemma RowKeeps(rows: seq<string>, k: nat, passage: string)
    requires k < |rows| && HasInkAtEnds(passage) && Kept(TakeAll(rows[..k + 1]), passage)
    ensures InSomeChunk(CsvChunksOf(rows), passage)
  {
    KeptToTheEnd(rows, k, passage);
    FlushKeeps(TakeAll(rows), passage);
  }

  lemma {:induction false} KeptToTheEnd(rows: seq<string>, k: nat, passage: string)
    requires k < |rows| && HasInkAtEnds(passage) && Kept(TakeAll(rows[..k + 1]), passage)
    ensures Kept(TakeAll(rows), passage)
  {
    if k + 1 == |rows| {
      assert rows[..k + 1] == rows;
    } else {
      var init := rows[..|rows| - 1];
      assert init[..k + 1] == rows[..k + 1];
      KeptToTheEnd(init, k, passage);
      TakeKeepsOld(TakeAll(init), rows[|rows| - 1], passage);
    }
  }

  // Every row with ink that is not over-long is whole in one chunk, its blank ends aside.
  lemma ShortRowsAreWhole(rows: seq<string>, k: nat)
    requires k < |rows| && !Overlong(rows[k]) && !Blank(rows[k])
    ensures InSomeChunk(CsvChunksOf(rows), Trim(rows[k]))
  {
    var row := rows[k];
    TrimCutsBlankEnds(row);
    BlankTrimsToNothing(row);
    assert FoundAt(row, Trim(row), Leading(row));
    assert rows[..k + 1][..k] == rows[..k];
    TakeKeepsShortRow(TakeAll(rows[..k]), row, Trim(row));
    RowKeeps(rows, k, Trim(row));
  }

  // Of an over-long row, every passage of at most 201 characters with ink at its
  // ends is in one chunk; so no ink is lost.
  lemma LongRowsAreKept(rows: seq<string>, k: nat, i: nat, j: nat)
    requires k < |rows| && Overlong(rows[k])
    requires i < j <= |rows[k]| && j - i <= CHUNK_OVERLAP_CHARACTERS + 1
    requires !IsSpace(rows[k][i]) && !IsSpace(rows[k][j - 1])
    ensures InSomeChunk(CsvChunksOf(rows), rows[k][i..j])
  {
    var row, passage := rows[k], rows[k][i..j];
    assert HasInkAtEnds(passage);
    var n := WindowHolds(row, i, j);
    TakeKeepsWindow(TakeAll(rows[..k]), row, n, passage);
    assert rows[..k + 1][..k] == rows[..k];
    RowKeeps(rows, k, passage);
  }
}
