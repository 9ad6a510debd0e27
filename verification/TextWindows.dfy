// Windows of 8000 characters that overlap by 200 (chunkText in src/worker/chat-storage.ts).
module TextWindows {
  import opened Options
  import opened Text
  import opened SlidingWindows
  import AttachmentTypes

  const MAX_CHUNK_CHARACTERS := 8000
  const CHUNK_OVERLAP_CHARACTERS := 200
  const STEP := MAX_CHUNK_CHARACTERS - CHUNK_OVERLAP_CHARACTERS
  const MAX_CHUNKS := AttachmentTypes.MAX_CHUNKS

  function WindowsFrom(text: string, start: nat): seq<TextChunk> {
    Cut(MAX_CHUNK_CHARACTERS, CHUNK_OVERLAP_CHARACTERS, text, start)
  }

  function Windows(text: string): seq<TextChunk> {
    WindowsFrom(text, 0)
  }

  // Fails as soon as there are more than MAX_CHUNKS chunks.
  method ChunkText(text: string) returns (r: Option<seq<TextChunk>>)
    ensures r.None? <==> |Windows(text)| > MAX_CHUNKS
    ensures r.Some? ==> r.value == Windows(text)
  {
    var chunks: seq<TextChunk> := [];
    var start := 0;
    while start < |text|
      invariant chunks + WindowsFrom(text, start) == Windows(text)
      invariant |chunks| <= MAX_CHUNKS
    {
      WindowFirst(MAX_CHUNK_CHARACTERS, CHUNK_OVERLAP_CHARACTERS, text, start, chunks, Windows(text));
      chunks := chunks + WindowChunk(MAX_CHUNK_CHARACTERS, text, start);
      if |chunks| > MAX_CHUNKS {
        return None;
      }
      if start + MAX_CHUNK_CHARACTERS >= |text| {
        break;
      }
      start := start + STEP;
    }
    r := Some(chunks);
  }

  ghost predicate IsPassage(text: string, c: TextChunk) {
    FromText(MAX_CHUNK_CHARACTERS, text, c)
  }

  // Every chunk is a trimmed, non-blank passage of at most 8000 characters, and says where it stands.
  lemma WindowsArePassages(text: string)
    ensures forall c | c in Windows(text) :: IsPassage(text, c) && 1 <= |c.content| <= 8000
  {
    ChunksAreFromText(MAX_CHUNK_CHARACTERS, CHUNK_OVERLAP_CHARACTERS, text, 0);
  }

  // Any passage of at most 201 characters that begins and ends with ink lies
  // whole inside one chunk; in particular no ink is lost.
  lemma WindowsKeepPassages(text: string, i: nat, j: nat)
    requires i < j <= |text| && j - i <= 201
    requires !IsSpace(text[i]) && !IsSpace(text[j - 1])
    ensures Covers(Windows(text), i, j)
  {
    PassagesAreKept(MAX_CHUNK_CHARACTERS, CHUNK_OVERLAP_CHARACTERS, text, 0, i, j);
  }

  // ----- how many windows there are

  function WindowCount(length: nat): nat {
    if length == 0 then 0
    else if length <= MAX_CHUNK_CHARACTERS then 1
    else 1 + (length - MAX_CHUNK_CHARACTERS + STEP - 1) / STEP
  }

  lemma WindowCountStep(length: nat)
    requires length > MAX_CHUNK_CHARACTERS
    ensures WindowCount(length) == 1 + WindowCount(length - STEP)
  {
  }

  lemma {:induction false} WindowsAreFew(text: string, start: nat)
    requires start <= |text|
    ensures |WindowsFrom(text, start)| <= WindowCount(|text| - start)
    decreases |text| - start
  {
    if start + MAX_CHUNK_CHARACTERS < |text| {
      WindowsAreFew(text, start + STEP);
      WindowCountStep(|text| - start);
    }
  }

  lemma {:induction false} InkFillsEveryWindow(text: string, start: nat)
    requires start <= |text| && forall i | 0 <= i < |text| :: !IsSpace(text[i])
    ensures |WindowsFrom(text, start)| == WindowCount(|text| - start)
    decreases |text| - start
  {
    if start < |text| {
      var raw := text[start..WindowEnd(MAX_CHUNK_CHARACTERS, text, start)];
      BlankTrimsToNothing(raw);
      assert raw[0] == text[start];
      if start + MAX_CHUNK_CHARACTERS < |text| {
        InkFillsEveryWindow(text, start + STEP);
        WindowCountStep(|text| - start);
      }
    }
  }

  // The longest text that cannot exceed the chunk limit, whatever it contains.
  const SAFE_LENGTH := MAX_CHUNK_CHARACTERS + (MAX_CHUNKS - 1) * STEP

  lemma LimitIsOutOfReach(text: string)
    requires |text| <= SAFE_LENGTH
    ensures |Windows(text)| <= MAX_CHUNKS
  {
    WindowsAreFew(text, 0);
  }

  // An upload is at most 25 MiB, well within it.
  lemma UploadsStayWithinLimit(text: string)
    requires |text| <= 25 * 1024 * 1024
    ensures |Windows(text)| <= 4096
  {
    LimitIsOutOfReach(text);
  }

  // One character more of solid text exceeds it.
  lemma LimitIsSharp(text: string)
    requires forall i | 0 <= i < |text| :: !IsSpace(text[i])
    ensures |Windows(text)| > 4096 <==> |text| > 31_949_000
  {
    InkFillsEveryWindow(text, 0);
  }
}
