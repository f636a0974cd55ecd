/** Cutting a text into overlapping chunks that prefer to end after a sentence
    or a line. */
module Chunker {
  /** Bytes start to end-1 of the text. */
  datatype Chunk = Chunk(start: nat, end: nat)

  predicate Ends(c: char) {
    c == '\n' || c == '.' || c == '!' || c == '?'
  }

  /** Just after the last ending character at or before `look`, as long as that
      is beyond `low`; otherwise `otherwise`. */
  function Break(text: string, look: nat, low: nat, otherwise: nat): (r: nat)
    requires look < |text|
    ensures r == otherwise || (low < r - 1 <= look && Ends(text[r - 1]))
  {
    if look <= low then otherwise
    else if Ends(text[look]) then look + 1
    else Break(text, look - 1, low, otherwise)
  }

  /** Where the chunk that starts at pos ends. */
  function EndOf(text: string, pos: nat, size: nat): (r: nat)
    requires pos < |text| && size > 0
    ensures pos < r <= |text| && r <= pos + size + 1
    ensures r < |text| ==> r > pos + size / 2
  {
    var end := if pos + size > |text| then |text| else pos + size;
    if end < |text| then Break(text, end, pos + size / 2, end) else end
  }

  function NextStart(pos: nat, end: nat, overlap: nat): nat
    requires pos < end
  {
    if overlap > 0 && end - pos > overlap then end - overlap else end
  }

  function Chunks(text: string, pos: nat, size: nat, overlap: nat): seq<Chunk>
    requires size > 0
    decreases |text| - pos
  {
    if pos >= |text| then []
    else
      var end := EndOf(text, pos, size);
      if end >= |text| then [Chunk(pos, end)]
      else [Chunk(pos, end)] + Chunks(text, NextStart(pos, end, overlap), size, overlap)
  }

  // ---- what the chunks promise ----

  /** Neighbours: the next chunk starts further on, within or right after this
      one, repeating `overlap` bytes or none. */
  predicate Follows(chunks: seq<Chunk>, i: nat, overlap: nat)
    requires i + 1 < |chunks|
  {
    var a, b := chunks[i], chunks[i + 1];
    a.start < b.start <= a.end && (b.start == a.end || b.start == a.end - overlap)
  }

  predicate Covers(chunks: seq<Chunk>, from: nat, n: nat, size: nat, overlap: nat) {
    && (chunks == [] ==> from >= n)
    && (chunks != [] ==> chunks[0].start == from && chunks[|chunks| - 1].end == n)
    && (forall i {:trigger chunks[i]} :: 0 <= i < |chunks| ==>
          chunks[i].start < chunks[i].end <= n && chunks[i].end <= chunks[i].start + size + 1)
    && (forall i {:trigger Follows(chunks, i, overlap)} :: 0 <= i < |chunks| - 1 ==> Follows(chunks, i, overlap))
  }

  lemma CoverStep(c: Chunk, rest: seq<Chunk>, n: nat, size: nat, overlap: nat)
    requires c.start < c.end < n && c.end <= c.start + size + 1
    requires var next := NextStart(c.start, c.end, overlap); next < n && Covers(rest, next, n, size, overlap)
    ensures Covers([c] + rest, c.start, n, size, overlap)
  {
    var all := [c] + rest;
    forall i {:trigger Follows(all, i, overlap)} | 0 <= i < |all| - 1
      ensures Follows(all, i, overlap)
    {
      if i > 0 {
        assert Follows(rest, i - 1, overlap);
      }
    }
  }

  lemma ChunksStep(text: string, pos: nat, size: nat, overlap: nat)
    requires size > 0 && pos < |text|
    ensures var end := EndOf(text, pos, size);
            Chunks(text, pos, size, overlap) ==
            if end >= |text| then [Chunk(pos, end)]
            else [Chunk(pos, end)] + Chunks(text, NextStart(pos, end, overlap), size, overlap)
  {
    hide EndOf;
    hide NextStart;
  }

  /** MAIN RESULT. For every text, chunk size and overlap: the chunks cover the
      text from beginning to end without a gap, each starts further on than the
      one before, and none is longer than one byte more than asked for. */
  lemma {:induction false} ChunksCover(text: string, pos: nat, size: nat, overlap: nat)
    requires size > 0
    ensures Covers(Chunks(text, pos, size, overlap), pos, |text|, size, overlap)
    decreases |text| - pos
  {
    hide EndOf;
    if pos < |text| {
      var end := EndOf(text, pos, size);
      ChunksStep(text, pos, size, overlap);
      if end < |text| {
        var next := NextStart(pos, end, overlap);
        hide Chunks;
        hide Covers;
        ChunksCover(text, next, size, overlap);
        CoverStep(Chunk(pos, end), Chunks(text, next, size, overlap), |text|, size, overlap);
      }
    }
  }

  /** Every byte lies in some chunk. */
  lemma {:induction false} EveryByteCovered(text: string, pos: nat, size: nat, overlap: nat, at: nat)
    requires size > 0 && pos <= at < |text|
    ensures exists i :: 0 <= i < |Chunks(text, pos, size, overlap)| &&
              Chunks(text, pos, size, overlap)[i].start <= at < Chunks(text, pos, size, overlap)[i].end
    decreases |text| - pos
  {
    var end := EndOf(text, pos, size);
    var all := Chunks(text, pos, size, overlap);
    if at < end {
      assert all[0] == Chunk(pos, end);
    } else {
      var next := NextStart(pos, end, overlap);
      EveryByteCovered(text, next, size, overlap, at);
      var rest := Chunks(text, next, size, overlap);
      var i :| 0 <= i < |rest| && rest[i].start <= at < rest[i].end;
      assert all[i + 1] == rest[i];
    }
  }

  function Piece(text: string, c: Chunk): string
    requires c.start <= c.end <= |text|
  {
    text[c.start..c.end]
  }

  predicate Within(text: string, chunks: seq<Chunk>) {
    forall i {:trigger chunks[i]} :: 0 <= i < |chunks| ==> chunks[i].start <= chunks[i].end <= |text|
  }

  /** A piece without what the next one repeats. */
  function Trimmed(text: string, c: Chunk, next: Chunk): string
    requires c.start <= c.end <= |text|
  {
    var repeated := c.end - next.start;
    if 0 <= repeated <= c.end - c.start then Piece(text, c)[..c.end - c.start - repeated] else Piece(text, c)
  }

  function Rebuild(text: string, chunks: seq<Chunk>): string
    requires Within(text, chunks)
  {
    if chunks == [] then ""
    else if |chunks| == 1 then Piece(text, chunks[0])
    else Trimmed(text, chunks[0], chunks[1]) + Rebuild(text, chunks[1..])
  }

  /** Dropping the overlaps rebuilds the text. */
  lemma {:induction false} RebuildsText(text: string, pos: nat, size: nat, overlap: nat)
    requires size > 0 && pos <= |text|
    ensures Within(text, Chunks(text, pos, size, overlap))
    ensures Rebuild(text, Chunks(text, pos, size, overlap)) == text[pos..]
    decreases |text| - pos
  {
    hide EndOf;
    if pos < |text| {
      ChunksStep(text, pos, size, overlap);
      hide Chunks;
      var end := EndOf(text, pos, size);
      if end < |text| {
        var next := NextStart(pos, end, overlap);
        hide Rebuild;
        hide Within;
        RebuildsText(text, next, size, overlap);
        RestStarts(text, next, size, overlap);
        RebuildStep(text, Chunk(pos, end), Chunks(text, next, size, overlap));
        assert text[pos..next] + text[next..] == text[pos..];
      } else {
        assert text[pos..end] == text[pos..];
      }
    } else {
      assert text[pos..] == "";
    }
  }

  lemma RestStarts(text: string, pos: nat, size: nat, overlap: nat)
    requires size > 0 && pos < |text|
    ensures Chunks(text, pos, size, overlap) != [] && Chunks(text, pos, size, overlap)[0].start == pos
  {
    hide EndOf;
    ChunksStep(text, pos, size, overlap);
    hide Chunks;
  }

  lemma RebuildUnfold(text: string, chunks: seq<Chunk>)
    requires Within(text, chunks) && |chunks| >= 2
    ensures Within(text, chunks[1..]) && chunks[0].start <= chunks[0].end <= |text|
    ensures Rebuild(text, chunks) == Trimmed(text, chunks[0], chunks[1]) + Rebuild(text, chunks[1..])
  {
    hide Trimmed;
  }

  lemma TrimmedIs(text: string, c: Chunk, next: Chunk)
    requires c.start <= next.start <= c.end <= |text|
    ensures Trimmed(text, c, next) == text[c.start..next.start]
  {
  }

  lemma WithinStep(text: string, c: Chunk, rest: seq<Chunk>)
    requires Within(text, rest) && c.start <= c.end <= |text|
    ensures Within(text, [c] + rest)
  {
  }

  lemma RebuildStep(text: string, c: Chunk, rest: seq<Chunk>)
    requires Within(text, rest) && rest != [] && c.start <= rest[0].start <= c.end <= |text|
    ensures Within(text, [c] + rest)
    ensures Rebuild(text, [c] + rest) == text[c.start..rest[0].start] + Rebuild(text, rest)
  {
    hide *;
    WithinStep(text, c, rest);
    assert ([c] + rest)[1..] == rest && ([c] + rest)[1] == rest[0] && ([c] + rest)[0] == c;
    RebuildUnfold(text, [c] + rest);
    TrimmedIs(text, c, rest[0]);
  }

  predicate NoEnds(text: string, lo: int, hi: int) {
    forall i {:trigger text[i]} :: 0 <= i < |text| && lo < i <= hi ==> !Ends(text[i])
  }

  /** The break taken is the last one. */
  lemma {:induction false} BreakIsLast(text: string, look: nat, low: nat, otherwise: nat)
    requires look < |text|
    ensures var r := Break(text, look, low, otherwise);
            || (r == otherwise && NoEnds(text, low, look))
            || (low < r - 1 <= look && Ends(text[r - 1]) && NoEnds(text, r - 1, look))
  {
    if look > low && !Ends(text[look]) {
      BreakIsLast(text, look - 1, low, otherwise);
    }
  }

  /** For every overlap, a chunk ends no earlier than its predecessor. */
  lemma EndsNeverRetreat(text: string, pos: nat, size: nat, overlap: nat)
    requires size > 0 && pos < |text| && EndOf(text, pos, size) < |text|
    ensures EndOf(text, NextStart(pos, EndOf(text, pos, size), overlap), size) >= EndOf(text, pos, size)
  {
    var end := EndOf(text, pos, size);
    var next := NextStart(pos, end, overlap);
    BreakIsLast(text, pos + size, pos + size / 2, pos + size);
    if next + size < |text| {
      BreakIsLast(text, next + size, next + size / 2, next + size);
    }
  }

  // ---- when every chunk brings new text ----

  predicate EndsGrow(chunks: seq<Chunk>) {
    forall i {:trigger chunks[i]} :: 0 < i < |chunks| ==> chunks[i - 1].end < chunks[i].end
  }

  /** Overlaps too large to be ever used, or small enough. */
  predicate FreshOverlap(size: nat, overlap: nat) {
    overlap > size || (overlap < size && overlap <= size / 2 + 1)
  }

  lemma EndAdvances(text: string, pos: nat, size: nat, overlap: nat)
    requires size > 0 && FreshOverlap(size, overlap) && pos < |text| && EndOf(text, pos, size) < |text|
    ensures EndOf(text, NextStart(pos, EndOf(text, pos, size), overlap), size) > EndOf(text, pos, size)
  {
  }

  lemma {:induction false} ChunksGrow(text: string, pos: nat, size: nat, overlap: nat)
    requires size > 0 && FreshOverlap(size, overlap)
    ensures EndsGrow(Chunks(text, pos, size, overlap))
    decreases |text| - pos
  {
    hide EndOf;
    hide FreshOverlap;
    if pos < |text| {
      ChunksStep(text, pos, size, overlap);
      var end := EndOf(text, pos, size);
      if end < |text| {
        var next := NextStart(pos, end, overlap);
        ChunksGrow(text, next, size, overlap);
        EndAdvances(text, pos, size, overlap);
        ChunksStep(text, next, size, overlap);
        var rest := Chunks(text, next, size, overlap);
        assert rest[0].end == EndOf(text, next, size);
        hide Chunks;
        forall i {:trigger ([Chunk(pos, end)] + rest)[i]} | 0 < i <= |rest|
          ensures ([Chunk(pos, end)] + rest)[i - 1].end < ([Chunk(pos, end)] + rest)[i].end
        {
          assert i > 1 ==> rest[i - 1 - 1].end < rest[i - 1].end;
        }
      }
    }
  }

  function Letters(n: nat): string {
    seq(n, _ => 'a')
  }

  /** One sentence of `size` letters, then letters only. */
  function StallText(size: nat): string {
    Letters(size) + "." + Letters(size + 1)
  }

  lemma {:induction false} BreakSkips(text: string, look: nat, down: nat, low: nat, otherwise: nat)
    requires low <= down <= look < |text| && NoEnds(text, down, look)
    ensures Break(text, look, low, otherwise) == Break(text, down, low, otherwise)
    decreases look
  {
    if look > down {
      assert !Ends(text[look]);
      BreakSkips(text, look - 1, down, low, otherwise);
    }
  }

  lemma StallEnds(size: nat, overlap: nat)
    requires size > 0 && !FreshOverlap(size, overlap)
    ensures var text := StallText(size);
            EndOf(text, 0, size) == size + 1 && NextStart(0, size + 1, overlap) == size + 1 - overlap &&
            EndOf(text, size + 1 - overlap, size) == size + 1
  {
    var text := StallText(size);
    var next := size + 1 - overlap;
    var low := next + size / 2;
    assert text[size] == '.';
    assert NoEnds(text, size, next + size);
    BreakSkips(text, next + size, size, low, next + size);
  }

  /** For every other overlap that text gives two chunks with the same end. */
  lemma StallRepeats(size: nat, overlap: nat)
    requires size > 0 && !FreshOverlap(size, overlap)
    ensures !EndsGrow(Chunks(StallText(size), 0, size, overlap))
  {
    var text := StallText(size);
    StallEnds(size, overlap);
    ChunksStep(text, 0, size, overlap);
    ChunksStep(text, size + 1 - overlap, size, overlap);
    var all := Chunks(text, 0, size, overlap);
    hide *;
    assert |text| == 2 * size + 2;
    assert all[0].end == size + 1 && all[1].end == size + 1;
  }

  /** MAIN RESULT. Every chunk of every text brings new text if and only if the
      overlap is above the size, or below it and at most one more than half of
      it, rounded down. */
  lemma EndsGrowIff(size: nat, overlap: nat)
    requires size > 0
    ensures (forall text :: EndsGrow(Chunks(text, 0, size, overlap))) <==> FreshOverlap(size, overlap)
  {
    if FreshOverlap(size, overlap) {
      forall text
        ensures EndsGrow(Chunks(text, 0, size, overlap))
      {
        ChunksGrow(text, 0, size, overlap);
      }
    } else {
      StallRepeats(size, overlap);
    }
  }

  // ---- the loop ----

  method FindBreak(text: string, end: nat, low: nat) returns (r: nat)
    requires end < |text|
    ensures r == Break(text, end, low, end)
  {
    var look := end;
    while look > low
      invariant 0 <= look <= end
      invariant Break(text, end, low, end) == Break(text, look, low, end)
    {
      if Ends(text[look]) {
        return look + 1;
      }
      look := look - 1;
    }
    return end;
  }

  method Ingest(text: string, size: nat, overlap: nat) returns (chunks: seq<Chunk>)
    requires size > 0
    ensures chunks == Chunks(text, 0, size, overlap)
  {
    hide *;
    chunks := [];
    var pos := 0;
    assert chunks + Chunks(text, pos, size, overlap) == Chunks(text, 0, size, overlap);
    while pos < |text|
      invariant 0 <= pos <= |text|
      invariant chunks + Chunks(text, pos, size, overlap) == Chunks(text, 0, size, overlap)
      decreases |text| - pos
    {
      var actual := ChunkEnd(text, pos, size);
      ChunksStep(text, pos, size, overlap);
      StepIs(pos, actual, overlap);
      ghost var before := chunks;
      chunks := chunks + [Chunk(pos, actual)];
      if actual >= |text| {
        break;
      }
      ghost var rest := Chunks(text, NextStart(pos, actual, overlap), size, overlap);
      assert before + ([Chunk(pos, actual)] + rest) == chunks + rest;
      if overlap > 0 && actual - pos > overlap {
        pos := actual - overlap;
      } else {
        pos := actual;
      }
    }
    ChunksEnd(text, size, overlap);
  }

  lemma StepIs(pos: nat, end: nat, overlap: nat)
    requires pos < end
    ensures NextStart(pos, end, overlap) == if overlap > 0 && end - pos > overlap then end - overlap else end
  {
  }

  lemma ChunksEnd(text: string, size: nat, overlap: nat)
    requires size > 0
    ensures Chunks(text, |text|, size, overlap) == []
  {
  }

  method ChunkEnd(text: string, pos: nat, size: nat) returns (actual: nat)
    requires pos < |text| && size > 0
    ensures actual == EndOf(text, pos, size)
  {
    var end := pos + size;
    if end > |text| {
      end := |text|;
    }
    actual := end;
    if actual < |text| {
      actual := FindBreak(text, end, pos + size / 2);
    }
  }
}
