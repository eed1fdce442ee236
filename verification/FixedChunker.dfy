/** The fixed-window chunker: its loop, and what its windows guarantee about the text. */
module FixedChunker {
  import opened Wrappers

  datatype ChunkError = BadSize | BadOverlap

  predicate Accepts(size: int, overlap: int) {
    0 <= overlap < size
  }

  /** The chunks of a nonempty text: a window, then the chunks of the text one step further on. */
  function Chunks(text: string, size: nat, overlap: nat): (chunks: seq<string>)
    requires Accepts(size, overlap)
    ensures |chunks| > 0
    decreases |text|
  {
    if |text| <= size then [text]
    else [text[..size]] + Chunks(text[size - overlap..], size, overlap)
  }

  lemma ChunksFrom(text: string, start: nat, size: nat, overlap: nat)
    requires Accepts(size, overlap) && start <= |text|
    ensures start + size < |text| ==>
              Chunks(text[start..], size, overlap) ==
              [text[start..start + size]] + Chunks(text[start + (size - overlap)..], size, overlap)
    ensures start + size >= |text| ==> Chunks(text[start..], size, overlap) == [text[start..]]
  {
    var rest := text[start..];
    if start + size < |text| {
      assert rest[..size] == text[start..start + size];
      assert rest[size - overlap..] == text[start + (size - overlap)..];
    }
  }

  /** fixed_chunk_text: the loop always leaves at the window that reaches the end of the text. */
  method FixedChunkText(text: string, size: int, overlap: int) returns (r: Result<seq<string>, ChunkError>)
    ensures text == "" ==> r == Success([])
    ensures text != "" && size <= 0 ==> r == Failure(BadSize)
    ensures text != "" && size > 0 && (overlap < 0 || overlap >= size) ==> r == Failure(BadOverlap)
    ensures text != "" && 0 <= overlap < size ==> r == Success(Chunks(text, size, overlap))
  {
    if text == "" { return Success([]); }
    if size <= 0 { return Failure(BadSize); }
    if overlap < 0 || overlap >= size { return Failure(BadOverlap); }
    var chunks: seq<string> := [];
    var start := 0;
    var step := size - overlap;
    ghost var reachedEnd := false;
    assert text[0..] == text;
    while start < |text|
      invariant 0 <= start < |text|
      invariant chunks + Chunks(text[start..], size, overlap) == Chunks(text, size, overlap)
      decreases |text| - start
    {
      ChunksFrom(text, start, size, overlap);
      hide Chunks;
      ghost var before := chunks;
      var end := if start + size < |text| then start + size else |text|;
      var chunk := text[start..end];
      chunks := chunks + [chunk];
      assert end == |text| ==> chunk == text[start..];
      if end == |text| {
        reachedEnd := true;
        break;
      }
      start := start + step;
      ghost var rest := Chunks(text[start..], size, overlap);
      assert before + ([chunk] + rest) == (before + [chunk]) + rest;
    }
    assert reachedEnd;
    r := Success(chunks);
  }

  // ---- sizes ----

  /** Every chunk but the last is full, and every chunk but the first is longer than the overlap. */
  lemma {:induction false} ChunkSizes(text: string, size: nat, overlap: nat, i: nat)
    requires Accepts(size, overlap) && i < |Chunks(text, size, overlap)|
    ensures |Chunks(text, size, overlap)[i]| <= size
    ensures i + 1 < |Chunks(text, size, overlap)| ==> |Chunks(text, size, overlap)[i]| == size
    ensures i > 0 ==> |Chunks(text, size, overlap)[i]| > overlap
    ensures i == 0 && |text| > overlap ==> |Chunks(text, size, overlap)[i]| > overlap
    decreases i
  {
    if i > 0 {
      ChunkSizes(text[size - overlap..], size, overlap, i - 1);
    }
  }

  // ---- inversion ----

  /** Later chunks with their first `overlap` characters dropped. */
  function Tails(chunks: seq<string>, overlap: nat): string {
    if chunks == [] then ""
    else (if overlap <= |chunks[0]| then chunks[0][overlap..] else "") + Tails(chunks[1..], overlap)
  }

  function Rejoin(chunks: seq<string>, overlap: nat): string {
    if chunks == [] then "" else chunks[0] + Tails(chunks[1..], overlap)
  }

  /** Dropping the overlap from every later chunk and gluing gives the text back. */
  lemma {:induction false} ChunksInvert(text: string, size: nat, overlap: nat)
    requires Accepts(size, overlap)
    ensures Rejoin(Chunks(text, size, overlap), overlap) == text
    decreases |text|
  {
    var chunks := Chunks(text, size, overlap);
    if |text| > size {
      var suffix := text[size - overlap..];
      var rest := Chunks(suffix, size, overlap);
      ChunksInvert(suffix, size, overlap);
      ChunkSizes(suffix, size, overlap, 0);
      assert chunks[1..] == rest;
      assert Tails(rest, overlap) == (rest[0] + Tails(rest[1..], overlap))[overlap..];
      assert suffix[overlap..] == text[size..];
      assert text == text[..size] + text[size..];
    } else {
      assert chunks[1..] == [];
    }
  }

  // ---- windows and count ----

  /** k = ceil(a / b). */
  ghost predicate IsCeiling(k: int, a: int, b: int) {
    (k - 1) * b < a <= k * b
  }

  lemma OneMoreStep(i: int, step: int)
    ensures i * step == (i - 1) * step + step
  {
  }

  /** One chunk if the text fits in a window, else 1 + ceil((n - size) / (size - overlap)). */
  lemma {:induction false} ChunkCount(text: string, size: nat, overlap: nat)
    requires Accepts(size, overlap)
    ensures |text| <= size ==> |Chunks(text, size, overlap)| == 1
    ensures |text| > size ==> IsCeiling(|Chunks(text, size, overlap)| - 1, |text| - size, size - overlap)
    decreases |text|
  {
    if |text| > size {
      var suffix := text[size - overlap..];
      ChunkCount(suffix, size, overlap);
      var k := |Chunks(suffix, size, overlap)|;
      OneMoreStep(k, size - overlap);
      OneMoreStep(k - 1, size - overlap);
    }
  }

  lemma SliceOfSlice(text: string, lo: nat, hi: nat, a: nat, b: nat)
    requires a <= b <= hi - lo && hi <= |text|
    ensures text[lo..hi][a..b] == text[lo + a..lo + b]
  {
    var inner := text[lo..hi];
    forall k | 0 <= k < b - a ensures inner[a..b][k] == text[lo + a..lo + b][k] {
      assert inner[a..b][k] == inner[a + k] == text[lo + (a + k)];
    }
    assert inner[a..b] == text[lo + a..lo + b];
  }

  /** `i` steps. */
  function Steps(i: nat, step: nat): nat { if i == 0 then 0 else Steps(i - 1, step) + step }

  lemma {:induction false} StepsMultiply(i: nat, step: nat)
    ensures Steps(i, step) == i * step
  {
    if i > 0 {
      StepsMultiply(i - 1, step);
      OneMoreStep(i, step);
    }
  }

  /** Later chunks are those of the text one step further on. */
  lemma LaterChunks(text: string, size: nat, overlap: nat, i: nat)
    requires Accepts(size, overlap) && 0 < i < |Chunks(text, size, overlap)|
    ensures size < |text|
    ensures var rest := Chunks(text[size - overlap..], size, overlap);
            i - 1 < |rest| && Chunks(text, size, overlap)[i] == rest[i - 1]
  {
  }

  lemma {:induction false} ChunkAfterSteps(text: string, size: nat, overlap: nat, i: nat)
    requires Accepts(size, overlap) && i < |Chunks(text, size, overlap)|
    ensures var c, lo := Chunks(text, size, overlap)[i], Steps(i, size - overlap);
            lo + |c| <= |text| && c == text[lo..lo + |c|]
    decreases i
  {
    if i > 0 {
      LaterChunks(text, size, overlap, i);
      hide Chunks;
      var step := size - overlap;
      var suffix := text[step..];
      ChunkAfterSteps(suffix, size, overlap, i - 1);
      var c, lo := Chunks(suffix, size, overlap)[i - 1], Steps(i - 1, step);
      assert suffix == text[step..|text|];
      SliceOfSlice(text, step, |text|, lo, lo + |c|);
    }
  }

  /** Chunk `i` starts `i` steps into the text. */
  lemma ChunkPosition(text: string, size: nat, overlap: nat, i: nat, lo: nat)
    requires Accepts(size, overlap) && i < |Chunks(text, size, overlap)| && lo == i * (size - overlap)
    ensures var c := Chunks(text, size, overlap)[i]; lo + |c| <= |text| && c == text[lo..lo + |c|]
  {
    hide Chunks, Steps;
    ChunkAfterSteps(text, size, overlap, i);
    StepsMultiply(i, size - overlap);
  }

  ghost predicate WindowInChunk(text: string, size: nat, overlap: nat, a: nat, b: nat, i: nat)
    requires Accepts(size, overlap) && a <= b <= |text| && i < |Chunks(text, size, overlap)|
  {
    var lo := i * (size - overlap);
    lo <= a && b <= lo + |Chunks(text, size, overlap)[i]|
  }

  /** Every window of at most overlap + 1 characters lies wholly inside one chunk. */
  lemma {:induction false} ShortWindowsAreWhole(text: string, size: nat, overlap: nat, a: nat, b: nat) returns (i: nat)
    requires Accepts(size, overlap) && a <= b <= |text| && b - a <= overlap + 1
    ensures i < |Chunks(text, size, overlap)| && WindowInChunk(text, size, overlap, a, b, i)
    decreases |text|
  {
    if b <= size || |text| <= size {
      i := 0;
    } else {
      var step := size - overlap;
      var j := ShortWindowsAreWhole(text[step..], size, overlap, a - step, b - step);
      i := j + 1;
      OneMoreStep(i, step);
    }
  }

  lemma LaterStart(i: nat, step: nat)
    requires i > 0
    ensures i * step >= step
  {
    OneMoreStep(i, step);
    assert (i - 1) * step >= 0;
  }

  /** The bound is exact: any text longer than one window has a window of overlap + 2 that no chunk holds. */
  lemma LongerWindowsAreCut(text: string, size: nat, overlap: nat, i: nat)
    requires Accepts(size, overlap) && |text| > size && i < |Chunks(text, size, overlap)|
    ensures var a := size - overlap - 1; !WindowInChunk(text, size, overlap, a, a + overlap + 2, i)
  {
    ChunkSizes(text, size, overlap, i);
    if i > 0 { LaterStart(i, size - overlap); }
  }
}
