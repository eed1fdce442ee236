/**
 The semantic chunker.  The code builds strings; the specification works on spans of the text, so
 that "contiguous slice", "in text order" and "covers" are statements about positions.
 */
module SemanticChunker {
  import opened Wrappers
  import opened FixedChunker

  /** White space, as both `\s` and `strip` see it. */
  predicate IsSpace(c: char) {
    var n := c as int;
    9 <= n <= 13 || 28 <= n <= 32 || n == 0x85 || n == 0xA0 || n == 0x1680 || 0x2000 <= n <= 0x200A ||
    n == 0x2028 || n == 0x2029 || n == 0x202F || n == 0x205F || n == 0x3000
  }

  // ---- sections ----

  /** `k` hash marks after position `p`, then white space. */
  predicate Hashes(text: string, p: nat, k: nat) {
    p + 1 + k < |text| && (forall i | p < i <= p + k :: text[i] == '#') && IsSpace(text[p + 1 + k])
  }

  /** (?=\n#{1,6}\s) */
  predicate HeadingAt(text: string, p: nat) {
    p < |text| && text[p] == '\n' && exists k: nat | 1 <= k <= 6 :: Hashes(text, p, k)
  }

  /** (?<=\n\n) */
  predicate BlankLineBefore(text: string, p: nat) {
    2 <= p <= |text| && text[p - 2] == '\n' && text[p - 1] == '\n'
  }

  /** (?<=\n```\n) */
  predicate FenceBefore(text: string, p: nat) {
    5 <= p <= |text| && text[p - 5] == '\n' && text[p - 4] == text[p - 3] == text[p - 2] == '`' && text[p - 1] == '\n'
  }

  predicate Cut(text: string, p: nat) {
    HeadingAt(text, p) || BlankLineBefore(text, p) || FenceBefore(text, p)
  }

  /** The first cut after `p`, or the end of the text. */
  function NextCut(text: string, p: nat): (q: nat)
    requires p < |text|
    ensures p < q <= |text| && (q < |text| ==> Cut(text, q))
    ensures forall r | p < r < q :: !Cut(text, r)
    decreases |text| - p
  {
    if p + 1 == |text| || Cut(text, p + 1) then p + 1 else NextCut(text, p + 1)
  }

  /**
   The nonempty pieces of re.split from `p` on.  A cut at either end of the text only makes an empty
   piece, which the source filters out.
   */
  function SectionsFrom(text: string, p: nat): seq<string>
    requires p <= |text|
    decreases |text| - p
  {
    if p == |text| then [] else [text[p..NextCut(text, p)]] + SectionsFrom(text, NextCut(text, p))
  }

  function Concat(parts: seq<string>): string {
    if parts == [] then "" else parts[0] + Concat(parts[1..])
  }

  /** The sections concatenate to the text, and none is empty. */
  lemma {:induction false} SectionsRejoin(text: string, p: nat)
    requires p <= |text|
    ensures Concat(SectionsFrom(text, p)) == text[p..]
    ensures forall s | s in SectionsFrom(text, p) :: s != ""
    decreases |text| - p
  {
    if p < |text| {
      var q := NextCut(text, p);
      SectionsRejoin(text, q);
      assert text[p..] == text[p..q] + text[q..];
    }
  }

  // ---- strip ----

  function StripLeft(s: string): string {
    if s != "" && IsSpace(s[0]) then StripLeft(s[1..]) else s
  }

  function StripRight(s: string): string {
    if s != "" && IsSpace(s[|s| - 1]) then StripRight(s[..|s| - 1]) else s
  }

  function Strip(s: string): string { StripRight(StripLeft(s)) }

  datatype Span = Span(lo: nat, hi: nat)

  predicate IsSpan(text: string, s: Span) { s.lo <= s.hi <= |text| }

  function Slice(text: string, s: Span): string
    requires IsSpan(text, s)
  {
    text[s.lo..s.hi]
  }

  /** The first position in [lo, hi) that is not white space, or hi. */
  function SkipSpace(text: string, lo: nat, hi: nat): (a: nat)
    requires lo <= hi <= |text|
    ensures lo <= a <= hi && (a < hi ==> !IsSpace(text[a])) && forall q | lo <= q < a :: IsSpace(text[q])
    decreases hi - lo
  {
    if lo < hi && IsSpace(text[lo]) then SkipSpace(text, lo + 1, hi) else lo
  }

  /** One past the last position in [lo, hi) that is not white space, or lo. */
  function DropSpace(text: string, lo: nat, hi: nat): (b: nat)
    requires lo <= hi <= |text|
    ensures lo <= b <= hi && (lo < b ==> !IsSpace(text[b - 1])) && forall q | b <= q < hi :: IsSpace(text[q])
    decreases hi - lo
  {
    if lo < hi && IsSpace(text[hi - 1]) then DropSpace(text, lo, hi - 1) else hi
  }

  /** Where `strip` leaves the text of [lo, hi); a blank stretch becomes the empty span at lo. */
  function Trim(text: string, lo: nat, hi: nat): (s: Span)
    requires lo <= hi <= |text|
    ensures lo <= s.lo <= s.hi <= hi
    ensures forall q | lo <= q < hi && !IsSpace(text[q]) :: s.lo <= q < s.hi
    ensures s.lo < s.hi ==> !IsSpace(text[s.lo]) && !IsSpace(text[s.hi - 1])
    ensures s.lo == s.hi ==> s.lo == lo
  {
    var a := SkipSpace(text, lo, hi);
    if a == hi then Span(lo, lo) else Span(a, DropSpace(text, a, hi))
  }

  lemma {:induction false} StripLeftSpan(text: string, lo: nat, hi: nat)
    requires lo <= hi <= |text|
    ensures StripLeft(text[lo..hi]) == text[SkipSpace(text, lo, hi)..hi]
    decreases hi - lo
  {
    if lo < hi && IsSpace(text[lo]) {
      assert text[lo..hi][1..] == text[lo + 1..hi];
      StripLeftSpan(text, lo + 1, hi);
    }
  }

  lemma {:induction false} StripRightSpan(text: string, lo: nat, hi: nat)
    requires lo <= hi <= |text|
    ensures StripRight(text[lo..hi]) == text[lo..DropSpace(text, lo, hi)]
    decreases hi - lo
  {
    if lo < hi && IsSpace(text[hi - 1]) {
      assert text[lo..hi][..hi - lo - 1] == text[lo..hi - 1];
      StripRightSpan(text, lo, hi - 1);
    }
  }

  lemma StripIsTrim(text: string, lo: nat, hi: nat)
    requires lo <= hi <= |text|
    ensures Strip(text[lo..hi]) == Slice(text, Trim(text, lo, hi))
  {
    StripLeftSpan(text, lo, hi);
    StripRightSpan(text, SkipSpace(text, lo, hi), hi);
  }

  // ---- the fixed windows of an oversized section ----

  function WindowSpans(lo: nat, hi: nat, size: nat, overlap: nat): (spans: seq<Span>)
    requires Accepts(size, overlap) && lo < hi
    ensures |spans| > 0
    ensures forall s | s in spans :: lo <= s.lo <= s.hi <= hi && s.hi - s.lo <= size
    ensures spans[0].lo == lo && spans[|spans| - 1].hi == hi
    decreases hi - lo
  {
    if hi - lo <= size then [Span(lo, hi)]
    else [Span(lo, lo + size)] + WindowSpans(lo + (size - overlap), hi, size, overlap)
  }

  ghost predicate AllSpans(text: string, spans: seq<Span>) {
    forall s | s in spans :: IsSpan(text, s)
  }

  function Texts(text: string, spans: seq<Span>): (r: seq<string>)
    requires AllSpans(text, spans)
    ensures |r| == |spans|
    ensures forall i | 0 <= i < |r| :: IsSpan(text, spans[i]) && r[i] == Slice(text, spans[i])
  {
    if spans == [] then [] else [Slice(text, spans[0])] + Texts(text, spans[1..])
  }

  lemma TextsAppend(text: string, a: seq<Span>, b: seq<Span>)
    requires AllSpans(text, a) && AllSpans(text, b)
    ensures AllSpans(text, a + b) && Texts(text, a + b) == Texts(text, a) + Texts(text, b)
  {
  }

  lemma TextsOfFirst(text: string, s: Span, rest: seq<Span>)
    requires IsSpan(text, s) && AllSpans(text, rest)
    ensures AllSpans(text, [s] + rest) && Texts(text, [s] + rest) == [Slice(text, s)] + Texts(text, rest)
  {
    assert ([s] + rest)[1..] == rest;
  }

  lemma WindowOfSection(text: string, lo: nat, hi: nat, size: nat, overlap: nat)
    requires Accepts(size, overlap) && lo + size < hi <= |text|
    ensures Chunks(text[lo..hi], size, overlap) ==
            [Slice(text, Span(lo, lo + size))] + Chunks(text[lo + (size - overlap)..hi], size, overlap)
  {
    SliceOfSlice(text, lo, hi, 0, size);
    SliceOfSlice(text, lo, hi, size - overlap, hi - lo);
    assert text[lo..hi][..size] == text[lo..hi][0..size];
    assert text[lo..hi][size - overlap..] == text[lo..hi][size - overlap..hi - lo];
  }

  lemma {:induction false} WindowsAreSpans(text: string, lo: nat, hi: nat, size: nat, overlap: nat)
    requires Accepts(size, overlap) && lo < hi <= |text|
    ensures AllSpans(text, WindowSpans(lo, hi, size, overlap))
  {
  }

  lemma {:induction false} WindowTexts(text: string, lo: nat, hi: nat, size: nat, overlap: nat)
    requires Accepts(size, overlap) && lo < hi <= |text|
    ensures AllSpans(text, WindowSpans(lo, hi, size, overlap))
    ensures Texts(text, WindowSpans(lo, hi, size, overlap)) == Chunks(text[lo..hi], size, overlap)
    decreases hi - lo
  {
    WindowsAreSpans(text, lo, hi, size, overlap);
    var all := WindowSpans(lo, hi, size, overlap);
    if hi - lo > size {
      var first, next := Span(lo, lo + size), lo + (size - overlap);
      var rest := WindowSpans(next, hi, size, overlap);
      assert all == [first] + rest;
      WindowTexts(text, next, hi, size, overlap);
      hide WindowSpans, Texts, Chunks, AllSpans, Slice;
      TextsOfFirst(text, first, rest);
      WindowOfSection(text, lo, hi, size, overlap);
    } else {
      assert all == [Span(lo, hi)] + [];
      hide WindowSpans, Texts;
      TextsOfFirst(text, Span(lo, hi), []);
      NoTexts(text);
      assert Slice(text, Span(lo, hi)) == text[lo..hi];
    }
  }

  lemma NoTexts(text: string)
    ensures Texts(text, []) == []
  {
  }

  // ---- the specification: the spans emitted so far, and the buffer [lo, pos) ----

  datatype State = State(spans: seq<Span>, lo: nat, pos: nat)

  ghost predicate Ok(text: string, st: State) {
    st.lo <= st.pos <= |text| && AllSpans(text, st.spans)
  }

  function Flush(text: string, st: State): seq<Span>
    requires st.lo <= st.pos <= |text|
  {
    if st.lo < st.pos then [Trim(text, st.lo, st.pos)] else []
  }

  /** What one section, [pos, next), does. */
  function Step(text: string, size: nat, overlap: nat, st: State, next: nat): (r: State)
    requires Accepts(size, overlap) && Ok(text, st) && st.pos < next <= |text|
    ensures Ok(text, r) && r.pos == next
  {
    var len := next - st.pos;
    if len > size then
      State(st.spans + Flush(text, st) + WindowSpans(st.pos, next, size, overlap), next, next)
    else if (st.pos - st.lo) + len <= size then
      State(st.spans, st.lo, next)
    else
      State(st.spans + Flush(text, st), if st.pos - st.lo <= overlap then st.lo else st.pos - overlap, next)
  }

  function Run(text: string, size: nat, overlap: nat, st: State): (r: State)
    requires Accepts(size, overlap) && Ok(text, st)
    ensures Ok(text, r) && r.pos == |text|
    decreases |text| - st.pos
  {
    if st.pos == |text| then st else Run(text, size, overlap, Step(text, size, overlap, st, NextCut(text, st.pos)))
  }

  function FinalFlush(text: string, st: State): (r: seq<Span>)
    requires st.lo <= st.pos <= |text|
    ensures AllSpans(text, r)
  {
    var s := Trim(text, st.lo, st.pos);
    if s.lo < s.hi then [s] else []
  }

  /** Where the chunks of a text longer than one window lie. */
  function SemanticSpans(text: string, size: nat, overlap: nat): (spans: seq<Span>)
    requires Accepts(size, overlap)
    ensures AllSpans(text, spans)
  {
    var st := Run(text, size, overlap, State([], 0, 0));
    st.spans + FinalFlush(text, st)
  }

  // ---- what every step keeps ----

  /** `s` lies behind the buffer [lo, pos), or reaches into it only up to text that the buffer also keeps. */
  predicate Behind(text: string, s: Span, lo: nat, pos: nat)
    requires lo <= pos <= |text| && IsSpan(text, s)
  {
    s.hi <= pos &&
    (s.lo <= lo || (s.lo < pos && !IsSpace(text[s.lo]) && forall q | lo <= q < s.lo :: IsSpace(text[q]))) &&
    (s.hi <= lo || !IsSpace(text[s.hi - 1]))
  }

  predicate Follows(s: Span, t: Span) { s.lo <= t.lo && s.hi <= t.hi }

  ghost predicate InOrder(spans: seq<Span>) {
    forall i, j | 0 <= i < j < |spans| :: Follows(spans[i], spans[j])
  }

  ghost predicate Covered(spans: seq<Span>, q: nat) {
    exists s :: s in spans && s.lo <= q < s.hi
  }

  ghost predicate Bounded(spans: seq<Span>, bound: nat) {
    forall s | s in spans :: s.hi - s.lo <= bound
  }

  ghost predicate Inv(text: string, size: nat, overlap: nat, st: State) {
    && Ok(text, st)
    && Bounded(st.spans, size + overlap) && st.pos - st.lo <= size + overlap
    && (st.spans == [] ==> st.lo == 0 && st.pos <= size)
    && InOrder(st.spans) && (forall s | s in st.spans :: Behind(text, s, st.lo, st.pos))
    && (forall q | 0 <= q < st.pos && !IsSpace(text[q]) :: Covered(st.spans, q) || q >= st.lo)
  }

  lemma {:induction false} WindowsCover(lo: nat, hi: nat, size: nat, overlap: nat)
    requires Accepts(size, overlap) && lo < hi
    ensures InOrder(WindowSpans(lo, hi, size, overlap))
    ensures forall q | lo <= q < hi :: Covered(WindowSpans(lo, hi, size, overlap), q)
    decreases hi - lo
  {
    if hi - lo > size {
      var next := lo + (size - overlap);
      WindowsCover(next, hi, size, overlap);
      var rest := WindowSpans(next, hi, size, overlap);
      var all := WindowSpans(lo, hi, size, overlap);
      assert all[0] == Span(lo, lo + size) && all[1..] == rest;
      forall q | lo <= q < hi ensures Covered(all, q) {
        if q < next {
          assert all[0] in all && all[0].lo <= q < all[0].hi;
        } else {
          assert Covered(rest, q);
          var s :| s in rest && s.lo <= q < s.hi;
          assert s in all;
        }
      }
      WindowEnds(next, hi, size, overlap);
    } else {
      assert WindowSpans(lo, hi, size, overlap) == [Span(lo, hi)];
    }
  }

  /** No window of [lo, hi) ends before the first one could. */
  lemma {:induction false} WindowEnds(lo: nat, hi: nat, size: nat, overlap: nat)
    requires Accepts(size, overlap) && lo < hi
    ensures forall s | s in WindowSpans(lo, hi, size, overlap) :: s.hi == hi || s.hi >= lo + size
    decreases hi - lo
  {
    if hi - lo > size { WindowEnds(lo + (size - overlap), hi, size, overlap); }
  }

  /** A flushed buffer follows every span behind it, and lies behind the buffer itself. */
  lemma FlushFollows(text: string, lo: nat, pos: nat, s: Span)
    requires lo <= pos <= |text| && IsSpan(text, s) && Behind(text, s, lo, pos)
    ensures Follows(s, Trim(text, lo, pos)) && Behind(text, Trim(text, lo, pos), lo, pos)
  {
  }

  lemma Appended(text: string, st: State)
    requires Ok(text, st) && InOrder(st.spans) && forall s | s in st.spans :: Behind(text, s, st.lo, st.pos)
    ensures var b := st.spans + Flush(text, st);
            && AllSpans(text, b) && InOrder(b)
            && (forall s | s in b :: Behind(text, s, st.lo, st.pos))
            && (forall q | st.lo <= q < st.pos && !IsSpace(text[q]) :: Covered(b, q))
            && (forall q | 0 <= q < st.pos && Covered(st.spans, q) :: Covered(b, q))
  {
    if st.lo < st.pos {
      var t := Trim(text, st.lo, st.pos);
      var b := st.spans + [t];
      forall s | s in st.spans ensures Follows(s, t) { FlushFollows(text, st.lo, st.pos, s); }
      FlushFollows(text, st.lo, st.pos, Span(st.lo, st.lo));
      assert t in b;
      forall q | 0 <= q < st.pos && Covered(st.spans, q) ensures Covered(b, q) {
        var s :| s in st.spans && s.lo <= q < s.hi;
        assert s in b;
      }
    } else {
      assert st.spans + Flush(text, st) == st.spans;
    }
  }

  /** Spans behind a buffer stay behind when it drops its front and takes in more text. */
  lemma StaysBehind(text: string, s: Span, lo: nat, pos: nat, lo': nat, pos': nat)
    requires lo <= pos <= |text| && IsSpan(text, s) && Behind(text, s, lo, pos)
    requires lo <= lo' <= pos' <= |text| && pos <= pos'
    ensures Behind(text, s, lo', pos')
  {
  }

  lemma OversizedKeeps(text: string, size: nat, overlap: nat, st: State, next: nat)
    requires Accepts(size, overlap) && Inv(text, size, overlap, st) && st.pos < next <= |text| && next - st.pos > size
    ensures Inv(text, size, overlap, Step(text, size, overlap, st, next))
  {
    var b := st.spans + Flush(text, st);
    var w := WindowSpans(st.pos, next, size, overlap);
    var all := b + w;
    Appended(text, st);
    WindowsCover(st.pos, next, size, overlap);
    assert all != [];
    assert Bounded(all, size + overlap);
    forall s: Span, t: Span | s in b && t in w ensures Follows(s, t) {
      assert Behind(text, s, st.lo, st.pos);
      WindowEnds(st.pos, next, size, overlap);
    }
    forall q | 0 <= q < next && !IsSpace(text[q]) ensures Covered(all, q) {
      if q < st.pos {
        assert Covered(b, q);
        var s :| s in b && s.lo <= q < s.hi;
        assert s in all;
      } else {
        assert Covered(w, q);
        var s :| s in w && s.lo <= q < s.hi;
        assert s in all;
      }
    }
    assert Step(text, size, overlap, st, next) == State(all, next, next);
  }

  /** A section that fits in the buffer. */
  lemma AppendingKeeps(text: string, size: nat, overlap: nat, st: State, next: nat)
    requires Accepts(size, overlap) && Inv(text, size, overlap, st) && st.pos < next <= |text|
    requires next - st.lo <= size
    ensures Inv(text, size, overlap, State(st.spans, st.lo, next))
  {
    forall s | s in st.spans ensures Behind(text, s, st.lo, next) {
      StaysBehind(text, s, st.lo, st.pos, st.lo, next);
    }
  }

  /** A section that does not: the buffer is flushed, all but its tail. */
  lemma FlushingKeeps(text: string, size: nat, overlap: nat, st: State, lo: nat, next: nat)
    requires Accepts(size, overlap) && Inv(text, size, overlap, st) && st.lo < st.pos < next <= |text|
    requires st.lo <= lo <= st.pos <= lo + overlap && next - st.pos <= size
    ensures Inv(text, size, overlap, State(st.spans + Flush(text, st), lo, next))
  {
    var b := st.spans + Flush(text, st);
    Appended(text, st);
    assert b != [] && Bounded(b, size + overlap);
    hide Behind, Trim, Flush, InOrder, Covered;
    forall s | s in b ensures Behind(text, s, lo, next) {
      StaysBehind(text, s, st.lo, st.pos, lo, next);
    }
    forall q | 0 <= q < next && !IsSpace(text[q]) ensures Covered(b, q) || q >= lo {
      if q < st.lo { assert Covered(st.spans, q); }
    }
  }

  lemma StepKeeps(text: string, size: nat, overlap: nat, st: State, next: nat)
    requires Accepts(size, overlap) && Inv(text, size, overlap, st) && st.pos < next <= |text|
    ensures Inv(text, size, overlap, Step(text, size, overlap, st, next))
  {
    assert st.lo <= st.pos;
    if next - st.pos > size {
      OversizedKeeps(text, size, overlap, st, next);
    } else if next - st.lo <= size {
      AppendingKeeps(text, size, overlap, st, next);
    } else {
      FlushingKeeps(text, size, overlap, st, Step(text, size, overlap, st, next).lo, next);
    }
  }

  lemma {:induction false} RunKeeps(text: string, size: nat, overlap: nat, st: State)
    requires Accepts(size, overlap) && Inv(text, size, overlap, st)
    ensures Inv(text, size, overlap, Run(text, size, overlap, st))
    decreases |text| - st.pos
  {
    if st.pos < |text| {
      var next := NextCut(text, st.pos);
      StepKeeps(text, size, overlap, st, next);
      RunKeeps(text, size, overlap, Step(text, size, overlap, st, next));
    }
  }

  predicate Blank(text: string, lo: nat, hi: nat)
    requires hi <= |text|
  {
    forall q | lo <= q < hi :: IsSpace(text[q])
  }

  /** The last flush is the flush of the buffer, unless that holds nothing but white space. */
  lemma FinalFlushIs(text: string, st: State)
    requires st.lo <= st.pos <= |text|
    ensures FinalFlush(text, st) == Flush(text, st) || (FinalFlush(text, st) == [] && Blank(text, st.lo, st.pos))
  {
  }

  lemma FinalFlushKeeps(text: string, size: nat, overlap: nat, st: State)
    requires Accepts(size, overlap) && Inv(text, size, overlap, st) && st.pos == |text|
    ensures var spans := st.spans + FinalFlush(text, st);
            && Bounded(spans, size + overlap) && InOrder(spans)
            && forall q | 0 <= q < |text| && !IsSpace(text[q]) :: Covered(spans, q)
  {
    FinalFlushIs(text, st);
    var spans := st.spans + FinalFlush(text, st);
    if FinalFlush(text, st) == Flush(text, st) {
      Appended(text, st);
      FlushBounded(text, st);
      hide FinalFlush, Flush, InOrder, Behind, Trim, AllSpans, IsSpace, Covered;
      forall q | 0 <= q < |text| && !IsSpace(text[q]) ensures Covered(spans, q) {
        assert Covered(st.spans, q) || q >= st.lo;
      }
    } else {
      hide FinalFlush, Flush, InOrder, Behind, Trim, AllSpans, IsSpace, Covered;
      assert spans == st.spans;
      forall q | 0 <= q < |text| && !IsSpace(text[q]) ensures Covered(spans, q) {
        assert Covered(st.spans, q) || q >= st.lo;
      }
    }
  }

  lemma FlushBounded(text: string, st: State)
    requires st.lo <= st.pos <= |text|
    ensures Bounded(Flush(text, st), st.pos - st.lo)
  {
  }

  // ---- what the chunks guarantee ----

  /**
   Every chunk of a text longer than one window is a contiguous slice of at most size + overlap
   characters, the slices come in text order, there is at least one, and every character that is not
   white space lies in one of them.
   */
  lemma SemanticChunksCoverInOrder(text: string, size: nat, overlap: nat)
    requires Accepts(size, overlap) && |text| > size
    ensures var spans := SemanticSpans(text, size, overlap);
            && |spans| > 0
            && (forall s | s in spans :: s.hi - s.lo <= size + overlap)
            && (forall i, j | 0 <= i < j < |spans| :: spans[i].lo <= spans[j].lo && spans[i].hi <= spans[j].hi)
            && (forall q | 0 <= q < |text| && !IsSpace(text[q]) ::
                  exists s :: s in spans && s.lo <= q < s.hi)
  {
    hide Run, Trim, WindowSpans, Behind;
    var start := State([], 0, 0);
    RunKeeps(text, size, overlap, start);
    var st := Run(text, size, overlap, start);
    FinalFlushKeeps(text, size, overlap, st);
    var spans := SemanticSpans(text, size, overlap);
    forall q | 0 <= q < |text| && !IsSpace(text[q]) ensures exists s :: s in spans && s.lo <= q < s.hi {
      assert Covered(spans, q);
    }
    forall i, j | 0 <= i < j < |spans| ensures spans[i].lo <= spans[j].lo && spans[i].hi <= spans[j].hi {
      assert Follows(spans[i], spans[j]);
    }
  }

  // ---- what the overlap is for ----

  /** A section that alone exceeds the window starts at `p`. */
  predicate Oversized(text: string, size: nat, p: nat) {
    p < |text| && (p == 0 || Cut(text, p)) && NextCut(text, p) - p > size
  }

  ghost predicate Within(spans: seq<Span>, a: nat, b: nat) {
    exists s :: s in spans && s.lo <= a && b <= s.hi
  }

  /** The stretch [a, b) does not cross an edge of an oversized section. */
  ghost predicate ClearOfOversized(text: string, size: nat, a: nat, b: nat) {
    forall p | 0 <= p < |text| && Oversized(text, size, p) :: !(a < p < b) && !(a < NextCut(text, p) < b)
  }

  /** A short stretch that begins and ends with something other than white space. */
  predicate ShortStretch(text: string, overlap: nat, a: nat, b: nat) {
    a < b <= |text| && b - a <= overlap + 1 && !IsSpace(text[a]) && !IsSpace(text[b - 1])
  }

  /** So far the stretch is in a chunk, or the buffer still has it or will take it in whole. */
  ghost predicate StretchKept(overlap: nat, st: State, a: nat, b: nat) {
    && (b <= st.pos ==> Within(st.spans, a, b) || st.lo <= a)
    && (st.lo == 0 || st.pos - st.lo > overlap || !(a < st.lo < b))
  }

  lemma {:induction false} StretchInWindows(lo: nat, hi: nat, size: nat, overlap: nat, a: nat, b: nat)
    requires Accepts(size, overlap) && lo <= a < b <= hi && b - a <= overlap + 1
    ensures Within(WindowSpans(lo, hi, size, overlap), a, b)
    decreases hi - lo
  {
    var all := WindowSpans(lo, hi, size, overlap);
    if hi - lo <= size || b <= lo + size {
      assert all[0] in all && all[0].lo <= a && b <= all[0].hi;
    } else {
      var next := lo + (size - overlap);
      StretchInWindows(next, hi, size, overlap, a, b);
      var s :| s in WindowSpans(next, hi, size, overlap) && s.lo <= a && b <= s.hi;
      assert s in all;
    }
  }

  lemma FlushKeepsStretch(text: string, overlap: nat, st: State, a: nat, b: nat, more: seq<Span>)
    requires Ok(text, st) && ShortStretch(text, overlap, a, b) && StretchKept(overlap, st, a, b) && b <= st.pos
    ensures Within(st.spans + Flush(text, st) + more, a, b)
  {
    var all := st.spans + Flush(text, st) + more;
    if st.lo <= a {
      var t := Trim(text, st.lo, st.pos);
      assert Flush(text, st)[0] == t && t in all && t.lo <= a && b - 1 < t.hi;
    } else {
      var s :| s in st.spans && s.lo <= a && b <= s.hi;
      assert s in all;
    }
  }

  lemma StepKeepsStretch(text: string, size: nat, overlap: nat, st: State, a: nat, b: nat)
    requires Accepts(size, overlap) && Ok(text, st) && st.pos < |text| && (st.pos == 0 || Cut(text, st.pos))
    requires ShortStretch(text, overlap, a, b) && ClearOfOversized(text, size, a, b) && StretchKept(overlap, st, a, b)
    ensures StretchKept(overlap, Step(text, size, overlap, st, NextCut(text, st.pos)), a, b)
  {
    var next := NextCut(text, st.pos);
    var r := Step(text, size, overlap, st, next);
    if next - st.pos > size {
      assert Oversized(text, size, st.pos);
      var w := WindowSpans(st.pos, next, size, overlap);
      if b <= st.pos {
        FlushKeepsStretch(text, overlap, st, a, b, w);
      } else if b <= next {
        StretchInWindows(st.pos, next, size, overlap, a, b);
        var s :| s in w && s.lo <= a && b <= s.hi;
        assert s in r.spans;
      }
    } else if next - st.lo > size && b <= st.pos {
      FlushKeepsStretch(text, overlap, st, a, b, []);
      assert st.spans + Flush(text, st) + [] == r.spans;
    }
  }

  lemma {:induction false} RunKeepsStretch(text: string, size: nat, overlap: nat, st: State, a: nat, b: nat)
    requires Accepts(size, overlap) && Ok(text, st) && (st.pos == 0 || st.pos == |text| || Cut(text, st.pos))
    requires ShortStretch(text, overlap, a, b) && ClearOfOversized(text, size, a, b) && StretchKept(overlap, st, a, b)
    ensures StretchKept(overlap, Run(text, size, overlap, st), a, b)
    decreases |text| - st.pos
  {
    if st.pos < |text| {
      StepKeepsStretch(text, size, overlap, st, a, b);
      RunKeepsStretch(text, size, overlap, Step(text, size, overlap, st, NextCut(text, st.pos)), a, b);
    }
  }

  /**
   Any stretch of at most overlap + 1 characters that begins and ends outside white space lies wholly in
   one chunk, unless it crosses an edge of a section that was cut into fixed windows.
   */
  lemma ShortStretchesAreWhole(text: string, size: nat, overlap: nat, a: nat, b: nat)
    requires Accepts(size, overlap) && ShortStretch(text, overlap, a, b) && ClearOfOversized(text, size, a, b)
    ensures Within(SemanticSpans(text, size, overlap), a, b)
  {
    RunKeepsStretch(text, size, overlap, State([], 0, 0), a, b);
    var st := Run(text, size, overlap, State([], 0, 0));
    FlushKeepsStretch(text, overlap, st, a, b, []);
    var s :| s in st.spans + Flush(text, st) + [] && s.lo <= a && b <= s.hi;
    assert s in SemanticSpans(text, size, overlap);
  }

  // ---- the bound is attained, and when chunks are nonempty ----

  lemma FirstCut(text: string, p: nat, q: nat)
    requires p < q <= |text| && (q < |text| ==> Cut(text, q)) && forall r | p < r < q :: !Cut(text, r)
    ensures NextCut(text, p) == q
  {
    assert q == |text| || Cut(text, q);
  }

  lemma {:induction false} RunExtends(text: string, size: nat, overlap: nat, st: State)
    requires Accepts(size, overlap) && Ok(text, st)
    ensures st.spans <= Run(text, size, overlap, st).spans
    decreases |text| - st.pos
  {
    if st.pos < |text| { RunExtends(text, size, overlap, Step(text, size, overlap, st, NextCut(text, st.pos))); }
  }

  /** Two sections of a whole window each: the second chunk is the overlap and the second section. */
  lemma TwoFullSections(text: string, size: nat, overlap: nat)
    requires Accepts(size, overlap) && |text| == 2 * size && NextCut(text, 0) == size && NextCut(text, size) == 2 * size
    requires !IsSpace(text[size - overlap]) && !IsSpace(text[2 * size - 1])
    ensures Span(size - overlap, 2 * size) in SemanticSpans(text, size, overlap)
  {
    var one := Step(text, size, overlap, State([], 0, 0), size);
    assert one == State([], 0, size);
    var two := Step(text, size, overlap, one, 2 * size);
    assert Run(text, size, overlap, two) == two;
    assert Run(text, size, overlap, one) == two;
    assert Trim(text, size - overlap, 2 * size) == Span(size - overlap, 2 * size);
  }

  /** A text of two such sections: letters, then a heading. */
  predicate LettersThenHeading(text: string, size: nat) {
    && 4 <= size && |text| == 2 * size
    && (forall i | 0 <= i < size :: text[i] == 'a')
    && text[size] == '\n' && text[size + 1] == '#' && text[size + 2] == ' '
    && forall i | size + 3 <= i < 2 * size :: text[i] == 'b'
  }

  lemma HeadingCuts(text: string, size: nat)
    requires LettersThenHeading(text, size)
    ensures NextCut(text, 0) == size && NextCut(text, size) == 2 * size
  {
    assert Hashes(text, size, 1);
    FirstCut(text, 0, size);
    FirstCut(text, size, 2 * size);
  }

  /** The bound is attained, for every window of four or more characters and every nonzero overlap. */
  lemma OverlapCanExceedTheWindow(size: nat, overlap: nat) returns (text: string)
    requires Accepts(size, overlap) && size >= 4 && overlap > 0
    ensures |text| > size && Span(size - overlap, 2 * size) in SemanticSpans(text, size, overlap)
  {
    hide SemanticSpans, NextCut, Cut;
    text := seq(2 * size, i => if i < size then 'a' else if i == size then '\n' else if i == size + 1 then '#'
                               else if i == size + 2 then ' ' else 'b');
    HeadingCuts(text, size);
    TwoFullSections(text, size, overlap);
  }

  ghost predicate NoBlankSection(text: string) {
    forall p | 0 <= p < |text| && (p == 0 || Cut(text, p)) :: !Blank(text, p, NextCut(text, p))
  }

  /** From `st` on, some round flushes a buffer that is all white space. */
  predicate FlushesBlank(text: string, size: nat, overlap: nat, st: State)
    requires Accepts(size, overlap) && Ok(text, st)
    decreases |text| - st.pos
  {
    st.pos < |text| &&
    var next := NextCut(text, st.pos);
    || (st.lo < st.pos && next - st.lo > size && Blank(text, st.lo, st.pos))
    || FlushesBlank(text, size, overlap, Step(text, size, overlap, st, next))
  }

  ghost predicate HasEmpty(spans: seq<Span>) { exists s :: s in spans && s.lo == s.hi }

  lemma {:induction false} WindowsNonempty(lo: nat, hi: nat, size: nat, overlap: nat)
    requires Accepts(size, overlap) && lo < hi
    ensures forall s | s in WindowSpans(lo, hi, size, overlap) :: s.lo < s.hi
    decreases hi - lo
  {
    if hi - lo > size { WindowsNonempty(lo + (size - overlap), hi, size, overlap); }
  }

  lemma TrimmedToNothing(text: string, lo: nat, hi: nat)
    requires lo <= hi <= |text|
    ensures Trim(text, lo, hi).lo == Trim(text, lo, hi).hi <==> Blank(text, lo, hi)
  {
  }

  /** One round adds an empty chunk exactly when it flushes a blank buffer. */
  lemma StepEmpty(text: string, size: nat, overlap: nat, st: State, next: nat)
    requires Accepts(size, overlap) && Ok(text, st) && st.pos < next <= |text|
    ensures HasEmpty(Step(text, size, overlap, st, next).spans) <==>
              HasEmpty(st.spans) || (st.lo < st.pos && next - st.lo > size && Blank(text, st.lo, st.pos))
  {
    var r := Step(text, size, overlap, st, next);
    TrimmedToNothing(text, st.lo, st.pos);
    var more := if next - st.lo <= size then [] else Flush(text, st);
    if next - st.pos > size {
      WindowsNonempty(st.pos, next, size, overlap);
      more := more + WindowSpans(st.pos, next, size, overlap);
    }
    assert r.spans == st.spans + more;
    EmptyOfBoth(st.spans, more);
    if st.lo < st.pos && next - st.lo > size { assert Trim(text, st.lo, st.pos) in more; }
  }

  lemma EmptyOfBoth(a: seq<Span>, b: seq<Span>)
    ensures HasEmpty(a + b) <==> HasEmpty(a) || HasEmpty(b)
  {
    if HasEmpty(a) {
      var s :| s in a && s.lo == s.hi;
      assert s in a + b;
    }
    if HasEmpty(b) {
      var s :| s in b && s.lo == s.hi;
      assert s in a + b;
    }
  }

  lemma {:induction false} RunEmpty(text: string, size: nat, overlap: nat, st: State)
    requires Accepts(size, overlap) && Ok(text, st)
    ensures HasEmpty(Run(text, size, overlap, st).spans)
            <==> HasEmpty(st.spans) || FlushesBlank(text, size, overlap, st)
    decreases |text| - st.pos
  {
    hide HasEmpty, Step, Blank;
    if st.pos < |text| {
      var next := NextCut(text, st.pos);
      StepEmpty(text, size, overlap, st, next);
      RunEmpty(text, size, overlap, Step(text, size, overlap, st, next));
    }
  }

  /** Some chunk is empty if and only if some round flushes a blank buffer; the last flush never adds one. */
  lemma EmptyChunkExactlyWhen(text: string, size: nat, overlap: nat)
    requires Accepts(size, overlap)
    ensures (exists s :: s in SemanticSpans(text, size, overlap) && s.lo == s.hi)
            <==> FlushesBlank(text, size, overlap, State([], 0, 0))
  {
    var start := State([], 0, 0);
    var st := Run(text, size, overlap, start);
    RunEmpty(text, size, overlap, start);
    EmptyOfBoth(st.spans, FinalFlush(text, st));
    assert HasEmpty(SemanticSpans(text, size, overlap)) <==> FlushesBlank(text, size, overlap, start);
  }

  lemma {:induction false} NoBlankSectionNoBlankFlush(text: string, size: nat, overlap: nat, st: State)
    requires Accepts(size, overlap) && Ok(text, st) && NoBlankSection(text)
    requires st.pos == 0 || st.pos == |text| || Cut(text, st.pos)
    requires st.lo < st.pos ==> !Blank(text, st.lo, st.pos)
    ensures !FlushesBlank(text, size, overlap, st)
    decreases |text| - st.pos
  {
    if st.pos < |text| {
      var next := NextCut(text, st.pos);
      assert !Blank(text, st.pos, next);
      NoBlankSectionNoBlankFlush(text, size, overlap, Step(text, size, overlap, st, next));
    }
  }

  /** In particular no chunk is empty when every section holds a character that is not white space. */
  lemma ChunksNonempty(text: string, size: nat, overlap: nat)
    requires Accepts(size, overlap) && NoBlankSection(text)
    ensures forall s | s in SemanticSpans(text, size, overlap) :: s.lo < s.hi
  {
    NoBlankSectionNoBlankFlush(text, size, overlap, State([], 0, 0));
    EmptyChunkExactlyWhen(text, size, overlap);
  }

  /** And the first chunk is, when a blank section stands in front of an oversized one. */
  lemma BlankSectionBecomesAChunk(text: string, size: nat, overlap: nat)
    requires Accepts(size, overlap) && |text| > size
    requires NextCut(text, 0) <= size && Blank(text, 0, NextCut(text, 0))
    requires NextCut(text, NextCut(text, 0)) - NextCut(text, 0) > size
    ensures |SemanticSpans(text, size, overlap)| > 0 && SemanticSpans(text, size, overlap)[0] == Span(0, 0)
  {
    hide WindowSpans, Cut, FinalFlush;
    var a := NextCut(text, 0);
    var one := Step(text, size, overlap, State([], 0, 0), a);
    assert one == State([], 0, a);
    assert Trim(text, 0, a) == Span(0, 0);
    var next := NextCut(text, a);
    var two := Step(text, size, overlap, one, next);
    assert two.spans == [Span(0, 0)] + WindowSpans(a, next, size, overlap);
    assert Run(text, size, overlap, State([], 0, 0)) == Run(text, size, overlap, one) == Run(text, size, overlap, two);
    RunExtends(text, size, overlap, two);
  }

  /** A text with an empty chunk: a blank line, then four letters, under a window of three. */
  lemma ATextWithAnEmptyChunk()
    ensures var chunks := Texts("\n\nabcd", SemanticSpans("\n\nabcd", 3, 0)); |chunks| > 0 && chunks[0] == ""
  {
    var text := "\n\nabcd";
    assert !Hashes(text, 1, 1) && !HeadingAt(text, 1);
    FirstCut(text, 0, 2);
    FirstCut(text, 2, 6);
    BlankSectionBecomesAChunk(text, 3, 0);
  }

  // ---- chunk_semantic itself ----

  /** Flushing the buffer as a string is flushing it as a span. */
  lemma FlushedTexts(text: string, st: State)
    requires Ok(text, st)
    ensures AllSpans(text, st.spans + Flush(text, st))
    ensures Texts(text, st.spans + Flush(text, st)) ==
            Texts(text, st.spans) + if st.lo < st.pos then [Strip(text[st.lo..st.pos])] else []
  {
    TextsAppend(text, st.spans, Flush(text, st));
    StripIsTrim(text, st.lo, st.pos);
    if st.lo < st.pos {
      assert Texts(text, Flush(text, st)) == [Strip(text[st.lo..st.pos])];
    }
  }

  /** What the loop body does to its two strings, section by section, is what Step does to spans. */
  lemma StepOnStrings(text: string, size: nat, overlap: nat, st: State, next: nat)
    requires Accepts(size, overlap) && Ok(text, st) && st.pos < next <= |text|
    ensures var chunks, current, section := Texts(text, st.spans), text[st.lo..st.pos], text[st.pos..next];
            var flushed := if current != "" then [Strip(current)] else [];
            var r := Step(text, size, overlap, st, next);
            if |section| > size then
              Texts(text, r.spans) == chunks + flushed + Chunks(section, size, overlap) && text[r.lo..r.pos] == ""
            else if |current| + |section| <= size then
              Texts(text, r.spans) == chunks && text[r.lo..r.pos] == current + section
            else
              Texts(text, r.spans) == chunks + flushed &&
              text[r.lo..r.pos] == (if |current| > overlap then current[|current| - overlap..] else current) + section
  {
    hide Texts, Strip, Chunks, Flush, WindowSpans;
    FlushedTexts(text, st);
    if next - st.pos > size {
      WindowTexts(text, st.pos, next, size, overlap);
      TextsAppend(text, st.spans + Flush(text, st), WindowSpans(st.pos, next, size, overlap));
      assert text[next..next] == "";
    } else if next - st.lo <= size {
      assert text[st.lo..next] == text[st.lo..st.pos] + text[st.pos..next];
    } else {
      var lo := if st.pos - st.lo <= overlap then st.lo else st.pos - overlap;
      assert text[lo..next] == text[lo..st.pos] + text[st.pos..next];
    }
  }

  lemma FinalFlushOnStrings(text: string, st: State)
    requires Ok(text, st)
    ensures AllSpans(text, st.spans + FinalFlush(text, st))
    ensures var current := text[st.lo..st.pos];
            Texts(text, st.spans + FinalFlush(text, st)) ==
            Texts(text, st.spans) + if Strip(current) != "" then [Strip(current)] else []
    ensures Strip("") == ""
  {
    StripIsTrim(text, st.lo, st.pos);
    TextsAppend(text, st.spans, FinalFlush(text, st));
  }

  lemma NextSection(text: string, size: nat, overlap: nat, st: State)
    requires Accepts(size, overlap) && Ok(text, st)
    ensures st.pos == |text| ==> SectionsFrom(text, st.pos) == [] && Run(text, size, overlap, st) == st
    ensures st.pos < |text| ==>
              var next := NextCut(text, st.pos);
              && SectionsFrom(text, st.pos) != [] && SectionsFrom(text, st.pos)[0] == text[st.pos..next]
              && SectionsFrom(text, st.pos)[1..] == SectionsFrom(text, next)
              && Run(text, size, overlap, st) == Run(text, size, overlap, Step(text, size, overlap, st, next))
  {
  }

  /** The state before the first section of a text. */
  ghost function Start(text: string, size: nat, overlap: nat): (st: State)
    requires Accepts(size, overlap) && |text| > size
    ensures Buffered(text, st, [], "") && st == State([], 0, 0)
    ensures SectionsFrom(text, 0) != []
  {
    State([], 0, 0)
  }

  /** The strings that the loop has at a state: the chunks so far, and the buffer. */
  ghost predicate Buffered(text: string, st: State, chunks: seq<string>, current: string) {
    Ok(text, st) && chunks == Texts(text, st.spans) && current == text[st.lo..st.pos]
  }

  lemma RunIsSpans(text: string, size: nat, overlap: nat, st: State)
    requires Accepts(size, overlap) && |text| > size && Ok(text, st)
    requires st == Run(text, size, overlap, State([], 0, 0))
    ensures AllSpans(text, st.spans + FinalFlush(text, st))
    ensures SemanticSpans(text, size, overlap) == st.spans + FinalFlush(text, st)
    ensures Texts(text, SemanticSpans(text, size, overlap)) != []
  {
    SemanticChunksCoverInOrder(text, size, overlap);
  }

  /** The last characters of a string, as a slice with a negative start takes them. */
  function Tail(s: string, n: nat): string { if |s| > n then s[|s| - n..] else s }

  lemma SectionTaken(text: string, size: nat, overlap: nat, st: State, next: nat, chunks: seq<string>, current: string)
    requires Accepts(size, overlap) && Buffered(text, st, chunks, current) && st.pos < next <= |text|
    ensures var section, r := text[st.pos..next], Step(text, size, overlap, st, next);
            var flushed := if current != "" then chunks + [Strip(current)] else chunks;
            if |section| > size then Buffered(text, r, flushed + Chunks(section, size, overlap), "")
            else if |current| + |section| <= size then Buffered(text, r, chunks, current + section)
            else Buffered(text, r, flushed, Tail(current, overlap) + section)
  {
    StepOnStrings(text, size, overlap, st, next);
    hide Step, Texts, Strip, Chunks, AllSpans;
    var flushed := if current != "" then [Strip(current)] else [];
    assert chunks + flushed == if current != "" then chunks + [Strip(current)] else chunks;
  }

  /** What the loop leaves, with the buffer flushed unless that holds nothing, is the chunks. */
  lemma LastFlush(text: string, size: nat, overlap: nat, st: State, chunks: seq<string>, current: string)
    requires Accepts(size, overlap) && |text| > size && Buffered(text, st, chunks, current)
    requires st == Run(text, size, overlap, State([], 0, 0))
    ensures Texts(text, SemanticSpans(text, size, overlap)) ==
            if current != "" && Strip(current) != "" then chunks + [Strip(current)] else chunks
    ensures Texts(text, SemanticSpans(text, size, overlap)) != []
  {
    FinalFlushOnStrings(text, st);
    RunIsSpans(text, size, overlap, st);
    hide Texts, Strip, SemanticSpans, FinalFlush, Run;
    assert chunks + [] == chunks;
  }

  function OrElse<T>(o: Option<T>, otherwise: T): T {
    match o case Some(v) => v case None => otherwise
  }

  class Chunker {
    const defaultChunkSize: int
    const defaultOverlap: int

    constructor (chunkSize: int, overlap: int)
      ensures defaultChunkSize == chunkSize && defaultOverlap == overlap
    {
      defaultChunkSize, defaultOverlap := chunkSize, overlap;
    }

    method ChunkFixed(text: string, chunkSize: Option<int>, overlap: Option<int>)
      returns (r: Result<seq<string>, ChunkError>)
      ensures text == "" ==> r == Success([])
      ensures var size := match chunkSize case Some(n) => n case None => defaultChunkSize;
              var ol := match overlap case Some(n) => n case None => defaultOverlap;
              text != "" ==>
                r == if size <= 0 then Failure(BadSize) else if ol < 0 || ol >= size then Failure(BadOverlap)
                     else Success(Chunks(text, size, ol))
    {
      r := FixedChunkText(text, OrElse(chunkSize, defaultChunkSize), OrElse(overlap, defaultOverlap));
    }

    /** The body of the loop over the sections. */
    method TakeSection(chunks: seq<string>, current: string, section: string, size: nat, ol: nat,
        ghost text: string, ghost st: State, ghost next: nat)
      returns (chunks': seq<string>, current': string)
      requires Accepts(size, ol) && Buffered(text, st, chunks, current)
      requires st.pos < next <= |text| && section == text[st.pos..next]
      ensures Buffered(text, Step(text, size, ol, st, next), chunks', current')
    {
      SectionTaken(text, size, ol, st, next, chunks, current);
      hide Buffered, Step, Strip, Chunks;
      chunks', current' := chunks, current;
      if |section| > size {
        if current != "" {
          chunks' := chunks' + [Strip(current)];
          current' := "";
        }
        var windows := FixedChunkText(section, size, ol);
        chunks' := chunks' + windows.value;
      } else if |current| + |section| <= size {
        current' := current + section;
      } else {
        if current != "" { chunks' := chunks' + [Strip(current)]; }
        if ol > 0 && current != "" {
          var tail := Tail(current, ol);
          current' := tail + section;
        } else {
          assert Tail(current, ol) == "" && "" + section == section;
          current' := section;
        }
      }
    }

    /** chunk_semantic for a text longer than one window. */
    method ChunkSections(text: string, size: nat, ol: nat) returns (chunks: seq<string>)
      requires Accepts(size, ol) && |text| > size
      ensures chunks == Texts(text, SemanticSpans(text, size, ol)) && chunks != []
    {
      hide Step, Run, SectionsFrom, Buffered, NextCut, Texts, SemanticSpans;
      var sections := SectionsFrom(text, 0);
      ghost var st := Start(text, size, ol);
      assert sections != [];  // so the fall-back to fixed windows is never taken
      chunks := [];
      var current := "";
      var i := 0;
      while i < |sections|
        invariant i <= |sections| && Ok(text, st) && Buffered(text, st, chunks, current)
        invariant sections[i..] == SectionsFrom(text, st.pos)
        invariant Run(text, size, ol, st) == Run(text, size, ol, State([], 0, 0))
      {
        NextSection(text, size, ol, st);
        ghost var next := NextCut(text, st.pos);
        chunks, current := TakeSection(chunks, current, sections[i], size, ol, text, st, next);
        st := Step(text, size, ol, st, next);
        i := i + 1;
      }
      NextSection(text, size, ol, st);
      LastFlush(text, size, ol, st, chunks, current);
      if current != "" && Strip(current) != "" {
        chunks := chunks + [Strip(current)];
      }
    }

    method ChunkSemantic(text: string, chunkSize: Option<int>, overlap: Option<int>)
      returns (r: Result<seq<string>, ChunkError>)
      ensures text == "" ==> r == Success([])
      ensures var size := match chunkSize case Some(n) => n case None => defaultChunkSize;
              var ol := match overlap case Some(n) => n case None => defaultOverlap;
              && (text != "" && size <= 0 ==> r == Failure(BadSize))
              && (text != "" && size > 0 && (ol < 0 || ol >= size) ==> r == Failure(BadOverlap))
              && (text != "" && 0 <= ol < size && |text| <= size ==> r == Success([text]))
              && (text != "" && 0 <= ol < size < |text| ==>
                    r == Success(Texts(text, SemanticSpans(text, size, ol))))
    {
      hide SemanticSpans, Texts;
      if text == "" { return Success([]); }
      var size, ol := OrElse(chunkSize, defaultChunkSize), OrElse(overlap, defaultOverlap);
      if size <= 0 { return Failure(BadSize); }
      if ol < 0 || ol >= size { return Failure(BadOverlap); }
      if |text| <= size { return Success([text]); }
      var chunks := ChunkSections(text, size, ol);
      return Success(if chunks == [] then [text] else chunks);
    }
  }
}
