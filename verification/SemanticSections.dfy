/** Where the semantic chunker splits a text, said on strings, and why each chunk ends where it does. */
module SemanticSections {
  import opened FixedChunker
  import opened SemanticChunker

  // ---- where a section starts ----

  /** The code points of white space. */
  const WHITE: set<int> :=
    {0x09, 0x0A, 0x0B, 0x0C, 0x0D, 0x1C, 0x1D, 0x1E, 0x1F, 0x20, 0x85, 0xA0, 0x1680,
     0x2000, 0x2001, 0x2002, 0x2003, 0x2004, 0x2005, 0x2006, 0x2007, 0x2008, 0x2009, 0x200A,
     0x2028, 0x2029, 0x202F, 0x205F, 0x3000}

  /** `c` is white space exactly when its code point is listed. */
  lemma SpacesAre(c: char)
    ensures IsSpace(c) <==> c as int in WHITE
  {
  }

  /** `y` starts with a line break, the marks `h`, one to six of '#', and the white space `c`. */
  predicate Opens(y: string, h: string, c: char) {
    1 <= |h| <= 6 && (forall i | 0 <= i < |h| :: h[i] == '#') && c as int in WHITE && "\n" + h + [c] <= y
  }

  ghost predicate StartsWithHeading(y: string) {
    exists h, c :: Opens(y, h, c)
  }

  predicate EndsWith(x: string, end: string) {
    |end| <= |x| && x[|x| - |end|..] == end
  }

  lemma HeadingIs(x: string, y: string)
    ensures HeadingAt(x + y, |x|) <==> StartsWithHeading(y)
  {
    var text := x + y;
    if HeadingAt(text, |x|) {
      var k: nat :| 1 <= k <= 6 && Hashes(text, |x|, k);
      OpensAt(x, y, k);
    }
    if StartsWithHeading(y) {
      var h, c :| Opens(y, h, c);
      OpenedAt(x, y, h, c);
    }
  }

  lemma OpensAt(x: string, y: string, k: nat)
    requires 1 <= k <= 6 && |x| < |x + y| && (x + y)[|x|] == '\n' && Hashes(x + y, |x|, k)
    ensures StartsWithHeading(y)
  {
    var h, c := y[1..1 + k], y[1 + k];
    forall i | 0 <= i < k ensures h[i] == '#' { assert h[i] == (x + y)[|x| + 1 + i]; }
    SpacesAre(c);
    assert y[..k + 2] == "\n" + h + [c];
    assert Opens(y, h, c);
  }

  lemma OpenedAt(x: string, y: string, h: string, c: char)
    requires Opens(y, h, c)
    ensures HeadingAt(x + y, |x|)
  {
    var text, k := x + y, |h|;
    var opening := "\n" + h + [c];
    assert y[..|opening|] == opening;
    forall i | |x| < i <= |x| + k ensures text[i] == '#' {
      assert text[i] == y[i - |x|] == opening[i - |x|] == h[i - |x| - 1];
    }
    assert text[|x|] == y[0] == opening[0];
    assert text[|x| + 1 + k] == y[1 + k] == opening[1 + k] == c;
    SpacesAre(c);
    assert Hashes(text, |x|, k);
  }

  lemma EndingIs(x: string, y: string)
    ensures BlankLineBefore(x + y, |x|) <==> EndsWith(x, "\n\n")
    ensures FenceBefore(x + y, |x|) <==> EndsWith(x, "\n```\n")
  {
    if |x| >= 2 { BlankLineIs(x, y); }
    if |x| >= 5 { FenceIs(x, y); }
  }

  lemma BlankLineIs(x: string, y: string)
    requires |x| >= 2
    ensures BlankLineBefore(x + y, |x|) <==> x[|x| - 2..] == "\n\n"
  {
    var end := x[|x| - 2..];
    assert end == [(x + y)[|x| - 2], (x + y)[|x| - 1]];
  }

  lemma FenceIs(x: string, y: string)
    requires |x| >= 5
    ensures FenceBefore(x + y, |x|) <==> x[|x| - 5..] == "\n```\n"
  {
    var text, n, end := x + y, |x|, x[|x| - 5..];
    assert end[0] == text[n - 5] && end[1] == text[n - 4] && end[2] == text[n - 3];
    assert end[3] == text[n - 2] && end[4] == text[n - 1];
    FiveCharacters(end);
  }

  lemma FiveCharacters(s: string)
    requires |s| == 5
    ensures s == "\n```\n" <==> s[0] == '\n' && s[1] == '`' && s[2] == '`' && s[3] == '`' && s[4] == '\n'
  {
    var fence := "\n```\n";
    assert fence[0] == '\n' && fence[1] == '`' && fence[2] == '`' && fence[3] == '`' && fence[4] == '\n';
  }

  // ---- the sections as strings ----

  /** The first sections make up `x` exactly. */
  ghost predicate SplitsAfter(sections: seq<string>, x: string) {
    exists i :: 0 < i < |sections| && Concat(sections[..i]) == x
  }

  lemma {:induction false} ConcatOfTwo(a: seq<string>, b: seq<string>)
    ensures Concat(a + b) == Concat(a) + Concat(b)
  {
    if a == [] {
      assert a + b == b;
    } else {
      assert (a + b)[1..] == a[1..] + b;
      ConcatOfTwo(a[1..], b);
    }
  }

  /** The sections before the one at `i` are the text up to a cut. */
  lemma {:induction false} SectionStartsAtCut(text: string, p: nat, i: nat)
    requires p <= |text| && i < |SectionsFrom(text, p)|
    ensures p + |Concat(SectionsFrom(text, p)[..i])| < |text|
    ensures Concat(SectionsFrom(text, p)[..i]) == text[p..p + |Concat(SectionsFrom(text, p)[..i])|]
    ensures i > 0 ==> |Concat(SectionsFrom(text, p)[..i])| > 0
    ensures i > 0 ==> Cut(text, p + |Concat(SectionsFrom(text, p)[..i])|)
    decreases |text| - p
  {
    var sections, q := SectionsFrom(text, p), NextCut(text, p);
    if i == 0 {
      assert sections[..0] == [];
    } else {
      SectionStartsAtCut(text, q, i - 1);
      assert sections[..i] == [text[p..q]] + SectionsFrom(text, q)[..i - 1];
      ConcatOfTwo([text[p..q]], SectionsFrom(text, q)[..i - 1]);
      assert [text[p..q]][1..] == [] && Concat([text[p..q]]) == text[p..q] + "";
      if i == 1 { assert SectionsFrom(text, q)[..0] == []; }
    }
  }

  /** At every cut a section starts. */
  lemma {:induction false} CutStartsSection(text: string, p: nat, q: nat) returns (i: nat)
    requires p < q < |text| && Cut(text, q)
    ensures 0 < i < |SectionsFrom(text, p)| && Concat(SectionsFrom(text, p)[..i]) == text[p..q]
    decreases |text| - p
  {
    var n := NextCut(text, p);
    var sections := SectionsFrom(text, p);
    if q == n {
      i := 1;
      assert sections[..1] == [text[p..n]];
      assert [text[p..n]][1..] == [];
    } else {
      var j := CutStartsSection(text, n, q);
      i := j + 1;
      assert sections[..i] == [text[p..n]] + SectionsFrom(text, n)[..j];
      ConcatOfTwo([text[p..n]], SectionsFrom(text, n)[..j]);
      assert [text[p..n]][1..] == [] && Concat([text[p..n]]) == text[p..n] + "";
      assert text[p..q] == text[p..n] + text[n..q];
    }
  }

  /**
   A text is split between `x` and `y` exactly when `y` starts with a heading line, one to six marks and
   white space after a line break, or `x` ends with an empty line or with a closing fence.
   */
  lemma SplitExactlyWhere(x: string, y: string)
    requires x != "" && y != ""
    ensures SplitsAfter(SectionsFrom(x + y, 0), x) <==>
            StartsWithHeading(y) || EndsWith(x, "\n\n") || EndsWith(x, "\n```\n")
  {
    hide HeadingAt, BlankLineBefore, FenceBefore, StartsWithHeading, EndsWith, SectionsFrom;
    var text := x + y;
    HeadingIs(x, y);
    EndingIs(x, y);
    assert text[..|x|] == text[0..|x|] == x;
    var sections := SectionsFrom(text, 0);
    if Cut(text, |x|) {
      var i := CutStartsSection(text, 0, |x|);
    }
    forall i | 0 < i < |sections| && Concat(sections[..i]) == x ensures Cut(text, |x|) {
      SectionStartsAtCut(text, 0, i);
    }
  }

  /** Every run of one to six marks after a line break, with white space after it, starts a section. */
  lemma HeadingsStartSections(a: string, h: string, c: char, b: string)
    requires a != "" && 1 <= |h| <= 6 && (forall i | 0 <= i < |h| :: h[i] == '#') && c as int in WHITE
    ensures SplitsAfter(SectionsFrom(a + ("\n" + h + [c] + b), 0), a)
  {
    hide SectionsFrom, SplitsAfter;
    assert Opens("\n" + h + [c] + b, h, c);
    SplitExactlyWhere(a, "\n" + h + [c] + b);
  }

  /** So does what follows an empty line or a closing fence, if anything does. */
  lemma BlankLinesAndFencesEndSections(a: string, b: string)
    requires b != ""
    ensures SplitsAfter(SectionsFrom(a + "\n\n" + b, 0), a + "\n\n")
    ensures SplitsAfter(SectionsFrom(a + "\n```\n" + b, 0), a + "\n```\n")
  {
    hide SectionsFrom, SplitsAfter;
    SplitExactlyWhere(a + "\n\n", b);
    SplitExactlyWhere(a + "\n```\n", b);
  }

  /** Every section after the first starts with a heading, or what precedes it ends with one of those two. */
  lemma EverySectionHasAReason(text: string, i: nat)
    requires 0 < i < |SectionsFrom(text, 0)|
    ensures var before, after := Concat(SectionsFrom(text, 0)[..i]), Concat(SectionsFrom(text, 0)[i..]);
      && text == before + after && before != "" && after != ""
      && (StartsWithHeading(after) || EndsWith(before, "\n\n") || EndsWith(before, "\n```\n"))
  {
    hide StartsWithHeading, EndsWith;
    var sections := SectionsFrom(text, 0);
    var before, after := Concat(sections[..i]), Concat(sections[i..]);
    ConcatOfTwo(sections[..i], sections[i..]);
    assert sections[..i] + sections[i..] == sections;
    SectionsRejoin(text, 0);
    assert text[0..] == text;
    SectionStartsAtCut(text, 0, i);
    hide SectionsFrom;
    assert SplitsAfter(sections, before);
    SplitExactlyWhere(before, after);
  }

  // ---- why a chunk ends where it does ----

  /** A fixed window of a section longer than one window. */
  ghost predicate IsWindow(text: string, size: nat, overlap: nat, s: Span)
    requires Accepts(size, overlap)
  {
    exists p: nat | p < |text| ::
      (p == 0 || Cut(text, p)) && NextCut(text, p) - p > size && s in WindowSpans(p, NextCut(text, p), size, overlap)
  }

  /** [lo, p) stripped, closed at the end of the text or because the section after `p` does not fit any more. */
  ghost predicate ClosedAt(text: string, size: nat, s: Span, lo: nat, p: nat) {
    && lo < p <= |text| && s == Trim(text, lo, p)
    && (p < |text| ==> Cut(text, p) && NextCut(text, p) - lo > size)
  }

  ghost predicate IsFullBuffer(text: string, size: nat, s: Span) {
    exists lo, p :: ClosedAt(text, size, s, lo, p)
  }

  ghost predicate Reasoned(text: string, size: nat, overlap: nat, spans: seq<Span>)
    requires Accepts(size, overlap)
  {
    forall s | s in spans :: IsWindow(text, size, overlap, s) || IsFullBuffer(text, size, s)
  }

  lemma StepReasoned(text: string, size: nat, overlap: nat, st: State)
    requires Accepts(size, overlap) && Ok(text, st) && st.pos < |text| && (st.pos == 0 || Cut(text, st.pos))
    requires Reasoned(text, size, overlap, st.spans)
    ensures Reasoned(text, size, overlap, Step(text, size, overlap, st, NextCut(text, st.pos)).spans)
  {
    hide Trim, WindowSpans, NextCut, Cut;
    var next := NextCut(text, st.pos);
    if st.lo < st.pos && next - st.lo > size {
      assert ClosedAt(text, size, Trim(text, st.lo, st.pos), st.lo, st.pos);
    }
    if next - st.pos > size {
      forall s | s in WindowSpans(st.pos, next, size, overlap) ensures IsWindow(text, size, overlap, s) {}
    }
  }

  lemma {:induction false} RunReasoned(text: string, size: nat, overlap: nat, st: State)
    requires Accepts(size, overlap) && Ok(text, st) && (0 < st.pos < |text| ==> Cut(text, st.pos))
    requires Reasoned(text, size, overlap, st.spans)
    ensures Reasoned(text, size, overlap, Run(text, size, overlap, st).spans)
    decreases |text| - st.pos
  {
    hide Step, Reasoned, Cut;
    if st.pos < |text| {
      StepReasoned(text, size, overlap, st);
      RunReasoned(text, size, overlap, Step(text, size, overlap, st, NextCut(text, st.pos)));
    }
  }

  /**
   No chunk ends early: each is a fixed window of a section that is longer than one window, or it is a
   stripped stretch that runs to the end of the text or to a section that does not fit into it any more.
   */
  lemma NoChunkEndsEarly(text: string, size: nat, overlap: nat)
    requires Accepts(size, overlap)
    ensures forall s | s in SemanticSpans(text, size, overlap) ::
              IsWindow(text, size, overlap, s) || IsFullBuffer(text, size, s)
  {
    hide Run, Trim, IsWindow;
    RunReasoned(text, size, overlap, State([], 0, 0));
    var st := Run(text, size, overlap, State([], 0, 0));
    if Trim(text, st.lo, st.pos).lo < Trim(text, st.lo, st.pos).hi {
      assert ClosedAt(text, size, Trim(text, st.lo, st.pos), st.lo, st.pos);
    }
  }
}
