/**
 Splitting a transcript for the LLM rewriters (`meeting_intelligence.py`, `_chunk_text`). Size and overlap come
 from the environment, so they are any integers here, and slices follow Python's rules for negative bounds.
 */
module ChunkText {
  import opened Numbers
  import opened Text

  const WINDOW := 2000
  const SEPARATORS: seq<string> := ["\n\n", ". ", "? ", "! ", "\n"]

  /** A paragraph first, then the ends of a sentence, then a line. */
  lemma SeparatorsAre(k: nat)
    requires k < |SEPARATORS|
    ensures |SEPARATORS| == 5 && SEPARATORS[0] == "\n\n" && SEPARATORS[4] == "\n"
    ensures 0 < k < 4 ==> SEPARATORS[k] == [".?!"[k - 1], ' ']
  {
  }

  // ---- Python's slices ------------------------------------------------------------------------------

  /** A slice bound: negative ones count from the end, and all are clipped to [0, n]. */
  function Bound(i: int, n: nat): (r: nat)
    ensures r <= n
  {
    if i < 0 then Max(0, i + n) else Min(i, n)
  }

  /** text[lo:hi] */
  function Slice(text: string, lo: nat, hi: int): string
  {
    var from, to := Bound(lo, |text|), Bound(hi, |text|);
    if from <= to then text[from..to] else ""
  }

  /** A negative bound counts from the end, and one before the start leaves nothing. */
  lemma SliceFromEnd(text: string, lo: nat, k: int)
    requires k > 0
    ensures Slice(text, lo, -k) == if k <= |text| && lo <= |text| - k then text[lo..|text| - k] else ""
    ensures lo <= k ==> Slice(text, lo, k) == text[Min(lo, |text|)..Min(k, |text|)]
  {
  }

  // ---- The chunks -----------------------------------------------------------------------------------

  /** The loop over the separators: where the best cut is, or -1. A later one must begin past the best cut so far. */
  function Best(text: string, seps: seq<string>, lo: nat, hi: nat): int
    requires hi <= |text|
  {
    if seps == [] then -1
    else
      var best := Best(text, seps[..|seps| - 1], lo, hi);
      var sep := seps[|seps| - 1];
      var idx := RFind(text, sep, lo, hi);
      if idx > best then idx + |sep| else best
  }

  datatype Params = Params(size: int, overlap: int)

  function WindowStart(pos: nat, size: int): nat
  {
    Max(pos + size - WINDOW, pos + 1)
  }

  /** Where the chunk from pos on ends; with a negative size this can be a negative slice bound. */
  function Cut(text: string, pos: nat, size: int): int
  {
    var end := Min(pos + size, |text|);
    if end < |text|
    then
      var best := Best(text, SEPARATORS, WindowStart(pos, size), Bound(end, |text|));
      if best > pos then best else end
    else end
  }

  datatype Span = Span(from: nat, to: int)

  function Spans(text: string, pos: nat, p: Params): seq<Span>
    decreases |text| - pos
  {
    if pos >= |text| then []
    else
      var end := Cut(text, pos, p.size);
      [Span(pos, end)] + if end >= |text| then [] else Spans(text, Max(end - p.overlap, pos + 1), p)
  }

  /** The spans of the chunks of a text. */
  function ChunkSpans(text: string, p: Params): seq<Span>
  {
    if |text| <= p.size then [Span(0, |text|)] else Spans(text, 0, p)
  }

  function Pieces(text: string, spans: seq<Span>): seq<string>
  {
    seq(|spans|, k requires 0 <= k < |spans| => Slice(text, spans[k].from, spans[k].to))
  }

  lemma WholeSlice(text: string)
    ensures Slice(text, 0, |text|) == text
  {
  }

  lemma OneMoreSpan(text: string, done: seq<Span>, pos: nat, p: Params)
    requires pos < |text| && Spans(text, 0, p) == done + Spans(text, pos, p)
    ensures var end := Cut(text, pos, p.size);
            Spans(text, 0, p) == done + [Span(pos, end)] + if end >= |text| then []
              else Spans(text, Max(end - p.overlap, pos + 1), p)
  {
    hide Cut;
    var end := Cut(text, pos, p.size);
    SpansAssociate(done, [Span(pos, end)], if end >= |text| then [] else Spans(text, Max(end - p.overlap, pos + 1), p));
  }

  lemma SpansAssociate(a: seq<Span>, b: seq<Span>, c: seq<Span>)
    ensures a + (b + c) == a + b + c
  {
  }

  lemma OneMorePiece(text: string, done: seq<Span>, span: Span)
    ensures Pieces(text, done + [span]) == Pieces(text, done) + [Slice(text, span.from, span.to)]
  {
    hide Slice;
  }

  method Chunk(text: string, p: Params) returns (chunks: seq<string>)
    ensures chunks == Pieces(text, ChunkSpans(text, p))
  {
    hide Cut, Slice, Best, Spans, Pieces;
    if |text| <= p.size {
      WholePiece(text);
      return [text];
    }
    NoPieces(text, p);
    chunks := [];
    ghost var done: seq<Span> := [];
    var pos := 0;
    while pos < |text|
      invariant Spans(text, 0, p) == done + Spans(text, pos, p)
      invariant chunks == Pieces(text, done)
      decreases |text| - pos
    {
      var end := FindCut(text, pos, p.size);
      OneMoreSpan(text, done, pos, p);
      OneMorePiece(text, done, Span(pos, end));
      done := done + [Span(pos, end)];
      chunks := chunks + [Slice(text, pos, end)];
      if end >= |text| {
        break;
      }
      pos := Max(end - p.overlap, pos + 1);
    }
    assert done + [] == done;
  }

  lemma NoPieces(text: string, p: Params)
    ensures Pieces(text, []) == [] && forall pos: nat :: pos >= |text| ==> Spans(text, pos, p) == []
  {
  }

  lemma WholePiece(text: string)
    ensures Pieces(text, [Span(0, |text|)]) == [text]
  {
    WholeSlice(text);
  }

  method FindCut(text: string, pos: nat, size: int) returns (end: int)
    ensures end == Cut(text, pos, size)
  {
    hide RFind;
    end := Min(pos + size, |text|);
    if end < |text| {
      var windowStart := Max(pos + size - WINDOW, pos + 1);
      var best := -1;
      for k := 0 to |SEPARATORS|
        invariant best == Best(text, SEPARATORS[..k], windowStart, Bound(end, |text|))
      {
        assert SEPARATORS[..k + 1][..k] == SEPARATORS[..k];
        var sep := SEPARATORS[k];
        var idx := RFind(text, sep, windowStart, Bound(end, |text|));
        if idx > best {
          best := idx + |sep|;
        }
      }
      assert SEPARATORS[..|SEPARATORS|] == SEPARATORS;
      if best > pos {
        end := best;
      }
    }
  }

  // ---- Cuts -----------------------------------------------------------------------------------------

  predicate NoneEmpty(seps: seq<string>)
  {
    forall k :: 0 <= k < |seps| ==> seps[k] != ""
  }

  lemma {:induction false} BestBounds(text: string, seps: seq<string>, lo: nat, hi: nat)
    requires hi <= |text| && NoneEmpty(seps)
    ensures var best := Best(text, seps, lo, hi); best == -1 || lo < best <= hi
  {
    if seps != [] {
      BestBounds(text, seps[..|seps| - 1], lo, hi);
    }
  }

  predicate SeparatorEndsAt(text: string, sep: string, end: int)
  {
    end >= |sep| && OccursAt(text, sep, end - |sep|)
  }

  ghost predicate Absent(text: string, sep: string, lo: nat, hi: nat)
  {
    forall i: nat :: lo <= i && i + |sep| <= hi ==> !OccursAt(text, sep, i)
  }

  lemma AbsentIfMissed(text: string, sep: string, lo: nat, hi: nat)
    requires hi <= |text| && RFind(text, sep, lo, hi) == -1
    ensures Absent(text, sep, lo, hi)
  {
    forall i: nat | lo <= i && i + |sep| <= hi
      ensures !OccursAt(text, sep, i)
    {
      RFindMisses(text, sep, lo, hi, i);
    }
  }

  /** The cut found is the end of a separator, and without a cut there is no separator to be found. */
  lemma {:induction false} BestIsSeparator(text: string, seps: seq<string>, lo: nat, hi: nat)
    requires hi <= |text| && NoneEmpty(seps)
    ensures var best := Best(text, seps, lo, hi);
            if best == -1 then forall k :: 0 <= k < |seps| ==> Absent(text, seps[k], lo, hi)
            else exists k :: 0 <= k < |seps| && SeparatorEndsAt(text, seps[k], best)
  {
    hide OccursAt, Absent;
    if seps != [] {
      var rest, sep := seps[..|seps| - 1], seps[|seps| - 1];
      BestIsSeparator(text, rest, lo, hi);
      BestBounds(text, rest, lo, hi);
      var best, before := Best(text, seps, lo, hi), Best(text, rest, lo, hi);
      if best == -1 {
        AbsentIfMissed(text, sep, lo, hi);
        assert forall k :: 0 <= k < |rest| ==> rest[k] == seps[k];
      } else if best == before {
        var k :| 0 <= k < |rest| && SeparatorEndsAt(text, rest[k], best);
        assert rest[k] == seps[k];
      } else {
        assert SeparatorEndsAt(text, seps[|seps| - 1], best);
      }
    }
  }

  /** `sep` occurs at i, within these bounds. */
  predicate OccursIn(text: string, sep: string, lo: nat, hi: nat, i: nat)
  {
    lo <= i && i + |sep| <= hi && OccursAt(text, sep, i)
  }

  /** The cut is where the last k-th separator ends; those before it in order all begin earlier, the others no later. */
  ghost predicate CutsAt(text: string, seps: seq<string>, lo: nat, hi: nat, best: int, k: nat)
    requires k < |seps|
  {
    && best >= |seps[k]| && OccursIn(text, seps[k], lo, hi, best - |seps[k]|)
    && (forall i: nat :: OccursIn(text, seps[k], lo, hi, i) ==> i + |seps[k]| <= best)
    && (forall j: nat, i: nat :: j < k && OccursIn(text, seps[j], lo, hi, i) ==> i < best - |seps[k]|)
    && (forall j: nat, i: nat :: k < j < |seps| && OccursIn(text, seps[j], lo, hi, i) ==> i <= best)
  }

  lemma AllBeforeRFind(text: string, sep: string, lo: nat, hi: nat)
    requires hi <= |text|
    ensures forall i: nat :: OccursIn(text, sep, lo, hi, i) ==> i <= RFind(text, sep, lo, hi)
    ensures var idx := RFind(text, sep, lo, hi); idx != -1 ==> idx >= 0 && OccursIn(text, sep, lo, hi, idx)
  {
    hide OccursAt;
    forall i: nat | OccursIn(text, sep, lo, hi, i)
      ensures i <= RFind(text, sep, lo, hi)
    {
      RFindIsLast(text, sep, lo, hi, i);
    }
  }

  /** Before any separator is found, none occurs; and one that is found is where the cut is. */
  lemma {:induction false} BestIsLast(text: string, seps: seq<string>, lo: nat, hi: nat)
    requires hi <= |text| && NoneEmpty(seps)
    ensures
      var best := Best(text, seps, lo, hi);
      if best == -1 then forall j: nat, i: nat :: j < |seps| ==> !OccursIn(text, seps[j], lo, hi, i)
      else exists k: nat :: k < |seps| && CutsAt(text, seps, lo, hi, best, k)
  {
    hide OccursIn, RFind, CutsAt;
    if seps != [] {
      var rest, sep := seps[..|seps| - 1], seps[|seps| - 1];
      var before, idx := Best(text, rest, lo, hi), RFind(text, sep, lo, hi);
      BestIsLast(text, rest, lo, hi);
      AllBeforeRFind(text, sep, lo, hi);
      if before == -1 {
        if idx > before {
          LastSeparatorCuts(text, seps, sep, lo, hi, idx);
        }
      } else {
        var k: nat :| k < |rest| && CutsAt(text, rest, lo, hi, before, k);
        if idx > before {
          EarlierBegin(text, rest, lo, hi, before, k);
          LastSeparatorCuts(text, seps, sep, lo, hi, idx);
        } else {
          CutStays(text, seps, sep, lo, hi, before, k, idx);
        }
      }
    }
  }

  lemma EarlierBegin(text: string, seps: seq<string>, lo: nat, hi: nat, best: int, k: nat)
    requires k < |seps| && CutsAt(text, seps, lo, hi, best, k) && NoneEmpty(seps)
    ensures forall j: nat, i: nat :: j < |seps| && OccursIn(text, seps[j], lo, hi, i) ==> i <= best
  {
    hide OccursIn;
  }

  lemma LastSeparatorCuts(text: string, seps: seq<string>, sep: string, lo: nat, hi: nat, idx: int)
    requires seps != [] && seps[|seps| - 1] == sep && idx >= 0 && OccursIn(text, sep, lo, hi, idx)
    requires forall i: nat :: OccursIn(text, sep, lo, hi, i) ==> i <= idx
    requires forall j: nat, i: nat :: j < |seps| - 1 && OccursIn(text, seps[j], lo, hi, i) ==> i < idx
    ensures CutsAt(text, seps, lo, hi, idx + |sep|, |seps| - 1)
  {
    hide OccursIn;
  }

  lemma CutStays(
    text: string, seps: seq<string>, sep: string, lo: nat, hi: nat, best: int, k: nat, idx: int)
    requires k < |seps| - 1 && seps[|seps| - 1] == sep && idx <= best
    requires CutsAt(text, seps[..|seps| - 1], lo, hi, best, k)
    requires forall i: nat :: OccursIn(text, sep, lo, hi, i) ==> i <= idx
    ensures CutsAt(text, seps, lo, hi, best, k)
  {
    hide OccursIn;
    var rest := seps[..|seps| - 1];
    forall j: nat, i: nat | k < j < |seps| && OccursIn(text, seps[j], lo, hi, i)
      ensures i <= best
    {
      assert j < |rest| ==> rest[j] == seps[j];
    }
    forall j: nat, i: nat | j < k && OccursIn(text, seps[j], lo, hi, i)
      ensures i < best - |seps[k]|
    {
      assert rest[j] == seps[j];
    }
  }

  /** Where a chunk that is not the last is cut, by the separators of the last 2000 characters it may have. */
  lemma CutIsLast(text: string, pos: nat, size: int, lo: nat, hi: nat)
    requires pos < |text| && size >= 1 && hi == pos + size < |text| && lo == WindowStart(pos, size)
    ensures
      var end := Cut(text, pos, size);
      || (exists k: nat :: k < |SEPARATORS| && CutsAt(text, SEPARATORS, lo, hi, end, k))
      || (end == hi && forall j: nat, i: nat :: j < |SEPARATORS| ==> !OccursIn(text, SEPARATORS[j], lo, hi, i))
    ensures lo > pos && hi - lo <= 2000 && (lo == pos + 1 || hi - lo == 2000)
  {
    hide OccursIn, CutsAt, Best;
    BestBounds(text, SEPARATORS, lo, hi);
    BestIsLast(text, SEPARATORS, lo, hi);
  }

  lemma CutBounds(text: string, pos: nat, size: int)
    requires pos < |text|
    ensures var end := Cut(text, pos, size);
            && (size >= 1 ==> pos < end <= pos + size && end <= |text|)
            && (size <= 0 ==> end < |text|)
            && (size == 0 ==> end == pos)
            && (end < |text| ==> end >= pos + size - WINDOW)
  {
    var end := Min(pos + size, |text|);
    if end < |text| {
      BestBounds(text, SEPARATORS, WindowStart(pos, size), Bound(end, |text|));
    }
  }

  /** A chunk that is not the last ends with a separator, or there is none in the last 2000 characters allowed. */
  lemma ChunksEndNaturally(text: string, pos: nat, size: int)
    requires pos < |text| && size >= 1 && pos + size < |text|
    ensures var end := Cut(text, pos, size);
            || (exists k :: 0 <= k < |SEPARATORS| && SeparatorEndsAt(text, SEPARATORS[k], end))
            || (end == pos + size && forall k :: 0 <= k < |SEPARATORS| ==>
                  Absent(text, SEPARATORS[k], WindowStart(pos, size), end))
  {
    hide OccursAt, Absent, SeparatorEndsAt, Best;
    BestBounds(text, SEPARATORS, WindowStart(pos, size), pos + size);
    BestIsSeparator(text, SEPARATORS, WindowStart(pos, size), pos + size);
  }

  // ---- Runs -----------------------------------------------------------------------------------------

  /** Consecutive chunks: each starts later than the one before, but no later than that one ends. */
  ghost predicate Chain(text: string, spans: seq<Span>, size: int)
  {
    && (forall k :: 0 <= k < |spans| ==> spans[k].from < spans[k].to <= |text| && spans[k].to - spans[k].from <= size)
    && (forall k :: 0 <= k < |spans| - 1 ==> spans[k].from < spans[k + 1].from <= spans[k].to)
  }

  lemma {:induction false} SpansFormChain(text: string, pos: nat, p: Params)
    requires pos < |text| && p.size >= 1 && p.overlap >= 0
    ensures var spans := Spans(text, pos, p);
            Chain(text, spans, p.size) && spans != [] && spans[0].from == pos && spans[|spans| - 1].to == |text|
    decreases |text| - pos
  {
    hide Cut, Chain;
    var end := Cut(text, pos, p.size);
    CutBounds(text, pos, p.size);
    if end < |text| {
      var next := Max(end - p.overlap, pos + 1);
      SpansFormChain(text, next, p);
      ConsChain(text, Span(pos, end), Spans(text, next, p), p.size);
    } else {
      OneSpanChain(text, Span(pos, end), p.size);
      assert Spans(text, pos, p) == [Span(pos, end)];
    }
  }

  lemma OneSpanChain(text: string, span: Span, size: int)
    requires span.from < span.to <= |text| && span.to - span.from <= size
    ensures Chain(text, [span], size)
  {
  }

  lemma ConsChain(text: string, span: Span, rest: seq<Span>, size: int)
    requires Chain(text, rest, size) && rest != []
    requires span.from < span.to <= |text| && span.to - span.from <= size && span.from < rest[0].from <= span.to
    ensures Chain(text, [span] + rest, size)
  {
    var all := [span] + rest;
    forall k | 0 <= k < |all| - 1
      ensures all[k].from < all[k + 1].from <= all[k].to
    {
      assert k > 0 ==> all[k] == rest[k - 1] && all[k + 1] == rest[k - 1 + 1];
    }
  }

  /** No chunk is longer than the size, whatever the overlap. */
  lemma {:induction false} PiecesAreShort(text: string, pos: nat, p: Params, k: nat)
    requires p.size >= 0 && k < |Spans(text, pos, p)|
    ensures |Pieces(text, Spans(text, pos, p))[k]| <= p.size
    decreases |text| - pos
  {
    hide Cut;
    var end := Cut(text, pos, p.size);
    CutBounds(text, pos, p.size);
    if k > 0 {
      PiecesAreShort(text, Max(end - p.overlap, pos + 1), p, k - 1);
    }
  }

  lemma Steps(m: nat, d: int)
    ensures m * d + d == (m + 1) * d
  {
  }

  lemma {:induction false} StepsCover(text: string, pos: nat, p: Params)
    requires pos < |text| && p.size > WINDOW + p.overlap
    ensures Spans(text, pos, p) != [] && (|Spans(text, pos, p)| - 1) * (p.size - WINDOW - p.overlap) < |text| - pos
    decreases |text| - pos
  {
    hide Cut;
    var d, end := p.size - WINDOW - p.overlap, Cut(text, pos, p.size);
    CutBounds(text, pos, p.size);
    if end < |text| {
      var next := Max(end - p.overlap, pos + 1);
      if next < |text| {
        StepsCover(text, next, p);
        Steps(|Spans(text, next, p)| - 1, d);
      }
    }
  }

  lemma Ordered(a: int, b: int, d: nat)
    requires b <= a
    ensures b * d <= a * d
  {
  }

  lemma DivideBy(a: nat, n: nat, d: nat)
    requires d > 0 && a * d <= n
    ensures a <= n / d
  {
    var q := n / d;
    assert n < (q + 1) * d;
    if q + 1 <= a {
      Ordered(a, q + 1, d);
      assert false;
    }
  }

  /** However the separators fall, there are at most 1 + n / (size - 2000 - overlap) chunks. */
  lemma FewChunks(text: string, p: Params)
    requires p.size > WINDOW + p.overlap
    ensures |ChunkSpans(text, p)| <= 1 + |text| / (p.size - WINDOW - p.overlap)
  {
    var d := p.size - WINDOW - p.overlap;
    hide Cut;
    DivideBy(0, |text|, d);
    if |text| > p.size && text != "" {
      StepsCover(text, 0, p);
      DivideBy(|Spans(text, 0, p)| - 1, |text|, d);
    }
  }

  // ---- Rebuilding the text --------------------------------------------------------------------------

  /** A text continued by a chunk that starts at `from`, without what it repeats. */
  function Extend(r: string, from: nat, piece: string): string
  {
    if from > |r| then r + piece else if |r| - from <= |piece| then r + piece[|r| - from..] else r
  }

  function Glue(r: string, spans: seq<Span>, pieces: seq<string>): string
    requires |spans| == |pieces|
    decreases |spans|
  {
    if spans == [] then r else Glue(Extend(r, spans[0].from, pieces[0]), spans[1..], pieces[1..])
  }

  /** The chunks put together again. */
  function Rebuilt(text: string, spans: seq<Span>): string
  {
    Glue("", spans, Pieces(text, spans))
  }

  lemma GlueFirst(r: string, text: string, pos: nat, p: Params)
    requires pos < |text|
    ensures var end := Cut(text, pos, p.size);
            var r' := Extend(r, pos, Slice(text, pos, end));
            Glue(r, Spans(text, pos, p), Pieces(text, Spans(text, pos, p))) ==
            if end >= |text| then r'
            else var rest := Spans(text, Max(end - p.overlap, pos + 1), p); Glue(r', rest, Pieces(text, rest))
  {
    hide Cut, Slice, Extend;
    var spans := Spans(text, pos, p);
    assert Pieces(text, spans)[1..] == Pieces(text, spans[1..]);
    assert spans[1..] == if Cut(text, pos, p.size) >= |text| then []
      else Spans(text, Max(Cut(text, pos, p.size) - p.overlap, pos + 1), p);
  }

  lemma ExtendKeeps(text: string, c: nat, pos: nat, end: nat)
    requires pos <= c <= |text| && pos <= end <= |text|
    ensures Extend(text[..c], pos, Slice(text, pos, end)) == text[..Max(c, end)]
  {
    if c <= end {
      assert text[pos..end][c - pos..] == text[c..end] && text[..c] + text[c..end] == text[..end];
    }
  }

  lemma {:induction false} GlueKeepsAll(text: string, c: nat, pos: nat, p: Params)
    requires pos < |text| && pos <= c <= |text| && p.size >= 1 && p.overlap >= 0
    ensures Glue(text[..c], Spans(text, pos, p), Pieces(text, Spans(text, pos, p))) == text
    decreases |text| - pos
  {
    hide Cut, Slice, Extend, Glue, Pieces, Spans;
    var end := Cut(text, pos, p.size);
    CutBounds(text, pos, p.size);
    GlueFirst(text[..c], text, pos, p);
    ExtendKeeps(text, c, pos, end);
    if end < |text| {
      GlueKeepsAll(text, Max(c, end), Max(end - p.overlap, pos + 1), p);
    } else {
      assert text[..|text|] == text;
    }
  }

  lemma ExtendLength(r: string, from: nat, piece: string)
    ensures |Extend(r, from, piece)| == if from > |r| then |r| + |piece| else Max(|r|, from + |piece|)
  {
  }

  lemma SliceLength(text: string, pos: nat, end: int)
    requires pos < |text|
    ensures pos + |Slice(text, pos, end)| <= Max(pos, Bound(end, |text|))
    ensures pos <= end <= |text| ==> |Slice(text, pos, end)| == end - pos
  {
  }

  /** With a size of zero or less, no chunk reaches the last character. */
  lemma {:induction false} NoSizeLosesEnd(r: string, text: string, pos: nat, p: Params)
    requires pos < |text| && |r| < |text| && p.size <= 0
    ensures |Glue(r, Spans(text, pos, p), Pieces(text, Spans(text, pos, p)))| < |text|
    decreases |text| - pos
  {
    hide Cut, Slice, Extend, Glue, Pieces;
    var end := Cut(text, pos, p.size);
    CutBounds(text, pos, p.size);
    GlueFirst(r, text, pos, p);
    var piece := Slice(text, pos, end);
    SliceLength(text, pos, end);
    ExtendLength(r, pos, piece);
    var next := Max(end - p.overlap, pos + 1);
    if next < |text| {
      NoSizeLosesEnd(Extend(r, pos, piece), text, next, p);
    } else {
      GlueNothing(Extend(r, pos, piece), text);
    }
  }

  lemma GlueNothing(r: string, text: string)
    ensures Glue(r, [], Pieces(text, [])) == r
  {
  }

  /** With a negative overlap, the characters between two chunks are lost, and what is glued stays too short. */
  lemma {:induction false} GapsLoseText(r: string, text: string, pos: nat, p: Params)
    requires pos < |text| && |r| < pos && p.size >= 1 && p.overlap < 0
    ensures |Glue(r, Spans(text, pos, p), Pieces(text, Spans(text, pos, p)))| < |text|
    decreases |text| - pos
  {
    hide Cut, Slice, Extend, Glue, Pieces;
    var end := Cut(text, pos, p.size);
    CutBounds(text, pos, p.size);
    GlueFirst(r, text, pos, p);
    var piece := Slice(text, pos, end);
    SliceLength(text, pos, end);
    ExtendLength(r, pos, piece);
    var next := Max(end - p.overlap, pos + 1);
    if end < |text| && next < |text| {
      GapsLoseText(Extend(r, pos, piece), text, next, p);
    } else {
      GlueNothing(Extend(r, pos, piece), text);
    }
  }

  lemma FirstGapLosesText(text: string, p: Params)
    requires |text| > p.size >= 1 && p.overlap < 0
    ensures |Rebuilt(text, Spans(text, 0, p))| < |text|
  {
    hide Cut, Slice, Extend, Glue, Pieces;
    var end := Cut(text, 0, p.size);
    CutBounds(text, 0, p.size);
    GlueFirst("", text, 0, p);
    var piece := Slice(text, 0, end);
    SliceLength(text, 0, end);
    ExtendLength("", 0, piece);
    var next := Max(end - p.overlap, 1);
    if next < |text| {
      GapsLoseText(Extend("", 0, piece), text, next, p);
    } else {
      GlueNothing(Extend("", 0, piece), text);
    }
  }

  /**
   The chunks rebuild the text exactly when it needs no splitting or is empty, or the size is positive and the
   overlap is not negative. Nothing checks the two settings.
   */
  lemma RebuiltIff(text: string, p: Params)
    ensures Rebuilt(text, ChunkSpans(text, p)) == text
            <==> |text| <= p.size || text == "" || (p.size >= 1 && p.overlap >= 0)
  {
    hide Slice, Extend, Pieces, Cut;
    if |text| <= p.size {
      WholeIsRebuilt(text);
    } else if text == "" {
      GlueNothing("", text);
    } else if p.size <= 0 {
      NoSizeLosesEnd("", text, 0, p);
    } else if p.overlap < 0 {
      FirstGapLosesText(text, p);
    } else {
      GlueKeepsAll(text, 0, 0, p);
      assert text[..0] == "";
    }
  }

  lemma WholeIsRebuilt(text: string)
    ensures Rebuilt(text, [Span(0, |text|)]) == text
  {
    WholePiece(text);
    var spans := [Span(0, |text|)];
    assert |spans| == 1 && Glue(text, [], []) == text;
    assert spans[1..] == [] && [text][1..] == [];
    assert Extend("", 0, text) == text;
  }
}
