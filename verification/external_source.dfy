/**
 Timings for imported transcripts (`external_source.py`): words spread over their segment, sentences placed in
 their chunk, and repeated sentences removed. Seconds are exact reals; the source's rounding is not modelled.
 */
module ExternalSource {
  import opened Numbers
  import opened Text
  import opened Wrappers

  datatype Times = Times(start: real, end: real)

  /** A segment as it comes in; the times are None when they are not numbers. */
  datatype Raw = Raw(times: Option<Times>, text: string)

  datatype Segment = Segment(start: real, end: real, text: string)

  datatype Word = Word(w: string, s: real, e: real)

  // ---- Words ----------------------------------------------------------------------------------------

  function WordEnd(s: string): (k: nat)
    ensures k <= |s| && (s != "" && !IsSpace(s[0]) ==> k > 0)
  {
    if s == "" || IsSpace(s[0]) then 0 else 1 + WordEnd(s[1..])
  }

  /** [w for w in re.split(r"\s+", text) if w], and text.split() */
  function SplitWords(s: string): seq<string>
    decreases |s|
  {
    var t := LStrip(s);
    if t == "" then [] else [t[..WordEnd(t)]] + SplitWords(t[WordEnd(t)..])
  }

  lemma {:induction false} WordEndIs(word: string, tail: string)
    requires (forall i :: 0 <= i < |word| ==> !IsSpace(word[i])) && (tail == "" || IsSpace(tail[0]))
    ensures WordEnd(word + tail) == |word|
    decreases |word|
  {
    hide IsSpace;
    if word == "" {
      assert word + tail == tail;
    } else {
      assert (word + tail)[1..] == word[1..] + tail && (word + tail)[0] == word[0];
      WordEndIs(word[1..], tail);
    }
  }

  /** The words are what the blanks leave between them: a word ends at the next blank, and blanks alone hold none. */
  lemma SplitWordsOf(gap: string, word: string, tail: string)
    requires AllSpace(gap) && word != "" && (forall i :: 0 <= i < |word| ==> !IsSpace(word[i]))
    requires tail == "" || IsSpace(tail[0])
    ensures SplitWords(gap + word + tail) == [word] + SplitWords(tail)
    ensures SplitWords(gap) == []
  {
    hide IsSpace, WordEnd;
    var s := gap + word + tail;
    assert s == gap + (word + tail);
    LStripAfter(gap, word + tail);
    WordEndIs(word, tail);
    assert (word + tail)[..|word|] == word && (word + tail)[|word|..] == tail;
    LStripAfter(gap, "");
    assert gap + "" == gap;
  }

  function Weight(w: string): nat
  {
    Max(1, |w|)
  }

  /** The part of the duration d that `a` of `total` characters take. */
  function Part(d: real, a: nat, total: nat): real
    requires total > 0
  {
    d * (a as real / total as real)
  }

  function Total(words: seq<string>): nat
  {
    if words == [] then 0 else Total(words[..|words| - 1]) + Weight(words[|words| - 1])
  }

  /** Where the cursor is after some of the words; `start` is where the segment starts, `end` where it ends. */
  function CursorAfter(words: seq<string>, t: Times, total: nat): real
    requires total > 0
  {
    if words == [] then t.start
    else
      var cursor := CursorAfter(words[..|words| - 1], t, total);
      MinR(t.end, cursor + Part(t.end - t.start, Weight(words[|words| - 1]), total))
  }

  function Spread(words: seq<string>, t: Times, total: nat): seq<Word>
    requires total > 0
  {
    if words == [] then []
    else
      var rest := words[..|words| - 1];
      Spread(rest, t, total) + [Word(words[|words| - 1], CursorAfter(rest, t, total), CursorAfter(words, t, total))]
  }

  function AtStart(words: seq<string>, start: real): seq<Word>
  {
    if words == [] then [] else AtStart(words[..|words| - 1], start) + [Word(words[|words| - 1], start, start)]
  }

  function WordsOf(text: string): seq<string>
  {
    SplitWords(Strip(text))
  }

  /** The words of one segment. */
  function FlattenOne(r: Raw): seq<Word>
  {
    var words := WordsOf(r.text);
    if r.times.None? || words == [] then []
    else if r.times.value.end <= r.times.value.start then AtStart(words, r.times.value.start)
    else
      TotalIsPositive(words);
      Spread(words, r.times.value, Total(words))
  }

  function Flatten(segments: seq<Raw>): seq<Word>
  {
    if segments == [] then [] else Flatten(segments[..|segments| - 1]) + FlattenOne(segments[|segments| - 1])
  }

  lemma TotalIsPositive(words: seq<string>)
    ensures words != [] ==> Total(words) > 0
  {
  }

  method FlattenSegments(segments: seq<Raw>) returns (out: seq<Word>)
    ensures out == Flatten(segments)
  {
    hide FlattenOne;
    out := [];
    for i := 0 to |segments|
      invariant out == Flatten(segments[..i])
    {
      assert segments[..i + 1][..i] == segments[..i];
      var words := FlattenSegment(segments[i]);
      out := out + words;
    }
    assert segments[..|segments|] == segments;
  }

  /** One round of the outer loop. */
  method FlattenSegment(r: Raw) returns (out: seq<Word>)
    ensures out == FlattenOne(r)
  {
    hide SplitWords, Strip, Total, Spread, AtStart;
    var words := WordsOf(r.text);
    if r.times.None? || words == [] {
      return [];
    }
    var start, end := r.times.value.start, r.times.value.end;
    var duration := if end - start < 0.0 then 0.0 else end - start;
    if duration <= 0.0 {
      out := PutAtStart(words, start);
    } else {
      out := SpreadWords(words, start, end, duration);
    }
  }

  method PutAtStart(words: seq<string>, start: real) returns (out: seq<Word>)
    ensures out == AtStart(words, start)
  {
    out := [];
    for i := 0 to |words|
      invariant out == AtStart(words[..i], start)
    {
      assert words[..i + 1][..i] == words[..i];
      out := out + [Word(words[i], start, start)];
    }
    assert words[..|words|] == words;
  }

  method SpreadWords(words: seq<string>, start: real, end: real, duration: real) returns (out: seq<Word>)
    requires words != [] && duration == end - start > 0.0
    ensures Total(words) > 0 && out == Spread(words, Times(start, end), Total(words))
  {
    hide Spread, CursorAfter, Total;
    TotalIsPositive(words);
    var total := Total(words);
    ghost var t := Times(start, end);
    out := [];
    SpreadNothing(t, total);
    var cursor := start;
    for i := 0 to |words|
      invariant out == Spread(words[..i], t, total) && cursor == CursorAfter(words[..i], t, total)
    {
      SpreadNext(words, t, total, i, duration);
      var share := Max(1, |words[i]|) as real / total as real;
      var wEnd := MinR(end, cursor + duration * share);
      out := out + [Word(words[i], cursor, wEnd)];
      cursor := wEnd;
    }
    assert words[..|words|] == words;
  }

  lemma SpreadNothing(t: Times, total: nat)
    requires total > 0
    ensures Spread([], t, total) == [] && CursorAfter([], t, total) == t.start
  {
  }

  lemma SpreadNext(words: seq<string>, t: Times, total: nat, i: nat, duration: real)
    requires total > 0 && i < |words| && duration == t.end - t.start
    ensures var cursor := CursorAfter(words[..i], t, total);
            var wEnd := MinR(t.end, cursor + duration * (Weight(words[i]) as real / total as real));
            && CursorAfter(words[..i + 1], t, total) == wEnd
            && Spread(words[..i + 1], t, total) == Spread(words[..i], t, total) + [Word(words[i], cursor, wEnd)]
  {
    hide Weight;
    assert words[..i + 1][..i] == words[..i];
  }

  // ---- Words tile their segment ---------------------------------------------------------------------

  lemma PartSum(d: real, a: nat, b: nat, total: nat)
    requires total > 0
    ensures Part(d, a, total) + Part(d, b, total) == Part(d, a + b, total)
  {
    var x, y, z := a as real / total as real, b as real / total as real, (a + b) as real / total as real;
    assert x + y == z by {
      Quotients(a as real, b as real, total as real);
    }
    assert d * x + d * y == d * (x + y);
  }

  lemma Quotients(a: real, b: real, n: real)
    requires n > 0.0
    ensures a / n + b / n == (a + b) / n
  {
  }

  lemma PartBounds(d: real, a: nat, total: nat)
    requires total > 0 && d > 0.0
    ensures Part(d, 0, total) == 0.0 && Part(d, total, total) == d
    ensures a > 0 ==> Part(d, a, total) > 0.0
    ensures a <= total <==> Part(d, a, total) <= d
  {
    var x := a as real / total as real;
    assert x * total as real == a as real;
    assert total as real / total as real == 1.0;
    if a <= total {
      assert x <= 1.0;
      assert d * x <= d * 1.0;
    } else {
      assert x > 1.0;
      assert d * x > d * 1.0;
    }
  }

  lemma {:induction false} TotalGrows(words: seq<string>, k: nat)
    requires k <= |words|
    ensures Total(words[..k]) <= Total(words)
  {
    if k < |words| {
      TotalGrows(words[..|words| - 1], k);
      assert words[..|words| - 1][..k] == words[..k];
    } else {
      assert words[..k] == words;
    }
  }

  /** The cursor is where the characters before it say; the min of the source never bites. */
  lemma {:induction false} CursorIsProportional(words: seq<string>, t: Times, total: nat)
    requires Total(words) <= total && total > 0 && t.start < t.end
    ensures CursorAfter(words, t, total) == t.start + Part(t.end - t.start, Total(words), total)
  {
    hide Part, Weight;
    var d := t.end - t.start;
    PartBounds(d, Total(words), total);
    if words != [] {
      var rest, weight := words[..|words| - 1], Weight(words[|words| - 1]);
      CursorIsProportional(rest, t, total);
      PartSum(d, Total(rest), weight, total);
    }
  }

  lemma {:induction false} SpreadAt(words: seq<string>, t: Times, total: nat, k: nat)
    requires total > 0 && k < |words|
    ensures |Spread(words, t, total)| == |words|
    ensures Spread(words, t, total)[k]
            == Word(words[k], CursorAfter(words[..k], t, total), CursorAfter(words[..k + 1], t, total))
  {
    var rest := words[..|words| - 1];
    if k < |rest| {
      SpreadAt(rest, t, total, k);
      assert rest[..k] == words[..k] && rest[..k + 1] == words[..k + 1];
    } else {
      assert words[..k + 1] == words;
      SpreadLength(words, t, total);
    }
  }

  lemma {:induction false} SpreadLength(words: seq<string>, t: Times, total: nat)
    requires total > 0
    ensures |Spread(words, t, total)| == |words|
  {
    if words != [] {
      SpreadLength(words[..|words| - 1], t, total);
    }
  }

  /**
   The words of a segment of positive length tile it: the first starts with it, each starts where the one before
   ends, the last ends with it, and each lasts in proportion to its length.
   */
  lemma WordsTile(words: seq<string>, t: Times, k: nat)
    requires k < |words| && t.start < t.end
    ensures Total(words) > 0 && |Spread(words, t, Total(words))| == |words|
    ensures var out := Spread(words, t, Total(words));
            && out[k].w == words[k]
            && (k == 0 ==> out[k].s == t.start)
            && (if k + 1 < |words| then out[k].e == out[k + 1].s else out[k].e == t.end)
            && out[k].e - out[k].s == Part(t.end - t.start, Weight(words[k]), Total(words)) > 0.0
  {
    hide Weight, Spread, Part;
    TotalIsPositive(words);
    var total, d := Total(words), t.end - t.start;
    SpreadAt(words, t, total, k);
    CursorMoves(words, t, total, k);
    if k + 1 < |words| {
      SpreadAt(words, t, total, k + 1);
    } else {
      assert words[..k + 1] == words;
      CursorIsProportional(words, t, total);
      PartBounds(d, total, total);
    }
    assert words[..0] == [];
  }

  lemma CursorMoves(words: seq<string>, t: Times, total: nat, k: nat)
    requires k < |words| && t.start < t.end && Total(words) <= total && total > 0
    ensures CursorAfter(words[..k + 1], t, total) - CursorAfter(words[..k], t, total)
            == Part(t.end - t.start, Weight(words[k]), total) > 0.0
  {
    hide Part, CursorAfter;
    var d := t.end - t.start;
    TotalGrows(words, k);
    TotalGrows(words, k + 1);
    CursorIsProportional(words[..k], t, total);
    CursorIsProportional(words[..k + 1], t, total);
    assert words[..k + 1][..k] == words[..k];
    PartSum(d, Total(words[..k]), Weight(words[k]), total);
    PartBounds(d, Weight(words[k]), total);
  }

  // ---- Words over the whole input -------------------------------------------------------------------

  function Texts(words: seq<Word>): seq<string>
  {
    if words == [] then [] else Texts(words[..|words| - 1]) + [words[|words| - 1].w]
  }

  /** The words of the segments whose times are numbers. */
  function InputWords(segments: seq<Raw>): seq<string>
  {
    if segments == [] then []
    else
      var r := segments[|segments| - 1];
      InputWords(segments[..|segments| - 1]) + if r.times.None? then [] else WordsOf(r.text)
  }

  lemma {:induction false} TextsConcat(a: seq<Word>, b: seq<Word>)
    ensures Texts(a + b) == Texts(a) + Texts(b)
    decreases |b|
  {
    if b == [] {
      assert a + b == a;
    } else {
      assert (a + b)[..|a + b| - 1] == a + b[..|b| - 1];
      TextsConcat(a, b[..|b| - 1]);
    }
  }

  lemma {:induction false} SpreadTexts(words: seq<string>, t: Times, total: nat, start: real)
    requires total > 0
    ensures Texts(Spread(words, t, total)) == words && Texts(AtStart(words, start)) == words
  {
    hide CursorAfter;
    if words != [] {
      var rest := words[..|words| - 1];
      SpreadTexts(rest, t, total, start);
      assert words == rest + [words[|words| - 1]];
      var s, a := Spread(words, t, total), AtStart(words, start);
      assert s[..|s| - 1] == Spread(rest, t, total) && a[..|a| - 1] == AtStart(rest, start);
    }
  }

  /** Every word of a segment with usable times is timed, once and in order. */
  lemma {:induction false} WordsAreKept(segments: seq<Raw>)
    ensures Texts(Flatten(segments)) == InputWords(segments)
  {
    hide WordsOf, Spread, AtStart, Total, Texts;
    if segments == [] {
      assert Texts([]) == [] by {
        NoTexts();
      }
    } else {
      var rest, r := segments[..|segments| - 1], segments[|segments| - 1];
      WordsAreKept(rest);
      TextsConcat(Flatten(rest), FlattenOne(r));
      NoTexts();
      if r.times.Some? && WordsOf(r.text) != [] {
        TotalIsPositive(WordsOf(r.text));
        SpreadTexts(WordsOf(r.text), r.times.value, Total(WordsOf(r.text)), r.times.value.start);
      }
    }
  }

  lemma NoTexts()
    ensures Texts([]) == []
  {
  }

  predicate Ascending(words: seq<Word>)
  {
    forall k :: 0 <= k < |words| - 1 ==> words[k].s <= words[k + 1].s
  }

  lemma AscendingConcat(a: seq<Word>, b: seq<Word>)
    ensures Ascending(a + b) <==> Ascending(a) && Ascending(b) && (a != [] && b != [] ==> a[|a| - 1].s <= b[0].s)
  {
    var all := a + b;
    if Ascending(all) {
      forall k | 0 <= k < |b| - 1
        ensures b[k].s <= b[k + 1].s
      {
        assert all[|a| + k].s <= all[|a| + k + 1].s;
      }
      forall k | 0 <= k < |a| - 1
        ensures a[k].s <= a[k + 1].s
      {
        assert all[k].s <= all[k + 1].s;
      }
      if a != [] && b != [] {
        assert all[|a| - 1].s <= all[|a| - 1 + 1].s;
      }
    }
  }

  /** Where the last word of a segment starts. */
  function LastStart(t: Times, words: seq<string>): real
    requires words != []
  {
    if t.end <= t.start then t.start
    else
      TotalIsPositive(words);
      t.end - Part(t.end - t.start, Weight(words[|words| - 1]), Total(words))
  }

  predicate Usable(r: Raw)
  {
    r.times.Some? && WordsOf(r.text) != []
  }

  /** A run of words in time order, from `first` to `last`. */
  predicate Runs(out: seq<Word>, first: real, last: real)
  {
    && Ascending(out) && (forall k :: 0 <= k < |out| ==> out[k].s <= out[k].e)
    && out != [] && out[0].s == first && out[|out| - 1].s == last
  }

  lemma SpreadRuns(words: seq<string>, t: Times)
    requires words != [] && t.start < t.end
    ensures Total(words) > 0 && Runs(Spread(words, t, Total(words)), t.start, LastStart(t, words))
  {
    hide Spread, Part, Total, Weight;
    TotalIsPositive(words);
    var out := Spread(words, t, Total(words));
    SpreadLength(words, t, Total(words));
    WordsTile(words, t, 0);
    WordsTile(words, t, |words| - 1);
    forall k | 0 <= k < |out|
      ensures out[k].s < out[k].e && (k + 1 < |out| ==> out[k].e == out[k + 1].s)
    {
      WordsTile(words, t, k);
    }
  }

  lemma OneIsAscending(r: Raw)
    ensures if Usable(r) then Runs(FlattenOne(r), r.times.value.start, LastStart(r.times.value, WordsOf(r.text)))
            else FlattenOne(r) == []
  {
    hide Spread, AtStart, Part, Total, WordsOf;
    if Usable(r) {
      var t, words := r.times.value, WordsOf(r.text);
      if t.end <= t.start {
        AtStartStays(words, t.start);
      } else {
        hide LastStart, Runs;
        SpreadRuns(words, t);
      }
    }
  }

  lemma {:induction false} AtStartStays(words: seq<string>, start: real)
    ensures |AtStart(words, start)| == |words|
    ensures forall k :: 0 <= k < |words| ==> AtStart(words, start)[k].s == AtStart(words, start)[k].e == start
  {
    if words != [] {
      AtStartStays(words[..|words| - 1], start);
    }
  }

  /** Each segment starts no earlier than the last word of the one before, of those that have words. */
  predicate InOrder(segments: seq<Raw>)
  {
    segments == [] ||
    var rest, r := segments[..|segments| - 1], segments[|segments| - 1];
    InOrder(rest) && (Usable(r) && LastWordStart(rest).Some? ==> LastWordStart(rest).value <= r.times.value.start)
  }

  function LastWordStart(segments: seq<Raw>): Option<real>
  {
    if segments == [] then None
    else
      var r := segments[|segments| - 1];
      if Usable(r) then Some(LastStart(r.times.value, WordsOf(r.text))) else LastWordStart(segments[..|segments| - 1])
  }

  lemma {:induction false} LastWordStartIs(segments: seq<Raw>)
    ensures var out := Flatten(segments);
            LastWordStart(segments) == if out == [] then None else Some(out[|out| - 1].s)
  {
    hide FlattenOne, LastStart, Usable, WordsOf;
    if segments != [] {
      LastWordStartIs(segments[..|segments| - 1]);
      OneIsAscending(segments[|segments| - 1]);
    }
  }

  /** The words come in order of their starts, as the documentation promises, exactly for segments in order. */
  lemma {:induction false} WordsAscendIff(segments: seq<Raw>)
    ensures Ascending(Flatten(segments)) <==> InOrder(segments)
  {
    hide FlattenOne, LastStart, Usable, WordsOf, Ascending, LastWordStart;
    NoneAscend();
    if segments != [] {
      var rest, r := segments[..|segments| - 1], segments[|segments| - 1];
      WordsAscendIff(rest);
      LastWordStartIs(rest);
      OneIsAscending(r);
      AscendingConcat(Flatten(rest), FlattenOne(r));
    }
  }

  lemma NoneAscend()
    ensures Ascending([])
  {
  }

  /** Two segments out of order give words out of order. */
  lemma WordsCanDescend()
    ensures !Ascending(Flatten([Raw(Some(Times(10.0, 20.0)), "a"), Raw(Some(Times(0.0, 5.0)), "b")]))
  {
    hide WordsOf, Ascending, Spread, Total, Flatten, Part;
    var a, b := Raw(Some(Times(10.0, 20.0)), "a"), Raw(Some(Times(0.0, 5.0)), "b");
    OneWord("a");
    OneWord("b");
    assert [a, b][..1] == [a];
    OneWordStart(a.times.value, "a");
    assert LastWordStart([a]) == Some(10.0) && Usable(b);
    assert !InOrder([a, b]);
    WordsAscendIff([a, b]);
  }

  lemma OneWordStart(t: Times, w: string)
    requires |w| == 1 && t.start < t.end
    ensures LastStart(t, [w]) == t.start
  {
    assert [w][..0] == [] && Total([w]) == 1;
    assert Part(t.end - t.start, 1, 1) == t.end - t.start;
  }

  // ---- Segments without a duration, segments that overlap -------------------------------------------

  /** The segment ends no later than it starts. */
  predicate Instant(r: Raw)
  {
    r.times.Some? && r.times.value.end <= r.times.value.start
  }

  /** Exactly the segments without numbers or words are skipped; an instant one keeps its words, all at its start. */
  lemma SkippedIff(r: Raw)
    ensures FlattenOne(r) == [] <==> !Usable(r)
    ensures Usable(r) && Instant(r) ==>
              && Texts(FlattenOne(r)) == WordsOf(r.text)
              && forall k :: 0 <= k < |FlattenOne(r)| ==>
                   FlattenOne(r)[k].s == FlattenOne(r)[k].e == r.times.value.start
  {
    hide Spread, AtStart, Total, WordsOf, LastStart, Runs, Texts;
    OneIsAscending(r);
    assert Usable(r) ==> FlattenOne(r) != [] by {
      if Usable(r) {
        RunsNotEmpty(FlattenOne(r), r.times.value.start, LastStart(r.times.value, WordsOf(r.text)));
      }
    }
    if Usable(r) && Instant(r) {
      AtStartStays(WordsOf(r.text), r.times.value.start);
      SpreadTexts(WordsOf(r.text), r.times.value, 1, r.times.value.start);
    }
  }

  lemma RunsNotEmpty(out: seq<Word>, first: real, last: real)
    requires Runs(out, first, last)
    ensures out != []
  {
  }

  /** So "skipped without words or without a duration", as documented, is what happens exactly if it is not instant. */
  lemma SkippedAsDocumentedIff(r: Raw)
    ensures (FlattenOne(r) == [] <==> !Usable(r) || Instant(r)) <==> !(Usable(r) && Instant(r))
  {
    hide FlattenOne, Usable, Instant;
    SkippedIff(r);
  }

  /** No word ends after the next one starts. */
  predicate Apart(words: seq<Word>)
  {
    forall k :: 0 <= k < |words| - 1 ==> words[k].e <= words[k + 1].s
  }

  lemma ApartConcat(a: seq<Word>, b: seq<Word>)
    ensures Apart(a + b) <==> Apart(a) && Apart(b) && (a != [] && b != [] ==> a[|a| - 1].e <= b[0].s)
  {
    var all := a + b;
    if Apart(all) {
      forall k | 0 <= k < |b| - 1
        ensures b[k].e <= b[k + 1].s
      {
        assert all[|a| + k].e <= all[|a| + k + 1].s;
      }
      forall k | 0 <= k < |a| - 1
        ensures a[k].e <= a[k + 1].s
      {
        assert all[k].e <= all[k + 1].s;
      }
      if a != [] && b != [] {
        assert all[|a| - 1].e <= all[|a| - 1 + 1].s;
      }
    }
  }

  function LastEnd(t: Times): real
  {
    if t.end <= t.start then t.start else t.end
  }

  lemma SpreadIsApart(words: seq<string>, t: Times)
    requires words != [] && t.start < t.end
    ensures
      Total(words) > 0 &&
      var out := Spread(words, t, Total(words));
      Apart(out) && out != [] && out[0].s == t.start && out[|out| - 1].e == t.end
  {
    hide Spread, Part, Total, Weight;
    TotalIsPositive(words);
    var out := Spread(words, t, Total(words));
    SpreadLength(words, t, Total(words));
    WordsTile(words, t, 0);
    WordsTile(words, t, |words| - 1);
    forall k | 0 <= k < |out| - 1
      ensures out[k].e <= out[k + 1].s
    {
      WordsTile(words, t, k);
    }
  }

  /** The words of one segment never overlap, and span it. */
  lemma OneIsApart(r: Raw)
    ensures
      var out := FlattenOne(r);
      if Usable(r)
      then Apart(out) && out != [] && out[0].s == r.times.value.start && out[|out| - 1].e == LastEnd(r.times.value)
      else out == []
  {
    hide Spread, AtStart, Part, Total, WordsOf;
    if Usable(r) {
      var t, words := r.times.value, WordsOf(r.text);
      if t.end <= t.start {
        AtStartStays(words, t.start);
      } else {
        SpreadIsApart(words, t);
      }
    }
  }

  /** Where the last segment with words ends. */
  function LastWordEnd(segments: seq<Raw>): Option<real>
  {
    if segments == [] then None
    else
      var r := segments[|segments| - 1];
      if Usable(r) then Some(LastEnd(r.times.value)) else LastWordEnd(segments[..|segments| - 1])
  }

  /** Each segment starts no earlier than the one before ends, of those that have words. */
  predicate Disjoint(segments: seq<Raw>)
  {
    segments == [] ||
    var rest, r := segments[..|segments| - 1], segments[|segments| - 1];
    Disjoint(rest) && (Usable(r) && LastWordEnd(rest).Some? ==> LastWordEnd(rest).value <= r.times.value.start)
  }

  lemma {:induction false} LastWordEndIs(segments: seq<Raw>)
    ensures var out := Flatten(segments); LastWordEnd(segments) == if out == [] then None else Some(out[|out| - 1].e)
  {
    hide FlattenOne, LastEnd, Usable, Apart;
    if segments != [] {
      LastWordEndIs(segments[..|segments| - 1]);
      OneIsApart(segments[|segments| - 1]);
    }
  }

  /** The words do not overlap, as documented, exactly if the segments do not: nothing is done about those that do. */
  lemma {:induction false} WordsApartIff(segments: seq<Raw>)
    ensures Apart(Flatten(segments)) <==> Disjoint(segments)
  {
    hide FlattenOne, LastEnd, Usable, Apart, LastWordEnd;
    NoneApart();
    if segments != [] {
      var rest, r := segments[..|segments| - 1], segments[|segments| - 1];
      WordsApartIff(rest);
      LastWordEndIs(rest);
      OneIsApart(r);
      ApartConcat(Flatten(rest), FlattenOne(r));
    }
  }

  lemma NoneApart()
    ensures Apart([])
  {
  }

  /** Two overlapping segments, in order, give overlapping words; an instant one gives a word. */
  lemma WordsCanOverlap()
    ensures !Apart(Flatten([Raw(Some(Times(0.0, 10.0)), "a"), Raw(Some(Times(5.0, 15.0)), "b")]))
    ensures FlattenOne(Raw(Some(Times(5.0, 5.0)), "a")) == [Word("a", 5.0, 5.0)]
  {
    hide WordsOf, Apart, Spread, Total, Part, Flatten;
    var a, b := Raw(Some(Times(0.0, 10.0)), "a"), Raw(Some(Times(5.0, 15.0)), "b");
    OneWord("a");
    OneWord("b");
    assert [a, b][..1] == [a];
    assert LastWordEnd([a]) == Some(10.0) && Usable(b);
    assert !Disjoint([a, b]);
    WordsApartIff([a, b]);
    assert ["a"][..0] == [];
    assert AtStart(["a"], 5.0) == [Word("a", 5.0, 5.0)];
  }

  lemma OneWord(w: string)
    requires |w| == 1 && !IsSpace(w[0])
    ensures WordsOf(w) == [w]
  {
    assert Blanks(w) == 0 && LStrip(w) == w && Kept(w) == 1 && w[..1] == w && Strip(w) == w;
    assert w[1..] == "" && WordEnd("") == 0 && WordEnd(w) == 1;
    assert SplitWords("") == [];
  }
}
