/**
 Sentences of imported transcripts (`external_source.py`): each chunk is cut into sentences, which are placed by
 their position in characters; long ones are cut again, and sentences repeated by the overlap of the chunks are
 removed. Seconds are exact reals; the source's rounding is not modelled.
 */
module SentenceAlign {
  import opened Numbers
  import opened Text
  import opened Wrappers

  import opened ExternalSource

  const SENTENCE_ENDS: string := ".!?\U{2026}"
  const SOFT_ENDS: string := ",;:"
  const LONG_PHRASE := 20.0

  // ---- Cutting --------------------------------------------------------------------------------------

  /** The first blank from k on that follows one of the marks. */
  function CutFrom(s: string, marks: string, k: nat): (r: nat)
    requires 1 <= k <= |s|
    ensures k <= r <= |s|
    ensures r < |s| ==> IsSpace(s[r]) && s[r - 1] in marks
    decreases |s| - k
  {
    if k == |s| || (IsSpace(s[k]) && s[k - 1] in marks) then k else CutFrom(s, marks, k + 1)
  }

  /** re.split(r"(?<=[marks])\s+", s) */
  function Split(s: string, marks: string): seq<string>
    decreases |s|
  {
    if s == "" then [""]
    else
      var k := CutFrom(s, marks, 1);
      if k == |s| then [s] else [s[..k]] + Split(LStrip(s[k..]), marks)
  }

  /** The characters that are not blanks. */
  function Dense(s: string): string
  {
    if s == "" then "" else (if IsSpace(s[0]) then "" else [s[0]]) + Dense(s[1..])
  }

  function DenseAll(parts: seq<string>): string
  {
    if parts == [] then "" else Dense(parts[0]) + DenseAll(parts[1..])
  }

  lemma {:induction false} DenseConcat(a: string, b: string)
    ensures Dense(a + b) == Dense(a) + Dense(b)
  {
    if a == "" {
      assert a + b == b;
    } else {
      assert (a + b)[1..] == a[1..] + b;
      DenseConcat(a[1..], b);
    }
  }

  lemma {:induction false} DenseLStrip(s: string)
    ensures Dense(LStrip(s)) == Dense(s)
  {
    if s != "" && IsSpace(s[0]) {
      DenseLStrip(s[1..]);
      assert LStrip(s) == LStrip(s[1..]);
    } else {
      assert LStrip(s) == s;
    }
  }

  /** Cutting loses nothing but blanks. */
  lemma {:induction false} SplitKeeps(s: string, marks: string)
    ensures DenseAll(Split(s, marks)) == Dense(s)
    decreases |s|
  {
    hide IsSpace, Blanks, LStrip, Dense;
    if s == "" {
      assert Dense("") == "" && Split(s, marks) == [s] && [s][1..] == [] && DenseAll([]) == "" by {
        NothingDense();
      }
    } else {
      var k := CutFrom(s, marks, 1);
      assert s == s[..k] + s[k..];
      if k == |s| {
        assert [s][1..] == [] && DenseAll([]) == "";
        assert Dense(s) + "" == Dense(s);
      } else {
        DenseConcat(s[..k], s[k..]);
        DenseLStrip(s[k..]);
        LStripShortens(s, k);
        SplitKeeps(LStrip(s[k..]), marks);
        assert Split(s, marks)[1..] == Split(LStrip(s[k..]), marks);
      }
    }
  }

  lemma LStripShortens(s: string, k: nat)
    requires 1 <= k < |s|
    ensures |LStrip(s[k..])| < |s|
  {
  }

  lemma NothingDense()
    ensures Dense("") == ""
  {
  }

  /** Parts without blanks at their edges, and not empty. */
  predicate Neat(parts: seq<string>)
  {
    forall k :: 0 <= k < |parts| ==> parts[k] != "" && Tight(parts[k])
  }

  predicate NoSpaces(marks: string)
  {
    forall c :: c in marks ==> !IsSpace(c)
  }

  lemma SplitAt(s: string, marks: string, k: nat)
    requires s != "" && CutFrom(s, marks, 1) == k < |s|
    ensures k > 0 && Split(s, marks) == [s[..k]] + Split(LStrip(s[k..]), marks)
  {
    hide IsSpace, LStrip;
  }

  lemma SplitWhole(s: string, marks: string)
    requires s == "" || CutFrom(s, marks, 1) == |s|
    ensures Split(s, marks) == [s]
  {
    hide IsSpace, LStrip;
  }

  lemma {:induction false} SplitIsNeat(s: string, marks: string)
    requires s != "" && Tight(s) && NoSpaces(marks)
    ensures Neat(Split(s, marks)) && Split(s, marks) != []
    decreases |s|
  {
    hide IsSpace, Blanks, LStrip, Split, CutFrom;
    var k := CutFrom(s, marks, 1);
    if k < |s| {
      SplitAt(s, marks, k);
      assert !IsSpace(s[k - 1]);
      RestIsTight(s[k..]);
      LStripShortens(s, k);
      SplitIsNeat(LStrip(s[k..]), marks);
    } else {
      SplitWhole(s, marks);
    }
  }

  lemma RestIsTight(s: string)
    requires s != "" && !IsSpace(s[|s| - 1])
    ensures LStrip(s) != "" && Tight(LStrip(s))
  {
    hide IsSpace;
    if Blanks(s) == |s| {
      BlanksAreSpaces(s, |s| - 1);
    }
  }

  /** A blank after one of the marks. */
  predicate BoundaryAt(s: string, marks: string, k: nat)
  {
    0 < k < |s| && IsSpace(s[k]) && s[k - 1] in marks
  }

  lemma {:induction false} CutFromIs(s: string, marks: string, k: nat)
    requires 1 <= k <= |s|
    ensures var r := CutFrom(s, marks, k); forall i :: k <= i < r ==> !BoundaryAt(s, marks, i)
    decreases |s| - k
  {
    hide IsSpace;
    if k < |s| && !BoundaryAt(s, marks, k) {
      CutFromIs(s, marks, k + 1);
    }
  }

  /** Each part ends with the first mark that blanks follow, which are dropped; a text without one is a single part. */
  lemma SplitAtMark(head: string, gap: string, rest: string, marks: string)
    requires head != "" && head[|head| - 1] in marks && forall k: nat :: !BoundaryAt(head, marks, k)
    requires gap != "" && AllSpace(gap) && (rest == "" || !IsSpace(rest[0]))
    ensures Split(head + gap + rest, marks) == [head] + Split(rest, marks)
    ensures Split(head, marks) == [head]
  {
    hide IsSpace, Split, LStrip;
    var s := head + gap + rest;
    var r := CutFrom(s, marks, 1);
    CutFromIs(s, marks, 1);
    assert BoundaryAt(s, marks, |head|) by {
      assert s[|head|] == gap[0] && s[|head| - 1] == head[|head| - 1];
    }
    forall k: nat | 0 < k < |head|
      ensures BoundaryAt(s, marks, k) <==> BoundaryAt(head, marks, k)
    {
    }
    assert r < |s| ==> BoundaryAt(s, marks, r);
    assert r == |head|;
    assert s[..r] == head && s[r..] == gap + rest;
    LStripAfter(gap, rest);
    SplitAt(s, marks, r);
    var whole := CutFrom(head, marks, 1);
    assert whole < |head| ==> BoundaryAt(head, marks, whole);
    SplitWhole(head, marks);
  }

  /** The marks: a sentence ends with a full stop, an exclamation or question mark or an ellipsis. */
  lemma Marks(c: char)
    ensures c in SENTENCE_ENDS <==> c == '.' || c == '!' || c == '?' || c == '\U{2026}'
    ensures c in SOFT_ENDS <==> c == ',' || c == ';' || c == ':'
  {
  }

  // ---- Placing --------------------------------------------------------------------------------------

  function Lengths(parts: seq<string>): nat
  {
    if parts == [] then 0 else Lengths(parts[..|parts| - 1]) + |parts[|parts| - 1]|
  }

  /** sum(len(p) for p in parts) or 1 */
  function Whole(parts: seq<string>): (n: nat)
    ensures n > 0
  {
    if Lengths(parts) == 0 then 1 else Lengths(parts)
  }

  /** The cursor after some of the parts: one more for each than its length. */
  function Cursor(parts: seq<string>): nat
  {
    if parts == [] then 0
    else
      var p := Strip(parts[|parts| - 1]);
      Cursor(parts[..|parts| - 1]) + if p == "" then 0 else |p| + 1
  }

  function StartAt(t0: real, d: real, cursor: nat, total: nat): real
    requires total > 0
  {
    t0 + (cursor as real / total as real) * d
  }

  function EndAt(t0: real, d: real, cursor: nat, total: nat): real
    requires total > 0
  {
    t0 + MinR(1.0, cursor as real / total as real) * d
  }

  function Place(parts: seq<string>, t0: real, d: real, total: nat): seq<Segment>
    requires total > 0
  {
    if parts == [] then []
    else
      var rest, p := parts[..|parts| - 1], Strip(parts[|parts| - 1]);
      Place(rest, t0, d, total) +
      if p == "" then [] else [Segment(StartAt(t0, d, Cursor(rest), total), EndAt(t0, d, Cursor(parts), total), p)]
  }

  function JoinWords(words: seq<string>): string
  {
    if words == [] then "" else if |words| == 1 then words[0] else words[0] + " " + JoinWords(words[1..])
  }

  /** The words in groups of `per`. */
  function Groups(words: seq<string>, per: nat): seq<string>
    requires per > 0
    decreases |words|
  {
    if words == [] then []
    else if |words| <= per then [JoinWords(words)]
    else [JoinWords(words[..per])] + Groups(words[per..], per)
  }

  function GroupSize(n: nat, d: real): (per: nat)
    ensures per > 0
  {
    Max(1, n / Max(1, (d / 15.0).Floor))
  }

  function LongParts(text: string, d: real): seq<string>
  {
    var parts := Split(text, SOFT_ENDS);
    if |parts| > 1 then parts
    else
      var words := SplitWords(text);
      Groups(words, GroupSize(|words|, d))
  }

  /** _split_long_phrase */
  function SplitLong(s: Segment): seq<Segment>
  {
    var parts := LongParts(s.text, s.end - s.start);
    var out := Place(parts, s.start, s.end - s.start, Whole(parts));
    if out == [] then [s] else out
  }

  function Expand(placed: seq<Segment>): seq<Segment>
  {
    if placed == [] then []
    else
      var s := placed[|placed| - 1];
      Expand(placed[..|placed| - 1]) + if s.end - s.start > LONG_PHRASE then SplitLong(s) else [s]
  }

  /** The sentences of a chunk as they are placed, before the long ones are cut again. */
  function Sentences(r: Raw): seq<Segment>
  {
    var text := Strip(r.text);
    if text == "" || r.times.None? || r.times.value.end <= r.times.value.start then []
    else
      var t := r.times.value;
      var parts := Split(text, SENTENCE_ENDS);
      Place(parts, t.start, t.end - t.start, Whole(parts))
  }

  function AlignAll(chunks: seq<Raw>): seq<Segment>
  {
    if chunks == [] then [] else AlignAll(chunks[..|chunks| - 1]) + Expand(Sentences(chunks[|chunks| - 1]))
  }

  // ---- Repeats --------------------------------------------------------------------------------------

  function Abs(x: real): real { if x < 0.0 then -x else x }

  predicate Repeats(prev: Segment, cur: Segment)
  {
    Strip(cur.text) == Strip(prev.text) && Abs(cur.start - prev.start) < 20.0
  }

  /** _dedupe_overlap */
  function Dedupe(segments: seq<Segment>): (out: seq<Segment>)
    ensures out == [] <==> segments == []
  {
    if segments == [] then []
    else
      var rest, cur := Dedupe(segments[..|segments| - 1]), segments[|segments| - 1];
      if rest != [] && Repeats(rest[|rest| - 1], cur) then rest else rest + [cur]
  }

  // ---- The methods ----------------------------------------------------------------------------------

  method SentenceAlignSegments(chunks: seq<Raw>) returns (out: seq<Segment>)
    ensures out == Dedupe(AlignAll(chunks))
  {
    hide Sentences, Expand;
    var all: seq<Segment> := [];
    for i := 0 to |chunks|
      invariant all == AlignAll(chunks[..i])
    {
      assert chunks[..i + 1][..i] == chunks[..i];
      var placed := AlignChunk(chunks[i]);
      all := all + placed;
    }
    assert chunks[..|chunks|] == chunks;
    out := DedupeOverlap(all);
  }

  /** One round of the outer loop. */
  method AlignChunk(r: Raw) returns (out: seq<Segment>)
    ensures out == Expand(Sentences(r))
  {
    hide Split, Strip, Place, Whole;
    var text := Strip(r.text);
    if text == "" || r.times.None? {
      return [];
    }
    var t0, t1 := r.times.value.start, r.times.value.end;
    var duration := if t1 - t0 < 0.0 then 0.0 else t1 - t0;
    if duration <= 0.0 {
      return [];
    }
    out := PlaceSentences(Split(text, SENTENCE_ENDS), t0, duration);
  }

  lemma PlaceNext(parts: seq<string>, i: nat, t0: real, d: real, total: nat)
    requires total > 0 && i < |parts|
    ensures var p, placed := Strip(parts[i]), Place(parts[..i], t0, d, total);
            var cursor := Cursor(parts[..i]) + |p| + 1;
            && Cursor(parts[..i + 1]) == (if p == "" then Cursor(parts[..i]) else cursor)
            && Place(parts[..i + 1], t0, d, total) ==
               if p == "" then placed
               else placed + [Segment(StartAt(t0, d, Cursor(parts[..i]), total), EndAt(t0, d, cursor, total), p)]
  {
    hide Strip, StartAt, EndAt;
    assert parts[..i + 1][..i] == parts[..i];
  }

  lemma PlaceNothing(t0: real, d: real, total: nat)
    requires total > 0
    ensures Place([], t0, d, total) == [] && Expand([]) == [] && Cursor([]) == 0
  {
  }

  /** The loop over the sentences. */
  method PlaceSentences(parts: seq<string>, t0: real, duration: real) returns (out: seq<Segment>)
    ensures out == Expand(Place(parts, t0, duration, Whole(parts)))
  {
    hide Strip, SplitLong, StartAt, EndAt, Place, Expand, Cursor;
    var total := Whole(parts);
    var cursor := 0;
    out := [];
    PlaceNothing(t0, duration, total);
    for i := 0 to |parts|
      invariant cursor == Cursor(parts[..i])
      invariant out == Expand(Place(parts[..i], t0, duration, total))
    {
      PlaceNext(parts, i, t0, duration, total);
      var p := Strip(parts[i]);
      if p == "" {
        continue;
      }
      var start := StartAt(t0, duration, cursor, total);
      cursor := cursor + |p| + 1;
      var seg := Segment(start, EndAt(t0, duration, cursor, total), p);
      ExpandNext(Place(parts[..i], t0, duration, total), seg);
      if seg.end - seg.start > LONG_PHRASE {
        var cut := SplitLongPhrase(seg);
        out := out + cut;
      } else {
        out := out + [seg];
      }
    }
    assert parts[..|parts|] == parts;
  }

  lemma ExpandNext(placed: seq<Segment>, s: Segment)
    ensures Expand(placed + [s]) == Expand(placed) + if s.end - s.start > LONG_PHRASE then SplitLong(s) else [s]
  {
    hide SplitLong;
    assert (placed + [s])[..|placed|] == placed;
  }

  method SplitLongPhrase(s: Segment) returns (out: seq<Segment>)
    ensures out == SplitLong(s)
  {
    hide Split, SplitWords, Place;
    var dur := s.end - s.start;
    var parts := Split(s.text, SOFT_ENDS);
    if |parts| <= 1 {
      var targetPer := Max(1, (dur / 15.0).Floor);
      var words := SplitWords(s.text);
      if words == [] {
        PlaceNothing(s.start, dur, Whole([]));
        return [s];
      }
      parts := Groups(words, Max(1, |words| / targetPer));
    }
    assert parts == LongParts(s.text, dur);
    out := PlaceParts(parts, s.start, dur);
    out := if out == [] then [s] else out;
  }

  /** The loop of _split_long_phrase. */
  method PlaceParts(parts: seq<string>, t0: real, dur: real) returns (out: seq<Segment>)
    ensures out == Place(parts, t0, dur, Whole(parts))
  {
    hide Strip, StartAt, EndAt, Place, Cursor;
    var total := Whole(parts);
    var cursor := 0;
    out := [];
    PlaceNothing(t0, dur, total);
    for i := 0 to |parts|
      invariant cursor == Cursor(parts[..i])
      invariant out == Place(parts[..i], t0, dur, total)
    {
      PlaceNext(parts, i, t0, dur, total);
      var p := Strip(parts[i]);
      if p == "" {
        continue;
      }
      var start := StartAt(t0, dur, cursor, total);
      cursor := cursor + |p| + 1;
      out := out + [Segment(start, EndAt(t0, dur, cursor, total), p)];
    }
    assert parts[..|parts|] == parts;
  }

  method DedupeOverlap(segments: seq<Segment>) returns (out: seq<Segment>)
    ensures out == Dedupe(segments)
  {
    hide Repeats;
    if segments == [] {
      return [];
    }
    out := [segments[0]];
    assert segments[..1][..0] == [];
    for i := 1 to |segments|
      invariant out != [] && out == Dedupe(segments[..i])
    {
      assert segments[..i + 1][..i] == segments[..i];
      var prev, cur := out[|out| - 1], segments[i];
      if Repeats(prev, cur) {
        continue;
      }
      out := out + [cur];
    }
    assert segments[..|segments|] == segments;
  }

  // ---- Where the sentences are ----------------------------------------------------------------------

  lemma Ratios(a: nat, b: nat, total: nat, t0: real, d: real)
    requires total > 0 && d > 0.0
    ensures StartAt(t0, d, 0, total) == t0 && StartAt(t0, d, total, total) == t0 + d
    ensures a < b <==> StartAt(t0, d, a, total) < StartAt(t0, d, b, total)
  {
    var x, y, z := a as real / total as real, b as real / total as real, total as real / total as real;
    assert z == 1.0 && 0 as real / total as real == 0.0;
    QuotientOrder(a, b, total);
    if a < b {
      assert x * d < y * d;
    } else {
      assert y * d <= x * d;
    }
  }

  lemma QuotientOrder(a: nat, b: nat, total: nat)
    requires total > 0
    ensures a < b <==> a as real / total as real < b as real / total as real
  {
    var x, y := a as real / total as real, b as real / total as real;
    assert x * total as real == a as real && y * total as real == b as real;
  }

  /** A part ends where the next one starts, but no later than the chunk. */
  lemma EndIs(a: nat, total: nat, t0: real, d: real)
    requires total > 0 && d > 0.0
    ensures EndAt(t0, d, a, total) == MinR(t0 + d, StartAt(t0, d, a, total))
  {
    Ratios(a, total, total, t0, d);
    Ratios(total, a, total, t0, d);
    QuotientOrder(a, total, total);
    QuotientOrder(total, a, total);
  }

  /** Neat parts are placed one for one, with nothing stripped. */
  lemma {:induction false} NeatPlaces(parts: seq<string>, t0: real, d: real, total: nat, k: nat)
    requires Neat(parts) && total > 0 && k < |parts|
    ensures |Place(parts, t0, d, total)| == |parts|
    ensures Place(parts, t0, d, total)[k] ==
            Segment(StartAt(t0, d, Cursor(parts[..k]), total), EndAt(t0, d, Cursor(parts[..k + 1]), total), parts[k])
    decreases |parts|
  {
    hide Strip, Tight, StartAt, EndAt;
    var n := |parts| - 1;
    var rest := parts[..n];
    StripOfTight(parts[n]);
    assert parts[..n + 1] == parts;
    if n > 0 {
      NeatPlaces(rest, t0, d, total, if k < n then k else 0);
    }
    if k < n {
      assert rest[..k] == parts[..k] && rest[..k + 1] == parts[..k + 1];
    }
  }

  /** The cursor counts the characters and one more for each part. */
  lemma {:induction false} NeatCursor(parts: seq<string>)
    requires Neat(parts)
    ensures Cursor(parts) == Lengths(parts) + |parts| && (parts != [] ==> Lengths(parts) > 0)
  {
    hide Strip, Tight;
    if parts != [] {
      NeatCursor(parts[..|parts| - 1]);
      StripOfTight(parts[|parts| - 1]);
    }
  }

  lemma {:induction false} CursorGrows(parts: seq<string>, k: nat)
    requires k <= |parts|
    ensures Cursor(parts[..k]) <= Cursor(parts)
    decreases |parts|
  {
    hide Strip;
    if k < |parts| {
      CursorGrows(parts[..|parts| - 1], k);
      assert parts[..|parts| - 1][..k] == parts[..k];
    } else {
      assert parts[..k] == parts;
    }
  }

  /**
   The parts start with the chunk, and end with it; each ends where the next one starts, or with the chunk when
   that is earlier; and a part starts no later than it ends exactly while the cursor is within the text.
   */
  lemma PartsFollow(parts: seq<string>, t0: real, d: real, k: nat)
    requires Neat(parts) && d > 0.0 && k < |parts|
    ensures |Place(parts, t0, d, Whole(parts))| == |parts|
    ensures var out := Place(parts, t0, d, Whole(parts));
            && out[k].text == parts[k]
            && (k == 0 ==> out[k].start == t0)
            && out[k].end == (if k + 1 < |parts| then MinR(t0 + d, out[k + 1].start) else t0 + d)
            && (k + 1 < |parts| ==> out[k].start < out[k + 1].start)
            && (out[k].start <= out[k].end <==> Cursor(parts[..k]) <= Lengths(parts))
  {
    hide Strip, Tight, StartAt, EndAt, Place, Cursor;
    NeatCursor(parts);
    var total := Whole(parts);
    var before, after := Cursor(parts[..k]), Cursor(parts[..k + 1]);
    NeatPlaces(parts, t0, d, total, k);
    OnePartMore(parts, k);
    EndIs(after, total, t0, d);
    Ratios(before, after, total, t0, d);
    Ratios(total, before, total, t0, d);
    if k + 1 < |parts| {
      NeatPlaces(parts, t0, d, total, k + 1);
    } else {
      assert parts[..k + 1] == parts;
      Ratios(after, total, total, t0, d);
    }
    if k == 0 {
      NoCursor(parts);
    }
  }

  lemma OnePartMore(parts: seq<string>, k: nat)
    requires Neat(parts) && k < |parts|
    ensures Cursor(parts[..k + 1]) == Cursor(parts[..k]) + |parts[k]| + 1
  {
    hide Strip, Tight;
    StripOfTight(parts[k]);
    assert parts[..k + 1][..k] == parts[..k];
  }

  lemma NoCursor(parts: seq<string>)
    ensures Cursor(parts[..0]) == 0
  {
  }

  /**
   All the parts of a chunk start no later than they end exactly when the last one has at least as many characters
   as there are parts before it: the cursor counts a blank after each part, and the total does not.
   */
  lemma PartsInOrderIff(parts: seq<string>, t0: real, d: real)
    requires Neat(parts) && d > 0.0 && parts != []
    ensures (forall k :: 0 <= k < |parts| ==> Placed(parts, t0, d, k).start <= Placed(parts, t0, d, k).end)
            <==> |parts| - 1 <= |parts[|parts| - 1]|
  {
    hide Place, Strip, Tight;
    var n := |parts| - 1;
    forall k | 0 <= k < |parts|
      ensures Placed(parts, t0, d, k).start <= Placed(parts, t0, d, k).end <==> Cursor(parts[..k]) <= Lengths(parts)
      ensures Cursor(parts[..k]) <= Cursor(parts[..n])
    {
      PartsFollow(parts, t0, d, k);
      CursorGrows(parts[..n], k);
      assert parts[..n][..k] == parts[..k];
    }
    NeatCursor(parts[..n]);
    assert Placed(parts, t0, d, n) == Placed(parts, t0, d, n);
  }

  /** The segment a part is placed as. */
  function Placed(parts: seq<string>, t0: real, d: real, k: nat): Segment
    requires Neat(parts) && k < |parts|
  {
    NeatPlaces(parts, t0, d, Whole(parts), k);
    Place(parts, t0, d, Whole(parts))[k]
  }

  /** A chunk is cut into neat sentences that hold all its characters but the blanks. */
  lemma SentencesAreNeat(text: string)
    requires Strip(text) != ""
    ensures Neat(Split(Strip(text), SENTENCE_ENDS)) && Split(Strip(text), SENTENCE_ENDS) != []
    ensures DenseAll(Split(Strip(text), SENTENCE_ENDS)) == Dense(Strip(text))
  {
    hide Strip, Dense;
    StripEnds(text);
    assert Tight(Strip(text)) by {
      StripEnds(text);
    }
    assert NoSpaces(SENTENCE_ENDS);
    SplitIsNeat(Strip(text), SENTENCE_ENDS);
    SplitKeeps(Strip(text), SENTENCE_ENDS);
  }

  lemma LetterFirst(c: char, rest: string)
    requires !IsSpace(c) && rest != "" && !IsSpace(rest[0])
    ensures Split([c] + ". " + rest, SENTENCE_ENDS) == [[c] + "."] + Split(rest, SENTENCE_ENDS)
  {
    hide Split;
    var s := [c] + ". " + rest;
    assert s[1] == '.' && s[2] == ' ' && s[..2] == [c] + "." && s[2..] == " " + rest;
    assert CutFrom(s, SENTENCE_ENDS, 2) == 2 && CutFrom(s, SENTENCE_ENDS, 1) == 2;
    SplitAt(s, SENTENCE_ENDS, 2);
    BlankFirst(rest);
  }

  lemma BlankFirst(rest: string)
    requires rest != "" && !IsSpace(rest[0])
    ensures LStrip(" " + rest) == rest
  {
    assert (" " + rest)[1..] == rest && Blanks(rest) == 0 && Blanks(" " + rest) == 1;
  }

  lemma FourLetters()
    ensures Split("A. B. C. D", SENTENCE_ENDS) == ["A.", "B.", "C.", "D"]
  {
    hide Split;
    LetterFirst('A', "B. C. D");
    LetterFirst('B', "C. D");
    LetterFirst('C', "D");
    OneLetter("D");
    assert ['A'] + ". " + "B. C. D" == "A. B. C. D" && ['B'] + ". " + "C. D" == "B. C. D"
      && ['C'] + ". " + "D" == "C. D";
    assert ['A'] + "." == "A." && ['B'] + "." == "B." && ['C'] + "." == "C.";
  }

  lemma OneLetter(s: string)
    requires |s| == 1
    ensures Split(s, SENTENCE_ENDS) == [s]
  {
    SplitWhole(s, SENTENCE_ENDS);
  }

  /** "A. B. C. D" is cut into four sentences, and the last one, of one character, starts after it ends. */
  lemma FourLettersOverflow(t: Times)
    requires t.start < t.end
    ensures Split("A. B. C. D", SENTENCE_ENDS) == ["A.", "B.", "C.", "D"]
    ensures var d := Sentences(Raw(Some(t), "A. B. C. D")); |d| == 4 && d[3].start > d[3].end == t.end
  {
    hide Split, Strip, Place, Cursor;
    FourLetters();
    var parts := ["A.", "B.", "C.", "D"];
    StripOfTight("A. B. C. D");
    PartsFollow(parts, t.start, t.end - t.start, 3);
    assert parts[..3] == ["A.", "B.", "C."];
    NeatCursor(parts[..3]);
    FourLengths();
  }

  lemma FourLengths()
    ensures Lengths(["A.", "B.", "C."]) == 6 && Lengths(["A.", "B.", "C.", "D"]) == 7
  {
    var a, b, c, d := ["A."], ["A.", "B."], ["A.", "B.", "C."], ["A.", "B.", "C.", "D"];
    assert d[..3] == c && c[..2] == b && b[..1] == a && a[..0] == [];
    assert Lengths([]) == 0 && Lengths(a) == 2 && Lengths(b) == 4;
  }

  // ---- Long sentences -------------------------------------------------------------------------------

  lemma {:induction false} WordHasNoBlank(s: string, i: nat)
    requires i < WordEnd(s)
    ensures !IsSpace(s[i])
  {
    if i > 0 {
      WordHasNoBlank(s[1..], i - 1);
    }
  }

  lemma FirstWord(t: string)
    requires t != "" && !IsSpace(t[0])
    ensures var w := t[..WordEnd(t)]; w != "" && Tight(w)
  {
    hide IsSpace;
    WordHasNoBlank(t, WordEnd(t) - 1);
  }

  lemma {:induction false} WordsAreNeat(s: string)
    ensures Neat(SplitWords(s)) && DenseAll(SplitWords(s)) == Dense(s)
    decreases |s|
  {
    hide IsSpace, Blanks, WordEnd, Tight, Dense;
    var t := LStrip(s);
    DenseLStrip(s);
    NothingDense();
    if t != "" {
      assert !IsSpace(t[0]) && |t| <= |s| by {
        assert LStrip(s) == s[Blanks(s)..];
      }
      FirstWord(t);
      var k := WordEnd(t);
      WordsAreNeat(t[k..]);
      assert t == t[..k] + t[k..];
      DenseConcat(t[..k], t[k..]);
      assert SplitWords(s)[1..] == SplitWords(t[k..]);
    }
  }

  lemma {:induction false} JoinIsNeat(words: seq<string>)
    requires Neat(words) && words != []
    ensures JoinWords(words) != "" && Tight(JoinWords(words)) && Dense(JoinWords(words)) == DenseAll(words)
  {
    hide IsSpace, Dense;
    var j := JoinWords(words);
    if |words| == 1 {
      assert words[1..] == [] && DenseAll([]) == "" && Dense(words[0]) + "" == Dense(words[0]);
    } else {
      var rest := words[1..];
      JoinIsNeat(rest);
      assert j == words[0] + " " + JoinWords(rest);
      DenseConcat(words[0] + " ", JoinWords(rest));
      DenseConcat(words[0], " ");
      OneBlank();
      assert Dense(words[0]) + "" == Dense(words[0]);
      assert j[0] == words[0][0] && j[|j| - 1] == JoinWords(rest)[|JoinWords(rest)| - 1];
    }
  }

  lemma OneBlank()
    ensures Dense(" ") == ""
  {
    assert " "[1..] == "" && Dense("") == "";
  }

  lemma {:induction false} DenseAllConcat(a: seq<string>, b: seq<string>)
    ensures DenseAll(a + b) == DenseAll(a) + DenseAll(b)
  {
    hide Dense;
    if a == [] {
      assert a + b == b;
    } else {
      assert (a + b)[1..] == a[1..] + b;
      DenseAllConcat(a[1..], b);
    }
  }

  lemma {:induction false} GroupsAreNeat(words: seq<string>, per: nat)
    requires Neat(words) && per > 0
    ensures Neat(Groups(words, per)) && DenseAll(Groups(words, per)) == DenseAll(words)
    ensures words != [] ==> Groups(words, per) != []
    decreases |words|
  {
    hide Dense, JoinWords, Tight;
    if words == [] {
    } else if |words| <= per {
      JoinIsNeat(words);
      assert [JoinWords(words)][1..] == [] && DenseAll([]) == "";
    } else {
      var first, rest := words[..per], words[per..];
      assert words == first + rest;
      JoinIsNeat(first);
      GroupsAreNeat(rest, per);
      DenseAllConcat(first, rest);
      assert Groups(words, per)[1..] == Groups(rest, per);
    }
  }

  /** The k-th group holds the words from k * per on, as many as there are up to `per`. */
  lemma {:induction false} GroupAt(words: seq<string>, per: nat, k: nat)
    requires per > 0 && k * per < |words|
    ensures k < |Groups(words, per)|
    ensures Groups(words, per)[k] == JoinWords(words[k * per..Min(|words|, (k + 1) * per)])
    ensures |words| <= (k + 1) * per ==> |Groups(words, per)| == k + 1
    decreases k
  {
    hide JoinWords;
    if k == 0 {
      assert |words| <= per ==> words[..|words|] == words;
      assert per < |words| ==> words[0..per] == words[..per] && words[per..] != [];
      assert per < |words| ==> Groups(words, per)[0] == JoinWords(words[..per]);
    } else {
      var rest := words[per..];
      assert (k - 1) * per == k * per - per && k * per >= per;
      assert k * per == (k + 1) * per - per;
      GroupAt(rest, per, k - 1);
      assert Groups(words, per) == [JoinWords(words[..per])] + Groups(rest, per);
      assert rest[(k - 1) * per..Min(|rest|, k * per)] == words[k * per..Min(|words|, (k + 1) * per)];
    }
  }

  /** Joined with single blanks, the words are read back; the blanks are one fewer than the words. */
  lemma {:induction false} JoinedWordsReadBack(words: seq<string>)
    requires words != []
    requires forall k :: 0 <= k < |words| ==> words[k] != "" && NoSpaces(words[k])
    ensures SplitWords(JoinWords(words)) == words
    ensures |JoinWords(words)| == Lengths(words) + |words| - 1
  {
    hide IsSpace, SplitWords;
    var w, rest := words[0], words[1..];
    assert words == [w] + rest;
    LengthsCons(w, rest);
    OneSpace();
    if rest == [] {
      SplitWordsOf("", w, "");
      SplitWordsOf("", w, "");
      assert "" + w + "" == w && SplitWords("") == [];
    } else {
      JoinedWordsReadBack(rest);
      SplitWordsOf("", w, " " + JoinWords(rest));
      assert "" + w + (" " + JoinWords(rest)) == JoinWords(words);
      BlankBefore(JoinWords(rest));
    }
  }

  lemma OneSpace()
    ensures IsSpace(' ') && AllSpace(" ") && AllSpace("")
  {
  }

  lemma BlankBefore(s: string)
    ensures SplitWords(" " + s) == SplitWords(s)
  {
    hide IsSpace, WordEnd;
    OneSpace();
    assert (" " + s)[1..] == s;
    assert LStrip(" " + s) == LStrip(s) by {
      assert Blanks(" " + s) == 1 + Blanks(s);
    }
  }

  lemma {:induction false} LengthsCons(w: string, rest: seq<string>)
    ensures Lengths([w] + rest) == |w| + Lengths(rest)
    decreases |rest|
  {
    var all := [w] + rest;
    if rest == [] {
      assert all[..0] == [] && Lengths(all[..0]) == 0;
    } else {
      assert all[..|all| - 1] == [w] + rest[..|rest| - 1];
      LengthsCons(w, rest[..|rest| - 1]);
    }
  }

  /** A long sentence without soft marks is cut into at least a part for each 15 seconds of it, if it has the words. */
  lemma EnoughGroups(words: seq<string>, d: real)
    requires d >= 15.0 && (d / 15.0).Floor <= |words|
    ensures |Groups(words, GroupSize(|words|, d))| >= (d / 15.0).Floor >= 1
    ensures GroupSize(|words|, d) * (d / 15.0).Floor <= |words| < (GroupSize(|words|, d) + 1) * (d / 15.0).Floor
  {
    hide Groups, JoinWords;
    var n, target := |words|, (d / 15.0).Floor;
    assert target >= 1;
    Quotient(n, target);
    var per := n / target;
    assert GroupSize(n, d) == per;
    GroupAt(words, per, target - 1);
  }

  lemma Quotient(n: nat, target: nat)
    requires 1 <= target <= n
    ensures n / target >= 1 && (n / target) * target <= n < (n / target + 1) * target
    ensures (target - 1) * (n / target) < n
  {
    var per := n / target;
    assert (target - 1) * per == per * target - per;
  }

  lemma LongPartsAreNeat(text: string, d: real)
    requires text != "" && Tight(text)
    ensures var parts := LongParts(text, d); Neat(parts) && parts != [] && DenseAll(parts) == Dense(text)
  {
    hide Dense, Groups, Split, Neat, GroupSize;
    assert NoSpaces(SOFT_ENDS);
    SplitIsNeat(text, SOFT_ENDS);
    SplitKeeps(text, SOFT_ENDS);
    WordsAreNeat(text);
    var words := SplitWords(text);
    assert words != [] by {
      assert LStrip(text) == text;
    }
    GroupsAreNeat(words, GroupSize(|words|, d));
  }

  function TextsOf(segments: seq<Segment>): seq<string>
  {
    if segments == [] then [] else TextsOf(segments[..|segments| - 1]) + [segments[|segments| - 1].text]
  }

  lemma {:induction false} TextsOfConcat(a: seq<Segment>, b: seq<Segment>)
    ensures TextsOf(a + b) == TextsOf(a) + TextsOf(b)
    decreases |b|
  {
    if b == [] {
      assert a + b == a;
    } else {
      assert (a + b)[..|a + b| - 1] == a + b[..|b| - 1];
      TextsOfConcat(a, b[..|b| - 1]);
    }
  }

  lemma {:induction false} PlaceTexts(parts: seq<string>, t0: real, d: real, total: nat)
    requires Neat(parts) && total > 0
    ensures TextsOf(Place(parts, t0, d, total)) == parts
  {
    hide Strip, StartAt, EndAt, Cursor, Tight;
    if parts != [] {
      var rest := parts[..|parts| - 1];
      StripOfTight(parts[|parts| - 1]);
      PlaceTexts(rest, t0, d, total);
      var out := Place(parts, t0, d, total);
      assert out[..|out| - 1] == Place(rest, t0, d, total);
      assert parts == rest + [parts[|parts| - 1]];
    }
  }

  /** A long sentence is cut into segments that start and end with it and hold its characters. */
  lemma LongPhraseIsCovered(s: Segment)
    requires s.text != "" && Tight(s.text) && s.start < s.end
    ensures var out := SplitLong(s);
            && out != [] && out[0].start == s.start && out[|out| - 1].end == s.end
            && DenseAll(TextsOf(out)) == Dense(s.text)
  {
    hide Dense, LongParts, Place, Neat, Tight;
    var d := s.end - s.start;
    LongPartsAreNeat(s.text, d);
    var parts := LongParts(s.text, d);
    PartsFollow(parts, s.start, d, 0);
    PartsFollow(parts, s.start, d, |parts| - 1);
    PlaceTexts(parts, s.start, d, Whole(parts));
  }

  /** The characters a part is timed by: its own and the blank after it, as far as the counted text goes. */
  function Timed(parts: seq<string>, k: nat): int
    requires k < |parts|
  {
    Min(Lengths(parts), Cursor(parts[..k]) + |parts[k]| + 1) - Cursor(parts[..k])
  }

  lemma Scaled(x: real, n: real, d: real, limit: real)
    requires n > 0.0
    ensures (x / n) * d <= limit <==> x * d <= limit * n
  {
    var q := x / n;
    assert q * n == x;
    assert (q * d) * n == x * d;
    if q * d <= limit {
      assert (q * d) * n <= limit * n;
    } else {
      assert (q * d) * n > limit * n;
    }
  }

  lemma TimedDuration(t0: real, d: real, before: nat, after: nat, total: nat)
    requires total > 0
    ensures EndAt(t0, d, after, total) - StartAt(t0, d, before, total)
            == ((Min(total, after) - before) as real / total as real) * d
  {
    QuotientOrder(after, total, total);
    QuotientOrder(total, after, total);
    Difference(before as real, Min(total, after) as real, total as real, d);
    assert MinR(1.0, after as real / total as real) == Min(total, after) as real / total as real;
  }

  lemma Difference(x: real, y: real, n: real, d: real)
    requires n > 0.0
    ensures (y / n) * d - (x / n) * d == ((y - x) / n) * d
  {
    var p, q := x / n, y / n;
    assert q - p == (y - x) / n by {
      Quotients(x, y - x, n);
    }
    assert q * d - p * d == (q - p) * d;
  }

  /**
   A part of a long sentence lasts at most the 20 seconds that cutting aims at exactly if its share of the characters
   is at most their share of the sentence; nothing is cut a third time.
   */
  lemma PartIsShortIff(s: Segment, k: nat)
    requires s.text != "" && Tight(s.text) && s.start < s.end && k < |LongParts(s.text, s.end - s.start)|
    ensures
      var d, parts := s.end - s.start, LongParts(s.text, s.end - s.start);
      && |SplitLong(s)| == |parts| && SplitLong(s)[k].text == parts[k]
      && Cursor(parts[..k]) == Lengths(parts[..k]) + k
      && (SplitLong(s)[k].end - SplitLong(s)[k].start <= LONG_PHRASE
          <==> Timed(parts, k) as real * d <= LONG_PHRASE * Lengths(parts) as real)
  {
    hide Tight, LongParts, Place, Lengths, Cursor, Neat, Timed, LONG_PHRASE;
    var d, parts := s.end - s.start, LongParts(s.text, s.end - s.start);
    LongPartsAreNeat(s.text, d);
    NeatCursor(parts);
    NeatStart(parts, k);
    PlacedDuration(parts, s.start, d, k);
    Scaled(Timed(parts, k) as real, Lengths(parts) as real, d, LONG_PHRASE);
  }

  lemma NeatStart(parts: seq<string>, k: nat)
    requires Neat(parts) && k <= |parts|
    ensures Cursor(parts[..k]) == Lengths(parts[..k]) + k
  {
    hide Tight;
    NeatCursor(parts[..k]);
  }

  lemma PlacedDuration(parts: seq<string>, t0: real, d: real, k: nat)
    requires Neat(parts) && k < |parts|
    ensures
      var out := Place(parts, t0, d, Whole(parts));
      && Lengths(parts) > 0 && |out| == |parts| && out[k].text == parts[k]
      && out[k].end - out[k].start == (Timed(parts, k) as real / Lengths(parts) as real) * d
  {
    hide Tight, Place, StartAt, EndAt, Lengths, Cursor, Strip;
    NeatCursor(parts);
    NeatPlaces(parts, t0, d, Whole(parts), k);
    OnePartMore(parts, k);
    TimedDuration(t0, d, Cursor(parts[..k]), Cursor(parts[..k + 1]), Lengths(parts));
  }

  /** "a b, c" over 30 seconds: its first part takes them all, and because of the comma it is not cut at its blank. */
  lemma PartCanStayLong(start: real)
    ensures
      var out := SplitLong(Segment(start, start + 30.0, "a b, c"));
      && |out| == 2 && out[0].text == "a b," && out[0].end - out[0].start > LONG_PHRASE
  {
    var s := Segment(start, start + 30.0, "a b, c");
    var parts := ["a b,", "c"];
    CommaSplits();
    assert LongParts(s.text, 30.0) == parts;
    assert parts[..0] == [] && parts[..1] == ["a b,"];
    assert Lengths(parts[..0]) == 0 && Lengths(parts[..1]) == 4 && Lengths(parts) == 5;
    PartIsShortIff(s, 0);
  }

  lemma CommaSplits()
    ensures Split("a b, c", SOFT_ENDS) == ["a b,", "c"]
  {
    var s := "a b, c";
    assert CutFrom(s, SOFT_ENDS, 4) == 4 && CutFrom(s, SOFT_ENDS, 3) == 4 && CutFrom(s, SOFT_ENDS, 2) == 4;
    assert CutFrom(s, SOFT_ENDS, 1) == 4;
    assert s[..4] == "a b," && s[4..] == " c" && " c"[1..] == "c";
    assert Blanks("c") == 0 && Blanks(" c") == 1 && LStrip(" c") == "c";
    assert CutFrom("c", SOFT_ENDS, 1) == 1 && Split("c", SOFT_ENDS) == ["c"];
  }

  /** Sentences of more than 20 seconds are cut again, one by one, and no others. */
  lemma {:induction false} OnlyLongAreCut(a: seq<Segment>, s: Segment, b: seq<Segment>)
    ensures Expand([s]) == if s.end - s.start > 20.0 then SplitLong(s) else [s]
    ensures Expand(a + b) == Expand(a) + Expand(b)
    decreases |b|
  {
    hide SplitLong;
    assert [s][..0] == [] && Expand([]) == [];
    if b == [] {
      assert a + b == a;
    } else {
      assert (a + b)[..|a + b| - 1] == a + b[..|b| - 1];
      OnlyLongAreCut(a, s, b[..|b| - 1]);
    }
  }

  predicate LongAreNeat(placed: seq<Segment>)
  {
    forall k :: 0 <= k < |placed| ==> placed[k].text != "" && Tight(placed[k].text)
  }

  lemma {:induction false} ExpandKeeps(placed: seq<Segment>)
    requires LongAreNeat(placed)
    ensures DenseAll(TextsOf(Expand(placed))) == DenseAll(TextsOf(placed))
  {
    hide Dense, SplitLong, Tight, DenseAll;
    if placed != [] {
      var rest, s := placed[..|placed| - 1], placed[|placed| - 1];
      ExpandKeeps(rest);
      var cut := if s.end - s.start > LONG_PHRASE then SplitLong(s) else [s];
      TextsOfConcat(Expand(rest), cut);
      OneText(s);
      if s.end - s.start > LONG_PHRASE {
        LongPhraseIsCovered(s);
      }
      DenseAllConcat(TextsOf(Expand(rest)), TextsOf(cut));
      DenseAllConcat(TextsOf(rest), [s.text]);
    }
  }

  lemma OneText(s: Segment)
    ensures TextsOf([s]) == [s.text] && DenseAll([s.text]) == Dense(s.text)
  {
    hide Dense;
    assert [s][..0] == [] && TextsOf([]) == [] && [s.text][1..] == [] && DenseAll([]) == "";
    assert Dense(s.text) + "" == Dense(s.text);
  }

  /** Cutting and placing a chunk loses none of its characters but blanks, and keeps their order. */
  lemma ChunkTextIsKept(r: Raw)
    requires r.times.Some? && r.times.value.start < r.times.value.end
    ensures DenseAll(TextsOf(Expand(Sentences(r)))) == Dense(Strip(r.text))
  {
    hide Dense, Strip, Place, Split, Whole, Expand, TextsOf, DenseAll, Tight;
    NoTextsOf();
    NothingDense();
    var text, t := Strip(r.text), r.times.value;
    if text != "" {
      SentencesAreNeat(r.text);
      var parts, d := Split(text, SENTENCE_ENDS), t.end - t.start;
      var placed := Place(parts, t.start, d, Whole(parts));
      PlaceTexts(parts, t.start, d, Whole(parts));
      forall k | 0 <= k < |placed|
        ensures placed[k].text != "" && Tight(placed[k].text)
      {
        NeatPlaces(parts, t.start, d, Whole(parts), if k < |parts| then k else 0);
      }
      ExpandKeeps(placed);
    }
  }

  lemma NoTextsOf()
    ensures DenseAll(TextsOf(Expand([]))) == ""
  {
    assert Expand([]) == [] && TextsOf([]) == [];
  }

  // ---- Repeats --------------------------------------------------------------------------------------

  predicate NoRepeats(segments: seq<Segment>)
  {
    forall k :: 0 < k < |segments| ==> !Repeats(segments[k - 1], segments[k])
  }

  lemma {:induction false} DedupeLeavesNoRepeats(segments: seq<Segment>)
    ensures NoRepeats(Dedupe(segments))
  {
    hide Repeats;
    if segments != [] {
      DedupeLeavesNoRepeats(segments[..|segments| - 1]);
    }
  }

  lemma {:induction false} NoRepeatsIsFixed(segments: seq<Segment>)
    requires NoRepeats(segments)
    ensures Dedupe(segments) == segments
  {
    hide Repeats;
    if segments != [] {
      var rest := segments[..|segments| - 1];
      NoRepeatsIsFixed(rest);
      assert segments == rest + [segments[|segments| - 1]];
    }
  }

  /** Deduplicating twice changes nothing. */
  lemma DedupeIsFixed(segments: seq<Segment>)
    ensures Dedupe(Dedupe(segments)) == Dedupe(segments)
  {
    hide Repeats, Dedupe, NoRepeats;
    DedupeLeavesNoRepeats(segments);
    NoRepeatsIsFixed(Dedupe(segments));
  }

  lemma RepeatsItself(s: Segment)
    ensures Repeats(s, s)
  {
  }

  /** A repeat has the same text, blanks at the edges aside, and starts less than 20 seconds away, before or after. */
  lemma RepeatIs(prev: Segment, cur: Segment)
    ensures Repeats(prev, cur) <==> Strip(prev.text) == Strip(cur.text) && -20.0 < cur.start - prev.start < 20.0
  {
  }

  /** What is removed repeats something kept less than 20 seconds away. */
  lemma {:induction false} DedupeKeepsTexts(segments: seq<Segment>, i: nat)
    requires i < |segments|
    ensures exists k :: 0 <= k < |Dedupe(segments)| && Repeats(Dedupe(segments)[k], segments[i])
    decreases |segments|
  {
    hide Repeats;
    var rest, cur, out := segments[..|segments| - 1], segments[|segments| - 1], Dedupe(segments);
    if i < |rest| {
      DedupeKeepsTexts(rest, i);
      var k :| 0 <= k < |Dedupe(rest)| && Repeats(Dedupe(rest)[k], rest[i]);
      assert out[k] == Dedupe(rest)[k];
    } else {
      RepeatsItself(cur);
      assert Repeats(out[|out| - 1], cur);
    }
  }

  // ---- The documented rule --------------------------------------------------------------------------

  /** The indices of the segments that Dedupe keeps. */
  function KeptIndices(segments: seq<Segment>): (r: seq<nat>)
    ensures r == [] <==> segments == []
    ensures r != [] ==> r[|r| - 1] < |segments|
  {
    if segments == [] then []
    else
      var n := |segments| - 1;
      var rest := KeptIndices(segments[..n]);
      if rest != [] && Repeats(segments[rest[|rest| - 1]], segments[n]) then rest else rest + [n]
  }

  /** `out` holds the segments at these indices. */
  predicate Selects(out: seq<Segment>, segments: seq<Segment>, indices: seq<nat>)
  {
    && |out| == |indices|
    && forall k :: 0 <= k < |indices| ==> indices[k] < |segments| && out[k] == segments[indices[k]]
  }

  lemma SelectsGrows(out: seq<Segment>, segments: seq<Segment>, indices: seq<nat>)
    requires segments != [] && Selects(out, segments[..|segments| - 1], indices)
    ensures Selects(out, segments, indices)
    ensures Selects(out + [segments[|segments| - 1]], segments, indices + [|segments| - 1])
    ensures |out| == |indices|
    ensures out != [] ==> out[|out| - 1] == segments[indices[|indices| - 1]]
  {
  }

  /** What Dedupe keeps stands at these indices. */
  lemma {:induction false} DedupeSelects(segments: seq<Segment>)
    ensures Selects(Dedupe(segments), segments, KeptIndices(segments))
  {
    hide Repeats, Selects;
    if segments == [] {
      assert Selects([], [], []) by {
        NothingSelected();
      }
    } else {
      var rest := segments[..|segments| - 1];
      DedupeSelects(rest);
      SelectsGrows(Dedupe(rest), segments, KeptIndices(rest));
    }
  }

  lemma NothingSelected()
    ensures Selects([], [], [])
  {
  }

  /** The indices the documentation keeps: segment N goes if it repeats segment N - 1. */
  function DocumentedIndices(segments: seq<Segment>): seq<nat>
  {
    if segments == [] then []
    else
      var n := |segments| - 1;
      DocumentedIndices(segments[..n]) + if n > 0 && Repeats(segments[n - 1], segments[n]) then [] else [n]
  }

  /** Where the last run of adjacent repeats begins. */
  function RunStart(segments: seq<Segment>): (i: nat)
    requires segments != []
    ensures i < |segments|
  {
    var n := |segments| - 1;
    if n > 0 && Repeats(segments[n - 1], segments[n]) then RunStart(segments[..n]) else n
  }

  lemma {:induction false} DocumentedEndsAtRunStart(segments: seq<Segment>)
    requires segments != []
    ensures var d := DocumentedIndices(segments); d != [] && d[|d| - 1] == RunStart(segments)
  {
    hide Repeats;
    var n := |segments| - 1;
    if n > 0 {
      DocumentedEndsAtRunStart(segments[..n]);
    }
  }

  /** A segment repeats the one before it exactly if it repeats the first of that one's run. */
  predicate RunsAgreeAt(segments: seq<Segment>, i: nat)
    requires 0 < i < |segments|
  {
    Repeats(segments[i - 1], segments[i]) <==> Repeats(segments[RunStart(segments[..i])], segments[i])
  }

  predicate RunsAgree(segments: seq<Segment>)
  {
    forall i :: 0 < i < |segments| ==> RunsAgreeAt(segments, i)
  }

  lemma RunsAgreeSnoc(segments: seq<Segment>)
    requires |segments| > 1
    ensures var n := |segments| - 1; RunsAgree(segments) <==> RunsAgree(segments[..n]) && RunsAgreeAt(segments, n)
  {
    hide Repeats;
    var n := |segments| - 1;
    forall i | 0 < i < n
      ensures RunsAgreeAt(segments, i) <==> RunsAgreeAt(segments[..n], i)
    {
      assert segments[..n][..i] == segments[..i];
    }
    if RunsAgree(segments[..n]) && RunsAgreeAt(segments, n) {
      forall i | 0 < i < |segments|
        ensures RunsAgreeAt(segments, i)
      {
        assert i < n ==> RunsAgreeAt(segments[..n], i);
      }
    }
  }

  /** The code keeps the segments the documentation keeps exactly if every segment agrees with its run. */
  lemma {:induction false} KeptAsDocumentedIff(segments: seq<Segment>)
    ensures KeptIndices(segments) == DocumentedIndices(segments) <==> RunsAgree(segments)
  {
    hide Repeats, RunsAgree;
    var n := |segments| - 1;
    if n <= 0 {
      AloneAgrees(segments);
    } else {
      var rest := segments[..n];
      KeptAsDocumentedIff(rest);
      RunsAgreeSnoc(segments);
      DocumentedEndsAtRunStart(rest);
      var k, d := KeptIndices(rest), DocumentedIndices(rest);
      if k != d {
        assert n !in k && n !in d by {
          IndicesAreBelow(rest);
        }
        SnocsDiffer(k, d, n);
      }
    }
  }

  lemma AloneAgrees(segments: seq<Segment>)
    requires |segments| <= 1
    ensures RunsAgree(segments) && KeptIndices(segments) == DocumentedIndices(segments)
  {
    if segments != [] {
      assert KeptIndices(segments[..0]) == [] && DocumentedIndices(segments[..0]) == [];
    }
  }

  lemma SnocsDiffer(k: seq<nat>, d: seq<nat>, n: nat)
    requires k != d && n !in k && n !in d
    ensures k != d + [n] && k + [n] != d && k + [n] != d + [n]
  {
    assert n in d + [n] && n in k + [n];
    assert (k + [n])[..|k|] == k && (d + [n])[..|d|] == d;
  }

  lemma {:induction false} IndicesAreBelow(segments: seq<Segment>)
    ensures |segments| !in KeptIndices(segments) && |segments| !in DocumentedIndices(segments)
    ensures forall i :: i in KeptIndices(segments) || i in DocumentedIndices(segments) ==> i < |segments|
  {
    hide Repeats;
    if segments != [] {
      IndicesAreBelow(segments[..|segments| - 1]);
    }
  }

  lemma PrefixAgrees(segments: seq<Segment>, m: nat)
    requires RunsAgree(segments) && m <= |segments|
    ensures RunsAgree(segments[..m])
  {
    hide Repeats;
    forall i | 0 < i < m
      ensures RunsAgreeAt(segments[..m], i)
    {
      assert RunsAgreeAt(segments, i);
      assert segments[..m][..i] == segments[..i];
    }
  }

  /** ... and then at every prefix, so the rules agree on the whole exactly if they agree at every step of the way. */
  lemma KeptAsDocumentedThroughoutIff(segments: seq<Segment>)
    ensures (forall m :: 0 <= m <= |segments| ==> KeptIndices(segments[..m]) == DocumentedIndices(segments[..m]))
            <==> RunsAgree(segments)
  {
    hide Repeats, KeptIndices, DocumentedIndices, RunsAgree;
    assert segments[..|segments|] == segments;
    KeptAsDocumentedIff(segments);
    if RunsAgree(segments) {
      forall m | 0 <= m <= |segments|
        ensures KeptIndices(segments[..m]) == DocumentedIndices(segments[..m])
      {
        PrefixAgrees(segments, m);
        KeptAsDocumentedIff(segments[..m]);
      }
    }
  }

  /** Three equal sentences at 0, 15 and 30 seconds: the third stays, and the documentation drops it. */
  lemma ThirdRepeatStays(text: string)
    ensures var segments := [Segment(0.0, 10.0, text), Segment(15.0, 25.0, text), Segment(30.0, 40.0, text)];
            KeptIndices(segments) == [0, 2] && DocumentedIndices(segments) == [0]
  {
    hide KeptIndices, DocumentedIndices, Repeats;
    ThreeRepeats(0.0, 15.0, 30.0, text);
  }

  /** Out of order, at 10, 0 and 25 seconds: the third goes, and the documentation keeps it. */
  lemma ThirdRepeatGoes(text: string)
    ensures var segments := [Segment(10.0, 20.0, text), Segment(0.0, 10.0, text), Segment(25.0, 35.0, text)];
            KeptIndices(segments) == [0] && DocumentedIndices(segments) == [0, 2]
  {
    hide KeptIndices, DocumentedIndices, Repeats;
    ThreeRepeats(10.0, 0.0, 25.0, text);
  }

  /** Both rules on three sentences of one text, the second less than 20 seconds from the first. */
  lemma ThreeRepeats(x: real, y: real, z: real, text: string)
    requires Abs(y - x) < 20.0
    ensures var segments := [Segment(x, x + 10.0, text), Segment(y, y + 10.0, text), Segment(z, z + 10.0, text)];
            && KeptIndices(segments) == (if Abs(z - x) < 20.0 then [0] else [0, 2])
            && DocumentedIndices(segments) == if Abs(z - y) < 20.0 then [0] else [0, 2]
  {
    hide Strip;
    var a, b, c := Segment(x, x + 10.0, text), Segment(y, y + 10.0, text), Segment(z, z + 10.0, text);
    assert [a, b, c][..2] == [a, b] && [a, b][..1] == [a] && [a][..0] == [];
    assert KeptIndices([]) == [] && KeptIndices([a]) == [0] && KeptIndices([a, b]) == [0];
    assert DocumentedIndices([]) == [] && DocumentedIndices([a]) == [0] && DocumentedIndices([a, b]) == [0];
  }
}
