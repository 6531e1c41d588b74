/**
 Search snippets (`meeting_search.py`): the marked text that comes back from the database is parsed into
 plain text and spans, and an excerpt around the first span is cut out, with the offsets of its
 highlights counted in UTF-16 units for the browser.
 */
module MeetingSearch {
  import opened Numbers
  import opened Text

  const HL_START: char := 2 as char
  const HL_END: char := 3 as char
  const ELLIPSIS: char := '\U{2026}'
  const SNIPPET_LEAD_CHARS := 80

  datatype Span = Span(from: nat, to: nat)

  // ---- Marks --------------------------------------------------------------------------------------

  predicate Unmarked(s: string)
  {
    forall i :: 0 <= i < |s| ==> s[i] != HL_START && s[i] != HL_END
  }

  /** The control characters clean_text replaces. */
  predicate IsControl(c: char)
  {
    var u := c as int;
    u <= 8 || u == 11 || u == 12 || 14 <= u <= 31 || u == 127
  }

  function Uncontrolled(s: string): string
  {
    if s == "" then "" else [if IsControl(s[0]) then ' ' else s[0]] + Uncontrolled(s[1..])
  }

  /** Each run of blanks as one blank. */
  function Collapse(s: string): string
    decreases |s|
  {
    if s == "" then ""
    else if IsSpace(s[0]) then " " + Collapse(LStrip(s))
    else [s[0]] + Collapse(s[1..])
  }

  function CleanText(value: string): string
  {
    Strip(Collapse(Uncontrolled(value)))
  }

  predicate TidyAt(s: string, i: nat)
    requires i < |s|
  {
    !IsControl(s[i]) && (IsSpace(s[i]) ==> s[i] == ' ' && (i + 1 < |s| ==> !IsSpace(s[i + 1])))
  }

  /** No control character, and no blank but single spaces. */
  predicate Tidy(s: string)
  {
    forall i :: 0 <= i < |s| ==> TidyAt(s, i)
  }

  lemma {:induction false} UncontrolledHasNone(s: string, i: nat)
    requires i < |Uncontrolled(s)|
    ensures !IsControl(Uncontrolled(s)[i])
  {
    if i > 0 {
      UncontrolledHasNone(s[1..], i - 1);
    }
  }

  lemma TidyCons(c: char, t: string)
    requires Tidy(t) && !IsControl(c) && (IsSpace(c) ==> c == ' ' && (t != "" ==> !IsSpace(t[0])))
    ensures Tidy([c] + t)
  {
    hide IsControl, IsSpace;
    forall i | 0 <= i < |[c] + t|
      ensures TidyAt([c] + t, i)
    {
      if i > 0 {
        assert TidyAt(t, i - 1);
      }
    }
  }

  lemma TidySlice(s: string, k: nat, n: nat)
    requires Tidy(s) && k <= n <= |s|
    ensures Tidy(s[k..n])
  {
    hide IsControl, IsSpace;
    forall i | 0 <= i < n - k
      ensures TidyAt(s[k..n], i)
    {
      assert TidyAt(s, k + i);
    }
  }

  lemma {:induction false} CollapseIsTidy(s: string)
    requires forall i :: 0 <= i < |s| ==> !IsControl(s[i])
    ensures Tidy(Collapse(s))
    ensures s != "" && !IsSpace(s[0]) ==> Collapse(s) != "" && Collapse(s)[0] == s[0]
    decreases |s|
  {
    hide IsControl, IsSpace, Tidy;
    BlankIsNoControl();
    if s != "" {
      if IsSpace(s[0]) {
        var rest := LStrip(s);
        assert |rest| < |s| && rest == s[Blanks(s)..];
        CollapseIsTidy(rest);
        assert Collapse("") == "";
        TidyCons(' ', Collapse(rest));
      } else {
        CollapseIsTidy(s[1..]);
        TidyCons(s[0], Collapse(s[1..]));
      }
    }
  }

  lemma BlankIsNoControl()
    ensures !IsControl(' ') && Tidy("")
  {
  }

  predicate Blank(c: char)
  {
    IsSpace(c) || IsControl(c)
  }

  /** Everything up to the space, delete, the next line mark and the other blanks of Unicode. */
  lemma BlankIs(c: char)
    ensures Blank(c) <==>
              || c <= ' ' || c == '\U{7F}' || c == '\U{85}' || c == '\U{A0}' || c == '\U{1680}'
              || '\U{2000}' <= c <= '\U{200A}' || c == '\U{2028}' || c == '\U{2029}' || c == '\U{202F}'
              || c == '\U{205F}' || c == '\U{3000}'
  {
  }

  lemma {:induction false} UncontrolledConcat(a: string, b: string)
    ensures Uncontrolled(a + b) == Uncontrolled(a) + Uncontrolled(b)
    decreases |a|
  {
    hide IsControl;
    if a == "" {
      assert a + b == b;
    } else {
      assert (a + b)[1..] == a[1..] + b;
      UncontrolledConcat(a[1..], b);
    }
  }

  /** Blanks become spaces, and other characters stay. */
  lemma {:induction false} UncontrolledIs(s: string)
    ensures |Uncontrolled(s)| == |s|
    ensures forall i :: 0 <= i < |s| ==> Uncontrolled(s)[i] == if IsControl(s[i]) then ' ' else s[i]
  {
    hide IsControl;
    if s != "" {
      UncontrolledIs(s[1..]);
    }
  }

  lemma CollapseGap(gap: string, rest: string)
    requires AllSpace(gap) && (rest == "" || !IsSpace(rest[0]))
    ensures Collapse(gap + rest) == (if gap == "" then "" else " ") + Collapse(rest)
  {
    hide IsSpace;
    LStripAfter(gap, rest);
    if gap == "" {
      assert gap + rest == rest;
    } else {
      assert (gap + rest)[0] == gap[0];
    }
  }

  lemma {:induction false} CollapseWord(word: string, tail: string)
    requires forall i :: 0 <= i < |word| ==> !IsSpace(word[i])
    ensures Collapse(word + tail) == word + Collapse(tail)
    decreases |word|
  {
    hide IsSpace;
    if word == "" {
      assert word + tail == tail;
    } else {
      assert (word + tail)[1..] == word[1..] + tail && (word + tail)[0] == word[0];
      CollapseWord(word[1..], tail);
      assert word == [word[0]] + word[1..];
    }
  }

  /** A text that starts with a blank, if it is not empty, collapsed: a space and its first word on, if it has one. */
  lemma CollapsedTail(tail: string)
    requires tail == "" || IsSpace(tail[0])
    ensures RStrip(Collapse(tail)) == if Strip(Collapse(tail)) == "" then "" else " " + Strip(Collapse(tail))
  {
    hide IsSpace;
    var rest := LStrip(tail);
    var r := Collapse(rest);
    if tail == "" {
      assert LStrip("") == "" && RStrip("") == "";
    } else {
      SpaceFirst();
      CollapseStarts(rest);
      assert Collapse(tail) == " " + r;
      LStripAfter(" ", r);
      if r == "" {
        assert " " + r == " " && " "[..0] == "" && RStrip(" ") == "" && RStrip("") == "";
      } else {
        assert r == [r[0]] + r[1..] && " " + r == (" " + [r[0]]) + r[1..];
        RStripAfter(" " + [r[0]], r[1..]);
        RStripAfter([r[0]], r[1..]);
        assert (" " + [r[0]]) + RStrip(r[1..]) == " " + ([r[0]] + RStrip(r[1..]));
      }
    }
  }

  lemma SpaceFirst()
    ensures IsSpace(' ') && AllSpace(" ")
  {
  }

  lemma CollapseStarts(s: string)
    requires s == "" || !IsSpace(s[0])
    ensures if s == "" then Collapse(s) == "" else Collapse(s) != "" && !IsSpace(Collapse(s)[0])
  {
  }

  /**
   A cleaned text is its words with one space between them: blanks alone give nothing, and a word is followed by what
   the rest of the text gives.
   */
  lemma CleanTextOfWord(gap: string, word: string, tail: string)
    requires forall i :: 0 <= i < |gap| ==> Blank(gap[i])
    requires word != "" && forall i :: 0 <= i < |word| ==> !Blank(word[i])
    requires tail == "" || Blank(tail[0])
    ensures CleanText(gap + word + tail) == word + if CleanText(tail) == "" then "" else " " + CleanText(tail)
    ensures CleanText(gap) == ""
  {
    hide IsSpace, IsControl, Collapse, Uncontrolled, LStrip, RStrip;
    var g, t := Uncontrolled(gap), Uncontrolled(tail);
    SpaceFirst();
    UncontrolledIs(gap);
    UncontrolledIs(word);
    UncontrolledIs(tail);
    assert Uncontrolled(word) == word;
    UncontrolledConcat(gap + word, tail);
    UncontrolledConcat(gap, word);
    CollapseGap(g, word + t);
    assert g + (word + t) == g + word + t;
    CollapseWord(word, t);
    var lead := if g == "" then "" else " ";
    LStripAfter(lead, word + Collapse(t));
    RStripAfter(word, Collapse(t));
    CollapsedTail(t);
    CollapseGap(g, "");
    assert g + "" == g;
    NothingCollapsed(lead);
  }

  lemma NothingCollapsed(lead: string)
    requires lead == "" || lead == " "
    ensures Strip(lead + Collapse("")) == ""
  {
    hide IsSpace;
    SpaceFirst();
    LStripAfter(lead, "");
    assert RStrip("") == "";
  }

  /** The texts sent to the database are tidy and hold no mark, so marks in its answer come from it. */
  lemma CleanTextIsUnmarked(value: string)
    ensures Unmarked(CleanText(value)) && Tidy(CleanText(value)) && Tight(CleanText(value))
  {
    hide Strip, Uncontrolled, Collapse, IsSpace;
    var s := Uncontrolled(value);
    forall i | 0 <= i < |s|
      ensures !IsControl(s[i])
    {
      UncontrolledHasNone(value, i);
    }
    CollapseIsTidy(s);
    var c := Collapse(s);
    StripIsSlice(c);
    StripEnds(c);
    TidySlice(c, Blanks(c), Blanks(c) + |Strip(c)|);
    var r := CleanText(value);
    assert r == Strip(c) && Tidy(r);
    forall i | 0 <= i < |r|
      ensures r[i] != HL_START && r[i] != HL_END
    {
      assert TidyAt(r, i);
      assert IsControl(HL_START) && IsControl(HL_END);
    }
  }

  /** Ordered, disjoint, non-empty spans of the text from `pos` on. */
  predicate SpansOk(plain: string, spans: seq<Span>, pos: nat)
  {
    spans == [] || (pos <= spans[0].from < spans[0].to <= |plain| && SpansOk(plain, spans[1..], spans[0].to))
  }

  lemma {:induction false} SpanBounds(plain: string, spans: seq<Span>, pos: nat, i: nat)
    requires SpansOk(plain, spans, pos) && i < |spans|
    ensures pos <= spans[i].from < spans[i].to <= |plain|
    ensures forall j :: i < j < |spans| ==> spans[i].to <= spans[j].from
    decreases |spans|
  {
    if i > 0 {
      SpanBounds(plain, spans[1..], spans[0].to, i - 1);
      assert forall j :: i < j < |spans| ==> spans[1..][j - 1] == spans[j];
    } else {
      forall j | 0 < j < |spans|
        ensures spans[0].to <= spans[j].from
      {
        SpanBounds(plain, spans[1..], spans[0].to, j - 1);
      }
    }
  }

  lemma SpansForward(plain: string, spans: seq<Span>, pos: nat)
    requires SpansOk(plain, spans, pos)
    ensures forall i :: 0 <= i < |spans| ==> spans[i].from <= spans[i].to
  {
    forall i | 0 <= i < |spans|
      ensures spans[i].from <= spans[i].to
    {
      SpanBounds(plain, spans, pos, i);
    }
  }

  /** Appending a later span, or characters to the text. */
  lemma {:induction false} SpansGrow(plain: string, more: string, spans: seq<Span>, pos: nat, s: Span)
    requires SpansOk(plain, spans, pos)
    ensures SpansOk(plain + more, spans, pos)
    ensures (if spans == [] then pos else spans[|spans| - 1].to) <= s.from < s.to <= |plain + more|
            ==> SpansOk(plain + more, spans + [s], pos)
  {
    if spans != [] {
      SpansGrow(plain, more, spans[1..], spans[0].to, s);
      assert (spans + [s])[1..] == spans[1..] + [s];
    } else {
      assert (spans + [s])[1..] == [];
    }
  }

  /** The text with its spans marked, as ts_headline returns it, from `pos` on. */
  function Mark(plain: string, spans: seq<Span>, pos: nat): string
    requires SpansOk(plain, spans, pos) && pos <= |plain|
    decreases |spans|
  {
    if spans == [] then plain[pos..]
    else
      var s := spans[0];
      plain[pos..s.from] + ([HL_START] + (plain[s.from..s.to] + [HL_END])) + Mark(plain, spans[1..], s.to)
  }

  /** The variables of parse_marked's loop. */
  datatype Scan = Scan(plain: string, spans: seq<Span>, start: int) // start is -1 for None

  function Feed(st: Scan, c: char): Scan
  {
    if c == HL_START then st.(start := |st.plain|)
    else if c == HL_END then
      Scan(st.plain, if 0 <= st.start < |st.plain| then st.spans + [Span(st.start, |st.plain|)] else st.spans, -1)
    else st.(plain := st.plain + [c])
  }

  function FeedAll(st: Scan, s: string): Scan
  {
    if s == "" then st else Feed(FeedAll(st, s[..|s| - 1]), s[|s| - 1])
  }

  method ParseMarked(marked: string) returns (plain: string, spans: seq<Span>)
    ensures var st := FeedAll(Scan("", [], -1), marked); plain == st.plain && spans == st.spans
    ensures Unmarked(plain) && SpansOk(plain, spans, 0)
  {
    plain, spans := "", [];
    var pos := 0;
    var start := -1;
    for i := 0 to |marked|
      invariant pos == |plain| && -1 <= start <= pos
      invariant FeedAll(Scan("", [], -1), marked[..i]) == Scan(plain, spans, start)
      invariant Unmarked(plain) && SpansOk(plain, spans, 0)
      invariant spans != [] ==> spans[|spans| - 1].to <= if start >= 0 then start else pos
    {
      assert marked[..i + 1][..i] == marked[..i];
      var ch := marked[i];
      SpansGrow(plain, "", spans, 0, Span(if start >= 0 then start else 0, pos));
      assert plain + "" == plain;
      SpansGrow(plain, [ch], spans, 0, Span(0, 0));
      if ch == HL_START {
        start := pos;
      } else if ch == HL_END {
        if start != -1 && pos > start {
          spans := spans + [Span(start, pos)];
        }
        start := -1;
      } else {
        plain := plain + [ch];
        pos := pos + 1;
      }
    }
    assert marked[..|marked|] == marked;
  }

  lemma {:induction false} FeedConcat(st: Scan, a: string, b: string)
    ensures FeedAll(st, a + b) == FeedAll(FeedAll(st, a), b)
    decreases |b|
  {
    if b == "" {
      assert a + b == a;
    } else {
      assert (a + b)[..|a + b| - 1] == a + b[..|b| - 1];
      FeedConcat(st, a, b[..|b| - 1]);
    }
  }

  lemma {:induction false} FeedPlain(st: Scan, s: string)
    requires Unmarked(s)
    ensures FeedAll(st, s) == st.(plain := st.plain + s)
    decreases |s|
  {
    if s == "" {
      assert st.plain + s == st.plain;
    } else {
      FeedPlain(st, s[..|s| - 1]);
      assert st.plain + s == st.plain + s[..|s| - 1] + [s[|s| - 1]];
    }
  }

  /** Feeding one marked term after the plain text before it. */
  lemma FeedTerm(plain: string, done: seq<Span>, lead: string, term: string)
    requires Unmarked(lead) && Unmarked(term) && term != ""
    ensures FeedAll(Scan(plain, done, -1), lead + ([HL_START] + (term + [HL_END])))
         == Scan(plain + lead + term, done + [Span(|plain + lead|, |plain + lead + term|)], -1)
  {
    var st := Scan(plain, done, -1);
    FeedConcat(st, lead, [HL_START] + (term + [HL_END]));
    FeedPlain(st, lead);
    var before := Scan(plain + lead, done, -1);
    FeedConcat(before, [HL_START], term + [HL_END]);
    FeedOne(before, HL_START);
    var inTerm := Scan(plain + lead, done, |plain + lead|);
    FeedConcat(inTerm, term, [HL_END]);
    FeedPlain(inTerm, term);
    FeedOne(inTerm.(plain := plain + lead + term), HL_END);
  }

  lemma FeedOne(st: Scan, c: char)
    ensures FeedAll(st, [c]) == Feed(st, c)
  {
    assert [c][..0] == "" && FeedAll(st, "") == st;
  }

  /** Feeding the first marked span and then `rest`, which marks the text after it. */
  lemma FeedFirst(plain: string, done: seq<Span>, pos: nat, s: Span, rest: string)
    requires pos <= s.from < s.to <= |plain| && Unmarked(plain)
    ensures FeedAll(Scan(plain[..pos], done, -1),
            plain[pos..s.from] + ([HL_START] + (plain[s.from..s.to] + [HL_END])) + rest)
         == FeedAll(Scan(plain[..s.to], done + [s], -1), rest)
  {
    var lead, term := plain[pos..s.from], plain[s.from..s.to];
    SliceJoin(plain, pos, s.from);
    SliceJoin(plain, s.from, s.to);
    FeedTerm(plain[..pos], done, lead, term);
    FeedConcat(Scan(plain[..pos], done, -1), lead + ([HL_START] + (term + [HL_END])), rest);
  }

  lemma {:induction false} FeedMarked(plain: string, spans: seq<Span>, done: seq<Span>, pos: nat)
    requires pos <= |plain| && SpansOk(plain, spans, pos) && Unmarked(plain)
    ensures FeedAll(Scan(plain[..pos], done, -1), Mark(plain, spans, pos)) == Scan(plain, done + spans, -1)
    decreases |spans|
  {
    if spans == [] {
      FeedPlain(Scan(plain[..pos], done, -1), plain[pos..]);
      assert plain[..pos] + plain[pos..] == plain && done + spans == done;
    } else {
      var s, rest := spans[0], spans[1..];
      assert done + [s] + rest == done + spans;
      FeedFirst(plain, done, pos, s, Mark(plain, rest, s.to));
      FeedMarked(plain, rest, done + [s], s.to);
    }
  }

  /** Round trip: parsing the marked text gives back the text and its spans. */
  lemma ParseUndoesMark(plain: string, spans: seq<Span>)
    requires SpansOk(plain, spans, 0) && Unmarked(plain)
    ensures FeedAll(Scan("", [], -1), Mark(plain, spans, 0)) == Scan(plain, spans, -1)
  {
    FeedMarked(plain, spans, [], 0);
    assert plain[..0] == "" && [] + spans == spans;
  }

  // ---- UTF-16 -------------------------------------------------------------------------------------

  /** Section 2.1 of RFC 2781. */
  function Encode(c: char): (units: seq<int>)
    ensures |units| == if c as int < 0x10000 then 1 else 2
  {
    var u := c as int;
    if u < 0x10000 then [u] else [0xD800 + (u - 0x10000) / 0x400, 0xDC00 + (u - 0x10000) % 0x400]
  }

  /** One unit is the character itself; two are a high and a low surrogate that hold ten bits each of the rest. */
  lemma EncodeIs(c: char)
    ensures
      var units, u := Encode(c), c as int;
      && (u < 0x10000 <==> |units| == 1) && (u < 0x10000 ==> units == [u])
      && (u >= 0x10000 ==>
            && |units| == 2 && 0xD800 <= units[0] <= 0xDBFF && 0xDC00 <= units[1] <= 0xDFFF
            && u == 0x10000 + (units[0] - 0xD800) * 0x400 + (units[1] - 0xDC00))
  {
  }

  function Utf16(s: string): seq<int>
  {
    if s == "" then [] else Encode(s[0]) + Utf16(s[1..])
  }

  function Utf16Len(s: string): nat
  {
    |Utf16(s)|
  }

  lemma {:induction false} Utf16Concat(a: string, b: string)
    ensures Utf16(a + b) == Utf16(a) + Utf16(b)
    decreases |a|
  {
    if a == "" {
      assert a + b == b;
    } else {
      assert (a + b)[1..] == a[1..] + b;
      Utf16Concat(a[1..], b);
    }
  }

  /** A slice in characters is a slice of the encoding, between the encoded lengths of what precedes its ends. */
  lemma Utf16Slice(s: string, a: nat, b: nat)
    requires a <= b <= |s|
    ensures Utf16Len(s[..a]) <= Utf16Len(s[..b]) <= |Utf16(s)|
    ensures Utf16(s)[Utf16Len(s[..a])..Utf16Len(s[..b])] == Utf16(s[a..b])
  {
    assert s[..b] == s[..a] + s[a..b] && s == s[..b] + s[b..];
    Utf16Concat(s[..a], s[a..b]);
    Utf16Concat(s[..b], s[b..]);
  }

  // ---- The excerpt ----------------------------------------------------------------------------------

  /** The largest end of a span that starts before `hi`, or -1. */
  function LastNeeded(spans: seq<Span>, hi: nat): int
  {
    if spans == [] then -1
    else
      var s, rest := spans[|spans| - 1], LastNeeded(spans[..|spans| - 1], hi);
      if s.from < hi then Max(rest, s.to) else rest
  }

  lemma {:induction false} LastNeededCovers(spans: seq<Span>, hi: nat, i: nat)
    requires i < |spans| && spans[i].from < hi
    ensures spans[i].to <= LastNeeded(spans, hi)
    decreases |spans|
  {
    if i < |spans| - 1 {
      LastNeededCovers(spans[..|spans| - 1], hi, i);
    }
  }

  datatype Window = Window(lo: nat, hi: nat)

  function Anchor(spans: seq<Span>): nat
  {
    if spans == [] then 0 else spans[0].from
  }

  /** The characters max_chars allows around the first span, before blanks are looked for. */
  function Frame(n: nat, anchor: nat, maxChars: nat): (w: Window)
    requires anchor <= n
    ensures w.lo <= w.hi <= n && w.lo <= anchor && w.hi - w.lo <= maxChars
  {
    var lo := Max(0, anchor - SNIPPET_LEAD_CHARS);
    var hi := Min(n, lo + maxChars);
    Window(Max(0, hi - maxChars), hi)
  }

  /** The left edge moved behind a blank, if there is one before the first span. */
  function LeftEdge(plain: string, lo: nat, anchor: nat): (r: nat)
    requires lo <= anchor <= |plain|
    ensures lo <= r <= anchor
  {
    var cut := if lo > 0 then Find(plain, ' ', lo, anchor) else -1;
    if cut != -1 then cut + 1 else lo
  }

  /** The right edge moved to a blank after the last span that starts before it, if there is one. */
  function RightEdge(plain: string, lo: nat, hi: nat, needed: int): (r: nat)
    requires lo <= |plain| && hi <= |plain|
    ensures lo <= r <= Max(lo, hi)
    ensures r == Max(lo, hi) || (hi < |plain| && lo < r < hi && needed <= r)
  {
    var cut := if hi < |plain| then RFind(plain, " ", Max(lo, needed), hi) else -1;
    if cut != -1 && cut > lo then cut else Max(lo, hi)
  }

  /** The excerpt [lo, hi), its edges moved to blanks where there are any. With a tiny max_chars it can be empty. */
  function Excerpt(plain: string, spans: seq<Span>, maxChars: nat): (w: Window)
    requires SpansOk(plain, spans, 0)
    ensures w.lo <= w.hi <= |plain| && w.hi - w.lo <= maxChars
  {
    if |plain| <= maxChars then Window(0, |plain|)
    else
      var f := Frame(|plain|, Anchor(spans), maxChars);
      var lo := LeftEdge(plain, f.lo, Anchor(spans));
      Window(lo, RightEdge(plain, lo, f.hi, LastNeeded(spans, f.hi)))
  }

  /** The window without the blanks at its edges. */
  function Trim(plain: string, w: Window): (t: Window)
    requires w.lo <= w.hi <= |plain|
    ensures w.lo <= t.lo <= t.hi <= w.hi
  {
    var slice := plain[w.lo..w.hi];
    StripIsSlice(slice);
    var lo := w.lo + Blanks(slice);
    Window(lo, lo + |Strip(slice)|)
  }

  lemma TrimIsSlice(plain: string, w: Window)
    requires w.lo <= w.hi <= |plain|
    ensures var t := Trim(plain, w); plain[t.lo..t.hi] == Strip(plain[w.lo..w.hi])
  {
    var slice, t := plain[w.lo..w.hi], Trim(plain, w);
    StripIsSlice(slice);
    SliceOfSlice(plain, w.lo, w.hi, t.lo - w.lo, t.hi - w.lo);
  }

  function Body(plain: string, spans: seq<Span>, maxChars: nat): (w: Window)
    requires SpansOk(plain, spans, 0)
    ensures w.lo <= w.hi <= |plain| && w.hi - w.lo <= maxChars
  {
    Trim(plain, Excerpt(plain, spans, maxChars))
  }

  function Prefix(w: Window): string
  {
    if w.lo > 0 then [ELLIPSIS] else ""
  }

  function Snippet(plain: string, w: Window): string
    requires w.lo <= w.hi <= |plain|
  {
    Prefix(w) + plain[w.lo..w.hi] + if w.hi < |plain| then [ELLIPSIS] else ""
  }

  /** The spans that lie inside the body, in order. */
  function Inside(spans: seq<Span>, w: Window): (r: seq<Span>)
    ensures forall k :: 0 <= k < |r| ==> w.lo <= r[k].from && r[k].to <= w.hi
  {
    if spans == [] then []
    else
      var s := spans[|spans| - 1];
      Inside(spans[..|spans| - 1], w) + if s.from < w.lo || s.to > w.hi then [] else [s]
  }

  lemma {:induction false} InsideExact(spans: seq<Span>, w: Window, s: Span)
    ensures s in Inside(spans, w) <==> s in spans && w.lo <= s.from && s.to <= w.hi
  {
    if spans != [] {
      InsideExact(spans[..|spans| - 1], w, s);
      assert spans == spans[..|spans| - 1] + [spans[|spans| - 1]];
    }
  }

  /** UTF-16 offsets in the snippet. */
  datatype Highlight = Highlight(from: nat, to: nat)

  function HighlightOf(snippet: string, s: Span, w: Window): Highlight
    requires w.lo <= s.from <= s.to <= w.hi && |Prefix(w)| + w.hi - w.lo <= |snippet|
  {
    var a, b := |Prefix(w)| + (s.from - w.lo), |Prefix(w)| + (s.to - w.lo);
    Highlight(Utf16Len(snippet[..a]), Utf16Len(snippet[..b]))
  }

  /** One highlight for each span inside the window, in order. */
  predicate Locates(highlights: seq<Highlight>, inside: seq<Span>, snippet: string, w: Window)
    requires w.lo <= w.hi && |Prefix(w)| + w.hi - w.lo <= |snippet|
  {
    && |highlights| == |inside|
    && forall k :: 0 <= k < |inside| ==>
         w.lo <= inside[k].from <= inside[k].to <= w.hi && highlights[k] == HighlightOf(snippet, inside[k], w)
  }

  method BuildSnippet(plain: string, spans: seq<Span>, maxChars: nat)
      returns (snippet: string, highlights: seq<Highlight>)
    requires SpansOk(plain, spans, 0)
    ensures
      var w := Body(plain, spans, maxChars);
      snippet == Snippet(plain, w) && Locates(highlights, Inside(spans, w), snippet, w)
  {
    var lo, hi := CutEdges(plain, spans, maxChars);
    var from, body := StripEdges(plain, lo, hi);
    SpansForward(plain, spans, 0);
    snippet, highlights := Assemble(plain, spans, from, body);
  }

  /** The first part of build_snippet; a Python slice [lo, hi) with hi below lo is empty, and comes back as [lo, lo). */
  method CutEdges(plain: string, spans: seq<Span>, maxChars: nat) returns (lo: nat, hi: nat)
    requires SpansOk(plain, spans, 0)
    ensures Window(lo, hi) == Excerpt(plain, spans, maxChars)
  {
    var n := |plain|;
    if n <= maxChars {
      return 0, n;
    }
    var anchor := if spans != [] then spans[0].from else 0;
    lo := Max(0, anchor - SNIPPET_LEAD_CHARS);
    hi := Min(n, lo + maxChars);
    lo := Max(0, hi - maxChars);
    ghost var f := Window(lo, hi);
    assert f == Frame(n, Anchor(spans), maxChars);
    if lo > 0 {
      // lo > 0 only with spans, so the source's other bound is never used
      var cut := Find(plain, ' ', lo, anchor);
      if cut != -1 {
        lo := cut + 1;
      }
    }
    assert lo == LeftEdge(plain, f.lo, Anchor(spans));
    if hi < n {
      var cut := RFind(plain, " ", Max(lo, LastNeeded(spans, hi)), hi);
      if cut != -1 && cut > lo {
        hi := cut;
      }
    }
    hi := Max(lo, hi);
    assert hi == RightEdge(plain, lo, f.hi, LastNeeded(spans, f.hi));
  }

  /** The second part of build_snippet: the slice without its blank edges, and where it starts. */
  method StripEdges(plain: string, lo: nat, hi: nat) returns (from: nat, body: string)
    requires lo <= hi <= |plain|
    ensures Trim(plain, Window(lo, hi)) == Window(from, from + |body|) && body == plain[from..from + |body|]
  {
    var slice := plain[lo..hi];
    body := Strip(slice);
    TrimIsSlice(plain, Window(lo, hi));
    from := lo + (|slice| - |LStrip(slice)|);
  }

  /** The last part of build_snippet. */
  method Assemble(plain: string, spans: seq<Span>, lo: nat, body: string)
      returns (snippet: string, highlights: seq<Highlight>)
    requires lo + |body| <= |plain| && body == plain[lo..lo + |body|]
    requires forall i :: 0 <= i < |spans| ==> spans[i].from <= spans[i].to
    ensures
      var w := Window(lo, lo + |body|);
      snippet == Snippet(plain, w) && Locates(highlights, Inside(spans, w), snippet, w)
  {
    var prefix := if lo > 0 then [ELLIPSIS] else "";
    var suffix := if lo + |body| < |plain| then [ELLIPSIS] else "";
    snippet := prefix + body + suffix;
    highlights := LocateSpans(snippet, spans, Window(lo, lo + |body|));
  }

  /** The loop of build_snippet. */
  method LocateSpans(snippet: string, spans: seq<Span>, w: Window) returns (highlights: seq<Highlight>)
    requires w.lo <= w.hi && |Prefix(w)| + w.hi - w.lo <= |snippet|
    requires forall i :: 0 <= i < |spans| ==> spans[i].from <= spans[i].to
    ensures Locates(highlights, Inside(spans, w), snippet, w)
  {
    highlights := [];
    for i := 0 to |spans|
      invariant Locates(highlights, Inside(spans[..i], w), snippet, w)
    {
      assert spans[..i + 1][..i] == spans[..i];
      var s := spans[i];
      if s.from < w.lo || s.to > w.hi {
        continue;
      }
      var p := if w.lo > 0 then 1 else 0;
      var a := p + (s.from - w.lo);
      var b := p + (s.to - w.lo);
      highlights := highlights + [Highlight(Utf16Len(snippet[..a]), Utf16Len(snippet[..b]))];
    }
    assert spans[..|spans|] == spans;
  }

  // ---- Theorems -------------------------------------------------------------------------------------

  lemma SnippetAt(plain: string, w: Window, a: nat, b: nat)
    requires w.lo <= a <= b <= w.hi <= |plain|
    ensures var p := |Prefix(w)|;
            && |Snippet(plain, w)| >= p + w.hi - w.lo
            && Snippet(plain, w)[p + (a - w.lo)..p + (b - w.lo)] == plain[a..b]
  {
    SliceOfMiddle(Prefix(w), plain[w.lo..w.hi], if w.hi < |plain| then [ELLIPSIS] else "", a - w.lo, b - w.lo);
    SliceOfSlice(plain, w.lo, w.hi, a - w.lo, b - w.lo);
  }

  /** What the browser cuts out of the snippet's UTF-16 units is the encoding of the term in the original text. */
  lemma HighlightCutsTerm(plain: string, w: Window, s: Span)
    requires w.lo <= s.from <= s.to <= w.hi <= |plain|
    ensures |Prefix(w)| + w.hi - w.lo <= |Snippet(plain, w)|
    ensures var units, h := Utf16(Snippet(plain, w)), HighlightOf(Snippet(plain, w), s, w);
            h.from <= h.to <= |units| && units[h.from..h.to] == Utf16(plain[s.from..s.to])
  {
    SnippetAt(plain, w, s.from, s.to);
    Utf16Slice(Snippet(plain, w), |Prefix(w)| + (s.from - w.lo), |Prefix(w)| + (s.to - w.lo));
  }

  /** ... so every highlight of build_snippet cuts out its term, whatever the text, the spans and max_chars. */
  lemma HighlightsCutTheirTerms(plain: string, spans: seq<Span>, maxChars: nat, s: Span)
    requires SpansOk(plain, spans, 0) && s in Inside(spans, Body(plain, spans, maxChars)) && s.from <= s.to
    ensures var w := Body(plain, spans, maxChars);
            var units, h := Utf16(Snippet(plain, w)), HighlightOf(Snippet(plain, w), s, w);
            h.from <= h.to <= |units| && units[h.from..h.to] == Utf16(plain[s.from..s.to])
  {
    HighlightCutsTerm(plain, Body(plain, spans, maxChars), s);
  }

  /** The body has no blank at its edges, and trimming loses none of the other characters. */
  lemma TrimKeeps(plain: string, w: Window, i: nat)
    requires w.lo <= i < w.hi <= |plain| && !IsSpace(plain[i])
    ensures var t := Trim(plain, w); t.lo <= i < t.hi && !IsSpace(plain[t.lo]) && !IsSpace(plain[t.hi - 1])
  {
    hide IsSpace, Strip;
    var t, slice := Trim(plain, w), plain[w.lo..w.hi];
    StripKeeps(slice, i - w.lo);
    StripEnds(slice);
    TrimIsSlice(plain, w);
    assert plain[t.lo..t.hi][0] == plain[t.lo] && plain[t.lo..t.hi][t.hi - t.lo - 1] == plain[t.hi - 1];
  }

  /**
   The snippet is an excerpt of the text of at most max_chars characters, with an ellipsis exactly at its cut edges.
   */
  lemma SnippetIsExcerpt(plain: string, spans: seq<Span>, maxChars: nat)
    requires SpansOk(plain, spans, 0)
    ensures
      var w := Body(plain, spans, maxChars);
      var snippet, p := Snippet(plain, w), |Prefix(w)|;
      && |snippet| <= maxChars + 2
      && snippet[p..p + (w.hi - w.lo)] == plain[w.lo..w.hi]
      && (w.lo > 0 <==> p == 1) && (w.lo > 0 ==> snippet[0] == ELLIPSIS)
      && (w.hi < |plain| <==> |snippet| == p + (w.hi - w.lo) + 1)
        && (w.hi < |plain| ==> snippet[|snippet| - 1] == ELLIPSIS)
  {
    var w := Body(plain, spans, maxChars);
    SnippetAt(plain, w, w.lo, w.hi);
  }

  /** The excerpt contains the first span whole when max_chars leaves room for it after the lead. */
  lemma ExcerptHasFirst(plain: string, spans: seq<Span>, maxChars: nat)
    requires SpansOk(plain, spans, 0) && spans != [] && spans[0].to - spans[0].from <= maxChars - SNIPPET_LEAD_CHARS
    ensures var w := Excerpt(plain, spans, maxChars); w.lo <= spans[0].from && spans[0].to <= w.hi
  {
    var f := Frame(|plain|, Anchor(spans), maxChars);
    LastNeededCovers(spans, f.hi, 0);
  }

  /** A first term of at most max_chars - 80 characters without blanks at its edges is always highlighted, whole. */
  lemma FirstTermIsHighlighted(plain: string, spans: seq<Span>, maxChars: nat)
    requires SpansOk(plain, spans, 0) && spans != [] && spans[0].to - spans[0].from <= maxChars - SNIPPET_LEAD_CHARS
    requires !IsSpace(plain[spans[0].from]) && !IsSpace(plain[spans[0].to - 1])
    ensures spans[0] in Inside(spans, Body(plain, spans, maxChars))
  {
    var e, s := Excerpt(plain, spans, maxChars), spans[0];
    ExcerptHasFirst(plain, spans, maxChars);
    TrimKeeps(plain, e, s.from);
    TrimKeeps(plain, e, s.to - 1);
    InsideExact(spans, Body(plain, spans, maxChars), s);
  }

  /** `r` follows the first blank of plain[lo..hi), or is `lo` if there is none. */
  predicate AfterFirstBlank(plain: string, lo: nat, hi: nat, r: nat)
    requires lo <= hi <= |plain|
  {
    if ' ' in plain[lo..hi] then lo < r <= hi && plain[r - 1] == ' ' && ' ' !in plain[lo..r - 1] else r == lo
  }

  /** `r` is the last blank of plain[lo..hi), or `hi` if there is none. */
  predicate AtLastBlank(plain: string, lo: nat, hi: nat, r: nat)
    requires hi <= |plain|
  {
    if lo < hi && ' ' in plain[lo..hi] then lo <= r < hi && plain[r] == ' ' && ' ' !in plain[r + 1..hi] else r == hi
  }

  lemma LeftEdgeIs(plain: string, lo: nat, anchor: nat)
    requires lo <= anchor <= |plain|
    ensures if lo == 0 then LeftEdge(plain, lo, anchor) == 0
            else AfterFirstBlank(plain, lo, anchor, LeftEdge(plain, lo, anchor))
  {
    FindIsFirst(plain, ' ', lo, anchor);
  }

  lemma RightEdgeIs(plain: string, lo: nat, hi: nat, needed: int)
    requires lo <= |plain| && hi <= |plain|
    ensures if hi == |plain| || hi < lo then RightEdge(plain, lo, hi, needed) == Max(lo, hi)
            else AtLastBlank(plain, Max(lo + 1, needed), hi, RightEdge(plain, lo, hi, needed))
  {
    var from := Max(lo, needed);
    var cut := RFind(plain, " ", from, hi);
    forall i | from <= i < hi && plain[i] == ' '
      ensures i <= cut
    {
      assert plain[i..i + 1] == " ";
      RFindIsLast(plain, " ", from, hi, i);
    }
    assert cut != -1 ==> plain[cut..cut + 1][0] == ' ';
  }

  /**
   Where a long text is cut: after the first blank of the frame before the first term, and at the last blank of the
   frame after the terms that start in it; at the frame's own ends where there is no such blank or the text ends there.
   */
  lemma ExcerptIs(plain: string, spans: seq<Span>, maxChars: nat)
    requires SpansOk(plain, spans, 0) && maxChars < |plain|
    ensures
      var f, w, anchor := Frame(|plain|, Anchor(spans), maxChars), Excerpt(plain, spans, maxChars), Anchor(spans);
      && f.hi - f.lo == maxChars && f.lo <= Max(0, anchor - 80) && (f.hi < |plain| ==> f.lo == Max(0, anchor - 80))
      && (if f.lo == 0 then w.lo == 0 else AfterFirstBlank(plain, f.lo, anchor, w.lo))
      && (if f.hi == |plain| || f.hi < w.lo then w.hi == Max(w.lo, f.hi)
          else AtLastBlank(plain, Max(w.lo + 1, LastNeeded(spans, f.hi)), f.hi, w.hi))
  {
    hide AfterFirstBlank, AtLastBlank, LeftEdge, RightEdge, LastNeeded;
    var f := Frame(|plain|, Anchor(spans), maxChars);
    LeftEdgeIs(plain, f.lo, Anchor(spans));
    RightEdgeIs(plain, LeftEdge(plain, f.lo, Anchor(spans)), f.hi, LastNeeded(spans, f.hi));
  }

  /** The end of the last term that starts within the frame: every such term ends by it, and one ends there. */
  lemma {:induction false} LastNeededIs(spans: seq<Span>, hi: nat)
    ensures
      var needed := LastNeeded(spans, hi);
      && (forall i :: 0 <= i < |spans| && spans[i].from < hi ==> spans[i].to <= needed)
      && (needed == -1 || exists i :: 0 <= i < |spans| && spans[i].from < hi && spans[i].to == needed)
  {
    if spans != [] {
      var rest := spans[..|spans| - 1];
      LastNeededIs(rest, hi);
      var needed, before := LastNeeded(spans, hi), LastNeeded(rest, hi);
      if needed == before && needed != -1 {
        var i :| 0 <= i < |rest| && rest[i].from < hi && rest[i].to == before;
        assert spans[i] == rest[i];
      }
      forall i | 0 <= i < |spans| && spans[i].from < hi
        ensures spans[i].to <= needed
      {
        assert i < |rest| ==> rest[i] == spans[i];
      }
    }
  }

  ghost predicate CutsATerm(spans: seq<Span>, x: nat)
  {
    exists i :: 0 <= i < |spans| && spans[i].from < x < spans[i].to
  }

  /**
   An edge of the excerpt goes through a highlighted term exactly when the frame of max_chars already ends
   inside one; moving the edges to blanks never cuts a term.
   */
  lemma CutsATermIff(plain: string, spans: seq<Span>, maxChars: nat)
    requires SpansOk(plain, spans, 0)
    ensures Anchor(spans) <= |plain|
    ensures var w, f := Excerpt(plain, spans, maxChars), Frame(|plain|, Anchor(spans), maxChars);
            CutsATerm(spans, w.lo) || CutsATerm(spans, w.hi) <==> CutsATerm(spans, f.hi)
  {
    var w, f := Excerpt(plain, spans, maxChars), Frame(|plain|, Anchor(spans), maxChars);
    forall i | 0 <= i < |spans|
      ensures Anchor(spans) <= spans[i].from < spans[i].to <= |plain|
      ensures spans[i].from < f.hi ==> spans[i].to <= LastNeeded(spans, f.hi)
    {
      SpanBounds(plain, spans, 0, i);
      SpanBounds(plain, spans, 0, 0);
      if spans[i].from < f.hi {
        LastNeededCovers(spans, f.hi, i);
      }
    }
  }

  /** A text, two terms and a max_chars for which the second term is cut. */
  lemma LaterTermCanBeCut(plain: string)
    requires |plain| == 100
    ensures var spans := [Span(0, 1), Span(75, 90)];
            SpansOk(plain, spans, 0) && CutsATerm(spans, Excerpt(plain, spans, 81).hi)
  {
    var spans := [Span(0, 1), Span(75, 90)];
    assert spans[1..] == [Span(75, 90)] && spans[1..][1..] == [];
    CutsATermIff(plain, spans, 81);
    assert spans[1].from < 81 < spans[1].to;
  }
}
