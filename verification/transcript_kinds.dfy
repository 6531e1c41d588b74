/**
 Which line is of which kind: the regular expressions of `transcript_formats.py` written out as the texts they match,
 for the reader of Markdown blocks, and what that says of a normalised text.
 */
module TranscriptKinds {
  import opened Text

  import opened TranscriptFormats

  // ---- The shapes -------------------------------------------------------------------------------------

  /** `#` once to six times, a blank, and the rest */
  predicate HeadingShape(line: string, k: nat, blank: char, rest: string)
  {
    1 <= k <= 6 && IsSpace(blank) && line == Repeat('#', k) + [blank] + rest
  }

  predicate BulletShape(line: string, mark: char, blank: char, rest: string)
  {
    (mark == '-' || mark == '*') && IsSpace(blank) && line == [mark, blank] + rest
  }

  predicate QuoteShape(line: string, rest: string)
  {
    line == ">" + rest
  }

  /** **name**, with blanks after it */
  predicate NameShape(line: string, name: string, gap: string)
  {
    name != "" && '*' !in name && AllSpace(gap) && line == "**" + name + "**" + gap
  }

  /** _(times)_, with blanks around it */
  predicate TimesShape(s: string, gap: string, times: string, gap': string)
  {
    times != "" && ')' !in times && AllSpace(gap) && AllSpace(gap') && s == gap + ("_(" + times + ")_" + gap')
  }

  /** A name alone, or a name and times. */
  ghost predicate SpeakerShape(line: string)
  {
    || (exists name, gap :: NameShape(line, name, gap))
    || exists name, tail :: NamedTail(line, name, tail) && exists gap, times, gap' :: TimesShape(tail, gap, times, gap')
  }

  predicate NamedTail(line: string, name: string, tail: string)
  {
    name != "" && '*' !in name && line == "**" + name + "**" + tail
  }

  // ---- Helpers ----------------------------------------------------------------------------------------

  lemma FindAt(s: string, c: char, lo: nat, hi: nat, i: nat)
    requires lo <= i < hi <= |s| && s[i] == c && forall k :: lo <= k < i ==> s[k] != c
    ensures Find(s, c, lo, hi) == i
  {
    FindIsFirst(s, c, lo, hi);
  }

  lemma FourParts(s: string, i: nat, j: nat, k: nat)
    requires i <= j <= k <= |s|
    ensures s == s[..i] + s[i..j] + s[j..k] + s[k..]
  {
  }

  lemma LStripSplits(s: string)
    ensures AllSpace(s[..Blanks(s)]) && s == s[..Blanks(s)] + LStrip(s)
    ensures LStrip(s) == "" <==> AllSpace(s)
    ensures Strip(s) == "" <==> AllSpace(s)
  {
    hide IsSpace, Blanks, Strip;
    forall i | 0 <= i < Blanks(s)
      ensures IsSpace(s[i])
    {
      BlanksAreSpaces(s, i);
    }
    if Blanks(s) < |s| {
      assert !IsSpace(s[Blanks(s)]);
      StripKeeps(s, Blanks(s));
    } else {
      assert s[..Blanks(s)] == s;
      StripIsSlice(s);
    }
  }

  lemma StripBlankFirst(blank: char, rest: string)
    requires IsSpace(blank)
    ensures Strip([blank] + rest) == Strip(rest)
  {
    var s := [blank] + rest;
    assert s[1..] == rest;
    assert LStrip(s) == LStrip(rest) by {
      assert s[1 + Blanks(rest)..] == rest[Blanks(rest)..];
    }
  }

  lemma RStripBlank(raw: string)
    ensures Strip(RStrip(raw)) == "" <==> AllSpace(raw)
    ensures RStrip(raw) <= raw && AllSpace(raw[|RStrip(raw)|..])
    ensures RStrip(raw) == "" || !IsSpace(RStrip(raw)[|RStrip(raw)| - 1])
  {
    hide IsSpace;
    LStripSplits(RStrip(raw));
    forall i | Kept(raw) <= i < |raw|
      ensures IsSpace(raw[i])
    {
      PastKeptAreSpaces(raw, i);
    }
    if Kept(raw) > 0 {
      assert !IsSpace(RStrip(raw)[Kept(raw) - 1]) && !IsSpace(raw[Kept(raw) - 1]);
    }
  }

  lemma {:induction false} HashesAre(s: string)
    ensures s[..Hashes(s)] == Repeat('#', Hashes(s))
  {
    if s != "" && s[0] == '#' {
      HashesAre(s[1..]);
      assert s[..Hashes(s)] == ['#'] + s[1..][..Hashes(s[1..])];
    }
  }

  // ---- Lines ------------------------------------------------------------------------------------------

  const LINE_FEED: char := '\n'
  const RETURN: char := '\r'
  const VERTICAL_TAB: char := '\U{0B}'
  const FORM_FEED: char := '\U{0C}'

  /** Line feed, return, vertical tab, form feed, the file, group and record separators, NEL, LS and PS. */
  lemma BreaksAre(c: char)
    ensures IsBreak(c) <==>
              || c == LINE_FEED || c == RETURN || c == VERTICAL_TAB || c == FORM_FEED
              || c == '\U{1C}' || c == '\U{1D}' || c == '\U{1E}' || c == '\U{85}' || c == '\U{2028}' || c == '\U{2029}'
  {
  }

  lemma {:induction false} LineEndIs(line: string, rest: string)
    requires OneLine(line) && (rest == "" || IsBreak(rest[0]))
    ensures LineEnd(line + rest) == |line|
    decreases |line|
  {
    hide IsBreak;
    if line == "" {
      assert line + rest == rest;
    } else {
      assert (line + rest)[1..] == line[1..] + rest && (line + rest)[0] == line[0];
      LineEndIs(line[1..], rest);
    }
  }

  /** A line ends at its first break; a return and a line feed after it are one break; the last line needs none. */
  lemma LineEndsAtBreak(line: string, c: char, rest: string)
    requires OneLine(line) && IsBreak(c)
    ensures !(c == RETURN && rest != "" && rest[0] == LINE_FEED) ==>
              SplitLines(line + [c] + rest) == [line] + SplitLines(rest)
    ensures c == RETURN && rest != "" && rest[0] == LINE_FEED ==>
              SplitLines(line + [c] + rest) == [line] + SplitLines(rest[1..])
    ensures SplitLines(line) == if line == "" then [] else [line]
  {
    hide IsBreak, LineEnd;
    var s := line + [c] + rest;
    assert s == line + ([c] + rest);
    LineEndIs(line, [c] + rest);
    assert s[..|line|] == line && s[|line|] == c;
    assert s[|line| + 1..] == rest;
    assert rest != "" ==> s[|line| + 1] == rest[0] && s[|line| + 2..] == rest[1..];
    LineEndIs(line, "");
    assert line + "" == line;
  }

  // ---- Each kind --------------------------------------------------------------------------------------

  lemma HeadingHasShape(line: string)
    requires IsHeading(line)
    ensures exists k: nat, blank, rest :: HeadingShape(line, k, blank, rest)
  {
    hide IsSpace, Hashes;
    var k := Hashes(line);
    HashesAre(line);
    var rest := line[k + 1..];
    assert line == line[..k] + [line[k]] + rest;
    assert HeadingShape(line, k, line[k], rest);
  }

  lemma ShapeIsHeading(line: string, k: nat, blank: char, rest: string)
    requires HeadingShape(line, k, blank, rest)
    ensures IsHeading(line) && Hashes(line) == k && Strip(line[k..]) == Strip(rest)
  {
    hide IsSpace, Hashes, Strip;
    assert line == Repeat('#', k) + ([blank] + rest);
    HashIsNoBlank();
    HashesOf(k, [blank] + rest);
    assert line[k..] == [blank] + rest && line[k] == blank;
    StripBlankFirst(blank, rest);
  }

  lemma HeadingIff(line: string)
    ensures IsHeading(line) ==> exists k: nat, blank, rest :: HeadingShape(line, k, blank, rest)
    ensures forall k: nat, blank, rest :: HeadingShape(line, k, blank, rest) ==>
              IsHeading(line) && Hashes(line) == k && Strip(line[k..]) == Strip(rest)
  {
    hide HeadingShape, IsHeading, Hashes, Strip;
    if IsHeading(line) {
      HeadingHasShape(line);
    }
    forall k: nat, blank, rest | HeadingShape(line, k, blank, rest)
      ensures IsHeading(line) && Hashes(line) == k && k <= |line| && Strip(line[k..]) == Strip(rest)
    {
      ShapeIsHeading(line, k, blank, rest);
    }
  }

  lemma HashIsNoBlank()
    ensures !IsSpace('#') && !IsSpace('_') && !IsSpace('*')
  {
  }

  lemma BulletIff(line: string)
    ensures IsBullet(line) ==> exists mark, blank, rest :: BulletShape(line, mark, blank, rest)
    ensures forall mark, blank, rest :: BulletShape(line, mark, blank, rest) ==>
              IsBullet(line) && Strip(line[1..]) == Strip(rest)
  {
    hide IsSpace, Strip;
    if IsBullet(line) {
      assert BulletShape(line, line[0], line[1], line[2..]);
    }
    forall mark, blank, rest | BulletShape(line, mark, blank, rest)
      ensures IsBullet(line) && Strip(line[1..]) == Strip(rest)
    {
      assert line[1..] == [blank] + rest;
      StripBlankFirst(blank, rest);
    }
  }

  lemma QuoteIff(line: string)
    ensures IsQuote(line) ==> QuoteShape(line, line[1..])
    ensures forall rest :: QuoteShape(line, rest) ==> IsQuote(line) && line[1..] == rest
  {
    assert line != "" ==> line == [line[0]] + line[1..];
  }

  lemma SliceLacks(s: string, c: char, lo: nat, hi: nat)
    requires lo <= hi <= |s| && forall k :: lo <= k < hi ==> s[k] != c
    ensures c !in s[lo..hi]
  {
  }

  lemma TimesIs(s: string)
    requires IsTimes(s)
    ensures exists times, gap' :: TimesShape(s, "", times, gap')
  {
    hide IsSpace, Strip, Find, LStrip;
    var k := Find(s, ')', 2, |s|);
    FindIsFirst(s, ')', 2, |s|);
    SliceLacks(s, ')', 2, k);
    var times, gap' := s[2..k], s[k + 2..];
    LStripSplits(gap');
    FourParts(s, 2, k, k + 2);
    TimesFit(s, s[..2], times, s[k..k + 2], gap');
  }

  lemma TimesFit(s: string, open: string, times: string, close: string, gap': string)
    requires s == open + times + close + gap' && |open| == |close| == 2
    requires open[0] == '_' && open[1] == '(' && close[0] == ')' && close[1] == '_'
    requires times != "" && ')' !in times && AllSpace(gap')
    ensures TimesShape(s, "", times, gap')
  {
    hide IsSpace;
    assert open == "_(" && close == ")_" && "" + s == s;
  }

  lemma TimesAre(times: string, gap': string)
    requires times != "" && ')' !in times && AllSpace(gap')
    ensures IsTimes("_(" + times + ")_" + gap')
  {
    hide IsSpace, Strip;
    var s := "_(" + times + ")_" + gap';
    var k := 2 + |times|;
    forall i | 2 <= i < k
      ensures s[i] != ')'
    {
      assert s[i] == times[i - 2];
    }
    assert s[k] == ')' && s[k + 1] == '_';
    FindAt(s, ')', 2, |s|, k);
    assert s[k + 2..] == gap';
    LStripSplits(gap');
  }

  /** What may follow the name. */
  lemma TailIff(tail: string)
    ensures IsTimes(LStrip(tail)) <==> exists gap, times, gap' :: TimesShape(tail, gap, times, gap')
  {
    hide IsSpace, IsTimes, Strip;
    if IsTimes(LStrip(tail)) {
      TimesIs(LStrip(tail));
      var times, gap' :| TimesShape(LStrip(tail), "", times, gap');
      LStripSplits(tail);
      assert LStrip(tail) == "_(" + times + ")_" + gap';
      assert TimesShape(tail, tail[..Blanks(tail)], times, gap');
    }
    if gap, times, gap' :| TimesShape(tail, gap, times, gap') {
      HashIsNoBlank();
      LStripAfter(gap, "_(" + times + ")_" + gap');
      TimesAre(times, gap');
    }
  }

  lemma NameFound(line: string, name: string, tail: string)
    requires NamedTail(line, name, tail)
    ensures var k := Find(line, '*', 2, |line|);
            k == 2 + |name| && line[k + 1] == '*' && line[k + 2..] == tail && line[0] == line[1] == '*'
  {
    var k := 2 + |name|;
    forall i | 2 <= i < k
      ensures line[i] != '*'
    {
      assert line[i] == name[i - 2];
    }
    assert line[k] == '*' && line[k + 1] == '*';
    FindAt(line, '*', 2, |line|, k);
  }

  lemma FoundName(line: string)
    requires |line| >= 2 && line[0] == line[1] == '*'
    requires var k := Find(line, '*', 2, |line|); k > 2 && k + 1 < |line| && line[k + 1] == '*'
    ensures var k := Find(line, '*', 2, |line|); NamedTail(line, line[2..k], line[k + 2..])
  {
    hide Find;
    var k := Find(line, '*', 2, |line|);
    FindIsFirst(line, '*', 2, |line|);
    FourParts(line, 2, k, k + 2);
    assert line[..2] == "**" && line[k..k + 2] == "**";
  }

  lemma SpeakerIff(line: string)
    ensures IsSpeaker(line) <==> SpeakerShape(line)
  {
    hide IsSpace, IsTimes, LStrip, Find;
    if IsSpeaker(line) {
      FoundName(line);
      var k := Find(line, '*', 2, |line|);
      var tail := line[k + 2..];
      LStripSplits(tail);
      TailIff(tail);
      if LStrip(tail) == "" {
        assert NameShape(line, line[2..k], tail);
      }
    }
    if name, gap :| NameShape(line, name, gap) {
      NameFound(line, name, gap);
      LStripSplits(gap);
    }
    if name, tail :| NamedTail(line, name, tail) && exists gap, times, gap' :: TimesShape(tail, gap, times, gap') {
      NameFound(line, name, tail);
      TailIff(tail);
    }
  }

  // ---- The reader -------------------------------------------------------------------------------------

  /**
   The block of a line, by the shape of what is left without the blanks at its end. No two shapes fit one line, so their
   order does not matter; any other line that is not blank is a paragraph.
   */
  lemma KindIsShape(raw: string)
    ensures
      var line, b := RStrip(raw), Classify(raw);
      && (b.Blank? <==> AllSpace(raw))
      && (b.Heading? <==> exists k: nat, blank, rest :: HeadingShape(line, k, blank, rest))
      && (forall k: nat, blank, rest :: HeadingShape(line, k, blank, rest) ==> b == Heading(k, Strip(rest)))
      && (b.Bullet? <==> exists mark, blank, rest :: BulletShape(line, mark, blank, rest))
      && (forall mark, blank, rest :: BulletShape(line, mark, blank, rest) ==> b == Bullet(Strip(rest)))
      && (forall rest :: QuoteShape(line, rest) <==> b.Quote? && line[1..] == rest)
      && (forall rest :: QuoteShape(line, rest) ==> b == Quote(Strip(rest)))
      && (b.Speaker? <==> SpeakerShape(line)) && (b.Speaker? ==> b.content == line)
      && (b.Para? ==> b.content == line)
  {
    var line := RStrip(raw);
    RStripBlank(raw);
    HeadingIff(line);
    BulletIff(line);
    QuoteIff(line);
    SpeakerIff(line);
    KindsDiffer(line);
    hide IsSpace, Strip, RStrip, SpeakerShape, IsHeading, IsBullet, IsQuote, IsSpeaker, HeadingShape, BulletShape;
  }

  lemma KindsDiffer(line: string)
    ensures IsHeading(line) ==> !IsBullet(line) && !IsQuote(line) && !IsSpeaker(line)
    ensures IsBullet(line) ==> !IsQuote(line) && !IsSpeaker(line)
    ensures IsQuote(line) ==> !IsSpeaker(line)
    ensures IsHeading(line) || IsBullet(line) || IsQuote(line) || IsSpeaker(line) ==> Strip(line) != ""
  {
    assert IsHeading(line) ==> line[0] == '#';
    HashIsNoBlank();
    if line != "" && line[0] in {'#', '-', '*', '>'} {
      StripKeeps(line, 0);
    }
  }

  ghost predicate SectionShape(line: string)
  {
    SpeakerShape(line) || exists k: nat, blank, rest :: HeadingShape(line, k, blank, rest)
  }

  /** In a normalised text, a line shaped as a heading or a speaker line has a blank line before it, but the first. */
  lemma SectionsStandApart(text: string)
    ensures
      var lines := SplitLines(Normalised(text));
      forall i :: 0 < i < |lines| && SectionShape(RStrip(lines[i])) ==> lines[i - 1] == ""
  {
    hide Classify, SectionShape, Normalised, SplitLines, RStrip;
    NormalisedLayout(text);
    var lines := SplitLines(Normalised(text));
    forall i | 0 < i < |lines| && SectionShape(RStrip(lines[i]))
      ensures lines[i - 1] == ""
    {
      ShapeOpens(lines[i]);
    }
  }

  lemma ShapeOpens(line: string)
    requires SectionShape(RStrip(line))
    ensures OpensSection(Classify(line))
  {
    hide IsSpace, RStrip, SpeakerShape, HeadingShape, Classify;
    KindIsShape(line);
  }
}
