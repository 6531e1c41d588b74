/**
 The Markdown normaliser (`transcript_formats.py`): a line classifier, and a printer that puts blank lines
 where the blocks need them. What the printer writes is read back as the same blocks.
 */
module TranscriptFormats {
  import opened Text

  datatype Block =
    | Heading(level: nat, content: string)
    | Bullet(content: string)
    | Quote(content: string)
    | Speaker(content: string)
    | Para(content: string)
    | Blank

  // ---- Lines ----------------------------------------------------------------------------------------

  /** The line boundaries of str.splitlines. */
  predicate IsBreak(c: char)
  {
    var u := c as int;
    10 <= u <= 13 || 28 <= u <= 30 || u == 0x85 || u == 0x2028 || u == 0x2029
  }

  predicate OneLine(s: string)
  {
    forall i :: 0 <= i < |s| ==> !IsBreak(s[i])
  }

  function LineEnd(s: string): (k: nat)
    ensures k <= |s|
  {
    if s == "" || IsBreak(s[0]) then 0 else 1 + LineEnd(s[1..])
  }

  /** The text after the boundary at k; "\r\n" is one boundary. */
  function AfterBreak(s: string, k: nat): string
    requires k < |s|
  {
    if s[k] == '\r' && k + 1 < |s| && s[k + 1] == '\n' then s[k + 2..] else s[k + 1..]
  }

  /** str.splitlines; the last line needs no boundary. */
  function SplitLines(s: string): seq<string>
    decreases |s|
  {
    if s == "" then []
    else
      var k := LineEnd(s);
      if k == |s| then [s] else [s[..k]] + SplitLines(AfterBreak(s, k))
  }

  /** "\n".join(lines) */
  function Join(lines: seq<string>): string
  {
    if lines == [] then "" else if |lines| == 1 then lines[0] else lines[0] + "\n" + Join(lines[1..])
  }

  lemma {:induction false} LineEndIsFirst(s: string)
    ensures OneLine(s[..LineEnd(s)]) && (LineEnd(s) < |s| ==> IsBreak(s[LineEnd(s)]))
  {
    if s != "" && !IsBreak(s[0]) {
      LineEndIsFirst(s[1..]);
      assert s[..LineEnd(s)] == [s[0]] + s[1..][..LineEnd(s[1..])];
    }
  }

  lemma {:induction false} LineEndAt(line: string, rest: string)
    requires OneLine(line)
    ensures LineEnd(line + "\n" + rest) == |line|
  {
    var s := line + "\n" + rest;
    if line == "" {
      assert s[0] == '\n';
    } else {
      assert s[1..] == line[1..] + "\n" + rest && s[0] == line[0];
      LineEndAt(line[1..], rest);
    }
  }

  lemma SplitFirst(line: string, rest: string)
    requires OneLine(line)
    ensures SplitLines(line + "\n" + rest) == [line] + SplitLines(rest)
    ensures SplitLines("") == []
  {
    hide OneLine;
    var s := line + "\n" + rest;
    LineEndAt(line, rest);
    assert s[..|line|] == line && s[|line|] == '\n' && s[|line| + 1..] == rest;
  }

  /** Splitting undoes joining. */
  lemma {:induction false} SplitUndoesJoin(lines: seq<string>)
    requires lines != [] && forall i :: 0 <= i < |lines| ==> OneLine(lines[i])
    ensures SplitLines(Join(lines) + "\n") == lines
  {
    hide SplitLines, OneLine;
    if |lines| == 1 {
      SplitFirst(lines[0], "");
      assert lines[0] + "\n" + "" == lines[0] + "\n";
    } else {
      SplitUndoesJoin(lines[1..]);
      SplitFirst(lines[0], Join(lines[1..]) + "\n");
      assert Join(lines) + "\n" == lines[0] + "\n" + (Join(lines[1..]) + "\n");
    }
  }

  lemma {:induction false} SplitGivesLines(s: string, i: nat)
    requires i < |SplitLines(s)|
    ensures OneLine(SplitLines(s)[i])
    decreases |s|
  {
    hide OneLine, IsBreak;
    var k := LineEnd(s);
    LineEndIsFirst(s);
    assert k == |s| ==> s[..k] == s;
    if i > 0 {
      SplitGivesLines(AfterBreak(s, k), i - 1);
    }
  }

  // ---- Blocks ---------------------------------------------------------------------------------------

  function Hashes(s: string): (k: nat)
    ensures k <= |s|
  {
    if s != "" && s[0] == '#' then 1 + Hashes(s[1..]) else 0
  }

  /** `^(#{1,6})\s+(.*)$` */
  predicate IsHeading(line: string)
  {
    var k := Hashes(line);
    1 <= k <= 6 && k < |line| && IsSpace(line[k])
  }

  /** `^[-*]\s+(.*)$` */
  predicate IsBullet(line: string)
  {
    |line| >= 2 && (line[0] == '-' || line[0] == '*') && IsSpace(line[1])
  }

  /** `^>\s?(.*)$` */
  predicate IsQuote(line: string)
  {
    line != "" && line[0] == '>'
  }

  /** `_\([^)]+\)_\s*$` */
  predicate IsTimes(s: string)
  {
    && |s| >= 2 && s[0] == '_' && s[1] == '('
    && var k := Find(s, ')', 2, |s|);
    k > 2 && k + 1 < |s| && s[k + 1] == '_' && Strip(s[k + 2..]) == ""
  }

  /** `^\*\*([^*]+)\*\*\s*(_\([^)]+\)_)?\s*$` */
  predicate IsSpeaker(line: string)
  {
    && |line| >= 2 && line[0] == '*' && line[1] == '*'
    && var k := Find(line, '*', 2, |line|);
    k > 2 && k + 1 < |line| && line[k + 1] == '*' && (LStrip(line[k + 2..]) == "" || IsTimes(LStrip(line[k + 2..])))
  }

  /** One round of _iter_blocks on a line without blanks at its end. */
  function ClassifyLine(line: string): Block
  {
    if Strip(line) == "" then Blank
    else if IsHeading(line) then Heading(Hashes(line), Strip(line[Hashes(line)..]))
    else if IsBullet(line) then Bullet(Strip(line[1..]))
    else if IsQuote(line) then Quote(Strip(line[1..]))
    else if IsSpeaker(line) then Speaker(line)
    else Para(line)
  }

  function Classify(raw: string): Block
  {
    ClassifyLine(RStrip(raw))
  }

  /** _iter_blocks over the lines of a text. */
  function Blocks(lines: seq<string>): seq<Block>
  {
    seq(|lines|, i requires 0 <= i < |lines| => Classify(lines[i]))
  }

  function NonBlank(blocks: seq<Block>): seq<Block>
  {
    if blocks == [] then []
    else
      var b := blocks[|blocks| - 1];
      NonBlank(blocks[..|blocks| - 1]) + if b.Blank? then [] else [b]
  }

  // ---- The printer ----------------------------------------------------------------------------------

  function Repeat(c: char, n: nat): (s: string)
    ensures |s| == n
  {
    if n == 0 then "" else [c] + Repeat(c, n - 1)
  }

  function Line(b: Block): string
  {
    match b
    case Heading(level, content) => Repeat('#', level) + " " + content
    case Bullet(content) => "- " + content
    case Quote(content) => "> " + content
    case Speaker(content) => content
    case Para(content) => content
    case Blank => ""
  }

  /** Headings and speaker lines open a section: they get a blank line before them. */
  predicate OpensSection(b: Block)
  {
    b.Heading? || b.Speaker?
  }

  function WithGap(out: seq<string>): seq<string>
  {
    if out != [] && out[|out| - 1] != "" then out + [""] else out
  }

  function Emit(out: seq<string>, b: Block): seq<string>
  {
    if b.Blank? then WithGap(out)
    else if OpensSection(b) then WithGap(out) + [Line(b)]
    else out + [Line(b)]
  }

  function Out(blocks: seq<Block>): seq<string>
  {
    if blocks == [] then [] else Emit(Out(blocks[..|blocks| - 1]), blocks[|blocks| - 1])
  }

  function Trimmed(lines: seq<string>): seq<string>
  {
    if lines != [] && lines[|lines| - 1] == "" then Trimmed(lines[..|lines| - 1]) else lines
  }

  /** The lines of the normalised text. */
  function Lines(text: string): seq<string>
  {
    Trimmed(Out(Blocks(SplitLines(text))))
  }

  /** text_to_md_string */
  function Normalised(text: string): string
  {
    Join(Lines(text)) + "\n"
  }

  /** No blank line at the start, and no two in a row. */
  predicate Spaced(lines: seq<string>)
  {
    forall i :: 0 <= i < |lines| && lines[i] == "" ==> i > 0 && lines[i - 1] != ""
  }

  lemma {:induction false} OutIsSpaced(blocks: seq<Block>)
    requires forall i :: 0 <= i < |blocks| && !blocks[i].Blank? ==> Line(blocks[i]) != ""
    ensures Spaced(Out(blocks))
  {
    if blocks != [] {
      OutIsSpaced(blocks[..|blocks| - 1]);
    }
  }

  /** The three loops of the source: over the blocks, over `out`, and at the end of `norm`. */
  method TextToMdString(text: string) returns (md: string)
    ensures md == Normalised(text)
  {
    var lines := SplitLines(text);
    var out := PrintBlocks(Blocks(lines));
    forall i | 0 <= i < |lines|
      ensures OneLine(lines[i])
    {
      SplitGivesLines(text, i);
    }
    BlocksHaveLines(lines);
    OutIsSpaced(Blocks(lines));
    var norm := Collapse(out);
    norm := TrimEnd(norm);
    md := Join(norm) + "\n";
  }

  method PrintBlocks(blocks: seq<Block>) returns (out: seq<string>)
    ensures out == Out(blocks)
  {
    out := [];
    for i := 0 to |blocks|
      invariant out == Out(blocks[..i])
    {
      assert blocks[..i + 1][..i] == blocks[..i];
      var b := blocks[i];
      match b
      case Blank =>
        if out != [] && out[|out| - 1] != "" {
          out := out + [""];
        }
      case Heading(level, content) =>
        if out != [] && out[|out| - 1] != "" {
          out := out + [""];
        }
        out := out + [Repeat('#', level) + " " + content];
      case Bullet(content) =>
        out := out + ["- " + content];
      case Quote(content) =>
        out := out + ["> " + content];
      case Speaker(content) =>
        if out != [] && out[|out| - 1] != "" {
          out := out + [""];
        }
        out := out + [content];
      case Para(content) =>
        out := out + [content];
    }
    assert blocks[..|blocks|] == blocks;
  }

  method TrimEnd(lines: seq<string>) returns (norm: seq<string>)
    ensures norm == Trimmed(lines)
  {
    norm := lines;
    while norm != [] && norm[|norm| - 1] == ""
      invariant Trimmed(norm) == Trimmed(lines)
      decreases |norm|
    {
      norm := norm[..|norm| - 1];
    }
  }

  /** The loop that removes doubled blank lines finds none. */
  method Collapse(out: seq<string>) returns (norm: seq<string>)
    requires Spaced(out)
    ensures norm == out
  {
    norm := [];
    var prevBlank := false;
    for i := 0 to |out|
      invariant norm == out[..i]
      invariant prevBlank == (i > 0 && out[i - 1] == "")
    {
      var line := out[i];
      if line == "" {
        if !prevBlank {
          norm := norm + [line];
        }
        prevBlank := true;
      } else {
        norm := norm + [line];
        prevBlank := false;
      }
    }
  }

  // ---- One line -------------------------------------------------------------------------------------

  lemma StripTight(s: string)
    requires Tight(s)
    ensures Strip(" " + s) == s
  {
    var t := " " + s;
    assert t[1..] == s;
    if s != "" {
      assert t[1] == s[0];
      assert Blanks(t) == 1;
    } else {
      assert Blanks(t) == 1;
    }
  }

  lemma StripOneLine(s: string)
    requires OneLine(s)
    ensures OneLine(Strip(s)) && Tight(Strip(s))
  {
    StripIsSlice(s);
    StripEnds(s);
  }

  /** A line that does not end with a blank; such lines are what _iter_blocks classifies. */
  predicate Ended(line: string)
  {
    OneLine(line) && line != "" && !IsSpace(line[|line| - 1])
  }

  lemma EndedKeeps(line: string)
    requires Ended(line)
    ensures Strip(line) != "" && Classify(line) == ClassifyLine(line)
  {
    StripKeeps(line, |line| - 1);
    RStripEnded(line);
  }

  lemma RStripEnded(line: string)
    requires line != "" && !IsSpace(line[|line| - 1])
    ensures RStrip(line) == line
  {
    assert Kept(line) == |line| && line[..|line|] == line;
  }

  lemma QuoteMark(line: string)
    requires Strip(line) != "" && line != "" && line[0] == '>'
    ensures ClassifyLine(line) == Quote(Strip(line[1..]))
  {
    assert Hashes(line) == 0;
  }

  lemma BulletMark(line: string)
    requires Strip(line) != "" && |line| >= 2 && line[0] == '-' && line[1] == ' '
    ensures ClassifyLine(line) == Bullet(Strip(line[1..]))
  {
    assert Hashes(line) == 0;
  }

  /** What is left of the line after its marker is not empty. */
  lemma EndedContent(line: string, k: nat)
    requires Ended(line) && k < |line|
    ensures var c := Strip(line[k..]); c != "" && Tight(c) && OneLine(c)
  {
    StripKeeps(line[k..], |line| - 1 - k);
    StripOneLine(line[k..]);
  }

  lemma {:induction false} HashesOf(k: nat, rest: string)
    requires rest == "" || rest[0] != '#'
    ensures Hashes(Repeat('#', k) + rest) == k
    ensures OneLine(Repeat('#', k))
  {
    var s := Repeat('#', k) + rest;
    if k > 0 {
      assert s[1..] == Repeat('#', k - 1) + rest;
      HashesOf(k - 1, rest);
    } else {
      assert s == rest;
    }
  }

  lemma HeadingReadsBack(level: nat, content: string)
    requires 1 <= level <= 6 && content != "" && Tight(content) && OneLine(content)
    ensures var line := Line(Heading(level, content)); ClassifyLine(line) == Heading(level, content) && Ended(line)
  {
    var marks, rest := Repeat('#', level), " " + content;
    var line := marks + rest;
    assert line == Line(Heading(level, content));
    HashesOf(level, rest);
    assert line[level] == ' ' && line[level..] == rest;
    assert rest[|rest| - 1] == content[|content| - 1];
    assert Ended(line);
    EndedKeeps(line);
    StripTight(content);
  }

  lemma MarkedLine(line: string, content: string)
    requires line != "" && !IsBreak(line[0]) && line[1..] == " " + content
    requires content != "" && Tight(content) && OneLine(content)
    ensures Ended(line) && line[1] == ' ' && Strip(line[1..]) == content
  {
    StripTight(content);
    assert line == [line[0]] + (" " + content);
    assert line[|line| - 1] == content[|content| - 1];
  }

  lemma BulletReadsBack(content: string)
    requires content != "" && Tight(content) && OneLine(content)
    ensures var line := Line(Bullet(content)); ClassifyLine(line) == Bullet(content) && Ended(line)
  {
    var line := "- " + content;
    assert line[1..] == " " + content;
    MarkedLine(line, content);
    EndedKeeps(line);
    BulletMark(line);
  }

  lemma QuoteReadsBack(content: string)
    requires content != "" && Tight(content) && OneLine(content)
    ensures var line := Line(Quote(content)); ClassifyLine(line) == Quote(content) && Ended(line)
  {
    var line := "> " + content;
    assert line[1..] == " " + content;
    MarkedLine(line, content);
    EndedKeeps(line);
    QuoteMark(line);
  }

  /** An empty quote is printed with a blank at its end, which the next reading drops. */
  lemma EmptyQuoteReadsBack()
    ensures Classify("> ") == Quote("") && OneLine("> ")
  {
    assert "> "[..1] == ">" && Kept("> ") == 1 && RStrip("> ") == ">";
    EndedKeeps(">");
    QuoteMark(">");
    assert ">"[1..] == "" && Strip("") == "";
  }

  predicate ReadsBack(b: Block)
  {
    Classify(Line(b)) == b && OneLine(Line(b)) && Line(b) != ""
  }

  lemma EndedReadsBack(line: string)
    requires Ended(line)
    ensures ReadsBack(ClassifyLine(line))
  {
    EndedKeeps(line);
    if IsHeading(line) {
      var level := Hashes(line);
      EndedContent(line, level);
      var content := Strip(line[level..]);
      HeadingReadsBack(level, content);
      EndedKeeps(Line(Heading(level, content)));
    } else if IsBullet(line) {
      EndedContent(line, 1);
      var content := Strip(line[1..]);
      BulletReadsBack(content);
      EndedKeeps(Line(Bullet(content)));
    } else if IsQuote(line) {
      QuoteLineReadsBack(line);
    }
  }

  lemma QuoteLineReadsBack(line: string)
    requires Ended(line)
    ensures ReadsBack(Quote(Strip(line[1..])))
  {
    var content := Strip(line[1..]);
    StripOneLine(line[1..]);
    if content == "" {
      EmptyQuoteReadsBack();
      assert Line(Quote("")) == "> ";
    } else {
      QuoteReadsBack(content);
      EndedKeeps(Line(Quote(content)));
    }
  }

  /** The block of a line is read back from the line it is printed as. */
  lemma LineReadsBack(raw: string)
    requires OneLine(raw) && !Classify(raw).Blank?
    ensures ReadsBack(Classify(raw))
  {
    hide IsHeading, IsBullet, IsQuote, IsSpeaker, ReadsBack;
    var line := RStrip(raw);
    assert Strip("") == "";
    EndedReadsBack(line);
  }

  lemma BlocksHaveLines(lines: seq<string>)
    requires forall i :: 0 <= i < |lines| ==> OneLine(lines[i])
    ensures forall i :: 0 <= i < |lines| && !Blocks(lines)[i].Blank? ==> ReadsBack(Blocks(lines)[i])
  {
    forall i | 0 <= i < |lines| && !Blocks(lines)[i].Blank?
      ensures ReadsBack(Blocks(lines)[i])
    {
      LineReadsBack(lines[i]);
    }
  }

  // ---- The whole text -------------------------------------------------------------------------------

  /** A blank line before every heading and speaker line but the first line. */
  predicate SectionsApart(lines: seq<string>)
  {
    forall i :: 0 < i < |lines| && OpensSection(Classify(lines[i])) ==> lines[i - 1] == ""
  }

  /** A line the printer could have written. */
  predicate Printed(line: string)
  {
    OneLine(line) && (line != "" ==> !Classify(line).Blank? && Line(Classify(line)) == line)
  }

  predicate Canonical(lines: seq<string>)
  {
    && Spaced(lines) && SectionsApart(lines)
    && forall i :: 0 <= i < |lines| ==> Printed(lines[i])
  }

  predicate AllReadBack(blocks: seq<Block>)
  {
    forall i :: 0 <= i < |blocks| && !blocks[i].Blank? ==> ReadsBack(blocks[i])
  }

  lemma BlankReadsBack()
    ensures Classify("") == Blank
  {
    assert RStrip("") == "" && Strip("") == "";
  }

  lemma EmitKeepsCanonical(out: seq<string>, b: Block)
    requires Canonical(out) && (b.Blank? || ReadsBack(b))
    ensures Canonical(Emit(out, b))
  {
    hide Classify, Line;
    BlankReadsBack();
  }

  lemma {:induction false} OutIsCanonical(blocks: seq<Block>)
    requires AllReadBack(blocks)
    ensures Canonical(Out(blocks))
  {
    hide Classify, Line;
    if blocks != [] {
      OutIsCanonical(blocks[..|blocks| - 1]);
      EmitKeepsCanonical(Out(blocks[..|blocks| - 1]), blocks[|blocks| - 1]);
    }
  }

  lemma BlocksSnoc(lines: seq<string>, line: string)
    ensures Blocks(lines + [line]) == Blocks(lines) + [Classify(line)]
  {
    hide Classify, Line;
  }

  lemma NonBlankSnoc(blocks: seq<Block>, b: Block)
    ensures NonBlank(blocks + [b]) == NonBlank(blocks) + if b.Blank? then [] else [b]
  {
    hide Classify, Line;
    assert (blocks + [b])[..|blocks|] == blocks;
  }

  lemma EmitKeepsBlocks(out: seq<string>, b: Block)
    requires b.Blank? || ReadsBack(b)
    ensures NonBlank(Blocks(Emit(out, b))) == NonBlank(Blocks(out)) + if b.Blank? then [] else [b]
  {
    hide Classify, Line;
    BlankReadsBack();
    BlocksSnoc(out, "");
    NonBlankSnoc(Blocks(out), Blank);
    if !b.Blank? {
      var before := if OpensSection(b) then WithGap(out) else out;
      BlocksSnoc(before, Line(b));
      NonBlankSnoc(Blocks(before), b);
    }
  }

  lemma {:induction false} OutKeepsBlocks(blocks: seq<Block>)
    requires AllReadBack(blocks)
    ensures NonBlank(Blocks(Out(blocks))) == NonBlank(blocks)
  {
    hide Classify, Line;
    if blocks != [] {
      OutKeepsBlocks(blocks[..|blocks| - 1]);
      EmitKeepsBlocks(Out(blocks[..|blocks| - 1]), blocks[|blocks| - 1]);
    }
  }

  lemma {:induction false} TrimmedKeeps(lines: seq<string>)
    requires Canonical(lines)
    ensures Canonical(Trimmed(lines)) && NonBlank(Blocks(Trimmed(lines))) == NonBlank(Blocks(lines))
    ensures Trimmed(lines) != [] ==> Trimmed(lines)[|Trimmed(lines)| - 1] != ""
  {
    hide Classify, Line;
    if lines != [] && lines[|lines| - 1] == "" {
      var rest := lines[..|lines| - 1];
      assert lines == rest + [""];
      BlankReadsBack();
      BlocksSnoc(rest, "");
      NonBlankSnoc(Blocks(rest), Blank);
      TrimmedKeeps(rest);
    }
  }

  lemma SplitReadsBack(text: string)
    ensures AllReadBack(Blocks(SplitLines(text)))
  {
    forall i | 0 <= i < |SplitLines(text)|
      ensures OneLine(SplitLines(text)[i])
    {
      SplitGivesLines(text, i);
    }
    BlocksHaveLines(SplitLines(text));
  }

  /** The lines of a normalised text: canonical, with the blocks of the original, and not ending in a blank. */
  lemma LinesAreCanonical(text: string)
    ensures var lines := Lines(text);
            && Canonical(lines) && (lines != [] ==> lines[|lines| - 1] != "")
            && NonBlank(Blocks(lines)) == NonBlank(Blocks(SplitLines(text)))
  {
    hide Classify, Line;
    var blocks := Blocks(SplitLines(text));
    SplitReadsBack(text);
    OutIsCanonical(blocks);
    OutKeepsBlocks(blocks);
    TrimmedKeeps(Out(blocks));
  }

  /** Reading the normalised text gives its lines back; without any block it is one empty line. */
  lemma NormalisedSplits(text: string)
    ensures SplitLines(Normalised(text)) == if Lines(text) == [] then [""] else Lines(text)
  {
    hide Classify, Line;
    var lines := Lines(text);
    LinesAreCanonical(text);
    if lines == [] {
      SplitFirst("", "");
      assert Normalised(text) == "" + "\n" + "";
    } else {
      assert forall i :: 0 <= i < |lines| ==> Printed(lines[i]);
      SplitUndoesJoin(lines);
    }
  }

  /** The printer writes the blocks of the text it read: kinds, levels and contents, in order. */
  lemma NormalisedKeepsBlocks(text: string)
    ensures NonBlank(Blocks(SplitLines(Normalised(text)))) == NonBlank(Blocks(SplitLines(text)))
  {
    hide Classify, Line;
    LinesAreCanonical(text);
    NormalisedSplits(text);
    if Lines(text) == [] {
      BlankReadsBack();
      BlocksSnoc([], "");
      NonBlankSnoc(Blocks([]), Blank);
      assert [] + [""] == [""];
    }
  }

  /** Canonical lines are printed as they are. */
  lemma {:induction false} CanonicalIsFixed(lines: seq<string>)
    requires Canonical(lines)
    ensures Out(Blocks(lines)) == lines
  {
    hide Classify, Line;
    if lines != [] {
      var rest, line := lines[..|lines| - 1], lines[|lines| - 1];
      assert lines == rest + [line];
      CanonicalIsFixed(rest);
      BlocksSnoc(rest, line);
      assert Blocks(lines)[..|lines| - 1] == Blocks(rest);
      BlankReadsBack();
      assert Printed(line);
      LastIsPrinted(rest, line);
    }
  }

  lemma LastIsPrinted(rest: seq<string>, line: string)
    requires Canonical(rest + [line])
    ensures Emit(rest, Classify(line)) == rest + [line]
  {
    hide Classify, Line;
    var lines := rest + [line];
    BlankReadsBack();
    assert lines[|rest|] == line && Printed(lines[|rest|]);
    if rest != [] {
      assert lines[|rest| - 1] == rest[|rest| - 1];
    }
  }

  /** Normalising twice changes nothing. */
  lemma NormalisedIsFixed(text: string)
    ensures Normalised(Normalised(text)) == Normalised(text)
  {
    hide Classify, Line;
    var lines := Lines(text);
    LinesAreCanonical(text);
    NormalisedSplits(text);
    if lines == [] {
      BlankReadsBack();
      assert Blocks([""]) == [Blank];
      assert [Blank][..0] == [] && Out([]) == [] && Out([Blank]) == [];
    } else {
      CanonicalIsFixed(lines);
      assert Trimmed(lines) == lines;
    }
  }

  /** The layout of a normalised text; only the text without blocks starts with a blank line. */
  lemma NormalisedLayout(text: string)
    ensures var lines := SplitLines(Normalised(text));
            && SectionsApart(lines) && lines != []
            && (forall i :: 0 < i < |lines| && lines[i] == "" ==> lines[i - 1] != "")
            && (lines[0] == "" <==> NonBlank(Blocks(SplitLines(text))) == [])
  {
    hide Classify, Line;
    var lines := Lines(text);
    LinesAreCanonical(text);
    NormalisedSplits(text);
    if lines == [] {
      assert Blocks([]) == [] && NonBlank(Blocks([])) == [];
    } else {
      assert Printed(lines[|lines| - 1]);
      assert Blocks(lines)[|lines| - 1] == Classify(lines[|lines| - 1]);
    }
  }

  /** `k` blank lines in the source. */
  function BlankBlocks(k: nat): seq<Block>
  {
    if k == 0 then [] else BlankBlocks(k - 1) + [Blank]
  }

  lemma OutSnoc(blocks: seq<Block>, b: Block)
    ensures Out(blocks + [b]) == Emit(Out(blocks), b)
  {
    hide Emit;
    assert (blocks + [b])[..|blocks|] == blocks;
  }

  lemma {:induction false} BlanksLeaveOne(blocks: seq<Block>, k: nat)
    requires Out(blocks) != [] && Out(blocks)[|Out(blocks)| - 1] != ""
    ensures Out(blocks + BlankBlocks(k)) == Out(blocks) + if k > 0 then [""] else []
  {
    hide Line, Out;
    if k == 0 {
      assert blocks + BlankBlocks(k) == blocks;
    } else {
      assert blocks + BlankBlocks(k) == blocks + BlankBlocks(k - 1) + [Blank];
      BlanksLeaveOne(blocks, k - 1);
      OutSnoc(blocks + BlankBlocks(k - 1), Blank);
    }
  }

  /**
   Between two blocks there is a blank line exactly when the source had at least one there, or the second one
   opens a section.
   */
  lemma GapExactly(blocks: seq<Block>, a: Block, k: nat, b: Block)
    requires Line(a) != "" && Line(b) != ""
    ensures var before := Out(blocks + [a]);
            && before != [] && before[|before| - 1] == Line(a)
            && Out(blocks + [a] + BlankBlocks(k) + [b])
              == before + (if k > 0 || OpensSection(b) then [""] else []) + [Line(b)]
  {
    hide Out;
    assert !a.Blank? && !b.Blank?;
    OutSnoc(blocks, a);
    BlanksLeaveOne(blocks + [a], k);
    OutSnoc(blocks + [a] + BlankBlocks(k), b);
  }

  /** A blank line between any two lines that are none. */
  predicate Separated(lines: seq<string>)
  {
    forall i :: 0 <= i < |lines| - 1 ==> lines[i] == "" || lines[i + 1] == ""
  }

  /** Two blocks on successive lines: the second opens a section. */
  predicate SectionsOnly(blocks: seq<Block>)
  {
    forall i :: 0 <= i < |blocks| - 1 ==> blocks[i].Blank? || blocks[i + 1].Blank? || OpensSection(blocks[i + 1])
  }

  predicate HaveLines(blocks: seq<Block>)
  {
    forall i :: 0 <= i < |blocks| && !blocks[i].Blank? ==> Line(blocks[i]) != ""
  }

  /** What the last line written says of the last block. */
  lemma LastLineBlank(blocks: seq<Block>)
    requires HaveLines(blocks) && Out(blocks) != []
    ensures blocks != [] && (Out(blocks)[|Out(blocks)| - 1] == "" <==> blocks[|blocks| - 1].Blank?)
  {
    hide Line;
  }

  lemma SeparatedSnoc(lines: seq<string>, line: string)
    ensures Separated(lines + [line])
       <==> Separated(lines) && (lines == [] || lines[|lines| - 1] == "" || line == "")
  {
    var all := lines + [line];
    if Separated(all) {
      forall i | 0 <= i < |lines| - 1
        ensures lines[i] == "" || lines[i + 1] == ""
      {
        assert all[i] == lines[i] && all[i + 1] == lines[i + 1];
      }
      assert lines != [] ==> all[|lines| - 1] == "" || all[|lines| - 1 + 1] == "";
    }
  }

  lemma SectionsOnlySnoc(blocks: seq<Block>, b: Block)
    ensures SectionsOnly(blocks + [b]) <==>
              && SectionsOnly(blocks)
              && (blocks == [] || blocks[|blocks| - 1].Blank? || b.Blank? || OpensSection(b))
  {
    hide OpensSection;
    var all := blocks + [b];
    if SectionsOnly(all) {
      forall i | 0 <= i < |blocks| - 1
        ensures blocks[i].Blank? || blocks[i + 1].Blank? || OpensSection(blocks[i + 1])
      {
        assert all[i] == blocks[i] && all[i + 1] == blocks[i + 1];
      }
      assert blocks != [] ==>
          all[|blocks| - 1].Blank? || all[|blocks| - 1 + 1].Blank? || OpensSection(all[|blocks| - 1 + 1]);
    }
  }

  lemma EmitSeparatedIff(out: seq<string>, b: Block)
    requires !b.Blank? ==> Line(b) != ""
    ensures Separated(Emit(out, b)) <==>
              Separated(out) && (out == [] || out[|out| - 1] == "" || b.Blank? || OpensSection(b))
  {
    hide Line, Separated, OpensSection;
    SeparatedSnoc(out, "");
    SeparatedSnoc(out, Line(b));
    SeparatedSnoc(WithGap(out), Line(b));
  }

  lemma {:induction false} OutSeparatedIff(blocks: seq<Block>)
    requires HaveLines(blocks)
    ensures Separated(Out(blocks)) <==> SectionsOnly(blocks)
  {
    hide Separated, SectionsOnly, Line, OpensSection;
    if blocks == [] {
      NothingSeparated();
    } else {
      var rest, b := blocks[..|blocks| - 1], blocks[|blocks| - 1];
      assert blocks == rest + [b];
      OutSeparatedIff(rest);
      EmitSeparatedIff(Out(rest), b);
      SectionsOnlySnoc(rest, b);
      if Out(rest) != [] {
        LastLineBlank(rest);
      } else {
        NothingWritten(rest);
      }
    }
  }

  lemma NothingSeparated()
    ensures Separated([]) && SectionsOnly([])
  {
  }

  lemma NothingWritten(blocks: seq<Block>)
    requires Out(blocks) == []
    ensures blocks == [] || blocks[|blocks| - 1].Blank?
  {
  }

  lemma {:induction false} TrimmedSeparatedIff(lines: seq<string>)
    ensures Separated(Trimmed(lines)) <==> Separated(lines)
  {
    hide Separated;
    if lines != [] && lines[|lines| - 1] == "" {
      TrimmedSeparatedIff(lines[..|lines| - 1]);
      SeparatedSnoc(lines[..|lines| - 1], "");
      assert lines == lines[..|lines| - 1] + [""];
    }
  }

  /**
   "One blank line between the blocks", as documented, is what a text gets exactly if any two of its blocks on
   successive lines are apart already, by the second being a heading or a speaker line.
   */
  lemma BlocksSeparatedIff(text: string)
    ensures Separated(Lines(text)) <==> SectionsOnly(Blocks(SplitLines(text)))
  {
    hide Classify, Line, Separated, SectionsOnly, Trimmed, Out, SplitLines, OneLine;
    var lines := SplitLines(text);
    forall i | 0 <= i < |lines|
      ensures OneLine(lines[i])
    {
      SplitGivesLines(text, i);
    }
    BlocksHaveLines(lines);
    OutSeparatedIff(Blocks(lines));
    TrimmedSeparatedIff(Out(Blocks(lines)));
  }

  /** Two paragraphs on successive lines stay so. */
  lemma ParagraphsRunTogether()
    ensures Lines("a\nb") == ["a", "b"] && Normalised("a\nb") == "a\nb\n"
  {
    hide SplitLines, Classify;
    SplitFirst("a", "b");
    assert "a\nb" == "a" + "\n" + "b" && SplitLines("a\nb") == ["a"] + SplitLines("b");
    LetterLine("b");
    LetterLine("a");
    var blocks := Blocks(["a", "b"]);
    assert blocks == [Para("a"), Para("b")];
    assert blocks[..1] == [Para("a")] && blocks[..1][..0] == [];
    assert Out(blocks[..1]) == ["a"];
  }

  lemma LetterLine(s: string)
    requires |s| == 1 && 'a' <= s[0] <= 'z'
    ensures SplitLines(s) == [s] && Classify(s) == Para(s)
  {
    assert s[1..] == "" && LineEnd(s) == 1 && Hashes(s) == 0;
    assert Blanks(s) == 0 && LStrip(s) == s && Kept(s) == 1 && s[..1] == s && Strip(s) == s && RStrip(s) == s;
  }
}
