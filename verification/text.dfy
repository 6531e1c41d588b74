/** The string methods the text algorithms rely on. Characters are Unicode scalar values. */
module Text {

  /** str.isspace for one character, which is also what strip removes and what `\s` matches. */
  predicate IsSpace(c: char)
  {
    var u := c as int;
    || 9 <= u <= 13 || 28 <= u <= 32 || u == 0x85 || u == 0xA0 || u == 0x1680 || 0x2000 <= u <= 0x200A
    || u == 0x2028 || u == 0x2029 || u == 0x202F || u == 0x205F || u == 0x3000
  }

  /** How many blanks lstrip removes. */
  function Blanks(s: string): (k: nat)
    ensures k <= |s|
    ensures k < |s| ==> !IsSpace(s[k])
  {
    if s != "" && IsSpace(s[0]) then 1 + Blanks(s[1..]) else 0
  }

  lemma {:induction false} BlanksAreSpaces(s: string, i: nat)
    requires i < Blanks(s)
    ensures IsSpace(s[i])
  {
    if i > 0 {
      BlanksAreSpaces(s[1..], i - 1);
    }
  }

  function LStrip(s: string): string
  {
    s[Blanks(s)..]
  }

  /** The length rstrip leaves. */
  function Kept(s: string): (k: nat)
    ensures k <= |s|
    ensures k > 0 ==> !IsSpace(s[k - 1])
  {
    if s != "" && IsSpace(s[|s| - 1]) then Kept(s[..|s| - 1]) else |s|
  }

  lemma {:induction false} PastKeptAreSpaces(s: string, i: nat)
    requires Kept(s) <= i < |s|
    ensures IsSpace(s[i])
    decreases |s|
  {
    if i < |s| - 1 {
      PastKeptAreSpaces(s[..|s| - 1], i);
    }
  }

  function RStrip(s: string): string
  {
    s[..Kept(s)]
  }

  function Strip(s: string): string
  {
    RStrip(LStrip(s))
  }

  predicate AllSpace(s: string)
  {
    forall i :: 0 <= i < |s| ==> IsSpace(s[i])
  }

  lemma {:induction false} LStripAfter(gap: string, rest: string)
    requires AllSpace(gap) && (rest == "" || !IsSpace(rest[0]))
    ensures LStrip(gap + rest) == rest
  {
    hide IsSpace;
    if gap == "" {
      assert gap + rest == rest;
    } else {
      assert (gap + rest)[1..] == gap[1..] + rest;
      LStripAfter(gap[1..], rest);
      assert Blanks(gap + rest) == 1 + Blanks(gap[1..] + rest);
    }
  }

  lemma {:induction false} RStripAfter(s: string, tail: string)
    requires s != "" && !IsSpace(s[|s| - 1])
    ensures RStrip(s + tail) == s + RStrip(tail)
    decreases |tail|
  {
    hide IsSpace;
    if tail == "" {
      assert s + tail == s;
    } else {
      assert (s + tail)[..|s + tail| - 1] == s + tail[..|tail| - 1];
      RStripAfter(s, tail[..|tail| - 1]);
    }
  }

  /** s.find(c, lo, hi) */
  function Find(s: string, c: char, lo: nat, hi: nat): (i: int)
    requires hi <= |s|
    ensures i == -1 || (lo <= i < hi && s[i] == c)
    decreases hi - lo
  {
    if hi <= lo then -1 else if s[lo] == c then lo else Find(s, c, lo + 1, hi)
  }

  /** The character found is the first one. */
  lemma {:induction false} FindIsFirst(s: string, c: char, lo: nat, hi: nat)
    requires hi <= |s|
    ensures var i := Find(s, c, lo, hi); forall k :: lo <= k < (if i == -1 then hi else i) ==> s[k] != c
    decreases hi - lo
  {
    if lo < hi && s[lo] != c {
      FindIsFirst(s, c, lo + 1, hi);
    }
  }

  predicate OccursAt(s: string, sep: string, i: nat)
  {
    i + |sep| <= |s| && s[i..i + |sep|] == sep
  }

  /** s.rfind(sep, lo, hi), for hi within the text. */
  function RFind(s: string, sep: string, lo: nat, hi: nat): (i: int)
    requires hi <= |s|
    ensures i == -1 || (lo <= i && i + |sep| <= hi && OccursAt(s, sep, i))
    decreases hi
  {
    if hi < lo + |sep| then -1
    else if s[hi - |sep|..hi] == sep then hi - |sep|
    else if hi == 0 then -1
    else RFind(s, sep, lo, hi - 1)
  }

  lemma {:induction false} RFindMisses(s: string, sep: string, lo: nat, hi: nat, i: nat)
    requires hi <= |s| && RFind(s, sep, lo, hi) == -1 && lo <= i && i + |sep| <= hi
    ensures !OccursAt(s, sep, i)
    decreases hi
  {
    if i + |sep| < hi {
      RFindMisses(s, sep, lo, hi - 1, i);
    }
  }

  /** The occurrence found is the last one. */
  lemma {:induction false} RFindIsLast(s: string, sep: string, lo: nat, hi: nat, i: nat)
    requires hi <= |s| && lo <= i && i + |sep| <= hi && OccursAt(s, sep, i)
    ensures i <= RFind(s, sep, lo, hi)
    decreases hi
  {
    if i + |sep| < hi {
      RFindIsLast(s, sep, lo, hi - 1, i);
    }
  }

  lemma SliceOfSlice(s: string, lo: nat, hi: nat, i: nat, j: nat)
    requires lo <= hi <= |s| && i <= j <= hi - lo
    ensures s[lo..hi][i..j] == s[lo + i..lo + j]
  {
    var window, x, y := s[lo..hi], s[lo..hi][i..j], s[lo + i..lo + j];
    forall k | 0 <= k < |x|
      ensures x[k] == y[k]
    {
      assert x[k] == window[i + k];
    }
  }

  lemma SliceJoin(s: string, i: nat, j: nat)
    requires i <= j <= |s|
    ensures s[..i] + s[i..j] == s[..j]
  {
  }

  lemma SliceOfMiddle(a: string, b: string, c: string, i: nat, j: nat)
    requires i <= j <= |b|
    ensures (a + b + c)[|a| + i..|a| + j] == b[i..j]
  {
  }

  /** strip returns the slice between the blanks at both ends. */
  lemma StripIsSlice(s: string)
    ensures var k, n := Blanks(s), |Strip(s)|; k + n <= |s| && Strip(s) == s[k..k + n]
  {
  }

  lemma StripEnds(s: string)
    ensures Strip(s) != "" ==> !IsSpace(Strip(s)[0]) && !IsSpace(Strip(s)[|Strip(s)| - 1])
  {
  }

  /** Stripping keeps every character that is not a blank. */
  lemma StripKeeps(s: string, i: nat)
    requires i < |s| && !IsSpace(s[i])
    ensures Blanks(s) <= i < Blanks(s) + |Strip(s)|
  {
    var t := LStrip(s);
    if i < Blanks(s) {
      BlanksAreSpaces(s, i);
    } else if Kept(t) <= i - Blanks(s) {
      PastKeptAreSpaces(t, i - Blanks(s));
    }
  }

  /** A text with no blank at its edges. */
  predicate Tight(s: string)
  {
    s != "" ==> !IsSpace(s[0]) && !IsSpace(s[|s| - 1])
  }

  lemma StripOfTight(s: string)
    requires Tight(s)
    ensures Strip(s) == s
  {
    assert Blanks(s) == 0 && s[0..] == s;
    assert Kept(s) == |s| && s[..|s|] == s;
  }
}
