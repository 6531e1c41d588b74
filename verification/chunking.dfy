/**
 Time chunks for the transcript index (`chunking.py`). A chunk is a window [i, j) of the segments sorted by
 start; the theorems at the end of the file are about the windows of any input. Seconds are exact reals.
 */
module Chunking {
  import opened Text

  datatype Segment = Segment(start: real, duration: real, text: string)

  datatype Chunk = Chunk(start: real, end: real, text: string)

  datatype Window = Window(i: nat, j: nat)

  datatype Params = Params(target: real, overlap: real)

  function End(s: Segment): real
  {
    s.start + s.duration
  }

  // ---- sorted(segments, key=start_seconds) ----------------------------------------------------------

  predicate Sorted(segs: seq<Segment>)
  {
    forall a, b :: 0 <= a < b < |segs| ==> segs[a].start <= segs[b].start
  }

  /** Before the later ones, after the ones with an equal start. */
  function Insert(segs: seq<Segment>, s: Segment): (r: seq<Segment>)
    ensures |r| == |segs| + 1
  {
    if segs != [] && segs[|segs| - 1].start > s.start
    then Insert(segs[..|segs| - 1], s) + [segs[|segs| - 1]]
    else segs + [s]
  }

  function SortByStart(segs: seq<Segment>): seq<Segment>
  {
    if segs == [] then [] else Insert(SortByStart(segs[..|segs| - 1]), segs[|segs| - 1])
  }

  function StartingAt(segs: seq<Segment>, t: real): seq<Segment>
  {
    if segs == [] then []
    else
      var s := segs[|segs| - 1];
      StartingAt(segs[..|segs| - 1], t) + if s.start == t then [s] else []
  }

  lemma {:induction false} InsertSorts(segs: seq<Segment>, s: Segment)
    requires Sorted(segs)
    ensures Sorted(Insert(segs, s))
    ensures Insert(segs, s)[|segs|].start == if segs != [] && segs[|segs| - 1].start > s.start
            then segs[|segs| - 1].start else s.start
  {
    if segs != [] && segs[|segs| - 1].start > s.start {
      InsertSorts(segs[..|segs| - 1], s);
    }
  }

  lemma {:induction false} InsertAdds(segs: seq<Segment>, s: Segment)
    ensures multiset(Insert(segs, s)) == multiset(segs) + multiset{s}
  {
    if segs != [] && segs[|segs| - 1].start > s.start {
      InsertAdds(segs[..|segs| - 1], s);
      assert segs == segs[..|segs| - 1] + [segs[|segs| - 1]];
    }
  }

  lemma StartingAtSnoc(segs: seq<Segment>, s: Segment, t: real)
    ensures StartingAt(segs + [s], t) == StartingAt(segs, t) + if s.start == t then [s] else []
  {
    assert (segs + [s])[..|segs|] == segs;
  }

  lemma {:induction false} InsertIsStable(segs: seq<Segment>, s: Segment, t: real)
    ensures StartingAt(Insert(segs, s), t) == StartingAt(segs, t) + if s.start == t then [s] else []
  {
    hide StartingAt;
    if segs != [] && segs[|segs| - 1].start > s.start {
      var rest, last := segs[..|segs| - 1], segs[|segs| - 1];
      assert segs == rest + [last];
      InsertIsStable(rest, s, t);
      StartingAtSnoc(Insert(rest, s), last, t);
      StartingAtSnoc(rest, last, t);
    } else {
      StartingAtSnoc(segs, s, t);
    }
  }

  /** Sorted, the same segments, and those with equal starts in their old order. */
  lemma {:induction false} SortIsStable(segs: seq<Segment>, t: real)
    ensures Sorted(SortByStart(segs)) && multiset(SortByStart(segs)) == multiset(segs)
    ensures StartingAt(SortByStart(segs), t) == StartingAt(segs, t)
  {
    hide StartingAt, Sorted, Insert;
    if segs == [] {
      assert Sorted([]) by {
        SortedNil();
      }
    } else {
      var rest, s := segs[..|segs| - 1], segs[|segs| - 1];
      assert segs == rest + [s];
      SortIsStable(rest, t);
      InsertSorts(SortByStart(rest), s);
      InsertAdds(SortByStart(rest), s);
      InsertIsStable(SortByStart(rest), s, t);
      StartingAtSnoc(rest, s, t);
    }
  }

  lemma SortedNil()
    ensures Sorted([])
  {
  }

  // ---- The windows ----------------------------------------------------------------------------------

  /** Where the inner loop stops, from j on, in the chunk that starts at i. */
  function Close(segs: seq<Segment>, i: nat, j: nat, p: Params): (r: nat)
    requires i <= j <= |segs|
    ensures j <= r <= |segs|
    decreases |segs| - j
  {
    if j < |segs| && (j == i || End(segs[j]) - segs[i].start <= p.target) then Close(segs, i, j + 1, p) else j
  }

  /** The first segment from k on that starts at or after the threshold, or j. */
  function Restart(segs: seq<Segment>, k: nat, j: nat, threshold: real): (r: nat)
    requires k <= j <= |segs|
    ensures k <= r <= j
    decreases j - k
  {
    if k < j && segs[k].start < threshold then Restart(segs, k + 1, j, threshold) else k
  }

  function NextStart(segs: seq<Segment>, w: Window, p: Params): (r: nat)
    requires w.i < w.j <= |segs|
    ensures w.i < r <= w.j
  {
    Restart(segs, w.i + 1, w.j, End(segs[w.j - 1]) - p.overlap)
  }

  function Windows(segs: seq<Segment>, i: nat, p: Params): seq<Window>
    requires i < |segs|
    decreases |segs| - i
  {
    var w := Window(i, Close(segs, i, i, p));
    if w.j >= |segs| then [w] else [w] + Windows(segs, NextStart(segs, w, p), p)
  }

  /** " ".join(s.text.strip() for s in segs if s.text.strip()) */
  function TextOf(segs: seq<Segment>): string
  {
    if segs == [] then ""
    else
      var before, last := TextOf(segs[..|segs| - 1]), Strip(segs[|segs| - 1].text);
      if last == "" then before else if before == "" then last else before + " " + last
  }

  function ChunkOf(segs: seq<Segment>, w: Window): Chunk
    requires w.i < w.j <= |segs|
  {
    Chunk(segs[w.i].start, End(segs[w.j - 1]), TextOf(segs[w.i..w.j]))
  }

  predicate InRange(segs: seq<Segment>, ws: seq<Window>)
  {
    forall k :: 0 <= k < |ws| ==> ws[k].i < ws[k].j <= |segs|
  }

  /** The chunks are those of the windows of the sorted segments. */
  predicate ChunksAre(segs: seq<Segment>, ws: seq<Window>, chunks: seq<Chunk>)
  {
    && InRange(segs, ws) && |chunks| == |ws|
    && forall k :: 0 <= k < |ws| ==> chunks[k] == ChunkOf(segs, ws[k])
  }

  method ChunkSegments(segments: seq<Segment>, p: Params) returns (chunks: seq<Chunk>)
    ensures var segs := SortByStart(segments);
            ChunksAre(segs, if segs == [] then [] else Windows(segs, 0, p), chunks)
  {
    hide SortByStart, Close, Windows, ChunksAre, NextStart, TextOf, Done;
    var segs := SortByStart(segments);
    chunks := [];
    NoChunks(segs);
    if segs == [] {
      return;
    }
    ghost var ws: seq<Window> := [];
    NoneDone(segs, p);
    var i := 0;
    var n := |segs|;
    while i < n
      invariant 0 <= i <= n
      invariant Done(segs, ws, i, p)
      invariant ChunksAre(segs, ws, chunks)
      decreases n - i
    {
      var j, chunk := FillChunk(segs, i, p);
      ghost var w := Window(i, j);
      OneMoreDone(segs, ws, w, p);
      AppendChunk(segs, ws, chunks, w, chunk);
      ws := ws + [w];
      chunks := chunks + [chunk];
      if j >= n {
        i := n;
        break;
      }
      var nextI := FindRestart(segs, i, j, chunk.end, p);
      if nextI <= i {
        nextI := i + 1;
      }
      i := nextI;
    }
    AllDone(segs, ws, p);
  }

  /** Once `done` are closed and the next chunk starts at i. */
  ghost predicate Done(segs: seq<Segment>, done: seq<Window>, i: nat, p: Params)
    requires segs != []
  {
    Windows(segs, 0, p) == done + if i < |segs| then Windows(segs, i, p) else []
  }

  lemma NoneDone(segs: seq<Segment>, p: Params)
    requires segs != []
    ensures Done(segs, [], 0, p)
  {
    hide Windows;
  }

  lemma OneMoreDone(segs: seq<Segment>, done: seq<Window>, w: Window, p: Params)
    requires w.i < |segs| && Done(segs, done, w.i, p) && w.j == Close(segs, w.i, w.i, p) && w.i < w.j
    ensures Done(segs, done + [w], if w.j >= |segs| then |segs| else NextStart(segs, w, p), p)
  {
    hide Windows, Close, NextStart;
    FirstOfWindows(segs, w, p);
    if w.j < |segs| {
      assert done + ([w] + Windows(segs, NextStart(segs, w, p), p))
        == done + [w] + Windows(segs, NextStart(segs, w, p), p);
    }
  }

  lemma AllDone(segs: seq<Segment>, done: seq<Window>, p: Params)
    requires segs != [] && Done(segs, done, |segs|, p)
    ensures Windows(segs, 0, p) == done
  {
    hide Windows;
  }

  lemma NoChunks(segs: seq<Segment>)
    ensures ChunksAre(segs, [], [])
  {
  }

  lemma AppendChunk(segs: seq<Segment>, ws: seq<Window>, chunks: seq<Chunk>, w: Window, chunk: Chunk)
    requires ChunksAre(segs, ws, chunks) && w.i < w.j <= |segs| && chunk == ChunkOf(segs, w)
    ensures ChunksAre(segs, ws + [w], chunks + [chunk])
  {
    hide ChunkOf;
  }

  lemma FirstOfWindows(segs: seq<Segment>, w: Window, p: Params)
    requires w.i < |segs| && w.j == Close(segs, w.i, w.i, p) && w.i < w.j
    ensures Windows(segs, w.i, p) == if w.j >= |segs| then [w] else [w] + Windows(segs, NextStart(segs, w, p), p)
  {
    hide Close, NextStart;
  }

  /** One round of the outer loop, up to the appended chunk. */
  method FillChunk(segs: seq<Segment>, i: nat, p: Params) returns (j: nat, chunk: Chunk)
    requires i < |segs|
    ensures i < j == Close(segs, i, i, p) && chunk == ChunkOf(segs, Window(i, j))
  {
    hide TextOf;
    var chunkStart := segs[i].start;
    var chunkEnd := chunkStart;
    var chunkSegs: seq<Segment> := [];
    j := i;
    while j < |segs|
      invariant i <= j <= |segs|
      invariant Close(segs, i, i, p) == Close(segs, i, j, p)
      invariant chunkSegs == segs[i..j]
      invariant j > i ==> chunkEnd == End(segs[j - 1])
    {
      var sEnd := segs[j].start + segs[j].duration;
      if chunkSegs != [] && sEnd - chunkStart > p.target {
        break;
      }
      chunkSegs := chunkSegs + [segs[j]];
      chunkEnd := sEnd;
      j := j + 1;
    }
    chunk := Chunk(chunkStart, chunkEnd, TextOf(chunkSegs));
  }

  /** The for loop that looks for the next start. */
  method FindRestart(segs: seq<Segment>, i: nat, j: nat, chunkEnd: real, p: Params) returns (nextI: int)
    requires i < j <= |segs| && chunkEnd == End(segs[j - 1])
    ensures nextI == NextStart(segs, Window(i, j), p)
  {
    var threshold := chunkEnd - p.overlap;
    nextI := j;
    for k := i + 1 to j
      invariant nextI == j
      invariant Restart(segs, i + 1, j, threshold) == Restart(segs, k, j, threshold)
    {
      if segs[k].start >= threshold {
        nextI := k;
        break;
      }
    }
  }

  // ---- What the windows are -------------------------------------------------------------------------

  /** A window holds one segment or spans at most the target, and the next segment would not fit. */
  predicate Fits(segs: seq<Segment>, w: Window, p: Params)
  {
    && w.i < w.j <= |segs|
    && (forall m :: w.i < m < w.j ==> End(segs[m]) - segs[w.i].start <= p.target)
    && (w.j < |segs| ==> End(segs[w.j]) - segs[w.i].start > p.target)
  }

  /**
   The next window starts inside this one or right after it, at the first segment the overlap reaches, and does not end
   before it.
   */
  predicate Follows(segs: seq<Segment>, w: Window, next: Window, p: Params)
  {
    && w.i < next.i <= w.j <= next.j <= |segs| && w.j < |segs|
    && (forall k :: w.i < k < next.i ==> segs[k].start < End(segs[w.j - 1]) - p.overlap)
    && (next.i < w.j ==> End(segs[w.j - 1]) - segs[next.i].start <= p.overlap)
  }

  lemma {:induction false} CloseFits(segs: seq<Segment>, i: nat, j: nat, p: Params)
    requires i <= j <= |segs|
    ensures var r := Close(segs, i, j, p);
            && (i == j < |segs| ==> r > i)
            && (forall m :: j <= m < r && i < m ==> End(segs[m]) - segs[i].start <= p.target)
            && (i < r < |segs| ==> End(segs[r]) - segs[i].start > p.target)
    decreases |segs| - j
  {
    if j < |segs| && (j == i || End(segs[j]) - segs[i].start <= p.target) {
      CloseFits(segs, i, j + 1, p);
    }
  }

  lemma {:induction false} RestartIsFirst(segs: seq<Segment>, k: nat, j: nat, threshold: real)
    requires k <= j <= |segs|
    ensures var r := Restart(segs, k, j, threshold);
            (r < j ==> segs[r].start >= threshold) && forall m :: k <= m < r ==> segs[m].start < threshold
    decreases j - k
  {
    if k < j && segs[k].start < threshold {
      RestartIsFirst(segs, k + 1, j, threshold);
    }
  }

  /** A later chunk keeps every segment that fitted an earlier one, since it starts no earlier. */
  lemma {:induction false} CloseReaches(segs: seq<Segment>, w: Window, i: nat, j: nat, p: Params)
    requires Sorted(segs) && Fits(segs, w, p) && w.i < i <= j <= w.j && i < |segs|
    ensures Close(segs, i, j, p) >= w.j
    decreases w.j - j
  {
    if j < w.j {
      assert End(segs[j]) - segs[w.i].start <= p.target && segs[w.i].start <= segs[i].start;
      CloseReaches(segs, w, i, j + 1, p);
    }
  }

  lemma FirstWindow(segs: seq<Segment>, i: nat, p: Params)
    requires i < |segs|
    ensures Fits(segs, Window(i, Close(segs, i, i, p)), p)
  {
    CloseFits(segs, i, i, p);
  }

  lemma NextFollows(segs: seq<Segment>, w: Window, p: Params)
    requires Sorted(segs) && Fits(segs, w, p) && w.j < |segs|
    ensures var i := NextStart(segs, w, p); Follows(segs, w, Window(i, Close(segs, i, i, p)), p)
  {
    var i := NextStart(segs, w, p);
    RestartIsFirst(segs, w.i + 1, w.j, End(segs[w.j - 1]) - p.overlap);
    CloseReaches(segs, w, i, i, p);
  }

  /** The windows of a run, first to last. */
  ghost predicate Chain(segs: seq<Segment>, ws: seq<Window>, p: Params)
  {
    && (forall k :: 0 <= k < |ws| ==> Fits(segs, ws[k], p))
    && (forall k :: 0 <= k < |ws| - 1 ==> Follows(segs, ws[k], ws[k + 1], p))
  }

  /**
   The windows from i on form a chain from i to the last segment, one at most for each segment left. The starts
   move forward by at least one each time, so the source's guard against an endless loop is never needed.
   */
  lemma {:induction false} WindowsFormChain(segs: seq<Segment>, i: nat, p: Params)
    requires Sorted(segs) && i < |segs|
    ensures var ws := Windows(segs, i, p);
            && Chain(segs, ws, p) && 1 <= |ws| <= |segs| - i
            && ws[0] == Window(i, Close(segs, i, i, p)) && ws[|ws| - 1].j == |segs|
    decreases |segs| - i
  {
    hide Sorted, Fits, Follows;
    var w := Window(i, Close(segs, i, i, p));
    FirstWindow(segs, i, p);
    assert i < w.j <= |segs| by {
      CloseFits(segs, i, i, p);
    }
    if w.j < |segs| {
      NextFollows(segs, w, p);
      var next := NextStart(segs, w, p);
      WindowsFormChain(segs, next, p);
      ConsChain(segs, w, Windows(segs, next, p), p);
    }
  }

  lemma ConsChain(segs: seq<Segment>, w: Window, ws: seq<Window>, p: Params)
    requires Chain(segs, ws, p) && Fits(segs, w, p) && ws != [] && Follows(segs, w, ws[0], p)
    ensures Chain(segs, [w] + ws, p)
  {
    hide Fits, Follows;
    var all := [w] + ws;
    forall k | 0 <= k < |all| - 1
      ensures Follows(segs, all[k], all[k + 1], p)
    {
      assert k > 0 ==> all[k] == ws[k - 1] && all[k + 1] == ws[k - 1 + 1];
    }
  }

  lemma {:induction false} FitsIsClose(segs: seq<Segment>, w: Window, j: nat, p: Params)
    requires Fits(segs, w, p) && w.i <= j <= w.j
    ensures Close(segs, w.i, j, p) == w.j
    decreases w.j - j
  {
    if j < w.j {
      FitsIsClose(segs, w, j + 1, p);
    }
  }

  lemma {:induction false} FollowsIsRestart(segs: seq<Segment>, w: Window, next: Window, k: nat, p: Params)
    requires Follows(segs, w, next, p) && w.i < k <= next.i
    ensures Restart(segs, k, w.j, End(segs[w.j - 1]) - p.overlap) == next.i
    decreases next.i - k
  {
    if k < next.i {
      FollowsIsRestart(segs, w, next, k + 1, p);
    }
  }

  /** These rules leave no choice: any chain from i to the last segment is the source's. */
  lemma {:induction false} OnlyOneChain(segs: seq<Segment>, ws: seq<Window>, i: nat, p: Params)
    requires i < |segs| && ws != [] && ws[0].i == i && ws[|ws| - 1].j == |segs| && Chain(segs, ws, p)
    ensures ws == Windows(segs, i, p)
    decreases |ws|
  {
    hide Fits, Close, Restart;
    var w := ws[0];
    assert Fits(segs, w, p);
    FitsNotEmpty(segs, w, p);
    FitsIsClose(segs, w, i, p);
    if |ws| > 1 {
      assert Follows(segs, ws[0], ws[1], p);
      FollowsIsRestart(segs, w, ws[1], i + 1, p);
      TailChain(segs, ws, p);
      OnlyOneChain(segs, ws[1..], ws[1].i, p);
      assert ws == [w] + ws[1..];
    }
  }

  lemma FitsNotEmpty(segs: seq<Segment>, w: Window, p: Params)
    requires Fits(segs, w, p)
    ensures w.i < w.j <= |segs|
  {
  }

  lemma TailChain(segs: seq<Segment>, ws: seq<Window>, p: Params)
    requires Chain(segs, ws, p) && |ws| > 1
    ensures Chain(segs, ws[1..], p) && ws[1].i < |segs|
  {
    hide Fits;
    assert Follows(segs, ws[0], ws[1], p);
    forall k | 0 <= k < |ws[1..]| - 1
      ensures Follows(segs, ws[1..][k], ws[1..][k + 1], p)
    {
      assert Follows(segs, ws[k + 1], ws[k + 1 + 1], p);
    }
  }

  /** Every segment of the input is in a chunk. */
  lemma {:induction false} EverySegmentIsCovered(segs: seq<Segment>, i: nat, m: nat, p: Params)
    requires Sorted(segs) && i <= m < |segs|
    ensures exists k :: 0 <= k < |Windows(segs, i, p)| && Windows(segs, i, p)[k].i <= m < Windows(segs, i, p)[k].j
    decreases |segs| - i
  {
    hide Sorted, Fits;
    var w := Window(i, Close(segs, i, i, p));
    CloseFits(segs, i, i, p);
    if m < w.j {
      assert Windows(segs, i, p)[0] == w;
    } else {
      var next := NextStart(segs, w, p);
      EverySegmentIsCovered(segs, next, m, p);
      var k :| 0 <= k < |Windows(segs, next, p)| && Windows(segs, next, p)[k].i <= m < Windows(segs, next, p)[k].j;
      assert Windows(segs, i, p)[k + 1] == Windows(segs, next, p)[k];
    }
  }

  /** The chunks come in order of their starts, and each of several segments spans at most the target. */
  lemma ChunksAreOrdered(segs: seq<Segment>, p: Params, k: nat)
    requires Sorted(segs) && segs != [] && k < |Windows(segs, 0, p)|
    ensures var ws := Windows(segs, 0, p); var w := ws[k];
            && w.i < w.j <= |segs|
            && (w.j > w.i + 1 ==> ChunkOf(segs, w).end - ChunkOf(segs, w).start <= p.target)
            && (k + 1 < |ws| ==> ws[k + 1].i < ws[k + 1].j <= |segs|)
            && (k + 1 < |ws| ==> ChunkOf(segs, w).start <= ChunkOf(segs, ws[k + 1]).start)
  {
    WindowsFormChain(segs, 0, p);
    var ws := Windows(segs, 0, p);
    assert Fits(segs, ws[k], p);
    if k + 1 < |ws| {
      assert Follows(segs, ws[k], ws[k + 1], p) && Fits(segs, ws[k + 1], p);
    }
  }

  /** The bound the next chunk restarts from. */
  function Border(segs: seq<Segment>, w: Window, p: Params): real
    requires w.i < w.j <= |segs|
  {
    End(segs[w.j - 1]) - p.overlap
  }

  /** The segment of the window lies across that bound. */
  predicate Straddles(segs: seq<Segment>, w: Window, m: nat, p: Params)
    requires w.i < w.j <= |segs|
  {
    w.i <= m < w.j && segs[m].start < Border(segs, w, p) < End(segs[m])
  }

  /** A segment is repeated in the next chunk exactly if it starts at or after the bound and does not open this one. */
  lemma RepeatedIff(segs: seq<Segment>, w: Window, next: Window, m: nat, p: Params)
    requires Sorted(segs) && Fits(segs, w, p) && Follows(segs, w, next, p) && w.i <= m < w.j
    ensures next.i <= m < next.j <==> w.i < m && Border(segs, w, p) <= segs[m].start
  {
    if next.i <= m {
      assert segs[next.i].start <= segs[m].start;
    }
  }

  /** So of two successive chunks no straddling segment is in both, although the documentation has them all in both. */
  lemma StraddlersAreNotRepeated(segs: seq<Segment>, k: nat, m: nat, p: Params)
    requires Sorted(segs) && segs != [] && k + 1 < |Windows(segs, 0, p)|
    ensures
      var w, next := Windows(segs, 0, p)[k], Windows(segs, 0, p)[k + 1];
      w.i < w.j <= |segs| && (Straddles(segs, w, m, p) ==> m < next.i)
  {
    hide Sorted, Windows, Border;
    WindowsFormChain(segs, 0, p);
    var w, next := Windows(segs, 0, p)[k], Windows(segs, 0, p)[k + 1];
    assert Fits(segs, w, p) && Follows(segs, w, next, p);
    if Straddles(segs, w, m, p) {
      RepeatedIff(segs, w, next, m, p);
    }
  }

  /** Segments at 0, 40 and 70 seconds: the second lies across 55, fifteen seconds before the end of its chunk. */
  lemma StraddlerIsDropped(a: string, b: string, c: string)
    ensures
      var segs := [Segment(0.0, 40.0, a), Segment(40.0, 30.0, b), Segment(70.0, 30.0, c)];
      var p := Params(75.0, 15.0);
      && Sorted(segs) && Windows(segs, 0, p) == [Window(0, 2), Window(2, 3)]
      && Straddles(segs, Window(0, 2), 1, p)
  {
    var segs := [Segment(0.0, 40.0, a), Segment(40.0, 30.0, b), Segment(70.0, 30.0, c)];
    var p := Params(75.0, 15.0);
    assert Close(segs, 0, 2, p) == 2 && Close(segs, 0, 1, p) == 2 && Close(segs, 2, 3, p) == 3;
    assert NextStart(segs, Window(0, 2), p) == 2;
    assert Windows(segs, 2, p) == [Window(2, 3)];
  }

  /** A chunk has no text exactly when none of its segments has, although the documentation excludes it. */
  lemma {:induction false} NoTextIff(segs: seq<Segment>)
    ensures TextOf(segs) == "" <==> forall m :: 0 <= m < |segs| ==> Strip(segs[m].text) == ""
  {
    hide Strip;
    if segs != [] {
      var rest := segs[..|segs| - 1];
      NoTextIff(rest);
      assert forall m :: 0 <= m < |rest| ==> rest[m] == segs[m];
    }
  }

  lemma BlankSegmentGivesBlankChunk(p: Params, start: real, duration: real)
    ensures var segs := [Segment(start, duration, "  ")];
            SortByStart(segs) == segs && Windows(segs, 0, p) == [Window(0, 1)] && ChunkOf(segs, Window(0, 1)).text == ""
  {
    var segs := [Segment(start, duration, "  ")];
    assert segs[..0] == [] && SortByStart(segs[..0]) == [];
    assert segs[0..1] == segs;
    assert "  "[1..] == " " && " "[1..] == "" && Blanks("  ") == 2;
    assert Strip("  ") == "" && TextOf(segs[..0]) == "";
  }

  /** Two texts with a blank between them, unless one is empty. */
  function Joined(a: string, b: string): string
  {
    if a == "" then b else if b == "" then a else a + " " + b
  }

  /** The text of a chunk is the stripped texts in order: that of one segment, and of two runs one after the other. */
  lemma {:induction false} TextsJoin(a: seq<Segment>, b: seq<Segment>)
    ensures TextOf(a + b) == Joined(TextOf(a), TextOf(b))
    ensures |b| == 1 ==> TextOf(b) == Strip(b[0].text)
    decreases |b|
  {
    hide Strip;
    if b == [] {
      assert a + b == a;
    } else {
      var rest, last := b[..|b| - 1], b[|b| - 1];
      TextsJoin(a, rest);
      assert (a + b)[..|a + b| - 1] == a + rest && (a + b)[|a + b| - 1] == last;
      JoinedTwice(TextOf(a), TextOf(rest), Strip(last.text));
      assert |b| == 1 ==> rest == [];
    }
  }

  /** A chunk runs from its first start to its last end, and its text is that of its parts, down to single segments. */
  lemma ChunkIs(segs: seq<Segment>, w: Window, m: nat)
    requires w.i < w.j <= |segs|
    ensures ChunkOf(segs, w).start == segs[w.i].start
    ensures ChunkOf(segs, w).end == segs[w.j - 1].start + segs[w.j - 1].duration
    ensures w.j == w.i + 1 ==> ChunkOf(segs, w).text == Strip(segs[w.i].text)
    ensures w.i < m < w.j ==>
              ChunkOf(segs, w).text
              == Joined(ChunkOf(segs, Window(w.i, m)).text, ChunkOf(segs, Window(m, w.j)).text)
  {
    hide Strip, TextOf;
    if w.i < m < w.j {
      TextsJoin(segs[w.i..m], segs[m..w.j]);
      assert segs[w.i..m] + segs[m..w.j] == segs[w.i..w.j];
    } else {
      TextsJoin([], segs[w.i..w.j]);
    }
  }

  lemma JoinedTwice(a: string, b: string, c: string)
    ensures Joined(Joined(a, b), c) == Joined(a, Joined(b, c))
  {
    assert (a + " " + b) + " " + c == a + " " + (b + " " + c);
  }

  /** The stripped text of every segment of a chunk is in the text of the chunk. */
  lemma {:induction false} TextAppears(segs: seq<Segment>, m: nat)
    requires m < |segs|
    ensures exists a: string, b: string :: TextOf(segs) == a + Strip(segs[m].text) + b
  {
    hide Strip;
    var rest, last := segs[..|segs| - 1], Strip(segs[|segs| - 1].text);
    var before := TextOf(rest);
    if m == |segs| - 1 {
      var lead := if last == "" then before else if before == "" then "" else before + " ";
      assert TextOf(segs) == lead + last + "";
    } else {
      TextAppears(rest, m);
      var a: string, b: string :| before == a + Strip(rest[m].text) + b;
      var tail := if last == "" then "" else if before == "" then last else " " + last;
      assert TextOf(segs) == before + tail;
      assert before + tail == a + Strip(segs[m].text) + (b + tail);
    }
  }
}
