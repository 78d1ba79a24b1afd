/** `TextSplitter` (src/preprocessing/text_splitter.py): fixed-size chunking that backs off
    to the last separator in the window and restarts `overlap` characters before the cut;
    and grouping of sentences into chunks. */
module TextSplitting {
  import opened Wrappers
  import opened PyStr

  /** A splitter fixes its `chunk_size` (1000) and `overlap` (200) at construction. */
  datatype TextSplitter = TextSplitter(chunkSize: int, overlap: int)

  const DefaultChunkSize := 1000
  const DefaultOverlap := 200
  const DefaultMaxSentences := 5

  /** The natural cut points: space, full stop, exclamation and question marks, line feed. */
  predicate IsBreak(c: char) {
    c == ' ' || c == '.' || c == '!' || c == '?' || c == '\n'
  }

  // ---------------------------------------------------------------------------
  // The cut point

  /** No separator at the positions `lo+1 .. hi` of the text. */
  predicate NoBreakIn(text: string, lo: int, hi: int) {
    forall j :: lo < j <= hi && 0 <= j < |text| ==> !IsBreak(text[j])
  }

  /** The back-off loop: from `end` down towards `start`, stop at the first separator. */
  function BackOff(text: string, start: nat, end: int): (r: int)
    requires end < |text|
    ensures r <= end && (start < end ==> start <= r)
    decreases end - start
  {
    if end > start && !IsBreak(text[end]) then BackOff(text, start, end - 1) else end
  }

  /** The back-off loop stops at a separator, or at `start`, and skips none. */
  lemma {:induction false} BackOffSpec(text: string, start: nat, end: int)
    requires end < |text|
    ensures var r := BackOff(text, start, end);
      (start < r ==> IsBreak(text[r])) && NoBreakIn(text, if r < start then start else r, end)
    decreases end - start
  {
    if end > start && !IsBreak(text[end]) {
      BackOffSpec(text, start, end - 1);
    }
  }

  /** Where a window that does not reach the end of the text is cut: at the last separator in
      positions `start+1 .. start+chunk_size`, or at `start+chunk_size` when there is none. */
  function Cut(text: string, chunkSize: int, start: nat): (r: int)
    requires start + chunkSize < |text|
    ensures r <= start + chunkSize
    ensures 0 < chunkSize ==> start < r
  {
    var b := BackOff(text, start, start + chunkSize);
    if b == start then start + chunkSize else b
  }

  /** The cut is the last separator in the window, or the window's end when there is none. */
  lemma CutSpec(text: string, chunkSize: int, start: nat)
    requires 0 < chunkSize && start + chunkSize < |text|
    ensures var r := Cut(text, chunkSize, start);
      NoBreakIn(text, r, start + chunkSize) &&
      (IsBreak(text[r]) || (r == start + chunkSize && NoBreakIn(text, start, start + chunkSize)))
  {
    BackOffSpec(text, start, start + chunkSize);
  }

  // ---------------------------------------------------------------------------
  // split_text as written

  /** Each window of `split_text` from `start` on restarts strictly after it: `end - overlap >
      start`. Without this the loop can revisit a start and never end. */
  predicate ProgressFrom(text: string, chunkSize: int, overlap: int, start: nat)
    decreases |text| - start
  {
    if start >= |text| || start + chunkSize >= |text| then true
    else
      var next := Cut(text, chunkSize, start) - overlap;
      next > start && ProgressFrom(text, chunkSize, overlap, next)
  }

  /** The `(start, end)` of each chunk `split_text` appends, from `start` on, up to the
      first window that does not move forward (there is none under `ProgressFrom`). */
  function SpansFrom(text: string, chunkSize: int, overlap: int, start: nat): seq<(int, int)>
    decreases |text| - start
  {
    if start >= |text| then []
    else if start + chunkSize >= |text| then [(start, |text|)]
    else
      var end := Cut(text, chunkSize, start);
      if end - overlap > start then [(start, end)] + SpansFrom(text, chunkSize, overlap, end - overlap)
      else [(start, end)]
  }

  /** One window of `split_text`. */
  lemma SpansFromStep(text: string, chunkSize: int, overlap: int, start: nat)
    requires ProgressFrom(text, chunkSize, overlap, start)
    requires start < |text| && start + chunkSize < |text|
    ensures Cut(text, chunkSize, start) - overlap > start
    ensures ProgressFrom(text, chunkSize, overlap, Cut(text, chunkSize, start) - overlap)
    ensures SpansFrom(text, chunkSize, overlap, start) ==
      [(start, Cut(text, chunkSize, start))] + SpansFrom(text, chunkSize, overlap, Cut(text, chunkSize, start) - overlap)
  {
  }

  /** The chunks `text[start:end]` of the spans. */
  function ChunksOf(text: string, spans: seq<(int, int)>): (r: seq<string>)
    ensures |r| == |spans|
  {
    if spans == [] then [] else [Slice(text, spans[0].0, spans[0].1)] + ChunksOf(text, spans[1..])
  }

  /** The `i`-th chunk is the text of the `i`-th span. */
  lemma {:induction false} ChunksOfIndex(text: string, spans: seq<(int, int)>, i: nat)
    requires i < |spans|
    ensures ChunksOf(text, spans)[i] == Slice(text, spans[i].0, spans[i].1)
  {
    if i > 0 {
      ChunksOfIndex(text, spans[1..], i - 1);
    }
  }

  lemma ChunksOfCons(text: string, span: (int, int), rest: seq<(int, int)>)
    ensures ChunksOf(text, [span] + rest) == [Slice(text, span.0, span.1)] + ChunksOf(text, rest)
  {
    assert ([span] + rest)[1..] == rest;
  }

  /** A window that moves forward leaves the rest moving forward. */
  lemma ProgressStep(text: string, chunkSize: int, overlap: int, start: nat)
    requires ProgressFrom(text, chunkSize, overlap, start)
    requires start < |text| && start + chunkSize < |text|
    ensures Cut(text, chunkSize, start) - overlap > start
    ensures ProgressFrom(text, chunkSize, overlap, Cut(text, chunkSize, start) - overlap)
  {
  }

  /** The loop of `split_text` from `start` on, having appended `acc`. */
  function SplitFrom(text: string, chunkSize: int, overlap: int, start: nat, acc: seq<string>): seq<string>
    decreases |text| - start
  {
    if start >= |text| then acc
    else if start + chunkSize >= |text| then acc + [Slice(text, start, |text|)]
    else
      var end := Cut(text, chunkSize, start);
      if end - overlap > start then SplitFrom(text, chunkSize, overlap, end - overlap, acc + [Slice(text, start, end)])
      else acc + [Slice(text, start, end)]
  }

  /** The loop appends the chunks of the spans. */
  lemma {:induction false} SplitFromSpans(text: string, chunkSize: int, overlap: int, start: nat, acc: seq<string>)
    ensures SplitFrom(text, chunkSize, overlap, start, acc) == acc + ChunksOf(text, SpansFrom(text, chunkSize, overlap, start))
    decreases |text| - start
  {
    if start < |text| && start + chunkSize < |text| && Cut(text, chunkSize, start) - overlap > start {
      var end := Cut(text, chunkSize, start);
      SplitFromSpans(text, chunkSize, overlap, end - overlap, acc + [Slice(text, start, end)]);
      SplitFromSpansStep(text, chunkSize, overlap, start, acc);
    } else {
      SplitFromSpansLast(text, chunkSize, overlap, start, acc);
    }
  }

  /** The last window, or none: at most one chunk is appended. */
  lemma SplitFromSpansLast(text: string, chunkSize: int, overlap: int, start: nat, acc: seq<string>)
    requires start < |text| && start + chunkSize < |text| ==> Cut(text, chunkSize, start) - overlap <= start
    ensures SplitFrom(text, chunkSize, overlap, start, acc) == acc + ChunksOf(text, SpansFrom(text, chunkSize, overlap, start))
  {
    if start >= |text| {
      assert acc + [] == acc;
    } else if start + chunkSize >= |text| {
      ChunksOfCons(text, (start, |text|), []);
      assert [(start, |text|)] + [] == [(start, |text|)];
    } else {
      var end := Cut(text, chunkSize, start);
      ChunksOfCons(text, (start, end), []);
      assert [(start, end)] + [] == [(start, end)];
    }
  }

  /** A window that is not the last: the equation for the next window gives the one for
      this window. */
  lemma SplitFromSpansStep(text: string, chunkSize: int, overlap: int, start: nat, acc: seq<string>)
    requires start < |text| && start + chunkSize < |text|
    requires Cut(text, chunkSize, start) - overlap > start
    requires var end := Cut(text, chunkSize, start);
      SplitFrom(text, chunkSize, overlap, end - overlap, acc + [Slice(text, start, end)]) ==
      acc + [Slice(text, start, end)] + ChunksOf(text, SpansFrom(text, chunkSize, overlap, end - overlap))
    ensures SplitFrom(text, chunkSize, overlap, start, acc) == acc + ChunksOf(text, SpansFrom(text, chunkSize, overlap, start))
  {
    var end := Cut(text, chunkSize, start);
    var piece := Slice(text, start, end);
    var rest := SpansFrom(text, chunkSize, overlap, end - overlap);
    var tail := ChunksOf(text, rest);
    assert SplitFrom(text, chunkSize, overlap, start, acc) == SplitFrom(text, chunkSize, overlap, end - overlap, acc + [piece]);
    assert SpansFrom(text, chunkSize, overlap, start) == [(start, end)] + rest;
    ChunksOfCons(text, (start, end), rest);
    AppendAssoc(acc, [piece], tail);
  }

  /** `split_text(text)`, given that every window moves forward. */
  function SplitText(sp: TextSplitter, text: string): seq<string>
    requires ProgressFrom(text, sp.chunkSize, sp.overlap, 0)
  {
    SplitFrom(text, sp.chunkSize, sp.overlap, 0, [])
  }

  /** The back-off loop of `split_text`: the cut of the window starting at `start`. */
  method FindCut(text: string, chunkSize: int, start: nat) returns (end: int)
    requires start + chunkSize < |text|
    ensures end == Cut(text, chunkSize, start)
  {
    end := start + chunkSize;
    while end > start && !IsBreak(text[end])
      invariant end <= start + chunkSize
      invariant start < start + chunkSize ==> start <= end
      invariant BackOff(text, start, end) == BackOff(text, start, start + chunkSize)
      decreases end - start
    {
      end := end - 1;
    }
    if end == start {
      end := start + chunkSize;
    }
  }

  /** One pass of the loop body of `split_text`: append the chunk of the window at `start`,
      and say whether it was the last one or else where the next window starts. */
  method Window(text: string, chunkSize: int, overlap: int, start: nat, chunks: seq<string>)
    returns (chunks': seq<string>, last: bool, next: nat)
    requires ProgressFrom(text, chunkSize, overlap, start)
    requires start < |text|
    ensures last ==> chunks' == SplitFrom(text, chunkSize, overlap, start, chunks)
    ensures !last ==> next > start && ProgressFrom(text, chunkSize, overlap, next)
    ensures !last ==> SplitFrom(text, chunkSize, overlap, next, chunks') == SplitFrom(text, chunkSize, overlap, start, chunks)
  {
    var end := start + chunkSize;
    if end >= |text| {
      return chunks + [Slice(text, start, |text|)], true, start;
    }
    end := FindCut(text, chunkSize, start);
    ProgressStep(text, chunkSize, overlap, start);
    chunks', last, next := chunks + [Slice(text, start, end)], false, end - overlap;
  }

  /** The loop of `split_text`. */
  method SplitTextLoop(sp: TextSplitter, text: string) returns (chunks: seq<string>)
    requires ProgressFrom(text, sp.chunkSize, sp.overlap, 0)
    ensures chunks == SplitText(sp, text)
  {
    var chunkSize, overlap := sp.chunkSize, sp.overlap;
    chunks := [];
    var start: nat := 0;
    while start < |text|
      invariant ProgressFrom(text, chunkSize, overlap, start)
      invariant SplitFrom(text, chunkSize, overlap, start, chunks) == SplitText(sp, text)
      decreases |text| - start
    {
      var last, next;
      chunks, last, next := Window(text, chunkSize, overlap, start, chunks);
      if last {
        break;
      }
      start := next;
    }
  }

  // ---------------------------------------------------------------------------
  // Moving forward always

  /** Where the corrected splitter starts the window after the one at `start`: `overlap`
      characters before the cut when that lies after `start`, else at the cut. */
  function ForwardNext(text: string, chunkSize: int, overlap: int, start: nat): (r: nat)
    requires 0 < chunkSize && 0 <= overlap
    requires start + chunkSize < |text|
    ensures start < r <= Cut(text, chunkSize, start)
  {
    var end := Cut(text, chunkSize, start);
    if end - overlap > start then end - overlap else end
  }

  /** The spans when a window whose overlap would not move forward restarts at its end. */
  function ForwardSpans(text: string, chunkSize: int, overlap: int, start: nat): seq<(int, int)>
    requires 0 < chunkSize && 0 <= overlap
    decreases |text| - start
  {
    if start >= |text| then []
    else if start + chunkSize >= |text| then [(start, |text|)]
    else [(start, Cut(text, chunkSize, start))] + ForwardSpans(text, chunkSize, overlap, ForwardNext(text, chunkSize, overlap, start))
  }

  /** One window of the corrected splitter. */
  lemma ForwardSpansStep(text: string, chunkSize: int, overlap: int, start: nat)
    requires 0 < chunkSize && 0 <= overlap
    requires start < |text| && start + chunkSize < |text|
    ensures ForwardSpans(text, chunkSize, overlap, start) ==
      [(start, Cut(text, chunkSize, start))] + ForwardSpans(text, chunkSize, overlap, ForwardNext(text, chunkSize, overlap, start))
  {
  }

  /** Where every window moves forward, the two agree. */
  lemma {:induction false} ForwardSpansAgree(text: string, chunkSize: int, overlap: int, start: nat)
    requires 0 < chunkSize && 0 <= overlap
    requires ProgressFrom(text, chunkSize, overlap, start)
    ensures SpansFrom(text, chunkSize, overlap, start) == ForwardSpans(text, chunkSize, overlap, start)
    decreases |text| - start
  {
    if start < |text| && start + chunkSize < |text| {
      SpansFromStep(text, chunkSize, overlap, start);
      ForwardSpansStep(text, chunkSize, overlap, start);
      ForwardSpansAgree(text, chunkSize, overlap, Cut(text, chunkSize, start) - overlap);
    }
  }

  /** Position `p` lies in one of the spans. */
  predicate Covered(spans: seq<(int, int)>, p: int) {
    exists i :: 0 <= i < |spans| && spans[i].0 <= p < spans[i].1
  }

  /** Two consecutive spans: the first ends inside the text, at a separator or exactly
      `chunk_size` after its start with no separator after its first character, and the
      second starts after the first one did and no later than where it ended, `overlap`
      characters before that end or at it. */
  predicate Linked(text: string, chunkSize: int, overlap: int, a: (int, int), b: (int, int)) {
    0 <= a.1 < |text| && a.0 < b.0 <= a.1 && (b.0 == a.1 - overlap || b.0 == a.1) &&
    (IsBreak(text[a.1]) || (a.1 == a.0 + chunkSize && NoBreakIn(text, a.0, a.1)))
  }

  /** The corrected spans from `start` lie in the text, are non-empty and at most `chunk_size`
      long; the first starts at `start` and the last ends with the text. */
  lemma {:induction false} ForwardSpansBounds(text: string, chunkSize: int, overlap: int, start: nat)
    requires 0 < chunkSize && 0 <= overlap
    ensures var r := ForwardSpans(text, chunkSize, overlap, start);
      (forall i :: 0 <= i < |r| ==> start <= r[i].0 < r[i].1 <= |text| && r[i].1 - r[i].0 <= chunkSize) &&
      (start < |text| ==> r != [] && r[0].0 == start && r[|r| - 1].1 == |text|)
    decreases |text| - start
  {
    if start < |text| && start + chunkSize < |text| {
      var next := ForwardNext(text, chunkSize, overlap, start);
      ForwardSpansStep(text, chunkSize, overlap, start);
      ForwardSpansBounds(text, chunkSize, overlap, next);
    }
  }

  /** Consecutive corrected spans are linked. */
  lemma {:induction false} ForwardSpansLinked(text: string, chunkSize: int, overlap: int, start: nat)
    requires 0 < chunkSize && 0 <= overlap
    ensures var r := ForwardSpans(text, chunkSize, overlap, start);
      forall i :: 0 <= i < |r| - 1 ==> Linked(text, chunkSize, overlap, r[i], r[i + 1])
    decreases |text| - start
  {
    if start < |text| && start + chunkSize < |text| {
      var next := ForwardNext(text, chunkSize, overlap, start);
      var r := ForwardSpans(text, chunkSize, overlap, start);
      var rest := ForwardSpans(text, chunkSize, overlap, next);
      ForwardSpansStep(text, chunkSize, overlap, start);
      ForwardSpansLinked(text, chunkSize, overlap, next);
      ForwardSpansBounds(text, chunkSize, overlap, next);
      CutSpec(text, chunkSize, start);
      assert Linked(text, chunkSize, overlap, r[0], r[1]);
      forall i | 1 <= i < |r| - 1 ensures Linked(text, chunkSize, overlap, r[i], r[i + 1]) {
        assert r[i] == rest[i - 1] && r[i + 1] == rest[i];
      }
    }
  }

  /** The corrected spans from `start` cover every position from `start` on. */
  lemma {:induction false} ForwardSpansCover(text: string, chunkSize: int, overlap: int, start: nat)
    requires 0 < chunkSize && 0 <= overlap
    ensures forall p :: start <= p < |text| ==> Covered(ForwardSpans(text, chunkSize, overlap, start), p)
    decreases |text| - start
  {
    var r := ForwardSpans(text, chunkSize, overlap, start);
    if start < |text| && start + chunkSize < |text| {
      var next := ForwardNext(text, chunkSize, overlap, start);
      var rest := ForwardSpans(text, chunkSize, overlap, next);
      ForwardSpansStep(text, chunkSize, overlap, start);
      ForwardSpansCover(text, chunkSize, overlap, next);
      forall p | start <= p < |text| ensures Covered(r, p) {
        if p < next {
          assert r[0].0 <= p < r[0].1;
        } else {
          assert Covered(rest, p);
          var i :| 0 <= i < |rest| && rest[i].0 <= p < rest[i].1;
          assert r[i + 1] == rest[i];
        }
      }
    } else if start < |text| {
      assert r[0].0 <= start < r[0].1;
    }
  }

  /** Each span after the first starts `overlap` characters before the previous one ended. */
  predicate Overlapping(r: seq<(int, int)>, overlap: int) {
    forall i :: 0 <= i < |r| - 1 ==> r[i + 1].0 == r[i].1 - overlap
  }

  lemma OverlappingCons(a: (int, int), rest: seq<(int, int)>, overlap: int)
    requires Overlapping(rest, overlap)
    requires rest != [] ==> rest[0].0 == a.1 - overlap
    ensures Overlapping([a] + rest, overlap)
  {
    var r := [a] + rest;
    forall i | 1 <= i < |r| - 1 ensures r[i + 1].0 == r[i].1 - overlap {
      assert r[i] == rest[i - 1] && r[i + 1] == rest[i];
    }
  }

  /** As written, the next chunk starts exactly `overlap` characters before the previous end. */
  lemma {:induction false} SpansOverlap(text: string, chunkSize: int, overlap: int, start: nat)
    requires ProgressFrom(text, chunkSize, overlap, start)
    ensures var r := SpansFrom(text, chunkSize, overlap, start);
      (r != [] ==> r[0].0 == start) && Overlapping(r, overlap)
    decreases |text| - start
  {
    if start < |text| && start + chunkSize < |text| {
      var next := Cut(text, chunkSize, start) - overlap;
      SpansFromStep(text, chunkSize, overlap, start);
      SpansOverlap(text, chunkSize, overlap, next);
      OverlappingCons((start, Cut(text, chunkSize, start)), SpansFrom(text, chunkSize, overlap, next), overlap);
    }
  }

  /** The spans `split_text` cuts: each lies in the text and is at most `chunk_size` long; the
      first starts the text and the last ends it; consecutive ones are linked, the next
      starting exactly `overlap` characters before the previous end; and every character of
      the text lies in one of them. */
  lemma SplitTextSpans(sp: TextSplitter, text: string)
    requires ProgressFrom(text, sp.chunkSize, sp.overlap, 0)
    requires 0 <= sp.overlap
    ensures var r := SpansFrom(text, sp.chunkSize, sp.overlap, 0);
      (forall i :: 0 <= i < |r| ==> 0 <= r[i].0 < r[i].1 <= |text| && r[i].1 - r[i].0 <= sp.chunkSize) &&
      (text != [] <==> r != []) &&
      (r != [] ==> r[0].0 == 0 && r[|r| - 1].1 == |text|) &&
      (forall i :: 0 <= i < |r| - 1 ==> Linked(text, sp.chunkSize, sp.overlap, r[i], r[i + 1])) &&
      Overlapping(r, sp.overlap) &&
      (forall p :: 0 <= p < |text| ==> Covered(r, p))
  {
    var cs, ov := sp.chunkSize, sp.overlap;
    if text != [] {
      if cs < |text| {
        SpansFromStep(text, cs, ov, 0);
      }
      ForwardSpansAgree(text, cs, ov, 0);
      ForwardSpansBounds(text, cs, ov, 0);
      ForwardSpansLinked(text, cs, ov, 0);
      ForwardSpansCover(text, cs, ov, 0);
      SpansOverlap(text, cs, ov, 0);
    }
  }

  /** `IsSuffix(a, b)`: `b` ends with `a`. */
  predicate IsSuffix<T(==)>(a: seq<T>, b: seq<T>) {
    |a| <= |b| && a == b[|b| - |a|..]
  }

  /** The chunks of spans inside the text are the text between their bounds. */
  lemma ChunksOfPieces(text: string, r: seq<(int, int)>)
    requires forall i :: 0 <= i < |r| ==> 0 <= r[i].0 <= r[i].1 <= |text|
    ensures forall i :: 0 <= i < |r| ==> ChunksOf(text, r)[i] == text[r[i].0..r[i].1]
  {
    forall i | 0 <= i < |r| ensures ChunksOf(text, r)[i] == text[r[i].0..r[i].1] {
      ChunksOfIndex(text, r, i);
    }
  }

  /** Chunks of spans that lie in the text, are at most `chunk_size` long, start at the start
      of the text and end at its end. */
  lemma PiecesOfText(text: string, chunkSize: int, r: seq<(int, int)>)
    requires forall i :: 0 <= i < |r| ==> 0 <= r[i].0 < r[i].1 <= |text| && r[i].1 - r[i].0 <= chunkSize
    requires r != [] ==> r[0].0 == 0 && r[|r| - 1].1 == |text|
    ensures var chunks := ChunksOf(text, r);
      (forall i :: 0 <= i < |chunks| ==> 0 < |chunks[i]| <= chunkSize && IsSubstring(chunks[i], text)) &&
      (r != [] ==> chunks[0] <= text && IsSuffix(chunks[|chunks| - 1], text))
  {
    var chunks := ChunksOf(text, r);
    ChunksOfPieces(text, r);
    forall i | 0 <= i < |chunks| ensures 0 < |chunks[i]| <= chunkSize && IsSubstring(chunks[i], text) {
      assert OccursAt(chunks[i], text, r[i].0);
    }
  }

  /** `split_text` returns the chunks of its spans. */
  lemma SplitTextIsChunks(sp: TextSplitter, text: string)
    requires ProgressFrom(text, sp.chunkSize, sp.overlap, 0)
    ensures SplitText(sp, text) == ChunksOf(text, SpansFrom(text, sp.chunkSize, sp.overlap, 0))
  {
    SplitFromSpans(text, sp.chunkSize, sp.overlap, 0, []);
    assert [] + ChunksOf(text, SpansFrom(text, sp.chunkSize, sp.overlap, 0)) == ChunksOf(text, SpansFrom(text, sp.chunkSize, sp.overlap, 0));
  }

  /** What `split_text` returns: no chunk for no text, the text itself when it fits, else
      non-empty chunks of at most `chunk_size` characters, each a piece of the text, the first
      a prefix and the last a suffix of it. */
  lemma SplitTextChunks(sp: TextSplitter, text: string)
    requires ProgressFrom(text, sp.chunkSize, sp.overlap, 0)
    requires 0 <= sp.overlap
    ensures text == [] ==> SplitText(sp, text) == []
    ensures 0 < |text| <= sp.chunkSize ==> SplitText(sp, text) == [text]
    ensures var chunks := SplitText(sp, text);
      (forall i :: 0 <= i < |chunks| ==> 0 < |chunks[i]| <= sp.chunkSize && IsSubstring(chunks[i], text)) &&
      (text != [] ==> chunks != [] && chunks[0] <= text && IsSuffix(chunks[|chunks| - 1], text))
  {
    SplitTextSpans(sp, text);
    SplitTextIsChunks(sp, text);
    PiecesOfText(text, sp.chunkSize, SpansFrom(text, sp.chunkSize, sp.overlap, 0));
  }

  // ---------------------------------------------------------------------------
  // The finding: `start = end - overlap` can stand still

  /** `text[i]`, with Python's negative indices; `None` for an index error. */
  function CharAt(text: string, i: int): Option<char> {
    if 0 <= i < |text| then Some(text[i])
    else if -|text| <= i < 0 then Some(text[|text| + i])
    else None
  }

  /** The back-off loop for any `start`, negative ones included: `None` when `text[end]`
      raises. */
  function BackOffAsWritten(text: string, start: int, end: int): Option<int>
    decreases end - start
  {
    if end > start then
      match CharAt(text, end)
      case None => None
      case Some(c) => if IsBreak(c) then Some(end) else BackOffAsWritten(text, start, end - 1)
    else Some(end)
  }

  /** One pass of the outer loop body as written, for a window that does not reach the end:
      the chunk appended and the next `start`. */
  function StepAsWritten(text: string, chunkSize: int, overlap: int, start: int): Option<(string, int)> {
    match BackOffAsWritten(text, start, start + chunkSize)
    case None => None
    case Some(b) =>
      var end := if b == start then start + chunkSize else b;
      Some((Slice(text, start, end), end - overlap))
  }

  /** The back-off loop stops at the last separator `k` below `end`. */
  lemma {:induction false} BackOffStopsAt(text: string, start: int, end: int, k: int)
    requires start < k <= end < |text| && 0 <= k
    requires IsBreak(text[k]) && NoBreakIn(text, k, end)
    ensures BackOffAsWritten(text, start, end) == Some(k)
    decreases end - start
  {
    if end > k {
      BackOffStopsAt(text, start, end - 1, k);
    }
  }

  /** The text `"a" * 100 + " " + "b" * 2000`. */
  function StallText(): (t: string)
    ensures |t| == 2101 && t[100] == ' ' && forall j :: 100 < j < 2101 ==> t[j] == 'b'
  {
    seq(100, _ => 'a') + " " + seq(2000, _ => 'b')
  }

  /** With the default sizes, the first window of `StallText` is cut at the only space, the
      overlap then sends `start` to -100, and from there every pass appends `""` and comes back
      to -100: the loop never ends. */
  lemma SplitTextStalls()
    ensures StepAsWritten(StallText(), DefaultChunkSize, DefaultOverlap, 0) == Some((StallText()[..100], -100))
    ensures StepAsWritten(StallText(), DefaultChunkSize, DefaultOverlap, -100) == Some(("", -100))
    ensures !ProgressFrom(StallText(), DefaultChunkSize, DefaultOverlap, 0)
  {
    var t := StallText();
    BackOffStopsAt(t, 0, 1000, 100);
    BackOffStopsAt(t, -100, 900, 100);
    CutSpec(t, 1000, 0);
    assert IsBreak(t[100]);
    assert NoBreakIn(t, 100, 1000);
    assert Cut(t, 1000, 0) == 100;
  }

  /** `split_text` with the restart moved forward: from a cut at `end`, the next window starts
      at `end - overlap` when that lies after the current start, and at `end` otherwise. */
  function SplitTextForward(sp: TextSplitter, text: string): seq<string>
    requires 0 < sp.chunkSize && 0 <= sp.overlap
  {
    ChunksOf(text, ForwardSpans(text, sp.chunkSize, sp.overlap, 0))
  }

  /** The corrected splitter is defined for every text: its chunks are non-empty, at most
      `chunk_size` long and pieces of the text, every character lies in one of them, and they
      are those of `split_text` wherever that one moves forward. */
  lemma SplitTextForwardChunks(sp: TextSplitter, text: string)
    requires 0 < sp.chunkSize && 0 <= sp.overlap
    ensures var chunks := SplitTextForward(sp, text);
      (forall i :: 0 <= i < |chunks| ==> 0 < |chunks[i]| <= sp.chunkSize && IsSubstring(chunks[i], text)) &&
      (text != [] ==> chunks != [] && chunks[0] <= text && IsSuffix(chunks[|chunks| - 1], text))
    ensures forall p :: 0 <= p < |text| ==> Covered(ForwardSpans(text, sp.chunkSize, sp.overlap, 0), p)
    ensures ProgressFrom(text, sp.chunkSize, sp.overlap, 0) ==> SplitTextForward(sp, text) == SplitText(sp, text)
  {
    ForwardSpansBounds(text, sp.chunkSize, sp.overlap, 0);
    ForwardSpansCover(text, sp.chunkSize, sp.overlap, 0);
    PiecesOfText(text, sp.chunkSize, ForwardSpans(text, sp.chunkSize, sp.overlap, 0));
    if ProgressFrom(text, sp.chunkSize, sp.overlap, 0) {
      ForwardSpansAgree(text, sp.chunkSize, sp.overlap, 0);
      SplitTextIsChunks(sp, text);
    }
  }

  // ---------------------------------------------------------------------------
  // split_by_sentences

  /** The state of the sentence loop: the chunks closed so far (as sentence lists), the open
      chunk and its summed length. */
  datatype Grouping = Grouping(closed: seq<seq<string>>, current: seq<string>, currentLength: int)

  /** One sentence through the loop body: close the open chunk first when the sentence would
      push it past `chunk_size`, then close it as soon as it holds `max_sentences`. */
  function Absorb(st: Grouping, sentence: string, chunkSize: int, maxSentences: int): Grouping {
    var overflow := st.currentLength + |sentence| > chunkSize && st.current != [];
    var st' :=
      if overflow then Grouping(st.closed + [st.current], [sentence], |sentence|)
      else Grouping(st.closed, st.current + [sentence], st.currentLength + |sentence|);
    if |st'.current| >= maxSentences then Grouping(st'.closed + [st'.current], [], 0) else st'
  }

  /** The loop from the `i`-th sentence on, then the last open chunk. */
  function GroupFrom(sentences: seq<string>, chunkSize: int, maxSentences: int, i: nat, st: Grouping): seq<seq<string>>
    requires i <= |sentences|
    decreases |sentences| - i
  {
    if i == |sentences| then
      if st.current != [] then st.closed + [st.current] else st.closed
    else GroupFrom(sentences, chunkSize, maxSentences, i + 1, Absorb(st, sentences[i], chunkSize, maxSentences))
  }

  /** The sentence lists of the chunks `split_by_sentences` returns. */
  function SentenceGroups(sp: TextSplitter, sentences: seq<string>, maxSentences: int): seq<seq<string>> {
    GroupFrom(sentences, sp.chunkSize, maxSentences, 0, Grouping([], [], 0))
  }

  /** A chunk the loop may hold: non-empty, at most `max_sentences` sentences (one when that is
      below one), and within `chunk_size` unless it is a single sentence. */
  predicate WellGrouped(g: seq<string>, chunkSize: int, maxSentences: int) {
    g != [] && (|g| <= maxSentences || |g| == 1) && (|g| >= 2 ==> TotalLen(g) <= chunkSize)
  }

  /** What the loop keeps between sentences, having read `prefix`. */
  predicate GroupingInv(st: Grouping, prefix: seq<string>, chunkSize: int, maxSentences: int) {
    Flatten(st.closed) + st.current == prefix &&
    (forall k :: 0 <= k < |st.closed| ==> WellGrouped(st.closed[k], chunkSize, maxSentences)) &&
    st.currentLength == TotalLen(st.current) &&
    (st.current != [] ==> WellGrouped(st.current, chunkSize, maxSentences) && |st.current| < maxSentences)
  }

  /** Closing a well-formed open chunk keeps what was read. */
  lemma CloseKeeps(closed: seq<seq<string>>, current: seq<string>, prefix: seq<string>, chunkSize: int, maxSentences: int)
    requires Flatten(closed) + current == prefix
    requires forall k :: 0 <= k < |closed| ==> WellGrouped(closed[k], chunkSize, maxSentences)
    requires WellGrouped(current, chunkSize, maxSentences)
    ensures Flatten(closed + [current]) == prefix
    ensures forall k :: 0 <= k < |closed + [current]| ==> WellGrouped((closed + [current])[k], chunkSize, maxSentences)
  {
    FlattenAppend(closed, current);
  }

  /** Adding a sentence to the open chunk when it fits keeps the invariant, before the
      `max_sentences` check. */
  lemma ExtendKeeps(st: Grouping, prefix: seq<string>, sentence: string, chunkSize: int, maxSentences: int)
    requires GroupingInv(st, prefix, chunkSize, maxSentences)
    requires st.currentLength + |sentence| <= chunkSize || st.current == []
    ensures var current := st.current + [sentence];
      Flatten(st.closed) + current == prefix + [sentence] &&
      st.currentLength + |sentence| == TotalLen(current) &&
      WellGrouped(current, chunkSize, maxSentences)
  {
    TotalLenAppend(st.current, sentence);
    AppendAssoc(Flatten(st.closed), st.current, [sentence]);
  }

  /** The loop body keeps the invariant. */
  lemma AbsorbKeeps(st: Grouping, prefix: seq<string>, sentence: string, chunkSize: int, maxSentences: int)
    requires GroupingInv(st, prefix, chunkSize, maxSentences)
    ensures GroupingInv(Absorb(st, sentence, chunkSize, maxSentences), prefix + [sentence], chunkSize, maxSentences)
  {
    var overflow := st.currentLength + |sentence| > chunkSize && st.current != [];
    var st' :=
      if overflow then Grouping(st.closed + [st.current], [sentence], |sentence|)
      else Grouping(st.closed, st.current + [sentence], st.currentLength + |sentence|);
    if overflow {
      CloseKeeps(st.closed, st.current, prefix, chunkSize, maxSentences);
      assert TotalLen([sentence]) == |sentence|;
    } else {
      ExtendKeeps(st, prefix, sentence, chunkSize, maxSentences);
    }
    if |st'.current| >= maxSentences {
      CloseKeeps(st'.closed, st'.current, prefix + [sentence], chunkSize, maxSentences);
    }
  }

  /** Chunks that hold `sentences` once and in order, each well-formed. */
  predicate GroupsOf(r: seq<seq<string>>, sentences: seq<string>, chunkSize: int, maxSentences: int) {
    Flatten(r) == sentences && forall k :: 0 <= k < |r| ==> WellGrouped(r[k], chunkSize, maxSentences)
  }

  /** After the last sentence, the open chunk is closed if non-empty. */
  lemma GroupFromLast(sentences: seq<string>, chunkSize: int, maxSentences: int, st: Grouping)
    requires GroupingInv(st, sentences, chunkSize, maxSentences)
    ensures GroupsOf(GroupFrom(sentences, chunkSize, maxSentences, |sentences|, st), sentences, chunkSize, maxSentences)
  {
    if st.current != [] {
      CloseKeeps(st.closed, st.current, sentences, chunkSize, maxSentences);
    }
  }

  /** One sentence further into the loop. */
  lemma GroupFromStep(sentences: seq<string>, chunkSize: int, maxSentences: int, i: nat, st: Grouping)
    requires i < |sentences|
    requires GroupingInv(st, sentences[..i], chunkSize, maxSentences)
    ensures GroupingInv(Absorb(st, sentences[i], chunkSize, maxSentences), sentences[..i + 1], chunkSize, maxSentences)
  {
    assert sentences[..i + 1] == sentences[..i] + [sentences[i]];
    AbsorbKeeps(st, sentences[..i], sentences[i], chunkSize, maxSentences);
  }

  /** The loop keeps every sentence once and in order, and closes only well-formed chunks. */
  lemma {:induction false} GroupFromSpec(sentences: seq<string>, chunkSize: int, maxSentences: int, i: nat, st: Grouping)
    requires i <= |sentences|
    requires GroupingInv(st, sentences[..i], chunkSize, maxSentences)
    ensures GroupsOf(GroupFrom(sentences, chunkSize, maxSentences, i, st), sentences, chunkSize, maxSentences)
    decreases |sentences| - i
  {
    if i == |sentences| {
      assert sentences[..i] == sentences;
      GroupFromLast(sentences, chunkSize, maxSentences, st);
    } else {
      GroupFromStep(sentences, chunkSize, maxSentences, i, st);
      GroupFromSpec(sentences, chunkSize, maxSentences, i + 1, Absorb(st, sentences[i], chunkSize, maxSentences));
    }
  }

  /** `split_by_sentences` keeps every sentence exactly once and in order, and each chunk is
      non-empty, holds at most `max_sentences` sentences, and stays within `chunk_size` unless
      it is a single sentence. */
  lemma SentenceGroupsSpec(sp: TextSplitter, sentences: seq<string>, maxSentences: int)
    ensures GroupsOf(SentenceGroups(sp, sentences, maxSentences), sentences, sp.chunkSize, maxSentences)
  {
    assert sentences[..0] == [];
    GroupFromSpec(sentences, sp.chunkSize, maxSentences, 0, Grouping([], [], 0));
  }

  /** `' '.join` of each sentence list. */
  function JoinedGroups(groups: seq<seq<string>>): (r: seq<string>)
    ensures |r| == |groups|
    ensures forall k :: 0 <= k < |groups| ==> r[k] == Join(" ", groups[k])
  {
    seq(|groups|, k requires 0 <= k < |groups| => Join(" ", groups[k]))
  }

  /** `split_by_sentences(text, max_sentences)`, the regex split of `text` into sentences
      given as `sentences`. */
  method SplitBySentences(sp: TextSplitter, sentences: seq<string>, maxSentences: int) returns (chunks: seq<string>)
    ensures chunks == JoinedGroups(SentenceGroups(sp, sentences, maxSentences))
  {
    chunks := [];
    ghost var closed: seq<seq<string>> := [];
    var currentChunk: seq<string> := [];
    var currentLength := 0;
    for i := 0 to |sentences|
      invariant chunks == JoinedGroups(closed)
      invariant GroupFrom(sentences, sp.chunkSize, maxSentences, i, Grouping(closed, currentChunk, currentLength)) ==
                SentenceGroups(sp, sentences, maxSentences)
    {
      var sentence := sentences[i];
      var sentenceLength := |sentence|;
      if currentLength + sentenceLength > sp.chunkSize && currentChunk != [] {
        chunks := chunks + [Join(" ", currentChunk)];
        closed := closed + [currentChunk];
        currentChunk := [sentence];
        currentLength := sentenceLength;
      } else {
        currentChunk := currentChunk + [sentence];
        currentLength := currentLength + sentenceLength;
      }
      if |currentChunk| >= maxSentences {
        chunks := chunks + [Join(" ", currentChunk)];
        closed := closed + [currentChunk];
        currentChunk := [];
        currentLength := 0;
      }
    }
    if currentChunk != [] {
      chunks := chunks + [Join(" ", currentChunk)];
      closed := closed + [currentChunk];
    }
  }
}
