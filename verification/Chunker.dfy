/** Overlapping windows over the lines of a source file. (engine/antares.py, _chunk_source) */
module Chunker {
  import opened Text
  import opened TextLaws

  const MAX_SOURCE_CHARS: nat := 32000
  const CHUNK_TOKEN_BUDGET: int := 8192
  const CHUNK_OVERLAP_TOKENS: nat := 256

  /** The lines of a text; a final newline ends a line and begins none. */
  function Lines(s: string): seq<string> {
    var parts := Split(s, '\n');
    if parts[|parts| - 1] == "" then parts[..|parts| - 1] else parts
  }

  /** The token counts of the lines, each at least one. */
  type Counts = seq<nat>

  predicate Positive(counts: Counts) {
    forall i :: 0 <= i < |counts| ==> counts[i] >= 1
  }

  function Sum(counts: Counts): nat
    decreases |counts|
  {
    if counts == [] then 0 else Sum(counts[..|counts| - 1]) + counts[|counts| - 1]
  }

  /** What the lines from `i` up to `j` cost. */
  function Cost(counts: Counts, i: nat, j: nat): nat
    requires i <= j <= |counts|
  {
    Sum(counts[i..j])
  }

  /** Where a window that has reached `j` stops growing. */
  function Grow(counts: Counts, budget: nat, start: nat, j: nat): (end: nat)
    requires start <= j <= |counts|
    ensures j <= end <= |counts|
    decreases |counts| - j
  {
    if j < |counts| && Cost(counts, start, j + 1) <= budget then Grow(counts, budget, start, j + 1) else j
  }

  /** A window holds at least one line. */
  function EndOf(counts: Counts, budget: nat, start: nat): (end: nat)
    requires start < |counts|
    ensures start < end <= |counts|
  {
    var end := Grow(counts, budget, start, start);
    if end == start then start + 1 else end
  }

  /** Step back from `end` until the overlap is paid for, not past `start`. */
  function StepBack(counts: Counts, start: nat, end: nat, next: nat): (r: nat)
    requires start <= next <= end <= |counts|
    ensures start <= r <= next
    decreases next
  {
    if next > start && Cost(counts, next, end) < CHUNK_OVERLAP_TOKENS then StepBack(counts, start, end, next - 1) else next
  }

  function NextStart(counts: Counts, start: nat, end: nat): (next: nat)
    requires start < end <= |counts|
    ensures start < next <= end
  {
    var back := StepBack(counts, start, end, end);
    if back > start + 1 then back else start + 1
  }

  /** A window of lines, end excluded. */
  datatype Span = Span(start: nat, end: nat)

  function Spans(counts: Counts, budget: nat, start: nat): seq<Span>
    requires start <= |counts|
    decreases |counts| - start
  {
    if start == |counts| then []
    else
      var end := EndOf(counts, budget, start);
      if end == |counts| then [Span(start, end)]
      else [Span(start, end)] + Spans(counts, budget, NextStart(counts, start, end))
  }

  /** A chunk: its first line, counted from one, and its text. */
  datatype Chunk = Chunk(firstLine: nat, text: string)

  function ChunkOf(lines: seq<string>, span: Span): Chunk
    requires span.start <= span.end <= |lines|
  {
    Chunk(span.start + 1, Join(lines[span.start..span.end], "\n"))
  }

  function CountsOf(lines: seq<string>, encode: string -> nat): (counts: Counts)
    ensures |counts| == |lines| && Positive(counts)
  {
    seq(|lines|, i requires 0 <= i < |lines| => if encode(lines[i]) < 1 then 1 else encode(lines[i]))
  }

  function Usable(tokenLimit: Option<int>): (budget: nat)
    ensures budget >= 512
  {
    var limit := if tokenLimit.Some? && tokenLimit.value != 0 then tokenLimit.value else CHUNK_TOKEN_BUDGET;
    if limit - 1024 > 512 then limit - 1024 else 512
  }

  /** The chunks of the spans. */
  predicate Chunked(chunks: seq<Chunk>, lines: seq<string>, spans: seq<Span>) {
    && |chunks| == |spans|
    && forall i :: 0 <= i < |spans| ==> spans[i].start <= spans[i].end <= |lines| && chunks[i] == ChunkOf(lines, spans[i])
  }

  method ChunkSource(source: string, tokenizer: Option<string -> nat>, tokenLimit: Option<int>)
    returns (chunks: seq<Chunk>)
    ensures var lines := Lines(if |source| > MAX_SOURCE_CHARS then source[..MAX_SOURCE_CHARS] else source);
            if lines == [] then chunks == []
            else if tokenizer.None? then chunks == [Chunk(1, Join(lines, "\n"))]
            else Chunked(chunks, lines, Spans(CountsOf(lines, tokenizer.value), Usable(tokenLimit), 0))
  {
    hide Split, Join;
    var lines := Lines(if |source| > MAX_SOURCE_CHARS then source[..MAX_SOURCE_CHARS] else source);
    if lines == [] {
      return [];
    }
    if tokenizer.None? {
      return [Chunk(1, Join(lines, "\n"))];
    }
    var counts := CountsOf(lines, tokenizer.value);
    chunks := Windows(lines, counts, Usable(tokenLimit));
  }

  method Windows(lines: seq<string>, counts: Counts, budget: nat) returns (chunks: seq<Chunk>)
    requires lines != [] && |counts| == |lines|
    ensures Chunked(chunks, lines, Spans(counts, budget, 0))
  {
    hide Join, EndOf, NextStart, ChunkOf;
    chunks := [];
    var startIdx := 0;
    ghost var spans: seq<Span> := [];
    while startIdx < |lines|
      invariant startIdx <= |lines| && Chunked(chunks, lines, spans)
      invariant Spans(counts, budget, 0) == spans + Spans(counts, budget, startIdx)
    {
      var endIdx := Widest(counts, budget, startIdx);
      chunks := chunks + [ChunkOf(lines, Span(startIdx, endIdx))];
      ghost var before := spans;
      spans := spans + [Span(startIdx, endIdx)];
      if endIdx >= |lines| {
        assert Spans(counts, budget, 0) == spans;
        return;
      }
      var next := Overlap(counts, startIdx, endIdx);
      assert Spans(counts, budget, startIdx) == [Span(startIdx, endIdx)] + Spans(counts, budget, next);
      startIdx := next;
    }
  }

  /** The inner loop that fills a window. */
  method Widest(counts: Counts, budget: nat, startIdx: nat) returns (endIdx: nat)
    requires startIdx < |counts|
    ensures endIdx == EndOf(counts, budget, startIdx)
  {
    hide Sum;
    var used := 0;
    endIdx := startIdx;
    CostEmpty(counts, startIdx);
    while endIdx < |counts| && used + counts[endIdx] <= budget
      invariant startIdx <= endIdx <= |counts| && used == Cost(counts, startIdx, endIdx)
      invariant Grow(counts, budget, startIdx, startIdx) == Grow(counts, budget, startIdx, endIdx)
    {
      CostLast(counts, startIdx, endIdx + 1);
      used := used + counts[endIdx];
      endIdx := endIdx + 1;
    }
    if endIdx < |counts| {
      CostLast(counts, startIdx, endIdx + 1);
    }
    if endIdx == startIdx {
      endIdx := startIdx + 1;
    }
  }

  /** The inner loop that steps back. */
  method Overlap(counts: Counts, startIdx: nat, endIdx: nat) returns (next: nat)
    requires startIdx < endIdx <= |counts|
    ensures next == NextStart(counts, startIdx, endIdx)
  {
    hide Sum;
    var overlapTokens := 0;
    next := endIdx;
    CostEmpty(counts, endIdx);
    while next > startIdx && overlapTokens < CHUNK_OVERLAP_TOKENS
      invariant startIdx <= next <= endIdx && overlapTokens == Cost(counts, next, endIdx)
      invariant StepBack(counts, startIdx, endIdx, endIdx) == StepBack(counts, startIdx, endIdx, next)
    {
      next := next - 1;
      CostFirst(counts, next, endIdx);
      overlapTokens := overlapTokens + counts[next];
    }
    if next < startIdx + 1 {
      next := startIdx + 1;
    }
  }

  // ---- Costs ----

  lemma CostEmpty(counts: Counts, i: nat)
    requires i <= |counts|
    ensures Cost(counts, i, i) == 0
  {
  }

  lemma CostLast(counts: Counts, i: nat, j: nat)
    requires i < j <= |counts|
    ensures Cost(counts, i, j) == Cost(counts, i, j - 1) + counts[j - 1]
  {
    assert counts[i..j][..j - i - 1] == counts[i..j - 1];
  }

  lemma {:induction false} CostFirst(counts: Counts, i: nat, j: nat)
    requires i < j <= |counts|
    ensures Cost(counts, i, j) == counts[i] + Cost(counts, i + 1, j)
    decreases j
  {
    hide Cost;
    CostLast(counts, i, j);
    if i + 1 == j {
      CostEmpty(counts, i);
      CostEmpty(counts, j);
    } else {
      CostFirst(counts, i, j - 1);
      CostLast(counts, i + 1, j);
    }
  }

  /** A part costs no more than the whole. */
  lemma {:induction false} CostPart(counts: Counts, i: nat, i': nat, j: nat)
    requires i <= i' <= j <= |counts|
    ensures Cost(counts, i', j) <= Cost(counts, i, j)
    decreases i' - i
  {
    hide Cost;
    if i < i' {
      CostFirst(counts, i, j);
      CostPart(counts, i + 1, i', j);
    }
  }

  // ---- What a window is ----

  /** A window is within the budget, or one line. */
  predicate Fits(counts: Counts, budget: nat, span: Span)
    requires span.start < span.end <= |counts|
  {
    Cost(counts, span.start, span.end) <= budget || span.end == span.start + 1
  }

  lemma {:induction false} GrowFits(counts: Counts, budget: nat, start: nat, j: nat)
    requires start <= j <= |counts| && Cost(counts, start, j) <= budget
    ensures var end := Grow(counts, budget, start, j);
            && Cost(counts, start, end) <= budget
            && (end < |counts| ==> Cost(counts, start, end + 1) > budget)
    decreases |counts| - j
  {
    hide Cost;
    if j < |counts| && Cost(counts, start, j + 1) <= budget {
      GrowFits(counts, budget, start, j + 1);
    }
  }

  /** A window fits, and no line more would. */
  lemma EndOfFits(counts: Counts, budget: nat, start: nat)
    requires start < |counts|
    ensures var end := EndOf(counts, budget, start);
            && Fits(counts, budget, Span(start, end))
            && (end < |counts| ==> Cost(counts, start, end + 1) > budget)
  {
    hide Cost, Grow;
    CostEmpty(counts, start);
    GrowFits(counts, budget, start, start);
    var end := Grow(counts, budget, start, start);
    if end == start && start + 1 < |counts| {
      CostLast(counts, start, start + 2);
    }
  }

  lemma {:induction false} GrowReaches(counts: Counts, budget: nat, start: nat, j: nat, k: nat)
    requires start <= j <= k <= |counts| && Cost(counts, start, k) <= budget
    ensures Grow(counts, budget, start, j) >= k
    decreases |counts| - j
  {
    hide Cost;
    if j < k {
      CostUpTo(counts, start, j + 1, k);
      GrowReaches(counts, budget, start, j + 1, k);
    }
  }

  lemma {:induction false} CostUpTo(counts: Counts, i: nat, j: nat, k: nat)
    requires i <= j <= k <= |counts|
    ensures Cost(counts, i, j) <= Cost(counts, i, k)
    decreases k - j
  {
    hide Cost;
    if j < k {
      CostLast(counts, i, k);
      CostUpTo(counts, i, j, k - 1);
    }
  }

  /** A later window never ends earlier. */
  lemma EndsNeverDecrease(counts: Counts, budget: nat, start: nat)
    requires start < |counts| && EndOf(counts, budget, start) < |counts|
    ensures var end := EndOf(counts, budget, start);
            EndOf(counts, budget, NextStart(counts, start, end)) >= end
  {
    hide Cost, Grow, StepBack;
    var end := EndOf(counts, budget, start);
    var next := NextStart(counts, start, end);
    EndOfFits(counts, budget, start);
    if next < end {
      CostPart(counts, start, next, end);
      GrowReaches(counts, budget, next, next, end);
    }
  }

  /** Two windows in a row share at least the overlap, or the second starts one line
      after the first. */
  predicate Overlaps(counts: Counts, start: nat, end: nat, next: nat)
    requires start < next <= end <= |counts|
  {
    next == start + 1 || Cost(counts, next, end) >= CHUNK_OVERLAP_TOKENS
  }

  lemma {:induction false} StepBackPays(counts: Counts, start: nat, end: nat, next: nat)
    requires start <= next <= end <= |counts|
    ensures var r := StepBack(counts, start, end, next);
            r == start || Cost(counts, r, end) >= CHUNK_OVERLAP_TOKENS
    decreases next
  {
    hide Cost;
    if next > start && Cost(counts, next, end) < CHUNK_OVERLAP_TOKENS {
      StepBackPays(counts, start, end, next - 1);
    }
  }

  lemma NextOverlaps(counts: Counts, start: nat, end: nat)
    requires start < end <= |counts|
    ensures Overlaps(counts, start, end, NextStart(counts, start, end))
  {
    hide Cost, StepBack;
    StepBackPays(counts, start, end, end);
  }

  // ---- What the windows are together ----

  predicate WellSpaced(counts: Counts, budget: nat, spans: seq<Span>) {
    && (forall i :: 0 <= i < |spans| ==> spans[i].start < spans[i].end <= |counts| && Fits(counts, budget, spans[i]))
    && (forall i :: 0 <= i < |spans| - 1 ==> Follows(counts, spans[i], spans[i + 1]))
  }

  predicate Follows(counts: Counts, a: Span, b: Span) {
    && a.start < b.start <= a.end <= b.end && a.end <= |counts|
    && Overlaps(counts, a.start, a.end, b.start)
  }

  /** Starts strictly increase, ends never decrease, no line is skipped between two
      windows, every window fits or is one line, two in a row overlap enough, and the
      last window ends at the last line. */
  lemma {:induction false} SpansAreWellSpaced(counts: Counts, budget: nat, start: nat)
    requires start < |counts|
    ensures var spans := Spans(counts, budget, start);
            && spans != [] && spans[0] == Span(start, EndOf(counts, budget, start))
            && spans[|spans| - 1].end == |counts|
            && WellSpaced(counts, budget, spans) && |spans| <= |counts| - start
    decreases |counts| - start
  {
    hide EndOf, NextStart, Overlaps, Fits;
    var end := EndOf(counts, budget, start);
    var spans := Spans(counts, budget, start);
    EndOfFits(counts, budget, start);
    if end < |counts| {
      var next := NextStart(counts, start, end);
      var rest := Spans(counts, budget, next);
      SpansAreWellSpaced(counts, budget, next);
      EndsNeverDecrease(counts, budget, start);
      NextOverlaps(counts, start, end);
      assert spans == [Span(start, end)] + rest;
      assert Follows(counts, spans[0], rest[0]);
      forall i | 0 <= i < |spans| - 1 ensures Follows(counts, spans[i], spans[i + 1]) {
        if i > 0 {
          assert Follows(counts, rest[i - 1], rest[i]);
        }
      }
    }
  }

  /** Every line lies in some window. */
  lemma {:induction false} EveryLineIsCovered(counts: Counts, budget: nat, start: nat, line: nat)
    requires start <= line < |counts|
    ensures exists i :: 0 <= i < |Spans(counts, budget, start)|
                        && Spans(counts, budget, start)[i].start <= line < Spans(counts, budget, start)[i].end
    decreases |counts| - start
  {
    hide EndOf, NextStart;
    var spans := Spans(counts, budget, start);
    var end := EndOf(counts, budget, start);
    if line < end {
      assert spans[0].start <= line < spans[0].end;
    } else {
      var next := NextStart(counts, start, end);
      EveryLineIsCovered(counts, budget, next, line);
      var rest := Spans(counts, budget, next);
      var i :| 0 <= i < |rest| && rest[i].start <= line < rest[i].end;
      assert spans[i + 1] == rest[i];
    }
  }

  /** The lines each window adds to those before it. */
  function NewLines(lines: seq<string>, spans: seq<Span>, from: nat): seq<string>
    decreases |spans|
  {
    if spans == [] then []
    else (if from <= spans[0].end <= |lines| then lines[from..spans[0].end] else [])
         + NewLines(lines, spans[1..], spans[0].end)
  }

  /** Put together without the overlaps, the windows are the file: no line is lost,
      repeated or out of order. */
  lemma {:induction false} WindowsReassemble(lines: seq<string>, counts: Counts, budget: nat, start: nat, from: nat)
    requires |lines| == |counts| && start < |counts| && start <= from <= EndOf(counts, budget, start)
    ensures NewLines(lines, Spans(counts, budget, start), from) == lines[from..]
    decreases |counts| - start
  {
    hide EndOf, NextStart;
    var end := EndOf(counts, budget, start);
    var spans := Spans(counts, budget, start);
    if end == |counts| {
      assert spans[1..] == [];
      assert NewLines(lines, spans, from) == lines[from..end] + [];
    } else {
      var next := NextStart(counts, start, end);
      EndsNeverDecrease(counts, budget, start);
      WindowsReassemble(lines, counts, budget, next, end);
      assert spans[1..] == Spans(counts, budget, next);
      assert lines[from..end] + lines[end..] == lines[from..];
    }
  }

  // ---- What the chunks hold ----

  lemma {:induction false} JoinOfSplit(s: string)
    ensures Join(Split(s, '\n'), "\n") == s
    decreases |s|
  {
    if s != "" {
      var rest := Split(s[1..], '\n');
      JoinOfSplit(s[1..]);
      if s[0] == '\n' {
        assert ([[]] + rest)[1..] == rest;
      } else {
        assert ([[s[0]] + rest[0]] + rest[1..])[1..] == rest[1..];
        assert s == [s[0]] + s[1..];
      }
    }
  }

  lemma {:induction false} SplitEnds(s: string)
    ensures Split(s, '\n')[|Split(s, '\n')| - 1] == "" <==> s == "" || s[|s| - 1] == '\n'
    decreases |s|
  {
    if s != "" {
      SplitEnds(s[1..]);
    }
  }

  /** The lines hold no newline and, joined by newlines, are the text without its final
      newline; there are none exactly when the text is empty. */
  lemma LinesAre(s: string)
    ensures forall k :: 0 <= k < |Lines(s)| ==> '\n' !in Lines(s)[k]
    ensures Lines(s) == [] <==> s == ""
    ensures s != "" ==> s == Join(Lines(s), "\n") + (if s[|s| - 1] == '\n' then "\n" else "")
  {
    hide Join, Split;
    SplitPieces(s, '\n');
    JoinOfSplit(s);
    SplitEnds(s);
    var parts := Split(s, '\n');
    var n := |parts| - 1;
    if s == "" {
      assert parts == [""] by { SplitOne(s, '\n'); }
    } else if n == 0 {
      assert Join(parts, "\n") == parts[0] by { JoinSingle(parts); }
    } else {
      assert parts == parts[..n] + [parts[n]];
      JoinAppend(parts[..n], [parts[n]], "\n");
      JoinSingle([parts[n]]);
    }
  }

  lemma JoinSingle(parts: seq<string>)
    requires |parts| == 1
    ensures Join(parts, "\n") == parts[0]
  {
  }

  /** A chunk is read back as the lines of its window, and says on which line, counted from
      one, it starts. */
  lemma ChunkReads(lines: seq<string>, span: Span)
    requires span.start < span.end <= |lines| && forall k :: 0 <= k < |lines| ==> '\n' !in lines[k]
    ensures Split(ChunkOf(lines, span).text, '\n') == lines[span.start..span.end]
    ensures ChunkOf(lines, span).firstLine == span.start + 1
  {
    hide Join, Split;
    SplitOfJoin(lines[span.start..span.end]);
  }

  /** A line costs what the tokenizer says, and at least one. */
  lemma CountsAre(lines: seq<string>, encode: string -> nat, i: nat)
    requires i < |lines|
    ensures encode(lines[i]) >= 1 ==> CountsOf(lines, encode)[i] == encode(lines[i])
    ensures encode(lines[i]) == 0 ==> CountsOf(lines, encode)[i] == 1
  {
  }

  /** What a window costs is the sum of its lines' costs. */
  lemma {:induction false} SumAppend(a: Counts, b: Counts)
    ensures Sum(a + b) == Sum(a) + Sum(b)
    ensures forall n: nat :: Sum([n]) == n
    decreases |b|
  {
    assert forall n: nat :: [n][..0] == [];
    if b == [] {
      assert a + b == a;
    } else {
      var n := |b| - 1;
      assert (a + b)[..|a + b| - 1] == a + b[..n];
      SumAppend(a, b[..n]);
    }
  }

  /** 1024 tokens less than the limit, 8192 when none is set, and 512 at least. */
  lemma UsableIs(tokenLimit: Option<int>)
    ensures tokenLimit in {None, Some(0)} ==> Usable(tokenLimit) == 7168
    ensures tokenLimit.Some? && tokenLimit.value >= 1536 ==> Usable(tokenLimit) == tokenLimit.value - 1024
    ensures tokenLimit.Some? && tokenLimit.value < 1536 && tokenLimit.value != 0 ==> Usable(tokenLimit) == 512
  {
  }
}
