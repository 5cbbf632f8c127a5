/** Bounding command output to a hard cap: whole lines from both ends around an
    omission marker that is itself charged against the cap.
    (engine/evidence_bounds.py) */
module EvidenceBounds {
  import opened Text

  const MAX_HOISTED_LINES := 20
  const MAX_HOISTED_CHARS := 1000
  const SHRINK_ROUNDS := 12

  function Min(a: int, b: int): int { if a < b then a else b }
  function Max(a: int, b: int): int { if a < b then b else a }

  // ---- Lines ----

  /** Position `i` is between two lines, or at either end. */
  predicate IsBoundary(s: string, i: int) {
    0 <= i <= |s| && (i == 0 || i == |s| || s[i - 1] == '\n')
  }

  /** Where the line that starts at `i` ends, its newline included. */
  function LineEnd(s: string, i: nat): (e: nat)
    requires i < |s|
    ensures i < e && IsBoundary(s, e)
    ensures forall j :: i < j < e ==> !IsBoundary(s, j)
    decreases |s| - i
  {
    if s[i] == '\n' || i + 1 == |s| then i + 1 else LineEnd(s, i + 1)
  }

  /** Where the line that ends at `e` starts. */
  function LineStart(s: string, e: nat): (i: nat)
    requires 0 < e <= |s|
    ensures i < e && IsBoundary(s, i)
    ensures forall j :: i < j < e ==> !IsBoundary(s, j)
  {
    if e == 1 || s[e - 2] == '\n' then e - 1 else LineStart(s, e - 1)
  }

  /** The largest prefix of complete lines that fits in `budget`. */
  method HeadEndForBudget(output: string, budget: nat) returns (end: nat)
    ensures IsBoundary(output, end) && end <= budget
    ensures forall j :: IsBoundary(output, j) && j <= budget ==> j <= end
  {
    end := 0;
    while end < |output|
      invariant IsBoundary(output, end) && end <= budget
    {
      var next := LineEnd(output, end);
      if next > budget {
        break;
      }
      end := next;
    }
  }

  /** The largest suffix of complete lines that fits in `budget`. */
  method TailStartForBudget(output: string, budget: nat) returns (start: nat)
    ensures IsBoundary(output, start) && |output| - start <= budget
    ensures forall j :: IsBoundary(output, j) && |output| - j <= budget ==> start <= j
  {
    start := |output|;
    var used := 0;
    while start > 0
      invariant IsBoundary(output, start) && used == |output| - start <= budget
    {
      var previous := LineStart(output, start);
      if used + (start - previous) > budget {
        break;
      }
      used := used + (start - previous);
      start := previous;
    }
  }

  /** How many lines `s` has; a last line without a newline counts. */
  function LineCount(s: string): (n: nat)
    ensures n <= |s|
  {
    if |s| <= 1 then |s| else LineCount(s[1..]) + (if s[0] == '\n' then 1 else 0)
  }

  lemma {:induction false} LineCountAppend(s: string, c: char)
    ensures LineCount(s) <= LineCount(s + [c]) <= LineCount(s) + 1
  {
    if |s| > 1 {
      assert (s + [c])[1..] == s[1..] + [c];
      LineCountAppend(s[1..], c);
    }
  }

  /** Widening a window by `d` characters adds between 0 and `d` lines. */
  lemma {:induction false} LineCountWiden(s: string, a: nat, b: nat, a': nat, b': nat)
    requires a' <= a <= b <= b' <= |s|
    ensures LineCount(s[a..b]) <= LineCount(s[a'..b']) <= LineCount(s[a..b]) + (a - a') + (b' - b)
    decreases (a - a') + (b' - b)
  {
    if b < b' {
      LineCountWiden(s, a, b, a', b' - 1);
      assert s[a'..b'] == s[a'..b' - 1] + [s[b' - 1]];
      LineCountAppend(s[a'..b' - 1], s[b' - 1]);
    } else if a' < a {
      LineCountWiden(s, a, b, a' + 1, b');
      assert s[a'..b'][1..] == s[a' + 1..b'];
    }
  }

  // ---- Hoisted summary lines ----

  predicate NoSpace(s: string) {
    forall i :: 0 <= i < |s| ==> !IsSpace(s[i])
  }

  /** `prefix`, then at least one non-space character, then "::". */
  predicate NamesTest(prefix: string, line: string) {
    && prefix <= line
    && exists j | |prefix| < j < |line| :: ColonsAt(line, j) && NoSpace(line[|prefix|..j])
  }

  predicate ColonsAt(line: string, j: nat) {
    j < |line| - 1 && line[j] == ':' && line[j + 1] == ':'
  }

  predicate IsSummary(line: string) {
    NamesTest("FAILED ", line) || NamesTest("ERROR ", line)
  }

  /** The distinct summary lines, stripped, in order of first occurrence. */
  function Summaries(lines: seq<string>): (found: seq<string>)
    decreases |lines|
  {
    if lines == [] then []
    else
      var before := Summaries(lines[..|lines| - 1]);
      var line := Strip(lines[|lines| - 1]);
      if IsSummary(line) && line !in before then before + [line] else before
  }

  function TotalLength(lines: seq<string>): nat {
    if lines == [] then 0 else TotalLength(lines[..|lines| - 1]) + |lines[|lines| - 1]|
  }

  /** The lines that the count and the character budget still carry. */
  function Carried(lines: seq<string>, budget: nat): (kept: seq<string>)
    ensures |kept| <= |lines|
    decreases |lines|
  {
    if lines == [] then []
    else
      var before, line := Carried(lines[..|lines| - 1], budget), lines[|lines| - 1];
      if |before| >= MAX_HOISTED_LINES || TotalLength(before) + |line| > budget then before
      else before + [line]
  }

  lemma SummariesStep(lines: seq<string>, k: nat)
    requires k < |lines|
    ensures var before, line := Summaries(lines[..k]), Strip(lines[k]);
            Summaries(lines[..k + 1]) == if IsSummary(line) && line !in before then before + [line] else before
  {
    hide IsSummary, Strip;
    assert lines[..k + 1][..k] == lines[..k];
  }

  lemma CarriedStep(lines: seq<string>, line: string, budget: nat)
    ensures var before := Carried(lines, budget);
            Carried(lines + [line], budget)
            == if |before| >= MAX_HOISTED_LINES || TotalLength(before) + |line| > budget then before
               else before + [line]
  {
    assert (lines + [line])[..|lines|] == lines;
  }

  lemma TotalLengthStep(lines: seq<string>, line: string)
    ensures TotalLength(lines + [line]) == TotalLength(lines) + |line|
  {
    assert (lines + [line])[..|lines|] == lines;
  }

  lemma NothingHoisted(budget: nat)
    ensures Summaries([]) == [] && Carried([], budget) == [] && TotalLength([]) == 0
  {
  }

  method HoistSummaryLines(omitted: string, budget: nat) returns (hoisted: seq<string>, dropped: nat)
    ensures hoisted == Carried(Summaries(Split(omitted, '\n')), budget)
    ensures |hoisted| + dropped == |Summaries(Split(omitted, '\n'))|
  {
    hide IsSummary, Strip, Split, Summaries, Carried, TotalLength;
    NothingHoisted(budget);
    var lines := Split(omitted, '\n');
    hoisted, dropped := [], 0;
    var seen: set<string> := {};
    ghost var found: seq<string> := [];
    var used := 0;
    for k := 0 to |lines|
      invariant found == Summaries(lines[..k]) && forall line :: line in seen <==> line in found
      invariant hoisted == Carried(found, budget) && used == TotalLength(hoisted)
      invariant |hoisted| + dropped == |found|
    {
      var stripped := Strip(lines[k]);
      SummariesStep(lines, k);
      if !IsSummary(stripped) || stripped in seen {
        continue;
      }
      seen := seen + {stripped};
      CarriedStep(found, stripped, budget);
      found := found + [stripped];
      if |hoisted| >= MAX_HOISTED_LINES || used + |stripped| > budget {
        dropped := dropped + 1;
        continue;
      }
      TotalLengthStep(hoisted, stripped);
      hoisted := hoisted + [stripped];
      used := used + |stripped|;
    }
    assert lines[..|lines|] == lines;
  }

  ghost predicate Distinct(s: seq<string>) {
    forall i, j :: 0 <= i < j < |s| ==> s[i] != s[j]
  }

  lemma DistinctAppend(s: seq<string>, x: string)
    requires Distinct(s) && x !in s
    ensures Distinct(s + [x])
  {
  }

  lemma {:induction false} SummariesAreDistinct(lines: seq<string>)
    ensures Distinct(Summaries(lines))
    decreases |lines|
  {
    hide IsSummary, Strip;
    if lines != [] {
      var before := Summaries(lines[..|lines| - 1]);
      SummariesAreDistinct(lines[..|lines| - 1]);
      if Summaries(lines) != before {
        DistinctAppend(before, Strip(lines[|lines| - 1]));
      }
    }
  }

  lemma MemberAppend(s: seq<string>, y: string, x: string)
    ensures x in s + [y] <==> x in s || x == y
  {
  }

  /** The summaries are exactly the lines that are summary lines once stripped. */
  lemma {:induction false} SummariesAreTheSummaryLines(lines: seq<string>, x: string)
    ensures x in Summaries(lines) <==> IsSummary(x) && exists k :: 0 <= k < |lines| && Strip(lines[k]) == x
    decreases |lines|
  {
    hide IsSummary, Strip;
    if lines != [] {
      var last := |lines| - 1;
      var rest, line := lines[..last], Strip(lines[last]);
      SummariesAreTheSummaryLines(rest, x);
      MemberAppend(Summaries(rest), line, x);
      assert forall k :: 0 <= k < last ==> rest[k] == lines[k];
    }
  }

  /** `a` is `b` with some elements left out. */
  predicate IsSubsequence(a: seq<string>, b: seq<string>)
    decreases |b|
  {
    if a == [] then true
    else if b == [] then false
    else if a[|a| - 1] == b[|b| - 1] && IsSubsequence(a[..|a| - 1], b[..|b| - 1]) then true
    else IsSubsequence(a, b[..|b| - 1])
  }

  /** What is hoisted keeps the order, the count limit and the budget. */
  lemma {:induction false} CarriedFits(lines: seq<string>, budget: nat)
    ensures var kept := Carried(lines, budget);
            IsSubsequence(kept, lines) && |kept| <= MAX_HOISTED_LINES && TotalLength(kept) <= budget
    decreases |lines|
  {
    if lines != [] {
      var last := |lines| - 1;
      CarriedFits(lines[..last], budget);
      var before, line := Carried(lines[..last], budget), lines[last];
      assert (before + [line])[..|before|] == before;
    }
  }

  // ---- The omission marker ----

  const MARK_OPEN := "\n\U{2026} ["
  const MARK_CHARS := " chars omitted \U{2014} "
  const MARK_LINES := " line(s)"
  const MARK_CUT := "; one over-budget line was cut mid-line"
  const MARK_CLOSE := "] \U{2026}\n"
  const HOIST_CLOSE := "\n\U{2026}\n"
  const DROP_OPEN := "\U{2026} ["
  const DROP_CLOSE := " further FAILED/ERROR line(s) not hoisted] \U{2026}\n"

  function CountPart(chars: nat): string {
    MARK_OPEN + Decimal(chars) + MARK_CHARS
  }

  function LinesPart(lines: nat, partialLineCut: bool): string {
    Decimal(lines) + MARK_LINES + (if partialLineCut then MARK_CUT else "") + MARK_CLOSE
  }

  function Tally(omitted: string, partialLineCut: bool): string {
    CountPart(|omitted|) + LinesPart(LineCount(omitted), partialLineCut)
  }

  function OmissionMarker(omitted: string, partialLineCut: bool, hoisted: seq<string>, dropped: nat): string {
    var tally := Tally(omitted, partialLineCut);
    var text := if hoisted != [] then tally + Join(hoisted, "\n") + HOIST_CLOSE else tally;
    if dropped > 0 then text + DROP_OPEN + Decimal(dropped) + DROP_CLOSE else text
  }

  function TallyLength(chars: nat, lines: nat, partialLineCut: bool): nat {
    33 + DigitCount(chars) + DigitCount(lines) + (if partialLineCut then 39 else 0)
  }

  lemma TallyHasLength(omitted: string, partialLineCut: bool)
    ensures |Tally(omitted, partialLineCut)| == TallyLength(|omitted|, LineCount(omitted), partialLineCut)
  {
    assert |MARK_OPEN| == 4 && |MARK_CHARS| == 17 && |MARK_LINES| == 8 && |MARK_CLOSE| == 4;
    assert |MARK_CUT| == 39;
  }

  function HoistBudget(omitted: string, partialLineCut: bool, budget: nat): nat {
    Min(MAX_HOISTED_CHARS, Max(0, budget - |Tally(omitted, partialLineCut)| - 40))
  }

  /** The marker for `omitted`: the tally, and the ids that the budget still carries. */
  function Marker(omitted: string, partialLineCut: bool, budget: nat): (marker: string)
    ensures |marker| <= budget || marker == Tally(omitted, partialLineCut)
  {
    var found := Summaries(Split(omitted, '\n'));
    var hoisted := Carried(found, HoistBudget(omitted, partialLineCut, budget));
    var marker := OmissionMarker(omitted, partialLineCut, hoisted, |found| - |hoisted|);
    if |marker| <= budget then marker else Tally(omitted, partialLineCut)
  }

  lemma BareMarker(omitted: string, partialLineCut: bool)
    ensures OmissionMarker(omitted, partialLineCut, [], 0) == Tally(omitted, partialLineCut)
  {
  }

  lemma MarkerOpensWithTally(omitted: string, partialLineCut: bool, hoisted: seq<string>, dropped: nat)
    ensures Tally(omitted, partialLineCut) <= OmissionMarker(omitted, partialLineCut, hoisted, dropped)
  {
    hide Tally, Decimal, Join;
  }

  /** Whatever is hoisted, the marker opens with the whole tally: the exact numbers of
      characters and lines that are missing, and whether a line was cut. */
  lemma MarkerReportsOmission(omitted: string, partialLineCut: bool, budget: nat)
    ensures Tally(omitted, partialLineCut) <= Marker(omitted, partialLineCut, budget)
  {
    hide Tally, OmissionMarker, Summaries, Carried, Split, HoistBudget;
    var found := Summaries(Split(omitted, '\n'));
    var hoisted := Carried(found, HoistBudget(omitted, partialLineCut, budget));
    MarkerOpensWithTally(omitted, partialLineCut, hoisted, |found| - |hoisted|);
  }

  lemma MarkerLength(omitted: string, partialLineCut: bool, budget: nat)
    ensures var n := |Marker(omitted, partialLineCut, budget)|;
            n <= budget || n == TallyLength(|omitted|, LineCount(omitted), partialLineCut)
  {
    TallyHasLength(omitted, partialLineCut);
  }

  method MarkerFor(omitted: string, partialLineCut: bool, budget: nat) returns (marker: string)
    ensures marker == Marker(omitted, partialLineCut, budget)
  {
    hide Tally, Summaries, Carried, Split, OmissionMarker;
    var tally := OmissionMarker(omitted, partialLineCut, [], 0);
    BareMarker(omitted, partialLineCut);
    var hoistBudget := Min(MAX_HOISTED_CHARS, Max(0, budget - |tally| - 40));
    var hoisted, dropped := HoistSummaryLines(omitted, hoistBudget);
    marker := OmissionMarker(omitted, partialLineCut, hoisted, dropped);
    if |marker| > budget {
      marker := tally;
    }
  }

  // ---- Shrinking one side ----

  /** The first place of `c`. */
  function Find(s: string, c: char): (r: Option<nat>)
    ensures r.Some? ==> r.value < |s| && s[r.value] == c && forall i :: 0 <= i < r.value ==> s[i] != c
    ensures r.None? ==> forall i :: 0 <= i < |s| ==> s[i] != c
  {
    if s == [] then None
    else if s[0] == c then Some(0)
    else match Find(s[1..], c) case None => None case Some(i) => Some(i + 1)
  }

  /** The last place of `c`. */
  function RFind(s: string, c: char): (r: Option<nat>)
    ensures r.Some? ==> r.value < |s| && s[r.value] == c && forall i :: r.value < i < |s| ==> s[i] != c
    ensures r.None? ==> forall i :: 0 <= i < |s| ==> s[i] != c
  {
    if s == [] then None
    else if s[|s| - 1] == c then Some(|s| - 1)
    else RFind(s[..|s| - 1], c)
  }

  /** Drop whole lines from the front of `tail` until `over` characters are gone: up to the
      first newline with which they are, or, when there is none, just the `over` characters. */
  method DropFromTail(tail: string, over: nat) returns (rest: string, midLine: bool)
    requires tail != "" && over > 0
    ensures |rest| < |tail| && rest == tail[|tail| - |rest|..]
    ensures rest == "" || |tail| - |rest| >= over
    ensures !midLine ==> tail[|tail| - |rest| - 1] == '\n'
    ensures midLine <==> forall i :: over - 1 <= i < |tail| ==> tail[i] != '\n'
    ensures midLine ==> |rest| == Max(0, |tail| - over)
    ensures !midLine ==> forall i :: over - 1 <= i < |tail| - |rest| - 1 ==> tail[i] != '\n'
  {
    rest, midLine := tail, false;
    var dropped := 0;
    while dropped < over
      invariant |rest| == |tail| - dropped && rest == tail[dropped..]
      invariant dropped > 0 ==> tail[dropped - 1] == '\n'
      invariant !midLine && forall i :: over - 1 <= i < dropped - 1 ==> tail[i] != '\n'
      decreases |rest|
    {
      var newline := Find(rest, '\n');
      if newline.None? {
        var cut := Min(over - dropped, |rest|);
        rest := rest[cut..];
        dropped := dropped + cut;
        midLine := true;
        break;
      }
      rest := rest[newline.value + 1..];
      dropped := dropped + newline.value + 1;
    }
  }

  /** Drop whole lines from the end of `head` until `over` characters are gone: back to the
      last newline with which they are, or, when there is none but at the very start, just
      the `over` characters. */
  method DropFromHead(head: string, over: nat) returns (rest: string, midLine: bool)
    requires head != "" && over > 0
    ensures |rest| < |head| && rest == head[..|rest|]
    ensures rest == "" || |head| - |rest| >= over
    ensures !midLine ==> head[|rest|] == '\n'
    ensures midLine <==> forall i :: 0 < i <= |head| - over ==> head[i] != '\n'
    ensures midLine ==> |rest| == Max(0, |head| - over)
    ensures !midLine ==> forall i :: |rest| < i <= |head| - over ==> head[i] != '\n'
  {
    rest, midLine := head, false;
    var dropped := 0;
    while dropped < over && rest != ""
      invariant |rest| == |head| - dropped && rest == head[..|rest|]
      invariant dropped > 0 ==> rest != "" && head[|rest|] == '\n'
      invariant !midLine && forall i :: |rest| < i <= |head| - over ==> head[i] != '\n'
      decreases |rest|
    {
      var newline := RFind(rest, '\n');
      if newline.None? || newline.value == 0 {
        var cut := Min(over - dropped, |rest|);
        rest := rest[..|rest| - cut];
        dropped := dropped + cut;
        midLine := true;
        break;
      }
      dropped := dropped + |rest| - newline.value;
      rest := rest[..newline.value];
    }
  }

  // ---- The shrink loop converges ----

  /** What is kept: the first `head` and the last `tail` characters. */
  datatype Kept = Kept(head: nat, tail: nat, partialLineCut: bool)

  predicate Inside(output: string, k: Kept) {
    k.head + k.tail <= |output|
  }

  function Omitted(output: string, k: Kept): (omitted: string)
    requires Inside(output, k)
    ensures |omitted| == |output| - k.head - k.tail
  {
    output[k.head..|output| - k.tail]
  }

  /** The numbers that decide whether a round fits. */
  datatype Size = Size(head: nat, tail: nat, chars: nat, lines: nat, partialLineCut: bool)

  function SizeOf(output: string, k: Kept): Size
    requires Inside(output, k)
  {
    Size(k.head, k.tail, |output| - k.head - k.tail, LineCount(Omitted(output, k)), k.partialLineCut)
  }

  function TallySize(z: Size): nat {
    TallyLength(z.chars, z.lines, z.partialLineCut)
  }

  /** The tally alone fits beside what is kept. */
  predicate TallyFits(cap: nat, z: Size) {
    z.head + z.tail + TallySize(z) <= cap
  }

  /** `z'` keeps no more than `z` on either side and has omitted the difference. */
  predicate Shrunk(z: Size, z': Size) {
    && z'.head <= z.head && z'.tail <= z.tail && (z.partialLineCut ==> z'.partialLineCut)
    && z'.chars == z.chars + (z.head - z'.head) + (z.tail - z'.tail)
    && z.lines <= z'.lines <= z.lines + (z.head - z'.head) + (z.tail - z'.tail)
  }

  lemma SizeShrinks(output: string, k: Kept, k': Kept)
    requires Inside(output, k) && k'.head <= k.head && k'.tail <= k.tail
    requires k.partialLineCut ==> k'.partialLineCut
    ensures Shrunk(SizeOf(output, k), SizeOf(output, k'))
  {
    LineCountWiden(output, k.head, |output| - k.tail, k'.head, |output| - k'.tail);
  }

  function Events(before: bool, after: bool): nat { if after && !before then 1 else 0 }

  /** How often the state has changed since `start` in a way that can make a
      round fail again: a longer numeral, the mid-line note, an emptied side. */
  function Changes(start: Size, z: Size): int {
    Events(start.partialLineCut, z.partialLineCut)
    + (DigitCount(z.chars) - DigitCount(start.chars)) + (DigitCount(z.lines) - DigitCount(start.lines))
    + Events(start.tail == 0, z.tail == 0) + Events(start.head == 0, z.head == 0)
  }

  /** Failed rounds so far are paid for by changes, one round ahead at most
      when the tally now fits. */
  predicate Paid(cap: nat, start: Size, z: Size, rounds: nat) {
    || rounds <= Changes(start, z)
    || (TallyFits(cap, z) && rounds <= Changes(start, z) + 1)
  }

  /** A small cap allows at most seven changes in all. */
  lemma ChangesBounded(start: Size, z: Size)
    requires Shrunk(start, z) && start.head + start.tail < 500
    ensures Changes(start, z) <= 7
  {
    DigitCountGrowth(start.chars, z.chars);
    DigitCountGrowth(start.lines, z.lines);
  }

  /** A round that fails with the tally alone, and then drops as much as it was
      over or empties a side, either makes a change or leaves the tally fitting. */
  lemma RoundPays(cap: nat, start: Size, z: Size, z': Size, rounds: nat)
    requires Shrunk(start, z) && Shrunk(z, z')
    requires Paid(cap, start, z, rounds) && !TallyFits(cap, z)
    requires || z.tail > 0 == z'.tail
             || z.head > 0 == z'.head
             || (z.head - z'.head) + (z.tail - z'.tail) >= z.head + z.tail + TallySize(z) - cap
    ensures Shrunk(start, z') && Paid(cap, start, z', rounds + 1)
  {
    DigitCountMonotone(z.chars, z'.chars);
    DigitCountMonotone(z.lines, z'.lines);
  }

  /** Large caps leave room for the tally from the start. */
  lemma RoomForTally(output: string, cap: nat, k: Kept)
    requires Inside(output, k) && |output| < Pow10(24) && k.head + k.tail + 120 <= cap
    ensures TallyFits(cap, SizeOf(output, k))
  {
    hide LineCount, Omitted;
    DigitCountBound(|output| - k.head - k.tail, 24);
    DigitCountBound(LineCount(Omitted(output, k)), 24);
  }

  // ---- Bounding an output ----

  /** Outputs the shrink loop is known to settle for. */
  predicate Ordinary(output: string, cap: nat) {
    cap < 480 || |output| < Pow10(24)
  }

  /** Both sides consist of complete lines; the newline of the head's last line
      may have gone to the omitted text. */
  predicate WholeLines(output: string, k: Kept)
    requires Inside(output, k)
  {
    && (IsBoundary(output, k.head) || output[k.head] == '\n')
    && IsBoundary(output, |output| - k.tail)
  }

  predicate Usable(output: string, cap: nat, k: Kept) {
    && Inside(output, k) && k.head + k.tail <= cap
    && (!k.partialLineCut ==> WholeLines(output, k))
  }

  function MarkerOf(output: string, cap: nat, k: Kept): string
    requires Inside(output, k) && k.head + k.tail <= cap
  {
    Marker(Omitted(output, k), k.partialLineCut, cap - k.head - k.tail)
  }

  /** Head, marker and tail, the marker describing exactly what is missing. */
  function Rendered(output: string, cap: nat, k: Kept): string
    requires Inside(output, k) && k.head + k.tail <= cap
  {
    output[..k.head] + MarkerOf(output, cap, k) + output[|output| - k.tail..]
  }

  function Clip(s: string, n: nat): string {
    if |s| <= n then s else s[..n]
  }

  predicate LoopInvariant(output: string, cap: nat, start: Size, k: Kept, rounds: nat) {
    && start.head + start.tail <= cap
    && Usable(output, cap, k) && Shrunk(start, SizeOf(output, k))
    && (cap < 480 ==> Paid(cap, start, SizeOf(output, k), rounds))
    && (cap >= 480 && |output| < Pow10(24) ==>
          rounds == 0 && SizeOf(output, k) == start && TallyFits(cap, start))
  }

  lemma ShrinkRound(output: string, cap: nat, start: Size, k: Kept, k': Kept, rounds: nat)
    requires LoopInvariant(output, cap, start, k, rounds) && !TallyFits(cap, SizeOf(output, k))
    requires k'.head <= k.head && k'.tail <= k.tail && (k.partialLineCut ==> k'.partialLineCut)
    requires Usable(output, cap, k')
    requires || k.tail > 0 == k'.tail
             || k.head > 0 == k'.head
             || (k.head - k'.head) + (k.tail - k'.tail) >= k.head + k.tail + TallySize(SizeOf(output, k)) - cap
    ensures LoopInvariant(output, cap, start, k', rounds + 1)
  {
    hide LineCount, TallyLength, Changes, Paid, Pow10;
    SizeShrinks(output, k, k');
    if cap < 480 {
      RoundPays(cap, start, SizeOf(output, k), SizeOf(output, k'), rounds);
    }
  }

  /** What a round learns from the marker's length. */
  lemma RoundOutcome(output: string, cap: nat, start: Size, k: Kept, rounds: nat, length: nat)
    requires LoopInvariant(output, cap, start, k, rounds)
    requires length <= cap - k.head - k.tail || length == TallySize(SizeOf(output, k))
    ensures Usable(output, cap, k)
    ensures k.head + length + k.tail > cap ==> length == TallySize(SizeOf(output, k))
    ensures cap >= 480 && |output| < Pow10(24) ==>
              && k.head + length + k.tail <= cap && rounds == 0
              && start.head == k.head && start.tail == k.tail
  {
    hide LineCount, TallyLength, Changes, Paid, Pow10, Omitted, WholeLines;
  }

  lemma RoundsBounded(output: string, cap: nat, start: Size, k: Kept, rounds: nat)
    requires LoopInvariant(output, cap, start, k, rounds) && Ordinary(output, cap)
    ensures rounds <= 8
  {
    hide LineCount, Changes, TallyLength;
    if cap < 480 {
      ChangesBounded(start, SizeOf(output, k));
    }
  }

  /** The end of the last line boundary within the budget, or the budget itself when not
      even one line fits. */
  ghost predicate OpensAt(output: string, budget: int, end: int) {
    if exists j :: IsBoundary(output, j) && 0 < j <= budget then
      IsBoundary(output, end) && 0 < end <= budget && forall j :: IsBoundary(output, j) && j <= budget ==> j <= end
    else end == budget
  }

  /** The start of the first line within the budget from the end, or what the budget leaves
      when not even one line fits. */
  ghost predicate ClosesAt(output: string, budget: int, start: int) {
    if exists j :: IsBoundary(output, j) && |output| - budget <= j < |output| then
      && IsBoundary(output, start) && |output| - budget <= start < |output|
      && forall j :: IsBoundary(output, j) && |output| - budget <= j ==> start <= j
    else start == |output| - budget
  }

  ghost predicate NoHeadLine(output: string, budget: int) {
    forall j :: IsBoundary(output, j) && 0 < j ==> budget < j
  }

  ghost predicate NoTailLine(output: string, budget: int) {
    forall j :: IsBoundary(output, j) && j < |output| ==> j < |output| - budget
  }

  /** The sides before anything is dropped: 120 characters, or a quarter of a small cap,
      are kept for the marker; six tenths of the rest are the head's and what is left is the
      tail's, which never reaches back into the head. */
  ghost predicate Opening(output: string, cap: nat, k: Kept) {
    var usable := cap - (if cap < 480 then cap / 4 else 120);
    var headBudget := usable * 6 / 10;
    && OpensAt(output, headBudget, k.head)
    && (k.partialLineCut <==> NoHeadLine(output, headBudget) || NoTailLine(output, usable - headBudget))
    && TailFrom(output, usable - headBudget, k.head, |output| - k.tail)
  }

  /** The tail starts where its budget has it start, or where the head ends if that is later. */
  ghost predicate TailFrom(output: string, budget: int, headEnd: int, start: int) {
    exists own :: ClosesAt(output, budget, own) && start == if own < headEnd then headEnd else own
  }

  lemma HeadOpens(output: string, budget: nat, end: nat)
    requires IsBoundary(output, end) && end <= budget
    requires forall j :: IsBoundary(output, j) && j <= budget ==> j <= end
    ensures OpensAt(output, budget, if end == 0 then budget else end)
    ensures end == 0 <==> NoHeadLine(output, budget)
  {
  }

  lemma TailCloses(output: string, budget: nat, start: nat)
    requires IsBoundary(output, start) && |output| - start <= budget
    requires forall j :: IsBoundary(output, j) && |output| - j <= budget ==> start <= j
    ensures ClosesAt(output, budget, if start >= |output| then |output| - budget else start)
    ensures start >= |output| <==> NoTailLine(output, budget)
  {
    assert forall j :: IsBoundary(output, j) ==> j <= |output|;
  }

  lemma StartHolds(output: string, cap: nat, k: Kept)
    requires Usable(output, cap, k) && (cap >= 480 ==> k.head + k.tail + 120 <= cap)
    ensures LoopInvariant(output, cap, SizeOf(output, k), k, 0)
  {
    hide LineCount, TallyLength, Pow10, Omitted, WholeLines;
    if cap >= 480 && |output| < Pow10(24) {
      RoomForTally(output, cap, k);
    }
  }

  /** The sides to start from: 60% and 40% of the cap less the marker reserve. */
  method InitialSides(output: string, cap: nat) returns (start: Kept)
    requires |output| > cap
    ensures Usable(output, cap, start)
    ensures LoopInvariant(output, cap, SizeOf(output, start), start, 0)
    ensures cap >= 480 ==> start.head > 0 && start.tail > 0
    ensures Opening(output, cap, start)
  {
    hide LineCount, TallyLength, Pow10, Omitted, OpensAt, ClosesAt, NoHeadLine, NoTailLine, LoopInvariant;
    var markerReserve := Min(120, cap / 4);
    var usable := Max(0, cap - markerReserve);
    var headBudget := usable * 6 / 10;
    var tailBudget := usable - headBudget;

    var headEnd := HeadEndForBudget(output, headBudget);
    HeadOpens(output, headBudget, headEnd);
    var partialLineCut := headEnd == 0;
    if partialLineCut {
      headEnd := headBudget;
    }
    var tailStart := TailStartForBudget(output, tailBudget);
    TailCloses(output, tailBudget, tailStart);
    if tailStart >= |output| {
      partialLineCut := true;
      tailStart := |output| - tailBudget;
    }
    assert ClosesAt(output, tailBudget, tailStart);
    tailStart := Max(tailStart, headEnd);
    assert TailFrom(output, tailBudget, headEnd, tailStart);
    start := Kept(headEnd, |output| - tailStart, partialLineCut);
    StartHolds(output, cap, start);
  }

  /** One round seen from the texts: what is rendered, and what its length means. */
  lemma RoundRendered(output: string, cap: nat, start: Size, k: Kept, rounds: nat,
                      head: string, tail: string, marker: string)
    requires Usable(output, cap, k) && Sides(output, k, head, tail, k.partialLineCut)
    requires LoopInvariant(output, cap, start, k, rounds)
    requires marker == Marker(output[|head|..|output| - |tail|], k.partialLineCut, Max(0, cap - |head| - |tail|))
    ensures head + marker + tail == Rendered(output, cap, k)
    ensures k.head + |marker| + k.tail > cap ==> |marker| == TallySize(SizeOf(output, k))
    ensures cap >= 480 && |output| < Pow10(24) ==>
              && k.head + |marker| + k.tail <= cap && rounds == 0
              && start.head == k.head && start.tail == k.tail
  {
    hide Marker, TallyLength, LineCount, WholeLines, Pow10, LoopInvariant;
    MarkerLength(output[|head|..|output| - |tail|], k.partialLineCut, Max(0, cap - |head| - |tail|));
    RoundOutcome(output, cap, start, k, rounds, |marker|);
  }

  predicate Sides(output: string, k: Kept, head: string, tail: string, partialLineCut: bool) {
    && Inside(output, k) && k == Kept(|head|, |tail|, partialLineCut)
    && head == output[..k.head] && tail == output[|output| - k.tail..]
  }

  lemma TailDropped(output: string, k: Kept, tail: string, rest: string)
    requires Inside(output, k) && tail == output[|output| - k.tail..]
    requires |rest| < |tail| && rest == tail[|tail| - |rest|..]
    ensures rest == output[|output| - |rest|..]
    ensures output[|output| - |rest| - 1] == tail[|tail| - |rest| - 1]
  {
  }

  lemma DropUsable(output: string, cap: nat, k: Kept, k': Kept)
    requires Usable(output, cap, k) && (k.partialLineCut ==> k'.partialLineCut)
    requires k'.head <= k.head && k'.tail <= k.tail
    requires !k'.partialLineCut && k'.head < k.head ==> output[k'.head] == '\n'
    requires !k'.partialLineCut && k'.tail < k.tail ==> output[|output| - k'.tail - 1] == '\n'
    ensures Usable(output, cap, k')
  {
  }

  /** One failed round: drop at least `over` characters, tail first. */
  method ShrinkSide(output: string, cap: nat, head: string, tail: string, partialLineCut: bool, over: nat,
                    ghost first: Size, ghost k: Kept, ghost rounds: nat)
    returns (head': string, tail': string, cut: bool, ghost k': Kept)
    requires Sides(output, k, head, tail, partialLineCut) && LoopInvariant(output, cap, first, k, rounds)
    requires over == k.head + k.tail + TallySize(SizeOf(output, k)) - cap > 0
    requires head != "" || tail != ""
    ensures Sides(output, k', head', tail', cut)
    ensures Usable(output, cap, k') && LoopInvariant(output, cap, first, k', rounds + 1)
  {
    hide TallyLength, LineCount, Changes, Paid, Pow10;
    head', tail' := head, tail;
    var midLine;
    if tail != "" {
      tail', midLine := DropFromTail(tail, over);
      TailDropped(output, k, tail, tail');
    } else {
      head', midLine := DropFromHead(head, over);
      assert head' == output[..|head'|];
    }
    cut := partialLineCut || midLine;
    k' := Kept(|head'|, |tail'|, cut);
    DropUsable(output, cap, k, k');
    ShrinkRound(output, cap, first, k, k', rounds);
  }

  /** Bound `output` to `cap` characters, keeping both ends. The ghost results
      say what was kept and how many rounds the loop took. */
  method BoundStepEvidence(output: string, cap: nat) returns (result: string, ghost kept: Kept, ghost rounds: nat)
    ensures |result| <= cap
    ensures |output| <= cap ==> result == output
    ensures |output| > cap && Ordinary(output, cap) ==>
              && Usable(output, cap, kept) && rounds <= 9
              && result == Clip(Rendered(output, cap, kept), cap)
              && (|Rendered(output, cap, kept)| <= cap || kept.head == kept.tail == 0)
    ensures |output| > cap >= 480 && Ordinary(output, cap) ==>
              rounds == 1 && kept.head > 0 && kept.tail > 0 && Opening(output, cap, kept)
  {
    hide Opening, Marker, Rendered, TallyLength, WholeLines, LineCount, Changes, Paid, Pow10, LoopInvariant;
    kept, rounds := Kept(0, 0, false), 0;
    if |output| <= cap {
      return output, kept, rounds;
    }
    var start := InitialSides(output, cap);
    var head, tail := output[..start.head], output[|output| - start.tail..];
    var partialLineCut := start.partialLineCut;
    var marker := "";
    kept := start;
    ghost var first := SizeOf(output, start);
    ghost var settled := false;
    var round := 0;
    while round < SHRINK_ROUNDS
      invariant !settled && Sides(output, kept, head, tail, partialLineCut)
      invariant round == 0 ==> kept == start
      invariant Usable(output, cap, kept) && LoopInvariant(output, cap, first, kept, round)
    {
      var omitted := output[|head|..|output| - |tail|];
      marker := MarkerFor(omitted, partialLineCut, Max(0, cap - |head| - |tail|));
      RoundRendered(output, cap, first, kept, round, head, tail, marker);
      var over := |head| + |marker| + |tail| - cap;
      if over <= 0 || (head == "" && tail == "") {
        settled := true;
        break;
      }
      head, tail, partialLineCut, kept :=
        ShrinkSide(output, cap, head, tail, partialLineCut, over, first, kept, round);
      round := round + 1;
    }
    rounds := round + 1;
    if Ordinary(output, cap) {
      RoundsBounded(output, cap, first, kept, round);
    }
    result := head + marker + tail;
    if |result| > cap {
      result := result[..cap];
    }
  }
}
