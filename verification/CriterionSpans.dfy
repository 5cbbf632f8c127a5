/** What each graded criterion cost: the difference between the counters at its
    own mark and at the mark before it. (engine/evaluator.py) */
module CriterionSpans {
  import opened Text
  import opened Climbing

  const DERIVED_MARK_OFFSET := 10_000

  /** The counters when a criterion was graded, and how many marks there were. */
  datatype Mark = Mark(order: nat, tokensIn: nat, tokensOut: nat)

  type Marks = map<nat, Mark>

  // ---- Which sandbox keys leave a mark ----

  predicate AllDigits(s: string) {
    s != "" && forall i :: 0 <= i < |s| ==> IsDigit(s[i])
  }

  function ParseNat(s: string): nat
    requires AllDigits(s)
  {
    (if |s| == 1 then 0 else 10 * ParseNat(s[..|s| - 1])) + (s[|s| - 1] as int - '0' as int)
  }

  function MarkIndex(key: string): Option<nat> {
    if !("verified_" <= key) then None
    else
      var suffix := key[|"verified_"|..];
      if AllDigits(suffix) then Some(ParseNat(suffix))
      else if "derived_" <= suffix && AllDigits(suffix[|"derived_"|..])
      then Some(DERIVED_MARK_OFFSET + ParseNat(suffix[|"derived_"|..]))
      else None
  }

  function WithMark(marks: Marks, index: nat, tokensIn: nat, tokensOut: nat): Marks {
    marks[index := Mark(|marks|, tokensIn, tokensOut)]
  }

  // ---- The order in which the spans are reported ----

  predicate Before(marks: Marks, i: nat, j: nat)
    requires i in marks && j in marks
  {
    marks[i].order < marks[j].order || (marks[i].order == marks[j].order && i <= j)
  }

  predicate IsFirst(marks: Marks, i: nat) {
    i in marks && forall j :: j in marks ==> Before(marks, i, j)
  }

  lemma {:induction false} FirstExists(marks: Marks)
    requires marks != map[]
    ensures exists i :: IsFirst(marks, i)
    decreases |marks|
  {
    var i :| i in marks;
    var rest := marks - {i};
    if rest == map[] {
      assert forall j :: j in marks ==> j == i || j in rest;
      assert IsFirst(marks, i);
    } else {
      assert |rest| < |marks| by { assert marks.Keys == rest.Keys + {i}; }
      FirstExists(rest);
      var k :| IsFirst(rest, k);
      assert forall j :: j in marks ==> j == i || j in rest;
      assert IsFirst(marks, if Before(marks, i, k) then i else k);
    }
  }

  /** The marked criteria by mark order, ties by index. */
  function Ordered(marks: Marks): (indices: seq<nat>)
    ensures forall i :: i in indices ==> i in marks
    decreases |marks|
  {
    if marks == map[] then []
    else
      FirstExists(marks);
      var i :| IsFirst(marks, i);
      assert |marks - {i}| < |marks| by { assert marks.Keys == (marks - {i}).Keys + {i}; }
      [i] + Ordered(marks - {i})
  }

  // ---- Spans ----

  datatype Span = Span(tokensIn: nat, tokensOut: nat)

  function SpanAfter(previous: Mark, mark: Mark): Span {
    Span(Minus(mark.tokensIn, previous.tokensIn), Minus(mark.tokensOut, previous.tokensOut))
  }

  const NO_MARK := Mark(0, 0, 0)

  function MarksOf(marks: Marks, indices: seq<nat>): (ms: seq<Mark>)
    requires forall i :: i in indices ==> i in marks
    ensures |ms| == |indices|
  {
    seq(|indices|, k requires 0 <= k < |indices| => marks[indices[k]])
  }

  function SpanAt(ms: seq<Mark>, k: nat): Span
    requires k < |ms|
  {
    SpanAfter(if k == 0 then NO_MARK else ms[k - 1], ms[k])
  }

  /** The spends of all graded criteria together. */
  function Spent(ms: seq<Mark>): Span {
    if ms == [] then Span(0, 0)
    else
      var before, last := Spent(ms[..|ms| - 1]), SpanAt(ms, |ms| - 1);
      Span(before.tokensIn + last.tokensIn, before.tokensOut + last.tokensOut)
  }

  function SpentBy(marks: Marks): Span {
    Spent(MarksOf(marks, Ordered(marks)))
  }

  /** The spends that a report shows: it has a line for the criteria in `shown` only, but
      what each of them cost is counted from the mark before it, shown or not. */
  function SpentShown(marks: Marks, indices: seq<nat>, shown: set<nat>): Span
    requires forall i :: i in indices ==> i in marks
  {
    if indices == [] then Span(0, 0)
    else
      var n := |indices| - 1;
      var before := SpentShown(marks, indices[..n], shown);
      if indices[n] !in shown then before
      else
        var last := SpanAt(MarksOf(marks, indices), n);
        Span(before.tokensIn + last.tokensIn, before.tokensOut + last.tokensOut)
  }

  function ShownBy(marks: Marks, shown: set<nat>): Span {
    SpentShown(marks, Ordered(marks), shown)
  }

  lemma {:induction false} ShownIsPart(marks: Marks, indices: seq<nat>, shown: set<nat>)
    requires forall i :: i in indices ==> i in marks
    ensures var part, whole := SpentShown(marks, indices, shown), Spent(MarksOf(marks, indices));
            && part.tokensIn <= whole.tokensIn && part.tokensOut <= whole.tokensOut
            && ((forall i :: i in indices ==> i in shown) ==> part == whole)
    decreases |indices|
  {
    hide SpanAt;
    if indices != [] {
      var n := |indices| - 1;
      ShownIsPart(marks, indices[..n], shown);
      assert MarksOf(marks, indices)[..n] == MarksOf(marks, indices[..n]);
      assert indices[n] in indices;
    }
  }

  lemma {:induction false} OrderedListsKeys(marks: Marks)
    ensures forall i :: i in Ordered(marks) <==> i in marks
    ensures forall a, b :: 0 <= a < b < |Ordered(marks)| ==> Ordered(marks)[a] != Ordered(marks)[b]
    decreases |marks|
  {
    if marks != map[] {
      var i := Ordered(marks)[0];
      assert |marks - {i}| < |marks| by { assert marks.Keys == (marks - {i}).Keys + {i}; }
      OrderedListsKeys(marks - {i});
    }
  }

  /** Each graded criterion's own spend, in the order they were graded. */
  method Spans(marks: Marks) returns (spans: map<nat, Span>)
    ensures forall i :: i in spans <==> i in marks
    ensures forall k :: 0 <= k < |Ordered(marks)| ==>
              spans[Ordered(marks)[k]] == SpanAt(MarksOf(marks, Ordered(marks)), k)
  {
    hide *;
    OrderedListsKeys(marks);
    spans := SpansOf(marks, Ordered(marks));
  }

  method SpansOf(marks: Marks, indices: seq<nat>) returns (spans: map<nat, Span>)
    requires forall i :: i in indices <==> i in marks
    requires forall a, b :: 0 <= a < b < |indices| ==> indices[a] != indices[b]
    ensures forall i :: i in spans <==> i in marks
    ensures forall k :: 0 <= k < |indices| ==> indices[k] in indices && spans[indices[k]] == SpanAt(MarksOf(marks, indices), k)
  {
    hide SpanAt, SpanAfter, MarksOf;
    spans := map[];
    var previous := NO_MARK;
    for k := 0 to |indices|
      invariant previous == if k == 0 then NO_MARK else marks[indices[k - 1]]
      invariant forall i :: i in spans ==> i in marks
      invariant forall j :: 0 <= j < k ==> indices[j] in spans
      invariant forall j :: 0 <= j < k ==> spans[indices[j]] == SpanAt(MarksOf(marks, indices), j)
    {
      assert indices[k] in indices;
      var mark := marks[indices[k]];
      SpanStep(marks, indices, k, previous);
      spans := spans[indices[k] := SpanAfter(previous, mark)];
      previous := mark;
    }
  }

  lemma SpanStep(marks: Marks, indices: seq<nat>, k: nat, previous: Mark)
    requires forall i :: i in indices ==> i in marks
    requires k < |indices| && indices[k] in marks
    requires k > 0 ==> indices[k - 1] in indices
    requires previous == if k == 0 then NO_MARK else marks[indices[k - 1]]
    ensures SpanAt(MarksOf(marks, indices), k) == SpanAfter(previous, marks[indices[k]])
  {
  }

  // ---- When no criterion is graded twice, the order is the grading order ----

  /** `history` lists the marked criteria, each later one with a later mark. */
  ghost predicate IsHistory(marks: Marks, history: seq<nat>) {
    && (forall i :: i in marks <==> i in history)
    && forall a, b :: 0 <= a < b < |history| ==> marks[history[a]].order < marks[history[b]].order
  }

  lemma FirstOfHistory(marks: Marks, history: seq<nat>, i: nat)
    requires IsHistory(marks, history) && IsFirst(marks, i)
    ensures history != [] && i == history[0]
    ensures IsHistory(marks - {i}, history[1..])
  {
    var a :| 0 <= a < |history| && history[a] == i;
    assert history[0] in marks;
    assert a == 0;
    var rest := history[1..];
    forall j ensures j in marks - {i} <==> j in rest {
      if j in rest {
        var b :| 0 <= b < |rest| && rest[b] == j;
        assert j == history[b + 1] && marks[history[0]].order < marks[history[b + 1]].order;
      }
    }
  }

  lemma HistoryIsMarked(marks: Marks, history: seq<nat>)
    requires IsHistory(marks, history)
    ensures history != [] ==> history[0] in marks
  {
    if history != [] {
      assert history[0] in history;
    }
  }

  lemma {:induction false} OrderedIsHistory(marks: Marks, history: seq<nat>)
    requires IsHistory(marks, history)
    ensures Ordered(marks) == history
    decreases |marks|
  {
    hide IsHistory;
    if marks == map[] {
      HistoryIsMarked(marks, history);
    } else {
      var i := Ordered(marks)[0];
      FirstOfHistory(marks, history, i);
      FewerMarks(marks, i);
      OrderedIsHistory(marks - {i}, history[1..]);
      assert history == [history[0]] + history[1..];
    }
  }

  lemma FewerMarks(marks: Marks, i: nat)
    requires i in marks
    ensures |marks - {i}| < |marks|
  {
    assert marks.Keys == (marks - {i}).Keys + {i};
  }

  /** Every mark so far is numbered below the number of marks. */
  ghost predicate Numbered(marks: Marks) {
    forall i :: i in marks ==> marks[i].order < |marks|
  }

  lemma FirstGradingNumbered(marks: Marks, index: nat, tokensIn: nat, tokensOut: nat)
    requires Numbered(marks) && index !in marks
    ensures Numbered(WithMark(marks, index, tokensIn, tokensOut))
  {
    var marks' := WithMark(marks, index, tokensIn, tokensOut);
    assert marks'.Keys == marks.Keys + {index};
    assert |marks'| == |marks| + 1;
  }

  /** Grading a criterion for the first time adds its mark at the end. */
  lemma FirstGrading(marks: Marks, history: seq<nat>, index: nat, tokensIn: nat, tokensOut: nat)
    requires IsHistory(marks, history) && index !in marks && Numbered(marks)
    ensures IsHistory(WithMark(marks, index, tokensIn, tokensOut), history + [index])
  {
    var marks', history' := WithMark(marks, index, tokensIn, tokensOut), history + [index];
    forall a, b | 0 <= a < b < |history'|
      ensures marks'[history'[a]].order < marks'[history'[b]].order
    {
      assert history[a] in history && history[a] in marks;
      assert b < |history| ==> history[b] in history && history[b] in marks;
    }
  }

  // ---- The report as a choice of moments in the run ----

  /** The marks that a run's gradings leave, with the counters at each grading. */
  function MarksAfter(g: seq<nat>, ins: seq<nat>, outs: seq<nat>): Marks
    requires |g| == |ins| == |outs|
    decreases |g|
  {
    if g == [] then map[]
    else var n := |g| - 1; WithMark(MarksAfter(g[..n], ins[..n], outs[..n]), g[n], ins[n], outs[n])
  }

  /** When a criterion was graded last. */
  function LastTime(g: seq<nat>, i: nat): (t: nat)
    requires i in g
    ensures t < |g| && g[t] == i && forall k :: t < k < |g| ==> g[k] != i
    decreases |g|
  {
    var n := |g| - 1;
    if g[n] == i then n
    else
      assert g == g[..n] + [g[n]];
      LastTime(g[..n], i)
  }

  /** A mark holds the counters of its criterion's last grading. */
  lemma {:induction false} MarkOfLastTime(g: seq<nat>, ins: seq<nat>, outs: seq<nat>, i: nat)
    requires |g| == |ins| == |outs|
    ensures i in MarksAfter(g, ins, outs) <==> i in g
    ensures i in g ==> var t := LastTime(g, i);
                       && MarksAfter(g, ins, outs)[i].tokensIn == ins[t]
                       && MarksAfter(g, ins, outs)[i].tokensOut == outs[t]
    decreases |g|
  {
    if g != [] {
      var n := |g| - 1;
      MarkOfLastTime(g[..n], ins[..n], outs[..n], i);
      assert g == g[..n] + [g[n]];
    }
  }

  /** The same criteria marked in the same order, whatever the counters. */
  predicate SameOrders(m: Marks, m': Marks) {
    m.Keys == m'.Keys && forall i :: i in m ==> m[i].order == m'[i].order
  }

  lemma {:induction false} GradingsFixOrders(g: seq<nat>, ins: seq<nat>, outs: seq<nat>, ins': seq<nat>, outs': seq<nat>)
    requires |g| == |ins| == |outs| == |ins'| == |outs'|
    ensures SameOrders(MarksAfter(g, ins, outs), MarksAfter(g, ins', outs'))
    decreases |g|
  {
    if g != [] {
      var n := |g| - 1;
      GradingsFixOrders(g[..n], ins[..n], outs[..n], ins'[..n], outs'[..n]);
      var m, m' := MarksAfter(g[..n], ins[..n], outs[..n]), MarksAfter(g[..n], ins'[..n], outs'[..n]);
      SameSize(m, m');
    }
  }

  lemma SameSize(m: Marks, m': Marks)
    requires m.Keys == m'.Keys
    ensures |m| == |m'|
  {
    assert |m| == |m.Keys| && |m'| == |m'.Keys|;
  }

  lemma {:induction false} OrdersFixReport(m: Marks, m': Marks)
    requires SameOrders(m, m')
    ensures Ordered(m) == Ordered(m')
    decreases |m|
  {
    if m != map[] {
      var first := Ordered(m)[0];
      assert m' != map[] by { assert first in m'; }
      var first' := Ordered(m')[0];
      assert Before(m, first, first') && Before(m', first', first);
      assert first == first';
      FewerMarks(m, first);
      OrdersFixReport(m - {first}, m' - {first});
    } else {
      assert m' == map[] by { assert m'.Keys == {}; }
    }
  }

  function Zeros(n: nat): (z: seq<nat>)
    ensures |z| == n
  {
    seq(n, i => 0)
  }

  /** The order in which the gradings are reported; it does not depend on the counters. */
  function Report(g: seq<nat>): (indices: seq<nat>)
    ensures forall i :: i in indices ==> i in g
  {
    var marks := MarksAfter(g, Zeros(|g|), Zeros(|g|));
    assert forall i :: i in marks ==> i in g by {
      forall i ensures i in marks ==> i in g { MarkOfLastTime(g, Zeros(|g|), Zeros(|g|), i); }
    }
    Ordered(marks)
  }

  /** The moments the report goes through: when each criterion was graded last. */
  function ReportTimes(g: seq<nat>): (t: seq<nat>)
    ensures |t| == |Report(g)| && Within(t, |g|)
  {
    assert forall k :: 0 <= k < |Report(g)| ==> Report(g)[k] in g;
    seq(|Report(g)|, k requires 0 <= k < |Report(g)| => LastTime(g, Report(g)[k]))
  }

  lemma ReportTimesDistinct(g: seq<nat>)
    ensures Distinct(ReportTimes(g))
  {
    hide Ordered;
    OrderedListsKeys(MarksAfter(g, Zeros(|g|), Zeros(|g|)));
    var t := ReportTimes(g);
    forall i, j | 0 <= i < j < |t| ensures t[i] != t[j] {
      assert Report(g)[i] in g && Report(g)[j] in g;
      assert g[t[i]] == Report(g)[i] && g[t[j]] == Report(g)[j];
    }
  }

  function InsOf(ms: seq<Mark>): (v: seq<nat>)
    ensures |v| == |ms|
  {
    seq(|ms|, k requires 0 <= k < |ms| => ms[k].tokensIn)
  }

  function OutsOf(ms: seq<Mark>): (v: seq<nat>)
    ensures |v| == |ms|
  {
    seq(|ms|, k requires 0 <= k < |ms| => ms[k].tokensOut)
  }

  lemma {:induction false} SpentIsClimbOfMarks(ms: seq<Mark>)
    ensures Spent(ms) == Span(Climb(InsOf(ms)), Climb(OutsOf(ms)))
    decreases |ms|
  {
    if ms != [] {
      var n := |ms| - 1;
      SpentIsClimbOfMarks(ms[..n]);
      assert InsOf(ms)[..n] == InsOf(ms[..n]) && OutsOf(ms)[..n] == OutsOf(ms[..n]);
    }
  }

  /** What the report sums up to is how far the counters climb through its moments. */
  lemma SpentIsClimb(g: seq<nat>, ins: seq<nat>, outs: seq<nat>)
    requires |g| == |ins| == |outs|
    ensures SpentBy(MarksAfter(g, ins, outs))
            == Span(Climb(Pick(ins, ReportTimes(g))), Climb(Pick(outs, ReportTimes(g))))
  {
    hide Ordered, Spent, Climb, MarksAfter;
    var marks, t := MarksAfter(g, ins, outs), ReportTimes(g);
    GradingsFixOrders(g, ins, outs, Zeros(|g|), Zeros(|g|));
    OrdersFixReport(marks, MarksAfter(g, Zeros(|g|), Zeros(|g|)));
    assert Ordered(marks) == Report(g);
    var ms := MarksOf(marks, Report(g));
    forall k | 0 <= k < |ms| ensures ms[k].tokensIn == ins[t[k]] && ms[k].tokensOut == outs[t[k]] {
      assert Report(g)[k] in g;
      MarkOfLastTime(g, ins, outs, Report(g)[k]);
    }
    SpentIsClimbOfMarks(ms);
    assert InsOf(ms) == Pick(ins, t) && OutsOf(ms) == Pick(outs, t);
  }

  lemma {:induction false} OnceIsHistory(g: seq<nat>, ins: seq<nat>, outs: seq<nat>)
    requires Distinct(g) && |g| == |ins| == |outs|
    ensures IsHistory(MarksAfter(g, ins, outs), g) && Numbered(MarksAfter(g, ins, outs))
    decreases |g|
  {
    hide IsHistory, Numbered, WithMark;
    if g == [] {
      NothingMarked();
    } else {
      var n := |g| - 1;
      var marks := MarksAfter(g[..n], ins[..n], outs[..n]);
      OnceIsHistory(g[..n], ins[..n], outs[..n]);
      MarkOfLastTime(g[..n], ins[..n], outs[..n], g[n]);
      FirstGrading(marks, g[..n], g[n], ins[n], outs[n]);
      FirstGradingNumbered(marks, g[n], ins[n], outs[n]);
      assert g == g[..n] + [g[n]];
    }
  }

  lemma NothingMarked()
    ensures IsHistory(map[], []) && Numbered(map[])
  {
  }

  /** When no criterion is graded twice the report is in the order of time. */
  lemma OnceIsChronological(g: seq<nat>)
    requires Distinct(g)
    ensures Ascending(ReportTimes(g))
  {
    hide IsHistory, Numbered, Ordered, MarksAfter;
    var marks := MarksAfter(g, Zeros(|g|), Zeros(|g|));
    OnceIsHistory(g, Zeros(|g|), Zeros(|g|));
    OrderedIsHistory(marks, g);
    assert Report(g) == g;
  }
}
