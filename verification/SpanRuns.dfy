/** Which orders of grading keep the reported spends within a run's total: for every
    other order there is a run that ends on a cap, so that its verdict shows them, and
    reports more than it used. (engine/evaluator.py, _criterion_spans) */
module SpanRuns {
  import opened Text
  import opened EvalCaps
  import opened Climbing
  import opened CriterionSpans
  import opened EvalLoop
  import CapVerdict

  // ---- Keys ----

  lemma {:induction false} DecimalParses(n: nat)
    ensures AllDigits(Decimal(n)) && ParseNat(Decimal(n)) == n
  {
    if n >= 10 {
      DecimalParses(n / 10);
      var s := Decimal(n);
      assert s[..|s| - 1] == Decimal(n / 10);
    }
  }

  lemma KeyMarks(i: nat)
    ensures MarkIndex(CapVerdict.GivenKey(i)) == Some(i)
  {
    hide Decimal, ParseNat, AllDigits;
    DecimalParses(i);
    var key := CapVerdict.GivenKey(i);
    assert key[|"verified_"|..] == Decimal(i);
  }

  // ---- A run made to order ----

  /** Above every criterion in `g`. */
  function Above(g: seq<nat>): (n: nat)
    ensures forall i :: i in g ==> i < n
  {
    if g == [] then 0
    else
      var n := Above(g[1..]);
      assert g == [g[0]] + g[1..];
      if g[0] < n then n else g[0] + 1
  }

  /** Each call grades the next of `g` and uses one token, the call that grades position
      `lo` uses `burst` tokens more, and the context overflows once position `hi` is
      graded, if any is left. After the last grading a call exceeds the output cap. Every
      graded criterion is one of the given ones. */
  datatype Script = Script(g: seq<nat>, lo: nat, hi: nat, burst: nat)
  {
    predicate Overflows() { hi + 1 < |g| }

    function Cost(p: nat): nat { 1 + if p == lo then burst else 0 }

    /** Which position the n-th call grades. */
    function Position(n: nat): nat { if Overflows() && n > hi then n - 1 else n }

    function Reply(n: nat): Reply {
      if Overflows() && n == hi + 1 then Failure(true)
      else if Position(n) < |g| then
        Answer(Usage(Cost(Position(n)), 0, 0, 0), [SandboxWrite(CapVerdict.GivenKey(g[Position(n)]), "PASS")], NoContent)
      else Answer(Usage(0, 1, 0, 0), [], NoContent)
    }

    function Budget(): int { |g| + burst + 1 }

    function Criteria(): (criteria: seq<string>)
      ensures |criteria| == Above(g)
    {
      seq(Above(g), _ => "criterion")
    }

    function Run(): Env {
      Env(Caps((|g| + 2) as real, -1.0, Budget(), 1, 0.0), 1.0, Criteria(), (n: nat) => Reply(n), (_: nat) => 0.0)
    }

    /** What the counter shows once position `p` is graded. */
    function Counter(p: nat): nat {
      if p <= hi then p + 1 + (if p >= lo then burst else 0) else p - hi
    }

    function Used(p: nat): nat { p + if p > lo then burst else 0 }
  }

  const FRESH := Meter(0.0, 0.0, 0, 0, 0, 0)

  /** Positions up to `p` are graded as the script says. */
  predicate Graded(x: Script, s: State, p: nat) {
    && p <= |x.g| && s.gradings == x.g[..p] && |s.ins| == |s.outs| == p
    && (forall q :: 0 <= q < p ==> s.ins[q] == x.Counter(q))
    && s.usedIn == x.Used(p)
    && (forall i :: i in x.g[..p] ==> CapVerdict.GivenKey(i) in s.sandbox)
  }

  /** Where the loop stands after `p` gradings. */
  predicate Stands(x: Script, s: State, p: nat) {
    && Graded(x, s, p) && x.lo <= x.hi
    && s.meter.credit == p as real && s.meter.startTime == 0.0 && s.meter.outputTokens == 0
    && (if s.compactions == 0 then
          && p <= x.hi + 1 && s.calls == s.iteration == p
          && s.meter.inputTokens == (if p == 0 then 0 else x.Counter(p - 1))
        else
          && s.compactions == 1 && x.Overflows() && p > x.hi
          && s.calls == p + 1 && s.iteration == p - x.hi - 1 && s.meter.inputTokens == p - x.hi - 1)
  }

  predicate AtOverflow(x: Script, s: State, p: nat) {
    s.compactions == 0 && x.Overflows() && p == x.hi + 1
  }

  lemma WithinCaps(x: Script, m: Meter)
    requires m.inputTokens < x.Budget() && m.outputTokens == 0
    ensures HardCaps(x.Run().caps, m, 0.0).None?
  {
  }

  lemma InputLow(x: Script, s: State, p: nat)
    requires Stands(x, s, p)
    ensures s.meter.inputTokens < x.Budget() && !OverThreshold(x.Run(), s.(readings := s.readings + 1))
  {
    assert x.Budget() as real * 1.0 == x.Budget() as real;
  }

  lemma Limit(x: Script)
    ensures MaxIterationsInt(x.Run().caps) == |x.g| + 2
  {
  }

  /** The call is answered and its one tool grades the next position. */
  lemma GradeTurn(x: Script, s: State, p: nat)
    requires Stands(x, s, p) && p < |x.g| && !AtOverflow(x, s, p)
    ensures var next := Turn(x.Run(), s); next.Continue? && Stands(x, next.s, p + 1)
  {
    hide HardCaps, OverThreshold, MarkIndex, WithMark, CapVerdict.GivenKey, Script.Reply;
    var env := x.Run();
    InputLow(x, s, p);
    WithinCaps(x, s.meter);
    var s1 := s.(readings := s.readings + 1);
    var usage := Usage(x.Cost(p), 0, 0, 0);
    var tools := [SandboxWrite(CapVerdict.GivenKey(x.g[p]), "PASS")];
    ReplyGrades(x, s, p);
    assert Turn(env, s) == TakeAnswer(env, s1, usage, tools, NoContent);
    AnswerGrades(x, s1, p);
  }

  lemma ReplyGrades(x: Script, s: State, p: nat)
    requires Stands(x, s, p) && p < |x.g| && !AtOverflow(x, s, p)
    ensures x.Run().reply(s.calls)
            == Answer(Usage(x.Cost(p), 0, 0, 0), [SandboxWrite(CapVerdict.GivenKey(x.g[p]), "PASS")], NoContent)
  {
    hide CapVerdict.GivenKey, Graded;
  }

  lemma AnswerGrades(x: Script, s: State, p: nat)
    requires Stands(x, s, p) && p < |x.g| && !AtOverflow(x, s, p)
    ensures var next := TakeAnswer(x.Run(), s, Usage(x.Cost(p), 0, 0, 0),
                                   [SandboxWrite(CapVerdict.GivenKey(x.g[p]), "PASS")], NoContent);
            next.Continue? && Stands(x, next.s, p + 1)
  {
    hide HardCaps, MarkIndex, WithMark, CapVerdict.GivenKey, RunTools, Script.Reply, Script.Criteria, Above;
    var env := x.Run();
    var key := CapVerdict.GivenKey(x.g[p]);
    var usage := Usage(x.Cost(p), 0, 0, 0);
    var m := Charged(s.meter, usage);
    assert m.inputTokens == x.Counter(p) < x.Budget();
    WithinCaps(x, m);
    var s1 := Called(s, usage).(meter := m, readings := s.readings + 1);
    KeyMarks(x.g[p]);
    OneTool(env, s1, key, x.g[p]);
    var graded := EvalLoop.Graded(s1.(sandbox := s1.sandbox[key := "PASS"]), x.g[p]);
    assert x.g[..p + 1] == x.g[..p] + [x.g[p]];
    assert Graded(x, graded, p + 1);
  }

  /** One grading tool that trips no cap. */
  lemma OneTool(env: Env, s: State, key: string, i: nat)
    requires MarkIndex(key) == Some(i) && env.caps.toolCallWeight == 0.0
    requires !OutOfIterations(env.caps, s.meter) && HardCaps(env.caps, s.meter, env.clock(s.readings)).None?
    ensures var graded := EvalLoop.Graded(s.(sandbox := s.sandbox[key := "PASS"]), i);
            RunTools(env, s, [SandboxWrite(key, "PASS")])
            == Continue(graded.(readings := s.readings + 1, iteration := s.iteration + 1))
  {
    hide HardCaps, MarkIndex, WithMark;
    var tools := [SandboxWrite(key, "PASS")];
    var s1 := Execute(s, tools[0]);
    assert tools[1..] == [];
    assert s1.meter.(credit := s1.meter.credit + 0.0) == s1.meter;
    var s2 := s1.(readings := s1.readings + 1);
    assert RunTools(env, s2, []) == Continue(s2.(iteration := s2.iteration + 1));
  }

  lemma OverflowTurn(x: Script, s: State, p: nat)
    requires Stands(x, s, p) && AtOverflow(x, s, p)
    ensures var next := Turn(x.Run(), s); next.Continue? && Stands(x, next.s, p) && next.s.compactions == 1
  {
    hide HardCaps, OverThreshold, TakeAnswer;
    InputLow(x, s, p);
    WithinCaps(x, s.meter);
  }

  lemma LastTurn(x: Script, s: State)
    requires Stands(x, s, |x.g|)
    ensures var next := Turn(x.Run(), s);
            next.Stop? && next.ending.Capped? && Graded(x, next.s, |x.g|) && next.s.compactions == s.compactions
  {
    hide Turn, RecordedLlmCall, TakeAnswer, Graded, Stands, Script.Run;
    var s1, usage := s.(readings := s.readings + 1), Usage(0, 1, 0, 0);
    LastCall(x, s);
    ClockStands(x, s1.readings);
    OverCap(x, s);
    TrippedAnswer(x.Run(), s1, usage);
    SameGradings(x, s, TakeAnswer(x.Run(), s1, usage, [], NoContent).s);
  }

  lemma LastCall(x: Script, s: State)
    requires Stands(x, s, |x.g|)
    ensures Turn(x.Run(), s) == TakeAnswer(x.Run(), s.(readings := s.readings + 1), Usage(0, 1, 0, 0), [], NoContent)
    ensures Graded(x, s, |x.g|)
  {
    hide HardCaps, OverThreshold, CapVerdict.GivenKey, RecordedLlmCall, TakeAnswer, Script.Reply, Script.Criteria, Above;
    InputLow(x, s, |x.g|);
    WithinCaps(x, s.meter);
    OverCap(x, s);
  }

  lemma ClockStands(x: Script, reading: nat)
    ensures x.Run().clock(reading) == 0.0
  {
  }

  /** An answer that trips a cap ends the run and grades nothing. */
  lemma TrippedAnswer(env: Env, s: State, usage: Usage)
    requires RecordedLlmCall(env.caps, s.meter, usage, env.clock(s.readings)).1.Some?
    ensures var next := TakeAnswer(env, s, usage, [], NoContent);
            && next.Stop? && next.ending.Capped? && next.s.compactions == s.compactions
            && next.s.gradings == s.gradings && next.s.ins == s.ins && next.s.outs == s.outs
            && next.s.usedIn == s.usedIn + usage.AllInput() && next.s.sandbox == s.sandbox
  {
    hide RecordedLlmCall, RunTools;
  }

  lemma SameGradings(x: Script, s: State, s': State)
    requires Graded(x, s, |x.g|)
    requires s'.gradings == s.gradings && s'.ins == s.ins && s'.outs == s.outs && s'.usedIn == s.usedIn
    requires s'.sandbox == s.sandbox
    ensures Graded(x, s', |x.g|)
  {
    hide CapVerdict.GivenKey;
  }

  /** The last call is answered with one token more than the run may produce. */
  lemma OverCap(x: Script, s: State)
    requires Stands(x, s, |x.g|)
    ensures x.Run().reply(s.calls) == Answer(Usage(0, 1, 0, 0), [], NoContent)
    ensures RecordedLlmCall(x.Run().caps, s.meter, Usage(0, 1, 0, 0), 0.0).1.Some?
  {
    hide Graded;
  }

  lemma {:induction false} ScriptRuns(x: Script, s: State, p: nat)
    requires Stands(x, s, p)
    ensures var (end, ending) := Run(x.Run(), s);
            ending.Capped? && Graded(x, end, |x.g|) && end.compactions == if x.Overflows() then 1 else 0
    decreases |x.g| - p, 1 - s.compactions
  {
    hide Turn, Script.Run, MaxIterationsInt;
    Limit(x);
    if AtOverflow(x, s, p) {
      OverflowTurn(x, s, p);
      ScriptRuns(x, Turn(x.Run(), s).s, p);
    } else if p < |x.g| {
      GradeTurn(x, s, p);
      ScriptRuns(x, Turn(x.Run(), s).s, p + 1);
    } else {
      LastTurn(x, s);
    }
  }

  /** Any gradings come about in a run that ends on a cap, with the counters of the
      script, and the cap verdict shows all of them. */
  lemma ScriptRunsFully(x: Script)
    requires x.lo <= x.hi
    ensures var (end, ending) := FullRun(x.Run(), FRESH);
            && ending.Capped? && (forall i :: i in x.g ==> i in Shown(x.Run(), end))
            && Graded(x, end, |x.g|) && end.gradings == x.g
            && end.compactions == if x.Overflows() then 1 else 0
  {
    hide Run, CapVerdict.GivenKey, CapVerdict.DerivedEvidenceKey;
    var start := Initial(x.Run(), FRESH);
    assert x.g[..0] == [] && x.g[..|x.g|] == x.g;
    assert Stands(x, start, 0);
    ScriptRuns(x, start, 0);
  }

  // ---- More reported than used ----

  /** The runs that end on a cap, and so report what the criteria cost, with the criteria
      graded as `g` says. */
  predicate Reports(env: Env, meter: Meter, g: seq<nat>) {
    && meter.inputTokens == 0 && meter.outputTokens == 0
    && FullRun(env, meter).1.Capped? && FullRun(env, meter).0.gradings == g
  }

  /** A report that goes up, down and up again counts the burst twice. */
  lemma BurstTwice(x: Script, i: nat, j: nat, k: nat)
    requires x.lo <= x.hi && x.lo < |x.g| && x.burst > 2 * |x.g|
    requires i < j < k < |ReportTimes(x.g)|
    requires var t := ReportTimes(x.g);
             x.Counter(t[i]) >= x.burst && x.Counter(t[k]) >= x.Counter(t[j]) + x.burst - |x.g|
    ensures var end := FullRun(x.Run(), FRESH).0; ShownBy(end.marks, Shown(x.Run(), end)).tokensIn > end.usedIn
  {
    hide FullRun, Climb, ReportTimes, SpentBy, MarksAfter, Shown;
    ScriptRunsFully(x);
    RunCoversSpans(x.Run(), FRESH);
    var end := FullRun(x.Run(), FRESH).0;
    var t := ReportTimes(x.g);
    SpentIsClimb(end.gradings, end.ins, end.outs);
    ClimbTwice(Pick(end.ins, t), i, j, k);
    AllShown(x, end);
  }

  lemma AllShown(x: Script, end: State)
    requires forall i :: i in x.g ==> i in Shown(x.Run(), end)
    requires SpansCovered(end) && end.gradings == x.g
    ensures ShownBy(end.marks, Shown(x.Run(), end)) == SpentBy(end.marks)
  {
    hide Shown, SpentShown, Spent, Ordered, MarksOf;
    var shown, indices := Shown(x.Run(), end), Ordered(end.marks);
    forall i | i in indices ensures i in shown {
      assert i in end.marks;
      MarkOfLastTime(end.gradings, end.ins, end.outs, i);
    }
    ShownIsPart(end.marks, indices, shown);
  }

  function Least(a: nat, b: nat): nat { if a < b then a else b }
  function Most(a: nat, b: nat): nat { if a < b then b else a }

  lemma PeakBreaks(g: seq<nat>, i: nat, j: nat, k: nat) returns (x: Script)
    requires Peak(ReportTimes(g), i, j, k)
    ensures x.g == g && Reports(x.Run(), FRESH, g) && !ReportFits(x.Run(), FullRun(x.Run(), FRESH).0)
  {
    hide FullRun, SpentBy, ReportTimes;
    var t := ReportTimes(g);
    x := Script(g, Least(t[i], t[k]), Most(t[i], t[k]), 2 * |g| + 1);
    BurstTwice(x, i, j, k);
    ScriptRunsFully(x);
  }

  lemma ValleyBreaks(g: seq<nat>, i: nat, j: nat, k: nat) returns (x: Script)
    requires Valley(ReportTimes(g), i, j, k)
    ensures x.g == g && Reports(x.Run(), FRESH, g) && !ReportFits(x.Run(), FullRun(x.Run(), FRESH).0)
    ensures FullRun(x.Run(), FRESH).0.compactions == 0
  {
    hide FullRun, SpentBy, ReportTimes;
    var t := ReportTimes(g);
    x := Script(g, t[j] + 1, |g|, 2 * |g| + 1);
    BurstTwice(x, i, j, k);
    ScriptRunsFully(x);
  }

  /** For an order of gradings, the reported spends are within the total of every run
      exactly when the report goes through the run in the order of time or in the
      reverse order. */
  lemma SpansFitIff(g: seq<nat>)
    ensures (forall env: Env, meter: Meter :: Reports(env, meter, g) ==> ReportFits(env, FullRun(env, meter).0))
            <==> Ascending(ReportTimes(g)) || Descending(ReportTimes(g))
  {
    hide FullRun, SpendsFit, ReportFits, ReportTimes, Ascending, Descending;
    var t := ReportTimes(g);
    if Ascending(t) || Descending(t) {
      forall env: Env, meter: Meter | Reports(env, meter, g) ensures ReportFits(env, FullRun(env, meter).0) {
        SpansWithinRun(env, meter);
        SpendsFitReport(env, FullRun(env, meter).0);
      }
    } else {
      ReportTimesDistinct(g);
      var i, j, k := TurnsSomewhere(t);
      var x;
      if Peak(t, i, j, k) {
        x := PeakBreaks(g, i, j, k);
      } else {
        x := ValleyBreaks(g, i, j, k);
      }
      assert Reports(x.Run(), FRESH, g);
    }
  }

  /** Among runs without a compaction it is exactly that the report, once it has gone
      back in time, does not go forward again. */
  lemma SpansFitUncompactedIff(g: seq<nat>)
    ensures (forall env: Env, meter: Meter ::
               Reports(env, meter, g) && FullRun(env, meter).0.compactions == 0 ==> ReportFits(env, FullRun(env, meter).0))
            <==> NoValley(ReportTimes(g))
  {
    hide FullRun, SpendsFit, ReportFits, ReportTimes;
    var t := ReportTimes(g);
    if NoValley(t) {
      forall env: Env, meter: Meter | Reports(env, meter, g) && FullRun(env, meter).0.compactions == 0
        ensures ReportFits(env, FullRun(env, meter).0)
      {
        SpansWithinUncompactedRun(env, meter);
        SpendsFitReport(env, FullRun(env, meter).0);
      }
    } else {
      var i, j, k :| Valley(t, i, j, k);
      var x := ValleyBreaks(g, i, j, k);
      assert Reports(x.Run(), FRESH, g);
    }
  }

  // ---- A regrade that breaks the sum ----

  /** Criterion 9 is graded twice, then 3, then 7. The second mark of 9 ties with that of
      3 and is reported after it, so the report goes back in time and forward again. */
  lemma NineTwice()
    ensures ReportTimes([9, 9, 3, 7]) == [2, 1, 3]
  {
    var g := [9, 9, 3, 7];
    hide Ordered;
    NineTwiceMarks();
    OrderedThree(map[9 := Mark(1, 0, 0), 3 := Mark(1, 0, 0), 7 := Mark(2, 0, 0)]);
    assert Report(g) == [3, 9, 7];
    assert LastTime(g, 3) == 2 && LastTime(g, 9) == 1 && LastTime(g, 7) == 3;
  }

  lemma NineTwiceMarks()
    ensures var z := Zeros(4);
            MarksAfter([9, 9, 3, 7], z, z) == map[9 := Mark(1, 0, 0), 3 := Mark(1, 0, 0), 7 := Mark(2, 0, 0)]
  {
    hide MarksAfter;
    var z0, z1, z2, z3 := Zeros(0), Zeros(1), Zeros(2), Zeros(3);
    assert z0 == [] && z0 + [0] == z1 && z1 + [0] == z2 && z2 + [0] == z3 && z3 + [0] == Zeros(4);
    MarksAfterOneMore([], z0, z0, 9, 0, 0);
    MarksAfterOneMore([9], z1, z1, 9, 0, 0);
    MarksAfterOneMore([9, 9], z2, z2, 3, 0, 0);
    MarksAfterOneMore([9, 9, 3], z3, z3, 7, 0, 0);
    assert [] + [9] == [9] && [9] + [9] == [9, 9] && [9, 9] + [3] == [9, 9, 3] && [9, 9, 3] + [7] == [9, 9, 3, 7];
    assert MarksAfter([], [], []) == map[] by { NoGradings(); }
    var m1 := WithMark(map[], 9, 0, 0);
    assert m1 == map[9 := Mark(0, 0, 0)] && m1.Keys == {9};
    var m2 := WithMark(m1, 9, 0, 0);
    assert m2 == map[9 := Mark(1, 0, 0)] && m2.Keys == {9};
    var m3 := WithMark(m2, 3, 0, 0);
    assert m3 == map[9 := Mark(1, 0, 0), 3 := Mark(1, 0, 0)] && m3.Keys == {9, 3};
  }

  lemma NoGradings()
    ensures MarksAfter([], [], []) == map[]
  {
  }

  lemma OrderedThree(marks: Marks)
    requires marks == map[9 := Mark(1, 0, 0), 3 := Mark(1, 0, 0), 7 := Mark(2, 0, 0)]
    ensures Ordered(marks) == [3, 9, 7]
  {
    OrderedHead(marks, 3);
    OrderedHead(marks - {3}, 9);
    OrderedHead(marks - {3} - {9}, 7);
    var rest: Marks := marks - {3} - {9} - {7};
    assert rest == map[];
  }

  lemma OrderedHead(marks: Marks, i: nat)
    requires IsFirst(marks, i)
    ensures Ordered(marks) == [i] + Ordered(marks - {i})
  {
    assert marks != map[];
    var k := Ordered(marks)[0];
    assert Before(marks, i, k) && Before(marks, k, i);
  }

  /** A run of ten given criteria without a compaction, every call of which uses tokens,
      ends on a cap and reports more than it used. */
  lemma RegradingBreaksTheSum() returns (x: Script)
    ensures Reports(x.Run(), FRESH, [9, 9, 3, 7]) && |x.Run().criteria| == 10
    ensures var end := FullRun(x.Run(), FRESH).0;
            end.compactions == 0 && ShownBy(end.marks, Shown(x.Run(), end)).tokensIn > end.usedIn
  {
    hide FullRun, SpentBy, ReportTimes, Shown, ShownBy;
    NineTwice();
    x := Script([9, 9, 3, 7], 2, 4, 9);
    BurstTwice(x, 0, 1, 2);
    ScriptRunsFully(x);
    AboveNine();
  }

  lemma AboveNine()
    ensures Above([9, 9, 3, 7]) == 10
  {
    assert [9, 9, 3, 7][1..] == [9, 3, 7] && [9, 3, 7][1..] == [3, 7] && [3, 7][1..] == [7] && [7][1..] == [];
    assert Above([7]) == 8 && Above([3, 7]) == 8 && Above([9, 3, 7]) == 10;
  }
}
