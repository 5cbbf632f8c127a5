/** The evaluator's agentic loop: caps, compactions and the verdict it ends with.
    The model's replies and the clock are arbitrary inputs.
    (engine/evaluator.py, engine/eval_cap.py) */
module EvalLoop {
  import opened Text
  import opened TextLaws
  import opened EvalCaps
  import opened Climbing
  import opened CriterionSpans
  import CapVerdict
  import Gate

  const MAX_COMPACTIONS := 3

  datatype Tool = SandboxWrite(key: string, content: string) | OtherTool

  /** A decoded JSON verdict, or a reply without one. */
  datatype Content = NoContent | Unreadable | Decoded(outcome: string, items: seq<Gate.Item>)

  datatype Reply =
    | Failure(contextError: bool)
    | Answer(usage: Usage, tools: seq<Tool>, content: Content)

  /** Everything the loop reads but does not decide: the n-th reply of the model
      and the n-th reading of the clock. */
  datatype Env = Env(caps: Caps, threshold: real, criteria: seq<string>, reply: nat -> Reply, clock: nat -> real)

  /** The loop's variables, then the run's own account of what it did: calls made,
      tokens really used, the input of the last call, clock readings, and the
      criteria in the order graded with the counters at each grading. */
  datatype State = State(meter: Meter, iteration: nat, compactions: nat,
                         sandbox: CapVerdict.Sandbox, marks: Marks,
                         calls: nat, usedIn: nat, usedOut: nat, lastInput: nat, readings: nat,
                         gradings: seq<nat>, ins: seq<nat>, outs: seq<nat>)

  datatype Ending = Capped | Delivered(content: Content) | EmptyReply | CallFailed

  datatype Next = Continue(s: State) | Stop(s: State, ending: Ending)

  // ---- One pass through the loop ----

  /** The configured share of the input budget, even of an unlimited one. */
  function Share(env: Env): real {
    env.caps.maxInputTokens as real * env.threshold
  }

  /** Cumulative input above that share. */
  predicate OverThreshold(env: Env, s: State) {
    && s.meter.inputTokens > 0 && s.compactions < MAX_COMPACTIONS
    && s.meter.inputTokens > Truncate(Share(env))
  }

  /** A clean conversation: iteration and token counters restart, credit does not. */
  function Compacted(s: State): State {
    s.(iteration := 0, compactions := s.compactions + 1, meter := FreshContext(s.meter))
  }

  function Execute(s: State, tool: Tool): State {
    match tool
    case OtherTool => s
    case SandboxWrite(key, content) =>
      var s1 := s.(sandbox := s.sandbox[key := content]);
      match MarkIndex(key)
      case None => s1
      case Some(index) => Graded(s1, index)
  }

  function Graded(s: State, index: nat): State {
    s.(marks := WithMark(s.marks, index, s.meter.inputTokens, s.meter.outputTokens),
       gradings := s.gradings + [index],
       ins := s.ins + [s.meter.inputTokens], outs := s.outs + [s.meter.outputTokens])
  }

  function RunTools(env: Env, s: State, tools: seq<Tool>): (next: Next)
    ensures next.Continue? ==> next.s.compactions == s.compactions && next.s.iteration == s.iteration + 1
    decreases |tools|
  {
    if tools == [] then Continue(s.(iteration := s.iteration + 1))
    else
      var s1 := Execute(s, tools[0]);
      var (m, trip) := RecordedToolCall(env.caps, s1.meter, env.clock(s1.readings));
      var s2 := s1.(meter := m, readings := s1.readings + 1);
      if trip.Some? then Stop(s2, Capped) else RunTools(env, s2, tools[1..])
  }

  /** The call is made and its tokens are used before the caps are looked at. */
  function Called(s: State, usage: Usage): State {
    s.(calls := s.calls + 1, lastInput := usage.AllInput(),
       usedIn := s.usedIn + usage.AllInput(), usedOut := s.usedOut + usage.completion)
  }

  function TakeAnswer(env: Env, s: State, usage: Usage, tools: seq<Tool>, content: Content): (next: Next)
    ensures next.Continue? ==> next.s.compactions == s.compactions && next.s.iteration == s.iteration + 1
  {
    var (m, trip) := RecordedLlmCall(env.caps, s.meter, usage, env.clock(s.readings));
    var s1 := Called(s, usage).(meter := m, readings := s.readings + 1);
    if trip.Some? then Stop(s1, Capped)
    else if tools == [] then Stop(s1, if content.NoContent? then EmptyReply else Delivered(content))
    else RunTools(env, s1, tools)
  }

  function Turn(env: Env, s: State): (next: Next)
    requires s.compactions <= MAX_COMPACTIONS
    ensures next.Continue? ==>
              || (next.s.compactions == s.compactions && next.s.iteration == s.iteration + 1)
              || (next.s.compactions == s.compactions + 1 <= MAX_COMPACTIONS)
  {
    var s1 := s.(readings := s.readings + 1);
    if HardCaps(env.caps, s.meter, env.clock(s.readings)).Some? then Stop(s1, Capped)
    else if OverThreshold(env, s1) then Continue(Compacted(s1))
    else
      match env.reply(s1.calls)
      case Failure(contextError) =>
        var s2 := s1.(calls := s1.calls + 1);
        if contextError && s1.compactions < MAX_COMPACTIONS then Continue(Compacted(s2)) else Stop(s2, CallFailed)
      case Answer(usage, tools, content) => TakeAnswer(env, s1, usage, tools, content)
  }

  // ---- Whole runs ----

  function Run(env: Env, s: State): (State, Ending)
    requires s.compactions <= MAX_COMPACTIONS
    decreases MAX_COMPACTIONS - s.compactions, MaxIterationsInt(env.caps) - s.iteration
  {
    if s.iteration >= MaxIterationsInt(env.caps) then (s, Capped)
    else match Turn(env, s)
      case Stop(s', ending) => (s', ending)
      case Continue(s') => Run(env, s')
  }

  function Initial(env: Env, meter: Meter): State {
    State(meter.(startTime := env.clock(0)), 0, 0, map[], map[], 0, 0, 0, 0, 1, [], [], [])
  }

  function FullRun(env: Env, meter: Meter): (State, Ending) {
    Run(env, Initial(env, meter))
  }

  // ---- Credit and calls ----

  function MaxReal(a: real, b: real): real { if a < b then b else a }

  function Ceiling(x: real): int { -((-x).Floor) }

  predicate CreditBounded(env: Env, s: State) {
    && s.compactions <= MAX_COMPACTIONS
    && s.meter.credit < env.caps.maxIterations + MaxReal(1.0, env.caps.toolCallWeight)
    && (s.calls - s.compactions) as real <= s.meter.credit
    && (s.calls - s.compactions) as real < env.caps.maxIterations + 1.0
  }

  predicate WeightsInRange(caps: Caps) {
    caps.maxIterations > 0.0 && caps.toolCallWeight >= 0.0
  }

  /** Running a tool touches the sandbox and the marks, not the counters. */
  lemma ExecuteKeeps(s: State, tool: Tool)
    ensures var s' := Execute(s, tool);
            && s'.meter == s.meter && s'.compactions == s.compactions && s'.calls == s.calls
            && s'.usedIn == s.usedIn && s'.usedOut == s.usedOut && s'.lastInput == s.lastInput
  {
    hide MarkIndex, WithMark;
  }

  lemma {:induction false} ToolsKeepCredit(env: Env, s: State, tools: seq<Tool>)
    requires WeightsInRange(env.caps) && CreditBounded(env, s)
    ensures CreditBounded(env, RunTools(env, s, tools).s)
    ensures RunTools(env, s, tools).s.calls == s.calls
    decreases |tools|
  {
    hide Execute, HardCaps;
    if tools != [] {
      var s1 := Execute(s, tools[0]);
      ExecuteKeeps(s, tools[0]);
      var (m, trip) := RecordedToolCall(env.caps, s1.meter, env.clock(s1.readings));
      var s2 := s1.(meter := m, readings := s1.readings + 1);
      if trip.None? {
        ToolsKeepCredit(env, s2, tools[1..]);
      }
    }
  }

  /** Where a pass may end: the last call may have gone over. */
  predicate CreditAtEnd(env: Env, s: State) {
    && s.compactions <= MAX_COMPACTIONS
    && s.meter.credit < env.caps.maxIterations + MaxReal(1.0, env.caps.toolCallWeight)
    && (s.calls - s.compactions) as real < env.caps.maxIterations + 2.0
  }

  lemma AnswerKeepsCredit(env: Env, s: State, usage: Usage, tools: seq<Tool>, content: Content)
    requires WeightsInRange(env.caps) && CreditBounded(env, s)
    ensures var next := TakeAnswer(env, s, usage, tools, content);
            (next.Continue? ==> CreditBounded(env, next.s)) && CreditAtEnd(env, next.s)
  {
    hide RunTools, HardCaps;
    var (m, trip) := RecordedLlmCall(env.caps, s.meter, usage, env.clock(s.readings));
    if trip.None? {
      ToolsKeepCredit(env, Called(s, usage).(meter := m, readings := s.readings + 1), tools);
    }
  }

  lemma TurnKeepsCredit(env: Env, s: State)
    requires WeightsInRange(env.caps) && CreditBounded(env, s)
    ensures Turn(env, s).Continue? ==> CreditBounded(env, Turn(env, s).s)
    ensures CreditAtEnd(env, Turn(env, s).s)
  {
    hide TakeAnswer, OverThreshold, HardCaps;
    var s1 := s.(readings := s.readings + 1);
    match env.reply(s1.calls)
    case Failure(contextError) =>
    case Answer(usage, tools, content) =>
      AnswerKeepsCredit(env, s1, usage, tools, content);
  }

  lemma {:induction false} RunKeepsCredit(env: Env, s: State)
    requires WeightsInRange(env.caps) && CreditBounded(env, s)
    ensures var (end, _) := Run(env, s);
            && end.meter.credit < env.caps.maxIterations + MaxReal(1.0, env.caps.toolCallWeight)
            && end.calls as real < env.caps.maxIterations + 5.0
    decreases MAX_COMPACTIONS - s.compactions, MaxIterationsInt(env.caps) - s.iteration
  {
    hide Turn;
    if s.iteration < MaxIterationsInt(env.caps) {
      TurnKeepsCredit(env, s);
      match Turn(env, s)
      case Stop(s', ending) =>
      case Continue(s') => RunKeepsCredit(env, s');
    }
  }

  /** From zero credit, with a positive iteration cap M and a tool weight w that is
      not negative: credit stays below M + max(1, w), and at most ceil(M) + 4 calls
      are made, whatever the model replies and however often it compacts. */
  lemma CreditAndCallsBounded(env: Env, meter: Meter)
    requires WeightsInRange(env.caps) && meter.credit == 0.0
    ensures var (end, _) := FullRun(env, meter);
            && end.meter.credit < env.caps.maxIterations + MaxReal(1.0, env.caps.toolCallWeight)
            && end.calls <= Ceiling(env.caps.maxIterations) + 4
  {
    RunKeepsCredit(env, Initial(env, meter));
  }

  // ---- Input tokens ----

  /** `n` windows of at most `budget` tokens each. */
  function Windows(n: nat, budget: int): int {
    if n == 0 then 0 else Windows(n - 1, budget) + budget
  }

  predicate InputBounded(env: Env, s: State) {
    && s.compactions <= MAX_COMPACTIONS && s.meter.inputTokens < env.caps.maxInputTokens
    && s.usedIn <= Windows(s.compactions, env.caps.maxInputTokens) + s.meter.inputTokens
  }

  lemma WindowsBounded(n: nat, budget: int)
    requires n <= MAX_COMPACTIONS && budget > 0
    ensures Windows(n, budget) <= 3 * budget
    ensures n < MAX_COMPACTIONS ==> Windows(n + 1, budget) == Windows(n, budget) + budget
  {
    assert Windows(1, budget) == budget && Windows(2, budget) == 2 * budget && Windows(3, budget) == 3 * budget;
  }

  predicate EndsWithinInput(env: Env, s: State) {
    s.usedIn < 4 * env.caps.maxInputTokens + s.lastInput
  }

  lemma {:induction false} ToolsKeepInput(env: Env, s: State, tools: seq<Tool>)
    ensures var s' := RunTools(env, s, tools).s;
            && s'.meter.inputTokens == s.meter.inputTokens && s'.compactions == s.compactions
            && s'.usedIn == s.usedIn && s'.lastInput == s.lastInput
    decreases |tools|
  {
    hide Execute, HardCaps;
    if tools != [] {
      var s1 := Execute(s, tools[0]);
      ExecuteKeeps(s, tools[0]);
      var (m, trip) := RecordedToolCall(env.caps, s1.meter, env.clock(s1.readings));
      ToolsKeepInput(env, s1.(meter := m, readings := s1.readings + 1), tools[1..]);
    }
  }

  lemma AnswerKeepsInput(env: Env, s: State, usage: Usage, tools: seq<Tool>, content: Content)
    requires env.caps.maxInputTokens > 0 && InputBounded(env, s)
    ensures var next := TakeAnswer(env, s, usage, tools, content);
            (next.Continue? ==> InputBounded(env, next.s)) && EndsWithinInput(env, next.s)
  {
    hide Windows, RunTools;
    WindowsBounded(s.compactions, env.caps.maxInputTokens);
    var (m, trip) := RecordedLlmCall(env.caps, s.meter, usage, env.clock(s.readings));
    ToolsKeepInput(env, Called(s, usage).(meter := m, readings := s.readings + 1), tools);
  }

  lemma TurnKeepsInput(env: Env, s: State)
    requires env.caps.maxInputTokens > 0 && InputBounded(env, s)
    ensures Turn(env, s).Continue? ==> InputBounded(env, Turn(env, s).s)
    ensures EndsWithinInput(env, Turn(env, s).s)
  {
    hide Windows, TakeAnswer, HardCaps, Truncate;
    WindowsBounded(s.compactions, env.caps.maxInputTokens);
    var s1 := s.(readings := s.readings + 1);
    match env.reply(s1.calls)
    case Failure(contextError) =>
    case Answer(usage, tools, content) =>
      AnswerKeepsInput(env, s1, usage, tools, content);
  }

  lemma {:induction false} RunKeepsInput(env: Env, s: State)
    requires env.caps.maxInputTokens > 0 && InputBounded(env, s)
    ensures EndsWithinInput(env, Run(env, s).0)
    decreases MAX_COMPACTIONS - s.compactions, MaxIterationsInt(env.caps) - s.iteration
  {
    hide Turn, Windows;
    WindowsBounded(s.compactions, env.caps.maxInputTokens);
    if s.iteration < MaxIterationsInt(env.caps) {
      TurnKeepsInput(env, s);
      match Turn(env, s)
      case Stop(s', ending) =>
      case Continue(s') => RunKeepsInput(env, s');
    }
  }

  /** With a positive input budget B, all windows of a run together use less than
      4 * B input tokens plus the input of the last call. */
  lemma InputTokensBounded(env: Env, meter: Meter)
    requires env.caps.maxInputTokens > 0 && meter.inputTokens == 0
    ensures var (end, _) := FullRun(env, meter);
            end.usedIn < 4 * env.caps.maxInputTokens + end.lastInput
  {
    RunKeepsInput(env, Initial(env, meter));
  }

  // ---- Any caps at all ----

  predicate CallsPaid(env: Env, s: State) {
    && s.compactions <= MAX_COMPACTIONS && s.iteration <= MaxIterationsInt(env.caps)
    && s.calls <= Windows(s.compactions, MaxIterationsInt(env.caps)) + s.iteration + s.compactions
  }

  predicate CallsAtEnd(env: Env, s: State) {
    s.calls <= 4 * MaxIterationsInt(env.caps) + 3
  }

  lemma {:induction false} ToolsKeepCalls(env: Env, s: State, tools: seq<Tool>)
    ensures RunTools(env, s, tools).s.calls == s.calls
    decreases |tools|
  {
    hide Execute, HardCaps;
    if tools != [] {
      var s1 := Execute(s, tools[0]);
      ExecuteKeeps(s, tools[0]);
      var (m, trip) := RecordedToolCall(env.caps, s1.meter, env.clock(s1.readings));
      ToolsKeepCalls(env, s1.(meter := m, readings := s1.readings + 1), tools[1..]);
    }
  }

  lemma AnswerIsOneCall(env: Env, s: State, usage: Usage, tools: seq<Tool>, content: Content)
    ensures TakeAnswer(env, s, usage, tools, content).s.calls == s.calls + 1
  {
    hide RunTools, HardCaps;
    var (m, trip) := RecordedLlmCall(env.caps, s.meter, usage, env.clock(s.readings));
    ToolsKeepCalls(env, Called(s, usage).(meter := m, readings := s.readings + 1), tools);
  }

  lemma TurnKeepsCalls(env: Env, s: State)
    requires CallsPaid(env, s) && s.iteration < MaxIterationsInt(env.caps)
    ensures Turn(env, s).Continue? ==> CallsPaid(env, Turn(env, s).s)
    ensures CallsAtEnd(env, Turn(env, s).s)
  {
    hide Windows, TakeAnswer, HardCaps, Truncate, MaxIterationsInt;
    WindowsBounded(s.compactions, MaxIterationsInt(env.caps));
    var s1 := s.(readings := s.readings + 1);
    match env.reply(s1.calls)
    case Failure(contextError) =>
    case Answer(usage, tools, content) =>
      AnswerIsOneCall(env, s1, usage, tools, content);
  }

  lemma {:induction false} RunKeepsCalls(env: Env, s: State)
    requires CallsPaid(env, s)
    ensures CallsAtEnd(env, Run(env, s).0)
    decreases MAX_COMPACTIONS - s.compactions, MaxIterationsInt(env.caps) - s.iteration
  {
    hide Turn, Windows, MaxIterationsInt;
    if s.iteration < MaxIterationsInt(env.caps) {
      TurnKeepsCalls(env, s);
      match Turn(env, s)
      case Stop(s', ending) =>
      case Continue(s') => RunKeepsCalls(env, s');
    } else if s.iteration > 0 {
      WindowsBounded(s.compactions, MaxIterationsInt(env.caps));
    } else {
      NoWindows(s.compactions);
    }
  }

  lemma NoWindows(n: nat)
    requires n <= MAX_COMPACTIONS
    ensures Windows(n, 0) == 0
  {
    assert Windows(1, 0) == 0 && Windows(2, 0) == 0 && Windows(3, 0) == 0;
  }

  /** Whatever the caps and weights, four windows of the iteration limit and three
      failed calls are all a run can make: 40,003 calls with no iteration cap. */
  lemma CallsAlwaysBounded(env: Env, meter: Meter)
    ensures FullRun(env, meter).0.calls <= 4 * MaxIterationsInt(env.caps) + 3
  {
    RunKeepsCalls(env, Initial(env, meter));
  }

  // ---- Spans over a whole run ----

  /** The marks are those of the gradings so far; how far the counters climbed through
      the gradings, and since the last, was really used; and until a compaction the
      counters have never fallen. */
  ghost predicate SpansCovered(s: State) {
    && |s.gradings| == |s.ins| == |s.outs|
    && s.marks == MarksAfter(s.gradings, s.ins, s.outs)
    && Climb(s.ins) + Minus(s.meter.inputTokens, LastOf(s.ins)) <= s.usedIn
    && Climb(s.outs) + Minus(s.meter.outputTokens, LastOf(s.outs)) <= s.usedOut
    && (s.compactions == 0 ==> Steady(s.ins, s.meter.inputTokens) && Steady(s.outs, s.meter.outputTokens))
  }

  predicate Steady(c: seq<nat>, now: nat) {
    NeverFalls(c) && LastOf(c) <= now
  }

  /** The counters may fall in a compaction, or rise by no more than was used. */
  lemma CountersKeepSpans(s: State, s': State)
    requires SpansCovered(s)
    requires s'.marks == s.marks && s'.gradings == s.gradings && s'.ins == s.ins && s'.outs == s.outs
    requires s'.usedIn >= s.usedIn && s'.meter.inputTokens <= s.meter.inputTokens + (s'.usedIn - s.usedIn)
    requires s'.usedOut >= s.usedOut && s'.meter.outputTokens <= s.meter.outputTokens + (s'.usedOut - s.usedOut)
    requires s'.compactions == 0 ==>
               s.compactions == 0 && s'.meter.inputTokens >= s.meter.inputTokens
               && s'.meter.outputTokens >= s.meter.outputTokens
    ensures SpansCovered(s')
  {
    hide MarksAfter, Climb, NeverFalls;
  }

  lemma SteadyAppend(c: seq<nat>, now: nat)
    requires Steady(c, now)
    ensures Steady(c + [now], now)
  {
    var c' := c + [now];
    forall i, j | 0 <= i <= j < |c'| ensures c'[i] <= c'[j] {
      assert i < |c| ==> c[i] <= c[|c| - 1] == LastOf(c);
    }
  }

  lemma MarksAfterOneMore(g: seq<nat>, ins: seq<nat>, outs: seq<nat>, index: nat, tokensIn: nat, tokensOut: nat)
    requires |g| == |ins| == |outs|
    ensures MarksAfter(g + [index], ins + [tokensIn], outs + [tokensOut])
            == WithMark(MarksAfter(g, ins, outs), index, tokensIn, tokensOut)
  {
    hide WithMark;
    var n := |g|;
    assert (g + [index])[..n] == g && (ins + [tokensIn])[..n] == ins && (outs + [tokensOut])[..n] == outs;
  }

  lemma GradingKeepsSpans(s: State, index: nat)
    requires SpansCovered(s)
    ensures SpansCovered(Graded(s, index))
  {
    hide MarksAfter, Climb, Steady, WithMark;
    MarksAfterOneMore(s.gradings, s.ins, s.outs, index, s.meter.inputTokens, s.meter.outputTokens);
    ClimbAppend(s.ins, s.meter.inputTokens);
    ClimbAppend(s.outs, s.meter.outputTokens);
    if s.compactions == 0 {
      SteadyAppend(s.ins, s.meter.inputTokens);
      SteadyAppend(s.outs, s.meter.outputTokens);
    }
  }

  lemma ExecuteKeepsSpans(s: State, tool: Tool)
    requires SpansCovered(s)
    ensures SpansCovered(Execute(s, tool))
  {
    hide MarksAfter, Climb, Steady, MarkIndex, WithMark;
    if tool.SandboxWrite? && MarkIndex(tool.key).Some? {
      var s1 := s.(sandbox := s.sandbox[tool.key := tool.content]);
      GradingKeepsSpans(s1, MarkIndex(tool.key).value);
    }
  }

  lemma {:induction false} ToolsKeepSpans(env: Env, s: State, tools: seq<Tool>)
    requires SpansCovered(s)
    ensures SpansCovered(RunTools(env, s, tools).s)
    decreases |tools|
  {
    hide SpansCovered, Execute, HardCaps;
    if tools == [] {
      CountersKeepSpans(s, s.(iteration := s.iteration + 1));
    } else {
      var s1 := Execute(s, tools[0]);
      ExecuteKeepsSpans(s, tools[0]);
      var (m, trip) := RecordedToolCall(env.caps, s1.meter, env.clock(s1.readings));
      var s2 := s1.(meter := m, readings := s1.readings + 1);
      CountersKeepSpans(s1, s2);
      ToolsKeepSpans(env, s2, tools[1..]);
    }
  }

  lemma AnswerKeepsSpans(env: Env, s: State, usage: Usage, tools: seq<Tool>, content: Content)
    requires SpansCovered(s)
    ensures SpansCovered(TakeAnswer(env, s, usage, tools, content).s)
  {
    hide SpansCovered, RunTools, HardCaps;
    var (m, trip) := RecordedLlmCall(env.caps, s.meter, usage, env.clock(s.readings));
    var s1 := Called(s, usage).(meter := m, readings := s.readings + 1);
    CountersKeepSpans(s, s1);
    ToolsKeepSpans(env, s1, tools);
  }

  lemma TurnKeepsSpans(env: Env, s: State)
    requires s.compactions <= MAX_COMPACTIONS && SpansCovered(s)
    ensures SpansCovered(Turn(env, s).s)
  {
    hide SpansCovered, TakeAnswer, HardCaps, OverThreshold;
    var s1 := s.(readings := s.readings + 1);
    CountersKeepSpans(s, s1);
    CountersKeepSpans(s, Compacted(s1));
    match env.reply(s1.calls)
    case Failure(contextError) =>
      var s2 := s1.(calls := s1.calls + 1);
      CountersKeepSpans(s, s2);
      CountersKeepSpans(s, Compacted(s2));
    case Answer(usage, tools, content) =>
      AnswerKeepsSpans(env, s1, usage, tools, content);
  }

  lemma {:induction false} RunKeepsSpans(env: Env, s: State)
    requires s.compactions <= MAX_COMPACTIONS && SpansCovered(s)
    ensures SpansCovered(Run(env, s).0)
    decreases MAX_COMPACTIONS - s.compactions, MaxIterationsInt(env.caps) - s.iteration
  {
    hide SpansCovered, Turn;
    if s.iteration < MaxIterationsInt(env.caps) {
      TurnKeepsSpans(env, s);
      match Turn(env, s)
      case Stop(s', ending) =>
      case Continue(s') => RunKeepsSpans(env, s');
    }
  }

  /** The reported spends sum to no more than the tokens the run really used. */
  predicate SpendsFit(s: State) {
    SpentBy(s.marks).tokensIn <= s.usedIn && SpentBy(s.marks).tokensOut <= s.usedOut
  }

  /** The criteria whose line in a cap verdict carries a span: the given ones and the
      derived ones with evidence under their own key. */
  function Shown(env: Env, end: State): set<nat> {
    (set i: nat | i < |env.criteria| && CapVerdict.GivenKey(i) in end.sandbox)
    + (set k: nat | k < CapVerdict.MAX_DERIVED_CRITERIA && CapVerdict.DerivedEvidenceKey(k) in end.sandbox
         :: DERIVED_MARK_OFFSET + k)
  }

  /** The spends that the cap verdict shows sum to no more than the run really used. */
  predicate ReportFits(env: Env, end: State) {
    var shown := ShownBy(end.marks, Shown(env, end));
    shown.tokensIn <= end.usedIn && shown.tokensOut <= end.usedOut
  }

  lemma SpendsFitReport(env: Env, end: State)
    requires SpendsFit(end)
    ensures ReportFits(env, end)
  {
    hide SpentShown, Spent, MarksOf, Ordered, Shown;
    ShownIsPart(end.marks, Ordered(end.marks), Shown(env, end));
  }

  lemma RunCoversSpans(env: Env, meter: Meter)
    requires meter.inputTokens == 0 && meter.outputTokens == 0
    ensures SpansCovered(FullRun(env, meter).0)
  {
    hide Run;
    NothingGraded(Initial(env, meter));
    RunKeepsSpans(env, Initial(env, meter));
  }

  lemma NothingGraded(s: State)
    requires s.gradings == s.ins == s.outs == [] && s.marks == map[]
    requires s.meter.inputTokens == 0 && s.meter.outputTokens == 0
    ensures SpansCovered(s)
  {
  }

  /** When the report goes through the run in the order of time, or in the reverse order,
      its sum is within the run's total, across any number of compactions. */
  lemma SpansWithinRun(env: Env, meter: Meter)
    requires meter.inputTokens == 0 && meter.outputTokens == 0
    ensures var end := FullRun(env, meter).0;
            Ascending(ReportTimes(end.gradings)) || Descending(ReportTimes(end.gradings)) ==> SpendsFit(end)
  {
    hide FullRun, SpentBy, Climb, Pick, MarksAfter, ReportTimes, Ascending, Descending, Steady;
    RunCoversSpans(env, meter);
    var end := FullRun(env, meter).0;
    var t := ReportTimes(end.gradings);
    SpentIsClimb(end.gradings, end.ins, end.outs);
    if Ascending(t) {
      AscendingClimbs(end.ins, t);
      AscendingClimbs(end.outs, t);
    } else if Descending(t) {
      DescendingClimbs(end.ins, t);
      DescendingClimbs(end.outs, t);
    }
  }

  /** Without a compaction it is enough that the report, once it has gone back in time,
      does not go forward again. */
  lemma SpansWithinUncompactedRun(env: Env, meter: Meter)
    requires meter.inputTokens == 0 && meter.outputTokens == 0
    ensures var end := FullRun(env, meter).0;
            end.compactions == 0 && NoValley(ReportTimes(end.gradings)) ==> SpendsFit(end)
  {
    hide FullRun, SpentBy, Climb, Pick, MarksAfter, ReportTimes, NoValley;
    RunCoversSpans(env, meter);
    var end := FullRun(env, meter).0;
    var t := ReportTimes(end.gradings);
    SpentIsClimb(end.gradings, end.ins, end.outs);
    if end.compactions == 0 && NoValley(t) {
      RisingClimbs(end.ins, t);
      RisingClimbs(end.outs, t);
    }
  }

  /** When no criterion is graded twice the sum is within the total. */
  lemma SpansWithinRunGradedOnce(env: Env, meter: Meter)
    requires meter.inputTokens == 0 && meter.outputTokens == 0
    ensures var end := FullRun(env, meter).0;
            Distinct(end.gradings) ==> SpendsFit(end)
  {
    hide FullRun, SpendsFit, ReportTimes, Ascending, Distinct;
    SpansWithinRun(env, meter);
    var end := FullRun(env, meter).0;
    if Distinct(end.gradings) {
      OnceIsChronological(end.gradings);
    }
  }

  // ---- Compaction and verdicts ----

  /** With an unlimited budget, which is any that is not positive, a pass is over the
      threshold as soon as compactions are left and any input was used at all, exactly
      when budget times threshold is below one: so for every threshold that is not
      negative, 1.0 included. */
  lemma UnlimitedBudgetCompactsIff(env: Env)
    requires env.caps.maxInputTokens <= 0
    ensures (forall s: State :: OverThreshold(env, s) <==> s.compactions < MAX_COMPACTIONS && s.meter.inputTokens > 0)
            <==> Share(env) < 1.0
    ensures env.threshold >= 0.0 ==> Share(env) < 1.0
  {
    NotPositive(env);
    hide Share;
    if Share(env) >= 1.0 {
      var s := State(Meter(0.0, 0.0, 1, 0, 0, 0), 0, 0, map[], map[], 0, 0, 0, 0, 0, [], [], []);
      assert s.meter.inputTokens > 0 && !OverThreshold(env, s);
    }
  }

  lemma NotPositive(env: Env)
    requires env.caps.maxInputTokens <= 0
    ensures env.threshold >= 0.0 ==> Share(env) <= 0.0
  {
    var a, b := env.caps.maxInputTokens as real, env.threshold;
    if b >= 0.0 {
      assert a * b <= 0.0;
    }
  }

  /** Such a pass compacts. */
  lemma OverThresholdCompacts(env: Env, s: State)
    requires s.compactions <= MAX_COMPACTIONS && OverThreshold(env, s)
    requires HardCaps(env.caps, s.meter, env.clock(s.readings)).None?
    ensures Turn(env, s) == Continue(Compacted(s.(readings := s.readings + 1)))
  {
    hide TakeAnswer, HardCaps;
  }

  /** With a positive budget a share of one or more never compacts: the hard cap comes
      first. */
  lemma FullShareNeverCompacts(env: Env, s: State, now: real)
    requires env.caps.maxInputTokens > 0 && env.threshold >= 1.0
    requires HardCaps(env.caps, s.meter, now).None?
    ensures !OverThreshold(env, s)
  {
    hide Truncate;
    assert s.meter.inputTokens < env.caps.maxInputTokens;
    ShareOf(env.caps.maxInputTokens, env.threshold);
  }

  lemma ShareOf(budget: int, share: real)
    requires budget > 0 && share >= 1.0
    ensures Truncate(budget as real * share) >= budget
  {
    assert budget as real * share >= budget as real * 1.0;
  }

  function NormalStatus(status: string): string {
    if Upper(status) == "PASS" then "PASS" else "FAIL"
  }

  function NormalItems(items: seq<Gate.Item>): (r: seq<Gate.Item>)
    ensures |r| == |items|
  {
    seq(|items|, i requires 0 <= i < |items| => Gate.Item(items[i].criterion, NormalStatus(items[i].status)))
  }

  /** A decoded verdict: unknown statuses are FAIL, and COMPLETE with an item that
      is not PASS is INCOMPLETE. Without a decoded verdict nothing was graded. */
  function ParsedVerdict(content: Content): Gate.Verdict {
    match content
    case Decoded(outcome, items) =>
      Gate.Verdict(if Upper(outcome) == "COMPLETE" && CapVerdict.AllPass(NormalItems(items)) then "COMPLETE"
                   else "INCOMPLETE", NormalItems(items))
    case _ => Gate.Verdict("INCOMPLETE", [])
  }

  function VerdictOf(env: Env, end: State, ending: Ending): Gate.Verdict {
    match ending
    case Capped => CapVerdict.CapVerdictOf(end.sandbox, env.criteria)
    case Delivered(content) => ParsedVerdict(content)
    case EmptyReply => Gate.Verdict("INCOMPLETE", [])
    case CallFailed => Gate.Verdict("INCOMPLETE", [])
  }

  /** With a positive budget a pass is over the threshold exactly when compactions are left
      and the input used is more than that share of it; rounding the share down makes no
      difference. */
  lemma ShareCompactsIff(env: Env, s: State)
    requires env.caps.maxInputTokens > 0 && env.threshold >= 0.0
    ensures OverThreshold(env, s)
            <==> && s.compactions < 3 && s.meter.inputTokens > 0
                 && s.meter.inputTokens as real > env.caps.maxInputTokens as real * env.threshold
  {
    var limit := env.caps.maxInputTokens as real * env.threshold;
    NotNegative(env.caps.maxInputTokens as real, env.threshold);
    FloorCompares(limit, s.meter.inputTokens);
  }

  lemma NotNegative(a: real, b: real)
    requires a >= 0.0 && b >= 0.0
    ensures a * b >= 0.0
  {
  }

  lemma FloorCompares(x: real, n: nat)
    requires x >= 0.0
    ensures n > Truncate(x) <==> n as real > x
  {
  }

  // ---- The clock ----

  /** The run calls the model on this pass. */
  predicate CallsModel(env: Env, s: State)
    requires s.compactions <= MAX_COMPACTIONS
  {
    Turn(env, s).s.calls > s.calls
  }

  /** Which readings of the clock stood right before the calls of a run. */
  function CallReadings(env: Env, s: State): seq<nat>
    requires s.compactions <= MAX_COMPACTIONS
    decreases MAX_COMPACTIONS - s.compactions, MaxIterationsInt(env.caps) - s.iteration
  {
    if s.iteration >= MaxIterationsInt(env.caps) then []
    else (if CallsModel(env, s) then [s.readings] else [])
         + match Turn(env, s) case Stop(_, _) => [] case Continue(s') => CallReadings(env, s')
  }

  /** Within the time cap, if there is one; a clock that starts at zero has none. */
  predicate InTime(env: Env, start: real, reading: nat) {
    env.caps.maxSeconds > 0.0 && start > 0.0 ==> env.clock(reading) < start + env.caps.maxSeconds
  }

  lemma {:induction false} ToolsKeepClock(env: Env, s: State, tools: seq<Tool>)
    ensures RunTools(env, s, tools).s.meter.startTime == s.meter.startTime && RunTools(env, s, tools).s.calls == s.calls
    decreases |tools|
  {
    hide HardCaps;
    if tools != [] {
      ExecuteKeeps(s, tools[0]);
      var s1 := Execute(s, tools[0]);
      var (m, trip) := RecordedToolCall(env.caps, s1.meter, env.clock(s1.readings));
      if trip.None? {
        ToolsKeepClock(env, s1.(meter := m, readings := s1.readings + 1), tools[1..]);
      }
    }
  }

  lemma AnswerKeepsClock(env: Env, s: State, usage: Usage, tools: seq<Tool>, content: Content)
    ensures var s' := TakeAnswer(env, s, usage, tools, content).s;
            s'.meter.startTime == s.meter.startTime && s'.calls == s.calls + 1
  {
    hide HardCaps, RunTools;
    var (m, trip) := RecordedLlmCall(env.caps, s.meter, usage, env.clock(s.readings));
    ToolsKeepClock(env, Called(s, usage).(meter := m, readings := s.readings + 1), tools);
  }

  lemma TurnKeepsClock(env: Env, s: State)
    requires s.compactions <= MAX_COMPACTIONS
    ensures var s' := Turn(env, s).s;
            && s'.meter.startTime == s.meter.startTime && s.calls <= s'.calls <= s.calls + 1
            && (s'.calls > s.calls ==> InTime(env, s.meter.startTime, s.readings))
  {
    hide TakeAnswer, OverThreshold;
    var s1 := s.(readings := s.readings + 1);
    match env.reply(s1.calls)
    case Answer(usage, tools, content) => AnswerKeepsClock(env, s1, usage, tools, content);
    case Failure(_) =>
  }

  lemma {:induction false} RunCallsInTime(env: Env, s: State)
    requires s.compactions <= MAX_COMPACTIONS
    ensures |CallReadings(env, s)| == Run(env, s).0.calls - s.calls
    ensures forall k :: 0 <= k < |CallReadings(env, s)| ==> InTime(env, s.meter.startTime, CallReadings(env, s)[k])
    decreases MAX_COMPACTIONS - s.compactions, MaxIterationsInt(env.caps) - s.iteration
  {
    hide Turn, InTime, MaxIterationsInt;
    if s.iteration < MaxIterationsInt(env.caps) {
      TurnKeepsClock(env, s);
      if Turn(env, s).Continue? {
        RunCallsInTime(env, Turn(env, s).s);
      }
    }
  }

  /** Every call of a run is made on a reading of the clock within the time cap, counted
      from the run's first reading, across all compactions. */
  lemma CallsInTime(env: Env, meter: Meter)
    ensures var readings := CallReadings(env, Initial(env, meter));
            && |readings| == FullRun(env, meter).0.calls
            && forall k :: 0 <= k < |readings| ==> InTime(env, env.clock(0), readings[k])
  {
    hide Run, CallReadings, InTime;
    RunCallsInTime(env, Initial(env, meter));
  }

  // ---- Delivered verdicts ----

  lemma NormalStatusIff(status: string)
    ensures NormalStatus(status) == (if SameWord(status, "PASS") then "PASS" else "FAIL")
  {
    hide Upper, SameWord;
    UpperIsWordIff(status, "PASS");
  }

  /** What a decoded reply is read as: its items in order with their texts; a status that
      is not PASS up to case is FAIL; COMPLETE, up to case, only when every item passes. */
  lemma ParsedVerdictSays(outcome: string, items: seq<Gate.Item>)
    ensures var v := ParsedVerdict(Decoded(outcome, items));
            && |v.items| == |items|
            && (forall i :: 0 <= i < |items| ==>
                  && v.items[i].criterion == items[i].criterion
                  && v.items[i].status == (if SameWord(items[i].status, "PASS") then "PASS" else "FAIL"))
            && v.outcome == (if SameWord(outcome, "COMPLETE") && AllSayPass(items) then "COMPLETE" else "INCOMPLETE")
  {
    hide Upper, SameWord, NormalStatus;
    UpperIsWordIff(outcome, "COMPLETE");
    var normal := NormalItems(items);
    forall i | 0 <= i < |items|
      ensures normal[i].status == (if SameWord(items[i].status, "PASS") then "PASS" else "FAIL")
    {
      NormalStatusIff(items[i].status);
    }
    assert "FAIL" != "PASS";
  }

  /** Every item says PASS, up to case. */
  predicate AllSayPass(items: seq<Gate.Item>) {
    forall i :: 0 <= i < |items| ==> SameWord(items[i].status, "PASS")
  }

  lemma NothingReadNothingPasses(content: Content, criteria: seq<string>)
    requires !content.Decoded?
    ensures !Gate.VerdictIsPassing(ParsedVerdict(content), criteria)
  {
    hide Gate.CoverageFor, Upper, Strip;
  }

  /** A reply passes the gate exactly when it was read, says COMPLETE and PASS of every
      item, up to case, and no criterion with text, of which there is one, is left
      without an item. */
  lemma DeliveredPassesIff(content: Content, criteria: seq<string>)
    ensures Gate.VerdictIsPassing(ParsedVerdict(content), criteria)
            <==> && content.Decoded? && SameWord(content.outcome, "COMPLETE") && AllSayPass(content.items)
                 && (exists c <- criteria :: Strip(c) != "")
                 && Gate.CoverageFor(content.items, criteria).ungraded == []
  {
    hide Gate.VerdictIsPassing, Gate.CoverageFor, Strip, SameWord, ParsedVerdict;
    if content.Decoded? {
      ParsedVerdictSays(content.outcome, content.items);
      NormalPassesIff(ParsedVerdict(content), content.items, criteria);
    } else {
      NothingReadNothingPasses(content, criteria);
    }
  }

  /** A verdict whose statuses are PASS or FAIL, COMPLETE only with PASS items, against the
      items it was read from. */
  lemma NormalPassesIff(v: Gate.Verdict, items: seq<Gate.Item>, criteria: seq<string>)
    requires Gate.SameTexts(v.items, items) && v.outcome in {"COMPLETE", "INCOMPLETE"}
    requires v.outcome == "COMPLETE" ==> CapVerdict.AllPass(v.items)
    ensures Gate.VerdictIsPassing(v, criteria)
            <==> && v.outcome == "COMPLETE" && (exists c <- criteria :: Strip(c) != "")
                 && Gate.CoverageFor(items, criteria).ungraded == []
  {
    hide Gate.Rounds, Upper, Strip, HasText, Gate.Wanted;
    assert |"INCOMPLETE"| != |"COMPLETE"|;
    CapitalWord("COMPLETE");
    CapitalWord("INCOMPLETE");
    var wanted := Gate.Wanted(criteria);
    Gate.RoundsSameTexts(wanted, Gate.Start(v.items), Gate.Start(items));
    forall c: string ensures HasText(c) <==> Strip(c) != "" { HasTextIff(c); }
    if v.outcome == "COMPLETE" {
      CapVerdict.AllPassing(v.items);
      var start := Gate.Start(v.items);
      assert start.pool == v.items && start.failing == [];
      CapVerdict.NothingFails(wanted, start);
    }
    if v.items == [] && wanted != [] {
      Gate.NoItemsNoGrades(criteria);
    }
  }

  /** A delivered verdict passes the gate exactly when its reply does. */
  lemma DeliveredRunPassesIff(env: Env, meter: Meter)
    requires FullRun(env, meter).1.Delivered?
    ensures var (end, ending) := FullRun(env, meter);
            Gate.VerdictIsPassing(VerdictOf(env, end, ending), env.criteria)
            <==> && ending.content.Decoded? && SameWord(ending.content.outcome, "COMPLETE")
                 && AllSayPass(ending.content.items) && (exists c <- env.criteria :: Strip(c) != "")
                 && Gate.CoverageFor(ending.content.items, env.criteria).ungraded == []
  {
    hide Run, Gate.VerdictIsPassing, ParsedVerdict, Gate.CoverageFor, AllSayPass, SameWord, Strip;
    DeliveredPassesIff(FullRun(env, meter).1.content, env.criteria);
  }

  /** A run that ends on a cap passes the gate exactly when some criterion is not
      blank and every given and every recorded derived criterion has PASS evidence. */
  lemma CappedRunPassesIff(env: Env, meter: Meter)
    requires FullRun(env, meter).1.Capped?
    ensures var (end, ending) := FullRun(env, meter);
            Gate.VerdictIsPassing(VerdictOf(env, end, ending), env.criteria) <==>
              CapVerdict.FullyEvidenced(end.sandbox, env.criteria)
  {
    hide Run, Gate.VerdictIsPassing, CapVerdict.FullyEvidenced, CapVerdict.CapVerdictOf;
    CapVerdict.CapVerdictPassesIff(FullRun(env, meter).0.sandbox, env.criteria);
  }
}
