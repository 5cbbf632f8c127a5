/** The evaluator object: its loop, its sandbox and the verdict builders, each
    tied to the specification of the same step. (engine/evaluator.py) */
module Evaluator {
  import opened Text
  import opened EvalCaps
  import opened CriterionSpans
  import opened EvalLoop
  import CapVerdict
  import Gate

  class AgenticEvaluator {
    const cap: EvalCap
    var sandbox: CapVerdict.Sandbox
    var criterionMarks: Marks

    constructor (cap: EvalCap)
      ensures this.cap == cap && sandbox == map[] && criterionMarks == map[]
    {
      this.cap := cap;
      sandbox, criterionMarks := map[], map[];
    }

    /** The object's fields agree with the state of the run. */
    ghost predicate Shows(s: State)
      reads this, cap
    {
      sandbox == s.sandbox && criterionMarks == s.marks && cap.View() == s.meter
    }

    // ---- The verdict builders ----

    method DerivedCriteriaFromSandbox() returns (rows: seq<CapVerdict.DerivedRow>)
      ensures rows == CapVerdict.DerivedRows(sandbox, CapVerdict.MAX_DERIVED_CRITERIA)
    {
      hide CapVerdict.RowFor, CapVerdict.Recorded;
      rows := [];
      for k := 0 to CapVerdict.MAX_DERIVED_CRITERIA
        invariant rows == CapVerdict.DerivedRows(sandbox, k)
      {
        if CapVerdict.Recorded(sandbox, k) {
          rows := rows + [CapVerdict.RowFor(sandbox, k)];
        }
      }
    }

    method ExtractPartialVerdict(criteria: seq<string>) returns (verdict: Gate.Verdict)
      ensures verdict == CapVerdict.CapVerdictOf(sandbox, criteria)
    {
      hide CapVerdict.GivenItem, CapVerdict.RowItem, CapVerdict.DerivedRows;
      var items: seq<Gate.Item> := [];
      for i := 0 to |criteria|
        invariant items == CapVerdict.GivenItems(sandbox, criteria)[..i]
      {
        items := items + [CapVerdict.GivenItem(sandbox, criteria, i)];
      }
      ghost var given := items;
      var rows := DerivedCriteriaFromSandbox();
      for i := 0 to |rows|
        invariant items == given + CapVerdict.RowItems(rows)[..i]
      {
        items := items + [CapVerdict.RowItem(rows[i])];
      }
      assert items == CapVerdict.PartialItems(sandbox, criteria);
      var complete := items != [] && forall i | 0 <= i < |items| :: items[i].status == "PASS";
      verdict := Gate.Verdict(if complete then "COMPLETE" else "INCOMPLETE", items);
    }

    method ParseVerdict(content: Content) returns (verdict: Gate.Verdict)
      ensures verdict == ParsedVerdict(content)
    {
      hide NormalStatus, Upper;
      match content
      case NoContent => verdict := Gate.Verdict("INCOMPLETE", []);
      case Unreadable => verdict := Gate.Verdict("INCOMPLETE", []);
      case Decoded(outcome, given) =>
        var items: seq<Gate.Item> := [];
        for i := 0 to |given|
          invariant items == NormalItems(given)[..i]
        {
          items := items + [Gate.Item(given[i].criterion, NormalStatus(given[i].status))];
        }
        var honest := forall i | 0 <= i < |items| :: items[i].status == "PASS";
        verdict := Gate.Verdict(if Upper(outcome) == "COMPLETE" && honest then "COMPLETE" else "INCOMPLETE", items);
    }

    // ---- Tools ----

    /** A `verified_<n>` write is the moment criterion n is graded: it leaves a mark. */
    method SandboxWrite(key: string, content: string, ghost s: State)
      requires Shows(s)
      modifies this
      ensures Shows(Execute(s, Tool.SandboxWrite(key, content)))
    {
      hide MarkIndex;
      sandbox := sandbox[key := content];
      var index := MarkIndex(key);
      if index.Some? {
        criterionMarks := criterionMarks[index.value :=
          Mark(|criterionMarks|, cap.cumulativeInputTokens, cap.cumulativeOutputTokens)];
      }
    }

    /** The tool calls of one answer, each charged after it ran. */
    method RunToolCalls(env: Env, tools: seq<Tool>, readings: nat, ghost s: State)
      returns (tripped: bool, readings': nat, ghost next: Next)
      requires env.caps == cap.caps && Shows(s) && readings == s.readings
      modifies this, cap
      ensures next == EvalLoop.RunTools(env, s, tools)
      ensures Shows(next.s) && readings' == next.s.readings
      ensures tripped <==> next.Stop?
      ensures tripped ==> next.ending.Capped?
    {
      hide Execute, HardCaps;
      readings' := readings;
      ghost var t := s;
      for k := 0 to |tools|
        invariant Shows(t) && readings' == t.readings
        invariant EvalLoop.RunTools(env, t, tools[k..]) == EvalLoop.RunTools(env, s, tools)
      {
        assert tools[k..][0] == tools[k] && tools[k..][1..] == tools[k + 1..];
        ghost var t1 := Execute(t, tools[k]);
        ExecuteReadings(t, tools[k]);
        match tools[k] {
          case SandboxWrite(key, content) => SandboxWrite(key, content, t);
          case OtherTool =>
            assert t1 == t by { OtherToolKeeps(t); }
        }
        var now := env.clock(readings');
        var trip := cap.RecordToolCall(now);
        readings' := readings' + 1;
        t := t1.(meter := cap.View(), readings := readings');
        if trip.Some? {
          return true, readings', Stop(t, Capped);
        }
      }
      return false, readings', Continue(t.(iteration := t.iteration + 1));
    }

    // ---- The loop ----

    /** One answer: charge it, then deliver its verdict or run its tools. */
    method HandleAnswer(env: Env, usage: Usage, tools: seq<Tool>, content: Content, readings: nat, ghost s: State)
      returns (done: bool, verdict: Gate.Verdict, readings': nat, ghost next: Next)
      requires env.caps == cap.caps && Shows(s) && readings == s.readings
      modifies this, cap
      ensures next == TakeAnswer(env, s, usage, tools, content)
      ensures Shows(next.s) && readings' == next.s.readings && next.s.calls == s.calls + 1
      ensures done <==> next.Stop?
      ensures done ==> verdict == VerdictOf(env, next.s, next.ending)
    {
      hide HardCaps, RunTools, CapVerdict.CapVerdictOf, ParsedVerdict;
      AnswerIsOneCall(env, s, usage, tools, content);
      verdict := Gate.Verdict("INCOMPLETE", []);
      var now := env.clock(readings);
      readings' := readings + 1;
      var capError := cap.RecordLlmCall(usage, now);
      ghost var s1 := Called(s, usage).(meter := cap.View(), readings := readings');
      if capError.Some? {
        verdict := ExtractPartialVerdict(env.criteria);
        return true, verdict, readings', Stop(s1, Capped);
      }
      if tools == [] {
        if content.NoContent? {
          return true, verdict, readings', Stop(s1, EmptyReply);
        }
        verdict := ParseVerdict(content);
        return true, verdict, readings', Stop(s1, Delivered(content));
      }
      done, readings', next := RunToolCalls(env, tools, readings', s1);
      if done {
        verdict := ExtractPartialVerdict(env.criteria);
      }
    }

    /** Drop the conversation: token counters restart, credit and marks stay. */
    method CompactContext(compactionCount: nat, ghost s: State) returns (count: nat)
      requires Shows(s) && compactionCount == s.compactions
      modifies cap
      ensures Shows(Compacted(s)) && count == Compacted(s).compactions
    {
      cap.ResetContextTracking();
      count := compactionCount + 1;
    }

    /** Is the cumulative input above the compaction threshold? */
    method AboveThreshold(env: Env, compactionCount: nat, ghost s: State) returns (above: bool)
      requires Shows(s) && compactionCount == s.compactions
      ensures above == OverThreshold(env, s)
    {
      var budgetUsed := cap.cumulativeInputTokens;
      if budgetUsed > 0 && compactionCount < MAX_COMPACTIONS {
        var threshold := Truncate(env.caps.maxInputTokens as real * env.threshold);
        assert s.meter.inputTokens == budgetUsed;
        return budgetUsed > threshold;
      }
      return false;
    }

    /** The body of the loop: caps, compaction, the call, then its answer. */
    method OnePass(env: Env, compactionCount: nat, iteration: nat, calls: nat, readings: nat, ghost s: State)
      returns (done: bool, verdict: Gate.Verdict, compactionCount': nat, iteration': nat, calls': nat,
               readings': nat, ghost next: Next)
      requires env.caps == cap.caps && Shows(s) && s.compactions <= MAX_COMPACTIONS
      requires compactionCount == s.compactions && iteration == s.iteration
      requires calls == s.calls && readings == s.readings
      modifies this, cap
      ensures next == Turn(env, s) && Shows(next.s) && (done <==> next.Stop?)
      ensures done ==> verdict == VerdictOf(env, next.s, next.ending)
      ensures !done ==>
                && compactionCount' == next.s.compactions && iteration' == next.s.iteration
                && calls' == next.s.calls && readings' == next.s.readings
    {
      hide HardCaps, OverThreshold, Truncate, TakeAnswer, CapVerdict.CapVerdictOf, ParsedVerdict;
      verdict := Gate.Verdict("INCOMPLETE", []);
      compactionCount', iteration', calls', readings' := compactionCount, iteration, calls, readings + 1;
      ghost var s1 := s.(readings := readings');
      var now := env.clock(readings);
      var capError := cap.CheckHardCaps(now);
      if capError.Some? {
        verdict := ExtractPartialVerdict(env.criteria);
        return true, verdict, compactionCount', iteration', calls', readings', Stop(s1, Capped);
      }
      var above := AboveThreshold(env, compactionCount, s1);
      if above {
        compactionCount' := CompactContext(compactionCount, s1);
        return false, verdict, compactionCount', 0, calls', readings', Continue(Compacted(s1));
      }
      calls' := calls + 1;
      match env.reply(calls) {
        case Failure(contextError) =>
          ghost var s2 := s1.(calls := calls');
          if !contextError || compactionCount >= MAX_COMPACTIONS {
            return true, verdict, compactionCount', iteration', calls', readings', Stop(s2, CallFailed);
          }
          compactionCount' := CompactContext(compactionCount, s2);
          return false, verdict, compactionCount', 0, calls', readings', Continue(Compacted(s2));
        case Answer(usage, tools, content) =>
          done, verdict, readings', next := HandleAnswer(env, usage, tools, content, readings', s1);
          iteration' := iteration + 1;
      }
    }

    /** Evaluate: the fields and the verdict end as the specified run ends. */
    method EvaluateLoop(env: Env) returns (verdict: Gate.Verdict, ghost end: State, ghost ending: Ending)
      requires env.caps == cap.caps
      modifies this, cap
      ensures (end, ending) == FullRun(env, old(cap.View()))
      ensures Shows(end) && verdict == VerdictOf(env, end, ending)
    {
      hide Turn, MaxIterationsInt, CapVerdict.CapVerdictOf, ParsedVerdict;
      sandbox, criterionMarks := map[], map[];
      var now := env.clock(0);
      cap.Start(now);
      var compactionCount: nat, iteration: nat, calls: nat, readings: nat := 0, 0, 0, 1;
      var iterLimit := MaxIterationsInt(env.caps);
      ghost var s := Initial(env, old(cap.View()));
      while iteration < iterLimit
        invariant Shows(s) && compactionCount == s.compactions <= MAX_COMPACTIONS
        invariant iteration == s.iteration && calls == s.calls && readings == s.readings
        invariant Run(env, s) == FullRun(env, old(cap.View()))
        decreases MAX_COMPACTIONS - compactionCount, iterLimit - iteration
      {
        var done;
        ghost var next;
        done, verdict, compactionCount, iteration, calls, readings, next :=
          OnePass(env, compactionCount, iteration, calls, readings, s);
        if done {
          return verdict, next.s, next.ending;
        }
        s := next.s;
      }
      verdict := ExtractPartialVerdict(env.criteria);
      return verdict, s, Capped;
    }
  }

  lemma ExecuteReadings(s: State, tool: Tool)
    ensures Execute(s, tool).readings == s.readings && Execute(s, tool).meter == s.meter
    ensures Execute(s, tool).iteration == s.iteration
  {
    hide MarkIndex, WithMark;
  }

  lemma OtherToolKeeps(s: State)
    ensures Execute(s, OtherTool) == s
  {
  }
}
