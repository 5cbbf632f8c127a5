/** Evaluator caps: fractional iteration credit, wall clock and token budgets.
    Token and time caps are hard; the iteration cap is checked before a call is
    added, so the last one may go over. (engine/eval_cap.py) */
module EvalCaps {
  import opened Text

  /** -1 means unlimited. */
  datatype Caps = Caps(maxIterations: real, maxSeconds: real, maxInputTokens: int, maxOutputTokens: int,
                       toolCallWeight: real)

  datatype Meter = Meter(credit: real, startTime: real, inputTokens: nat, outputTokens: nat,
                         cacheRead: nat, cacheWrite: nat)

  datatype Usage = Usage(prompt: nat, completion: nat, cacheRead: nat, cacheWrite: nat) {
    function AllInput(): nat { prompt + cacheRead + cacheWrite }
  }

  datatype Trip = IterationCap | TimeCap | InputBudget | OutputBudget

  predicate OutOfIterations(caps: Caps, m: Meter) {
    caps.maxIterations > 0.0 && m.credit >= caps.maxIterations
  }

  function HardCaps(caps: Caps, m: Meter, now: real): Option<Trip> {
    if caps.maxSeconds > 0.0 && m.startTime > 0.0 && now - m.startTime >= caps.maxSeconds then Some(TimeCap)
    else if caps.maxInputTokens > 0 && m.inputTokens >= caps.maxInputTokens then Some(InputBudget)
    else if caps.maxOutputTokens > 0 && m.outputTokens >= caps.maxOutputTokens then Some(OutputBudget)
    else None
  }

  function Charged(m: Meter, u: Usage): Meter {
    Meter(m.credit + 1.0, m.startTime, m.inputTokens + u.AllInput(), m.outputTokens + u.completion,
          m.cacheRead + u.cacheRead, m.cacheWrite + u.cacheWrite)
  }

  function RecordedLlmCall(caps: Caps, m: Meter, u: Usage, now: real): (Meter, Option<Trip>) {
    if OutOfIterations(caps, m) then (m, Some(IterationCap))
    else (Charged(m, u), HardCaps(caps, Charged(m, u), now))
  }

  function RecordedToolCall(caps: Caps, m: Meter, now: real): (Meter, Option<Trip>) {
    if OutOfIterations(caps, m) then (m, Some(IterationCap))
    else
      var m' := m.(credit := m.credit + caps.toolCallWeight);
      (m', HardCaps(caps, m', now))
  }

  /** A fresh context forgets tokens, not iterations and not time. */
  function FreshContext(m: Meter): Meter {
    m.(inputTokens := 0, outputTokens := 0, cacheRead := 0, cacheWrite := 0)
  }

  /** Conversion to an integer drops the fraction. */
  function Truncate(x: real): int {
    if x >= 0.0 then x.Floor else -((-x).Floor)
  }

  const UNLIMITED_ITERATIONS := 10_000

  function MaxIterationsInt(caps: Caps): (n: nat) {
    if caps.maxIterations <= 0.0 then UNLIMITED_ITERATIONS else Truncate(caps.maxIterations)
  }

  class EvalCap {
    const caps: Caps
    var iterationCredit: real
    var startTime: real
    var cumulativeInputTokens: nat
    var cumulativeOutputTokens: nat
    var cumulativeCacheRead: nat
    var cumulativeCacheWrite: nat

    constructor (caps: Caps)
      ensures this.caps == caps && View() == Meter(0.0, 0.0, 0, 0, 0, 0)
    {
      this.caps := caps;
      iterationCredit, startTime := 0.0, 0.0;
      cumulativeInputTokens, cumulativeOutputTokens := 0, 0;
      cumulativeCacheRead, cumulativeCacheWrite := 0, 0;
    }

    function View(): Meter
      reads this
    {
      Meter(iterationCredit, startTime, cumulativeInputTokens, cumulativeOutputTokens,
            cumulativeCacheRead, cumulativeCacheWrite)
    }

    method Start(now: real)
      modifies this
      ensures View() == old(View()).(startTime := now)
    {
      startTime := now;
    }

    method ResetContextTracking()
      modifies this
      ensures View() == FreshContext(old(View()))
    {
      cumulativeInputTokens, cumulativeOutputTokens := 0, 0;
      cumulativeCacheRead, cumulativeCacheWrite := 0, 0;
    }

    method CheckHardCaps(now: real) returns (trip: Option<Trip>)
      ensures trip == HardCaps(caps, View(), now)
    {
      if caps.maxSeconds > 0.0 && startTime > 0.0 {
        var elapsed := now - startTime;
        if elapsed >= caps.maxSeconds {
          return Some(TimeCap);
        }
      }
      if caps.maxInputTokens > 0 && cumulativeInputTokens >= caps.maxInputTokens {
        return Some(InputBudget);
      }
      if caps.maxOutputTokens > 0 && cumulativeOutputTokens >= caps.maxOutputTokens {
        return Some(OutputBudget);
      }
      return None;
    }

    method RecordLlmCall(u: Usage, now: real) returns (trip: Option<Trip>)
      modifies this
      ensures (View(), trip) == RecordedLlmCall(caps, old(View()), u, now)
    {
      if caps.maxIterations > 0.0 && iterationCredit >= caps.maxIterations {
        return Some(IterationCap);
      }
      iterationCredit := iterationCredit + 1.0;
      cumulativeInputTokens := cumulativeInputTokens + u.AllInput();
      cumulativeOutputTokens := cumulativeOutputTokens + u.completion;
      cumulativeCacheRead := cumulativeCacheRead + u.cacheRead;
      cumulativeCacheWrite := cumulativeCacheWrite + u.cacheWrite;
      assert View() == Charged(old(View()), u);
      trip := CheckHardCaps(now);
    }

    method RecordToolCall(now: real) returns (trip: Option<Trip>)
      modifies this
      ensures (View(), trip) == RecordedToolCall(caps, old(View()), now)
    {
      if caps.maxIterations > 0.0 && iterationCredit >= caps.maxIterations {
        return Some(IterationCap);
      }
      iterationCredit := iterationCredit + caps.toolCallWeight;
      trip := CheckHardCaps(now);
    }
  }
}
