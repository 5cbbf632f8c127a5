/** A worker that keeps beating is never reaped: the same protocol with the
    heartbeat's attempts on a clock. (engine/job_store.py) */
module JobTiming {
  import opened Text
  import opened JobProtocol

  /** The heartbeat thread beats at least every `interval`, loses at most `maxMisses`
      attempts in a row, and runs in processes that stay alive. */
  datatype Pace = Pace(interval: real, maxMisses: nat, own: set<int>, staleCap: real)

  const HEARTBEAT := Beat(0)

  /** When the last attempt began, when the last one that landed began, and how
      many have been lost since. */
  datatype Timed = Timed(s: State, lastAttempt: real, lastLanded: real, misses: nat)

  predicate Own(pace: Pace, r: Record) {
    r.Worker().Pid? ==> r.Worker().n in pace.own
  }

  /** The steps a paced heartbeat and any number of pollers can take. Time does not
      pass the moment the next attempt is due. */
  predicate Timely(pace: Pace, t: Timed, step: Step) {
    && Enabled(t.s, step)
    && match step
       case Acquire(a) => a.Beat? ==> a == HEARTBEAT
       case AcquireFails(a) => a.Beat? ==> a == HEARTBEAT && t.misses + 1 <= pace.maxMisses
       case Stamp(_, extra) => extra.Pid? ==> extra.n in pace.own
       case SaveFails(a) => a.Beat? ==> t.misses + 1 <= pace.maxMisses
       case Tick(elapsed) => t.s.now + elapsed <= t.lastAttempt + pace.interval
       case Process(alive) => pace.own <= alive
       case Join => false
       case Finish(_) => false
       case _ => true
  }

  function Advance(pace: Pace, t: Timed, step: Step): Timed
    requires Timely(pace, t, step)
  {
    var s' := Apply(t.s, step, pace.staleCap);
    match step
    case Acquire(a) => if a.Beat? then t.(s := s', lastAttempt := t.s.now) else t.(s := s')
    case AcquireFails(a) =>
      if a.Beat? then t.(s := s', lastAttempt := t.s.now, misses := t.misses + 1) else t.(s := s')
    case Save(a) =>
      if a.Beat? then t.(s := s', lastLanded := t.lastAttempt, misses := 0) else t.(s := s')
    case SaveFails(a) => if a.Beat? then t.(s := s', misses := t.misses + 1) else t.(s := s')
    case _ => t.(s := s')
  }

  /** `n` intervals. */
  function Slack(n: nat, interval: real): real {
    if n == 0 then 0.0 else Slack(n - 1, interval) + interval
  }

  lemma {:induction false} SlackIsProduct(n: nat, interval: real)
    ensures Slack(n, interval) == n as real * interval
  {
    if n > 0 {
      SlackIsProduct(n - 1, interval);
      assert n as real * interval == (n - 1) as real * interval + interval;
    }
  }

  lemma {:induction false} SlackMonotone(m: nat, n: nat, interval: real)
    requires m <= n && interval >= 0.0
    ensures Slack(m, interval) <= Slack(n, interval)
    decreases n
  {
    if m < n {
      SlackMonotone(m, n - 1, interval);
    }
  }

  /** An attempt is in progress: it holds the lease and has not been settled. */
  predicate InAttempt(s: State) {
    HEARTBEAT in s.phases && !s.phases[HEARTBEAT].Done?
  }

  predicate PhasePaced(pace: Pace, t: Timed, a: Actor, p: Phase) {
    && (a.Beat? ==> a == HEARTBEAT)
    && !p.Condemned?
    && (p.Ready? ==> && p.stamped.heartbeatAt.Some? && p.stamped.heartbeatAt.value >= t.lastAttempt
                     && Own(pace, p.stamped))
  }

  /** The record is running, names a live worker, and its heartbeat is no older than
      the attempts lost since allow. */
  predicate Beating(pace: Pace, t: Timed) {
    && Inv(t.s, pace.staleCap) && !Ended(t.s) && pace.own <= t.s.alive
    && Own(pace, t.s.record.value)
    && t.s.record.value.heartbeatAt.Some? && t.s.record.value.heartbeatAt.value >= t.lastLanded
    && t.misses <= pace.maxMisses && t.lastAttempt <= t.s.now <= t.lastAttempt + pace.interval
    && t.lastAttempt <= t.lastLanded + Slack(if InAttempt(t.s) then t.misses + 1 else t.misses, pace.interval)
    && forall a :: a in t.s.phases ==> PhasePaced(pace, t, a, t.s.phases[a])
  }

  predicate Paced(pace: Pace) {
    && pace.interval >= 0.0
    && (pace.maxMisses + 1) as real * pace.interval <= pace.staleCap
  }

  /** Whoever judges the record while no attempt is in progress finds the worker alive. */
  lemma AliveWhenJudged(pace: Pace, t: Timed)
    requires Paced(pace) && Beating(pace, t) && !InAttempt(t.s)
    ensures Death(t.s.record.value, t.s.now, t.s.alive, pace.staleCap).None?
  {
    SlackMonotone(t.misses + 1, pace.maxMisses + 1, pace.interval);
    SlackIsProduct(pace.maxMisses + 1, pace.interval);
    assert Slack(t.misses + 1, pace.interval) == Slack(t.misses, pace.interval) + pace.interval;
    SlackMonotone(0, pace.maxMisses + 1, pace.interval);
  }

  /** A reaper that has loaded the record holds the lease, so no attempt is in
      progress, and what it loaded is the record. */
  lemma JudgeAcquits(pace: Pace, t: Timed, a: Actor)
    requires Paced(pace) && Beating(pace, t) && Timely(pace, t, Judge(a))
    ensures Apply(t.s, Judge(a), pace.staleCap) == Move(t.s, a, Done)
  {
    hide Death;
    assert t.s.holder == Some(a) && PhaseOk(t.s, a, t.s.phases[a], pace.staleCap);
    assert !InAttempt(t.s);
    AliveWhenJudged(pace, t);
  }

  lemma StepKeepsPhasesPaced(pace: Pace, t: Timed, step: Step, a: Actor)
    requires Paced(pace) && Beating(pace, t) && Timely(pace, t, step)
    requires a in Advance(pace, t, step).s.phases
    ensures var t' := Advance(pace, t, step); PhasePaced(pace, t', a, t'.s.phases[a])
  {
    hide Death, Slack, Inv;
    if step.Judge? {
      JudgeAcquits(pace, t, step.a);
    }
    if step.Stamp? {
      assert PhaseOk(t.s, step.a, t.s.phases[step.a], pace.staleCap) by { BeatingInv(pace, t, step.a); }
    }
    if a in t.s.phases {
      assert PhasePaced(pace, t, a, t.s.phases[a]);
      BeatingInv(pace, t, a);
    }
    BeatingHolder(pace, t);
  }

  lemma BeatingInv(pace: Pace, t: Timed, a: Actor)
    requires Beating(pace, t) && a in t.s.phases
    ensures PhaseOk(t.s, a, t.s.phases[a], pace.staleCap) && t.s.record.Some?
  {
  }

  lemma BeatingHolder(pace: Pace, t: Timed)
    requires Beating(pace, t)
    ensures OneHolder(t.s)
  {
  }

  /** No timely step makes the record end. */
  lemma StepKeepsRecord(pace: Pace, t: Timed, step: Step)
    requires Paced(pace) && Beating(pace, t) && Timely(pace, t, step)
    ensures var t' := Advance(pace, t, step);
            && t'.s.record.Some? && !Ended(t'.s) && Own(pace, t'.s.record.value)
            && t'.s.record.value.heartbeatAt.Some? && t'.s.record.value.heartbeatAt.value >= t'.lastLanded
  {
    hide Death, Slack;
    if step.Save? || step.Stamp? {
      assert PhasePaced(pace, t, step.a, t.s.phases[step.a]);
      assert PhaseOk(t.s, step.a, t.s.phases[step.a], pace.staleCap);
    }
  }

  lemma StepKeepsClock(pace: Pace, t: Timed, step: Step)
    requires Paced(pace) && Beating(pace, t) && Timely(pace, t, step)
    ensures var t' := Advance(pace, t, step);
            && pace.own <= t'.s.alive && t'.misses <= pace.maxMisses
            && t'.lastAttempt <= t'.s.now <= t'.lastAttempt + pace.interval
  {
    hide Death, Slack, Inv;
    if step.Judge? {
      JudgeAcquits(pace, t, step.a);
    }
  }

  lemma StepKeepsSlack(pace: Pace, t: Timed, step: Step)
    requires Paced(pace) && Beating(pace, t) && Timely(pace, t, step)
    ensures var t' := Advance(pace, t, step);
            t'.lastAttempt
            <= t'.lastLanded + Slack(if InAttempt(t'.s) then t'.misses + 1 else t'.misses, pace.interval)
  {
    hide Death, Inv, Slack;
    var i := pace.interval;
    assert Slack(t.misses + 1, i) == Slack(t.misses, i) + i && Slack(0, i) == 0.0 by { SlackStep(t.misses, i); }
    if step.Judge? {
      JudgeAcquits(pace, t, step.a);
    }
    BeatingHolder(pace, t);
    if step.Save? || step.SaveFails? || step.Stamp? || step.Release? {
      assert PhasePaced(pace, t, step.a, t.s.phases[step.a]);
      BeatingInv(pace, t, step.a);
    }
  }

  lemma SlackStep(n: nat, interval: real)
    ensures Slack(n + 1, interval) == Slack(n, interval) + interval && Slack(0, interval) == 0.0
  {
  }

  lemma StepKeepsBeating(pace: Pace, t: Timed, step: Step)
    requires Paced(pace) && Beating(pace, t) && Timely(pace, t, step)
    ensures Beating(pace, Advance(pace, t, step))
  {
    hide Death, Slack, Inv, Enabled, Apply;
    var t' := Advance(pace, t, step);
    BeatingHasInv(pace, t);
    StepKeepsInv(t.s, step, pace.staleCap);
    StepKeepsRecord(pace, t, step);
    StepKeepsClock(pace, t, step);
    StepKeepsSlack(pace, t, step);
    forall a | a in t'.s.phases ensures PhasePaced(pace, t', a, t'.s.phases[a]) {
      StepKeepsPhasesPaced(pace, t, step, a);
    }
  }

  lemma BeatingHasInv(pace: Pace, t: Timed)
    requires Beating(pace, t)
    ensures Inv(t.s, pace.staleCap)
  {
  }

  predicate TimelyRuns(pace: Pace, t: Timed, steps: seq<Step>)
    decreases |steps|
  {
    steps == [] || (Timely(pace, t, steps[0]) && TimelyRuns(pace, Advance(pace, t, steps[0]), steps[1..]))
  }

  function TimelyExec(pace: Pace, t: Timed, steps: seq<Step>): Timed
    requires TimelyRuns(pace, t, steps)
    decreases |steps|
  {
    if steps == [] then t else TimelyExec(pace, Advance(pace, t, steps[0]), steps[1..])
  }

  lemma {:induction false} RunsKeepBeating(pace: Pace, t: Timed, steps: seq<Step>)
    requires Paced(pace) && Beating(pace, t) && TimelyRuns(pace, t, steps)
    ensures Beating(pace, TimelyExec(pace, t, steps))
    decreases |steps|
  {
    hide Beating, Timely, Advance, Paced;
    if steps != [] {
      StepKeepsBeating(pace, t, steps[0]);
      RunsKeepBeating(pace, Advance(pace, t, steps[0]), steps[1..]);
    }
  }

  /** A record just claimed by a worker that starts its heartbeat now. */
  predicate Claimed(pace: Pace, t: Timed) {
    && Fresh(t.s) && pace.own <= t.s.alive && Own(pace, t.s.record.value)
    && t.s.record.value.heartbeatAt == Some(t.s.now)
    && t.lastAttempt == t.lastLanded == t.s.now && t.misses == 0
  }

  /** If its processes stay alive, an attempt begins at least every interval, at most
      k attempts in a row are lost, and (k + 1) intervals fit in the stale cap, then no
      schedule of pollers ends the job of a live worker. */
  lemma LiveWorkerIsNeverReaped(pace: Pace, t: Timed, steps: seq<Step>)
    requires Paced(pace) && Claimed(pace, t) && TimelyRuns(pace, t, steps)
    ensures var end := TimelyExec(pace, t, steps).s;
            && end.record.Some? && end.record.value.IsRunning() && end.exits == 0
            && forall a :: a in end.phases ==> !end.phases[a].Condemned?
  {
    FreshKeepsInv(t.s, pace.staleCap);
    RunsKeepBeating(pace, t, steps);
    var end := TimelyExec(pace, t, steps);
    assert forall a :: a in end.s.phases ==> PhasePaced(pace, end, a, end.s.phases[a]);
  }

  // ---- The same of plain runs of the protocol ----

  /** A step with which the heartbeat begins an attempt. */
  predicate Begins(step: Step) {
    step == Acquire(HEARTBEAT) || step == AcquireFails(HEARTBEAT)
  }

  /** When the last attempt of a run began; before the first, when the run did. */
  function LastBegun(s: State, steps: seq<Step>, staleCap: real): real
    requires Runs(s, steps, staleCap)
    decreases |steps|
  {
    if steps == [] then s.now
    else
      var n := |steps| - 1;
      RunsAppend(s, steps[..n], steps[n], staleCap);
      assert steps[..n] + [steps[n]] == steps;
      if Begins(steps[n]) then Exec(s, steps[..n], staleCap).now else LastBegun(s, steps[..n], staleCap)
  }

  /** How many attempts in a row were lost at the end: refused the lease, or their save. */
  function Lost(steps: seq<Step>): nat
    decreases |steps|
  {
    if steps == [] then 0
    else
      var n := |steps| - 1;
      if steps[n] == Save(HEARTBEAT) then 0
      else if steps[n] == AcquireFails(HEARTBEAT) || steps[n] == SaveFails(HEARTBEAT) then Lost(steps[..n]) + 1
      else Lost(steps[..n])
  }

  lemma {:induction false} RunsAppend(s: State, steps: seq<Step>, step: Step, staleCap: real)
    ensures Runs(s, steps + [step], staleCap)
            <==> Runs(s, steps, staleCap) && Enabled(Exec(s, steps, staleCap), step)
    ensures Runs(s, steps + [step], staleCap) ==>
              Exec(s, steps + [step], staleCap) == Apply(Exec(s, steps, staleCap), step, staleCap)
    decreases |steps|
  {
    hide Enabled, Apply;
    if steps == [] {
      assert [] + [step] == [step] && [step][1..] == [];
      if Enabled(s, step) {
        OneStep(s, step, staleCap);
      }
    } else {
      assert (steps + [step])[1..] == steps[1..] + [step];
      if Enabled(s, steps[0]) {
        RunsAppend(Apply(s, steps[0], staleCap), steps[1..], step, staleCap);
      }
    }
  }

  /** What the worker's side promises about the n-th step of a run: the one heartbeat
      begins its next attempt within the interval and loses no more than the misses
      allowed, its processes stay alive, and it neither stops nor finishes. */
  predicate Promised(pace: Pace, s: State, steps: seq<Step>, n: nat)
    requires n < |steps| && Runs(s, steps[..n], pace.staleCap)
  {
    match steps[n]
    case Acquire(a) => a.Reaper? || a == HEARTBEAT
    case AcquireFails(a) => a.Reaper? || (a == HEARTBEAT && Lost(steps[..n]) < pace.maxMisses)
    case SaveFails(a) => a.Reaper? || Lost(steps[..n]) < pace.maxMisses
    case Stamp(_, extra) => extra.Pid? ==> extra.n in pace.own
    case Tick(elapsed) =>
      Exec(s, steps[..n], pace.staleCap).now + elapsed <= LastBegun(s, steps[..n], pace.staleCap) + pace.interval
    case Process(alive) => pace.own <= alive
    case Join => false
    case Finish(_) => false
    case _ => true
  }

  predicate KeepsPace(pace: Pace, s: State, steps: seq<Step>) {
    forall n: nat :: n < |steps| ==> Runs(s, steps[..n], pace.staleCap) && Promised(pace, s, steps, n)
  }

  /** The bookkeeping of the timed run says what happened in the plain one. */
  ghost predicate Tells(pace: Pace, t: Timed, s: State, steps: seq<Step>) {
    && Runs(s, steps, pace.staleCap) && t.s == Exec(s, steps, pace.staleCap)
    && t.lastAttempt == LastBegun(s, steps, pace.staleCap) && t.misses == Lost(steps)
    && forall a :: a in t.s.phases && a.Beat? ==> a == HEARTBEAT
  }

  lemma TellsNext(pace: Pace, t: Timed, s: State, steps: seq<Step>, n: nat)
    requires n < |steps| && Tells(pace, t, s, steps[..n]) && Promised(pace, s, steps, n) && Enabled(t.s, steps[n])
    ensures Timely(pace, t, steps[n]) && Tells(pace, Advance(pace, t, steps[n]), s, steps[..n + 1])
  {
    hide Death, Exec, Runs, Enabled;
    var before, step := steps[..n], steps[n];
    assert steps[..n + 1] == before + [step] && steps[..n + 1][..n] == before;
    RunsAppend(s, before, step, pace.staleCap);
    EnabledActor(t.s, step);
  }

  /** Who saves, or fails to, is inside. */
  lemma EnabledActor(s: State, step: Step)
    requires Enabled(s, step)
    ensures step.Save? || step.SaveFails? || step.Load? || step.Stamp? || step.Judge? || step.Release? ==> step.a in s.phases
  {
  }

  lemma {:induction false} KeepsPaceIsTimely(pace: Pace, t: Timed, s: State, steps: seq<Step>, n: nat)
    requires n <= |steps| && Runs(s, steps, pace.staleCap) && KeepsPace(pace, s, steps)
    requires Tells(pace, t, s, steps[..n])
    ensures TimelyRuns(pace, t, steps[n..])
    ensures TimelyExec(pace, t, steps[n..]).s == Exec(s, steps, pace.staleCap)
    decreases |steps| - n
  {
    hide Timely, Advance, Tells, Promised, Enabled, Apply;
    if n < |steps| {
      RunsUpTo(s, steps, n, pace.staleCap);
      assert steps[n..][0] == steps[n] && steps[n..][1..] == steps[n + 1..];
      TellsState(pace, t, s, steps[..n]);
      TellsNext(pace, t, s, steps, n);
      KeepsPaceIsTimely(pace, Advance(pace, t, steps[n]), s, steps, n + 1);
    } else {
      assert steps[..n] == steps;
      TellsState(pace, t, s, steps);
    }
  }

  lemma TellsState(pace: Pace, t: Timed, s: State, steps: seq<Step>)
    requires Tells(pace, t, s, steps)
    ensures Runs(s, steps, pace.staleCap) && t.s == Exec(s, steps, pace.staleCap)
  {
  }

  lemma {:induction false} RunsUpTo(s: State, steps: seq<Step>, n: nat, staleCap: real)
    requires n < |steps| && Runs(s, steps, staleCap)
    ensures Runs(s, steps[..n], staleCap) && Enabled(Exec(s, steps[..n], staleCap), steps[n])
    decreases |steps|
  {
    hide Enabled, Apply;
    if n > 0 {
      assert steps[..n][1..] == steps[1..][..n - 1];
      RunsUpTo(Apply(s, steps[0], staleCap), steps[1..], n - 1, staleCap);
    }
  }

  /** In every run of the protocol from a record just claimed in which the worker's side
      keeps its pace, with (k + 1) intervals within the stale cap and at most k attempts in
      a row lost, whatever the pollers do, the job is still running at the end. */
  lemma PacedWorkerSurvives(pace: Pace, s: State, steps: seq<Step>)
    requires pace.interval >= 0.0 && (pace.maxMisses + 1) as real * pace.interval <= pace.staleCap
    requires Fresh(s) && s.record.value.heartbeatAt == Some(s.now) && pace.own <= s.alive && Own(pace, s.record.value)
    requires Runs(s, steps, pace.staleCap) && KeepsPace(pace, s, steps)
    ensures var end := Exec(s, steps, pace.staleCap);
            && end.record.Some? && end.record.value.status == Running && end.exits == 0
            && forall a :: a in end.phases ==> !end.phases[a].Condemned?
  {
    hide Promised, KeepsPace, Own;
    var t := Timed(s, s.now, s.now, 0);
    assert steps[..0] == [] && steps[0..] == steps;
    assert Tells(pace, t, s, steps[..0]);
    KeepsPaceIsTimely(pace, t, s, steps, 0);
    LiveWorkerIsNeverReaped(pace, t, steps);
  }
}
