/** The job record shared by pollers, dispatchers and a worker's heartbeat, as a
    state machine whose reads and writes are separate steps.
    (engine/job_store.py) */
module JobProtocol {
  import opened Text

  datatype Status = Running | Complete | Error

  /** A key of the record that may be missing, null or a number. */
  datatype PidField = Absent | Null | Pid(n: int)

  /** What a record's error says: why it was reaped, or what its worker reported. */
  datatype Why = NotRunning | WorkerDied | StaleHeartbeat | Reported(text: string)

  /** How a worker ends its own job. */
  datatype Outcome = Succeeded | Failed(text: string)

  datatype Record = Record(taskId: string, workdir: string, status: Status,
                           pid: PidField, workerPid: PidField, heartbeatAt: Option<real>,
                           error: Option<Why>, finishedAt: Option<real>)
  {
    predicate IsRunning() { status == Running }

    /** The worker's pid; a record without one falls back on the owner's. */
    function Worker(): PidField {
      if workerPid.Absent? then pid else workerPid
    }
  }

  function Max(a: real, b: real): real { if a < b then b else a }

  /** Why the worker of this record is not alive, or None when it is. The
      dispatcher is never evidence of life, and a missing heartbeat none of death. */
  function Death(r: Record, now: real, alive: set<int>, staleCap: real): Option<Why> {
    if !r.IsRunning() then Some(NotRunning)
    else if r.Worker().Pid? && r.Worker().n > 0 && r.Worker().n !in alive then Some(WorkerDied)
    else if r.heartbeatAt.Some? && Max(0.0, now - r.heartbeatAt.value) > staleCap then Some(StaleHeartbeat)
    else None
  }

  predicate WorkerIdentified(r: Record) {
    r.heartbeatAt.Some? || (r.Worker().Pid? && r.Worker().n > 0)
  }

  /** The process named as the worker, or as the owner when the worker's field is missing,
      is a process that does not exist. */
  predicate WorkerGone(r: Record, alive: set<int>) {
    match r.workerPid
    case Absent => (match r.pid case Pid(n) => n > 0 && n !in alive case _ => false)
    case Null => false
    case Pid(n) => n > 0 && n !in alive
  }

  /** The last heartbeat is older than the cap; one from the future is not old. */
  predicate Silent(r: Record, now: real, staleCap: real) {
    match r.heartbeatAt
    case None => false
    case Some(at) => now > at + staleCap || staleCap < 0.0
  }

  /** When a worker is dead, and why: its record no longer runs, its process is gone, or
      it is silent, whatever its process. */
  lemma DeathIff(r: Record, now: real, alive: set<int>, staleCap: real)
    ensures Death(r, now, alive, staleCap)
            == (if r.status != Running then Some(NotRunning)
                else if WorkerGone(r, alive) then Some(WorkerDied)
                else if Silent(r, now, staleCap) then Some(StaleHeartbeat) else None)
  {
  }

  /** The orphaned record, ended. */
  function Reaped(r: Record, why: Why, now: real): Record {
    r.(status := Error, error := Some(why), finishedAt := Some(now))
  }

  /** The record stamped by a beat; the heartbeat's extra fields may name the pid. */
  function Stamped(r: Record, extra: PidField, now: real): Record {
    r.(heartbeatAt := Some(now), workerPid := if extra.Absent? then r.workerPid else extra)
  }

  // ---- Actors and steps ----

  datatype Actor = Reaper(id: nat) | Beat(id: nat)

  /** Where an actor stands between taking the lease and giving it back. A reaper
      remembers how many beats had landed when it read, and what condemned the
      record; a beat remembers what it read. */
  datatype Phase =
    | Locked
    | Loaded(found: Option<Record>, beats: nat)
    | Condemned(seen: Record, beats: nat, at: real, alive: set<int>, why: Why)
    | Ready(seen: Record, stamped: Record)
    | Done

  datatype State = State(record: Option<Record>, holder: Option<Actor>, phases: map<Actor, Phase>,
                         now: real, alive: set<int>, stopped: bool, finished: bool,
                         beats: nat, exits: nat)

  datatype Step =
    | Acquire(a: Actor)
    | AcquireFails(a: Actor)
    | Load(a: Actor)
    | Judge(a: Actor)
    | Stamp(a: Actor, extra: PidField)
    | Save(a: Actor)
    | SaveFails(a: Actor)
    | Release(a: Actor)
    | Tick(elapsed: real)
    | Process(alive: set<int>)
    | Join
    | Finish(outcome: Outcome)

  predicate At(s: State, a: Actor) { a in s.phases }

  predicate HeartbeatsIdle(s: State) {
    forall a :: a in s.phases ==> a.Reaper?
  }

  /** What each actor may do next. A beat starts only until the heartbeat is
      stopped; the worker writes its own end once, after the heartbeat has joined. */
  predicate Enabled(s: State, step: Step) {
    match step
    case Acquire(a) => a !in s.phases && s.holder.None? && (a.Beat? ==> !s.stopped)
    case AcquireFails(a) => a !in s.phases && s.holder.Some? && (a.Beat? ==> !s.stopped)
    case Load(a) => a in s.phases && s.phases[a].Locked?
    case Judge(a) => a.Reaper? && a in s.phases && s.phases[a].Loaded? &&
                     s.phases[a].found.Some? && s.phases[a].found.value.IsRunning()
    case Stamp(a, _) => a.Beat? && a in s.phases && s.phases[a].Loaded? &&
                        s.phases[a].found.Some? && s.phases[a].found.value.IsRunning()
    case Save(a) => a in s.phases && (s.phases[a].Condemned? || s.phases[a].Ready?)
    case SaveFails(a) => a in s.phases && (s.phases[a].Condemned? || s.phases[a].Ready?)
    case Release(a) => a in s.phases &&
                       (s.phases[a].Done? ||
                        (s.phases[a].Loaded? && (s.phases[a].found.None? || !s.phases[a].found.value.IsRunning())))
    case Tick(elapsed) => elapsed >= 0.0
    case Process(_) => true
    case Join => HeartbeatsIdle(s)
    case Finish(_) => s.stopped && !s.finished && s.record.Some?
  }

  function Move(s: State, a: Actor, p: Phase): State {
    s.(phases := s.phases[a := p])
  }

  /** Write the record, counting when the status leaves `running`. */
  function Write(s: State, r: Record): State {
    s.(record := Some(r),
       exits := s.exits + (if s.record.Some? && s.record.value.IsRunning() && !r.IsRunning() then 1 else 0))
  }

  /** The worker's own end, whoever is inside the lease. */
  function FinishNow(s: State, outcome: Outcome): State
    requires s.record.Some?
  {
    var r := s.record.value.(finishedAt := Some(s.now));
    Write(s, match outcome
             case Succeeded => r.(status := Complete)
             case Failed(text) => r.(status := Error, error := Some(Reported(text)))).(finished := true)
  }

  function Apply(s: State, step: Step, staleCap: real): State
    requires Enabled(s, step)
  {
    match step
    case Acquire(a) => Move(s.(holder := Some(a)), a, Locked)
    case AcquireFails(a) => s
    case Load(a) => Move(s, a, Loaded(s.record, s.beats))
    case Judge(a) =>
      var seen := s.phases[a].found.value;
      (match Death(seen, s.now, s.alive, staleCap)
       case None => Move(s, a, Done)
       case Some(why) => Move(s, a, Condemned(seen, s.phases[a].beats, s.now, s.alive, why)))
    case Stamp(a, extra) => Move(s, a, Ready(s.phases[a].found.value, Stamped(s.phases[a].found.value, extra, s.now)))
    case Save(a) =>
      (match s.phases[a]
       case Condemned(seen, _, _, _, why) => Move(Write(s, Reaped(seen, why, s.now)), a, Done)
       case Ready(_, stamped) => Move(Write(s, stamped).(beats := s.beats + 1), a, Done))
    case SaveFails(a) => Move(s, a, Done)
    case Release(a) => s.(holder := None, phases := s.phases - {a})
    case Tick(elapsed) => s.(now := s.now + elapsed)
    case Process(alive) => s.(alive := alive)
    case Join => s.(stopped := true)
    case Finish(outcome) => FinishNow(s, outcome)
  }

  predicate Fresh(s: State) {
    && s.record.Some? && s.record.value.IsRunning() && s.holder.None? && s.phases == map[]
    && !s.stopped && !s.finished && s.beats == 0 && s.exits == 0
  }

  // ---- Safety in every interleaving ----

  /** Whoever is between taking the lease and giving it back holds it. */
  predicate OneHolder(s: State) {
    forall a :: a in s.phases ==> s.holder == Some(a)
  }

  predicate RecordIs(s: State, r: Record) { s.record == Some(r) }

  predicate Ended(s: State) { s.record.Some? && !s.record.value.IsRunning() }

  /** What an actor remembers is still so: for a beat the record has not moved
      since it was read, or had ended by then; for a reaper nothing but an end can have been written,
      and no beat has landed. */
  predicate PhaseOk(s: State, a: Actor, p: Phase, staleCap: real) {
    match p
    case Locked => true
    case Done => true
    case Loaded(found, beats) =>
      if a.Beat? then s.record == found || (Ended(s) && found.Some? && !found.value.IsRunning())
      else s.beats == beats && (s.record == found || Ended(s))
    case Condemned(seen, beats, at, alive, why) =>
      && a.Reaper? && s.beats == beats && seen.IsRunning() && (RecordIs(s, seen) || Ended(s))
      && Death(seen, at, alive, staleCap) == Some(why)
    case Ready(seen, stamped) => a.Beat? && RecordIs(s, seen) && seen.IsRunning() && stamped.IsRunning()
  }

  /** Everything the protocol keeps. */
  predicate Inv(s: State, staleCap: real) {
    && OneHolder(s)
    && (forall a :: a in s.phases ==> PhaseOk(s, a, s.phases[a], staleCap))
    && (s.stopped ==> HeartbeatsIdle(s))
    && s.record.Some? && s.exits == (if Ended(s) then 1 else 0)
  }

  lemma StepKeepsHolder(s: State, step: Step, staleCap: real)
    requires Inv(s, staleCap) && Enabled(s, step)
    ensures OneHolder(Apply(s, step, staleCap))
  {
    hide Death;
  }

  lemma StepKeepsPhases(s: State, step: Step, staleCap: real, a: Actor)
    requires Inv(s, staleCap) && Enabled(s, step)
    requires a in Apply(s, step, staleCap).phases
    ensures var s' := Apply(s, step, staleCap); PhaseOk(s', a, s'.phases[a], staleCap)
  {
    hide Death;
  }

  lemma StepKeepsInv(s: State, step: Step, staleCap: real)
    requires Inv(s, staleCap) && Enabled(s, step)
    ensures Inv(Apply(s, step, staleCap), staleCap)
  {
    hide Death;
    var s' := Apply(s, step, staleCap);
    StepKeepsHolder(s, step, staleCap);
    forall a | a in s'.phases ensures PhaseOk(s', a, s'.phases[a], staleCap) {
      StepKeepsPhases(s, step, staleCap, a);
    }
  }

  /** A record that has ended is never running again. */
  lemma StepNeverRevives(s: State, step: Step, staleCap: real)
    requires Inv(s, staleCap) && Enabled(s, step) && Ended(s)
    ensures Ended(Apply(s, step, staleCap))
  {
    hide Death;
  }

  /** A reap overwrites only a record whose worker was dead or stale when judged,
      or that has ended since; no heartbeat lands between its read and its write. */
  lemma ReapOverwritesOrphan(s: State, a: Actor, staleCap: real)
    requires Inv(s, staleCap) && a.Reaper? && Enabled(s, Save(a))
    ensures s.phases[a].Condemned? && s.holder == Some(a)
    ensures var p := s.phases[a];
            && s.beats == p.beats && (RecordIs(s, p.seen) || Ended(s))
            && Death(p.seen, p.at, p.alive, staleCap) == Some(p.why)
  {
    assert PhaseOk(s, a, s.phases[a], staleCap);
  }

  /** Once the heartbeat has joined no beat lands. */
  lemma StoppedMeansNoBeat(s: State, step: Step, staleCap: real)
    requires Inv(s, staleCap) && Enabled(s, step) && s.stopped
    ensures Apply(s, step, staleCap).beats == s.beats && Apply(s, step, staleCap).stopped
  {
    hide Death;
  }

  // ---- Whole runs ----

  /** Each step is enabled where it is taken. */
  predicate Runs(s: State, steps: seq<Step>, staleCap: real)
    decreases |steps|
  {
    steps == [] || (Enabled(s, steps[0]) && Runs(Apply(s, steps[0], staleCap), steps[1..], staleCap))
  }

  function Exec(s: State, steps: seq<Step>, staleCap: real): State
    requires Runs(s, steps, staleCap)
    decreases |steps|
  {
    if steps == [] then s else Exec(Apply(s, steps[0], staleCap), steps[1..], staleCap)
  }

  /** In every interleaving at most one actor holds the lease, the status leaves
      `running` at most once and for good, and no beat follows the join. */
  lemma {:induction false} RunsKeepInv(s: State, steps: seq<Step>, staleCap: real)
    requires Inv(s, staleCap) && Runs(s, steps, staleCap)
    ensures var end := Exec(s, steps, staleCap);
            && Inv(end, staleCap) && end.exits <= 1
            && (Ended(s) ==> Ended(end)) && s.exits <= end.exits
            && (s.stopped ==> end.stopped && end.beats == s.beats)
    decreases |steps|
  {
    hide Inv, Enabled, Apply;
    InvExits(s, staleCap);
    if steps != [] {
      var s' := Apply(s, steps[0], staleCap);
      StepKeepsInv(s, steps[0], staleCap);
      InvExits(s', staleCap);
      if Ended(s) {
        StepNeverRevives(s, steps[0], staleCap);
      }
      if s.stopped {
        StoppedMeansNoBeat(s, steps[0], staleCap);
      }
      RunsKeepInv(s', steps[1..], staleCap);
    }
  }

  lemma InvExits(s: State, staleCap: real)
    requires Inv(s, staleCap)
    ensures s.exits == if Ended(s) then 1 else 0
  {
  }

  lemma FreshKeepsInv(s: State, staleCap: real)
    requires Fresh(s)
    ensures Inv(s, staleCap)
  {
  }

  /** Two actors inside the lease are the same actor. */
  lemma AtMostOneInside(s: State, a: Actor, b: Actor, staleCap: real)
    requires Inv(s, staleCap) && a in s.phases && b in s.phases
    ensures a == b
  {
    assert s.holder == Some(a) && s.holder == Some(b);
  }

  // ---- What the join is for ----

  /** A beat that has read a running record and not yet saved. */
  predicate MidBeat(s: State, a: Actor) {
    && a.Beat? && a in s.phases
    && (s.phases[a].Ready? || (s.phases[a].Loaded? && s.phases[a].found.Some? && s.phases[a].found.value.IsRunning()))
  }

  ghost predicate CanRevive(s: State, staleCap: real) {
    exists steps: seq<Step> :: Runs(s, steps, staleCap) && !Ended(Exec(s, steps, staleCap))
  }

  /** Written without waiting for the heartbeat, as after a join that timed out, the end
      can be turned back to running exactly when a beat is between its read and its save. */
  lemma FinishIsSafeIff(s: State, outcome: Outcome, staleCap: real)
    requires Inv(s, staleCap) && s.record.value.IsRunning()
    ensures CanRevive(FinishNow(s, outcome), staleCap) <==> exists a :: MidBeat(s, a)
  {
    var t := FinishNow(s, outcome);
    if a :| MidBeat(s, a) {
      BeatRevives(s, outcome, staleCap, a);
    } else {
      QuietFinish(s, outcome, staleCap);
      forall steps: seq<Step> | Runs(t, steps, staleCap) ensures Ended(Exec(t, steps, staleCap)) {
        RunsKeepInv(t, steps, staleCap);
      }
    }
  }

  lemma BeatRevives(s: State, outcome: Outcome, staleCap: real, a: Actor)
    requires Inv(s, staleCap) && s.record.value.IsRunning() && MidBeat(s, a)
    ensures CanRevive(FinishNow(s, outcome), staleCap)
  {
    var t := FinishNow(s, outcome);
    assert PhaseOk(s, a, s.phases[a], staleCap);
    if s.phases[a].Ready? {
      SaveRevives(t, staleCap, a);
    } else {
      var step := Stamp(a, Absent);
      var t1 := Apply(t, step, staleCap);
      SaveRevives(t1, staleCap, a);
      var steps: seq<Step> :| Runs(t1, steps, staleCap) && !Ended(Exec(t1, steps, staleCap));
      RunCons(t, step, steps, staleCap);
    }
  }

  lemma RunCons(t: State, step: Step, steps: seq<Step>, staleCap: real)
    requires Enabled(t, step) && Runs(Apply(t, step, staleCap), steps, staleCap)
    ensures Runs(t, [step] + steps, staleCap)
    ensures Exec(t, [step] + steps, staleCap) == Exec(Apply(t, step, staleCap), steps, staleCap)
  {
    hide Enabled, Apply;
    assert ([step] + steps)[1..] == steps;
  }

  lemma SaveRevives(t: State, staleCap: real, a: Actor)
    requires a in t.phases && t.phases[a].Ready? && t.phases[a].stamped.IsRunning()
    ensures CanRevive(t, staleCap)
  {
    var steps := [Save(a)];
    var t' := Apply(t, Save(a), staleCap);
    assert steps[0] == Save(a) && steps[1..] == [];
    assert Runs(t', [], staleCap) && Exec(t', [], staleCap) == t';
    assert Runs(t, steps, staleCap);
    assert Exec(t, steps, staleCap) == t' && !Ended(t');
  }

  lemma QuietFinish(s: State, outcome: Outcome, staleCap: real)
    requires Inv(s, staleCap) && s.record.value.IsRunning()
    requires forall a :: !MidBeat(s, a)
    ensures Inv(FinishNow(s, outcome), staleCap) && Ended(FinishNow(s, outcome))
  {
    hide Death;
    var t := FinishNow(s, outcome);
    forall a | a in t.phases ensures PhaseOk(t, a, t.phases[a], staleCap) {
      assert PhaseOk(s, a, s.phases[a], staleCap) && !MidBeat(s, a);
    }
  }

  // ---- Whether the worker's outcome survives ----

  lemma OneStep(s: State, step: Step, staleCap: real)
    requires Enabled(s, step)
    ensures Runs(s, [step], staleCap) && Exec(s, [step], staleCap) == Apply(s, step, staleCap)
  {
    hide Enabled, Apply;
    var s' := Apply(s, step, staleCap);
    assert [step][0] == step && [step][1..] == [];
    assert Runs(s', [], staleCap) && Exec(s', [], staleCap) == s';
  }

  /** The record says what the worker wrote. */
  predicate Kept(s: State, outcome: Outcome) {
    && s.record.Some?
    && match outcome
       case Succeeded => s.record.value.status == Complete
       case Failed(text) => s.record.value.status == Error && s.record.value.error == Some(Reported(text))
  }

  /** A reaper that has condemned the record, or has read it running and identified, so
      that time or the end of its processes can still condemn it. */
  predicate MidReap(s: State, a: Actor) {
    && a.Reaper? && a in s.phases
    && (s.phases[a].Condemned? ||
        (s.phases[a].Loaded? && s.phases[a].found.Some? && s.phases[a].found.value.IsRunning()
         && WorkerIdentified(s.phases[a].found.value)))
  }

  ghost predicate CanLose(s: State, outcome: Outcome, staleCap: real) {
    exists steps: seq<Step> :: Runs(s, steps, staleCap) && !Kept(Exec(s, steps, staleCap), outcome)
  }

  /** The worker's outcome survives every interleaving exactly when nobody is between a
      read that still counts and a write: no beat that read the record running, and no
      reaper that has condemned it or may yet. Joining the heartbeat rules out only the
      first. */
  lemma FinishSurvivesIff(s: State, outcome: Outcome, staleCap: real)
    requires Inv(s, staleCap)
    ensures CanLose(FinishNow(s, outcome), outcome, staleCap) <==> exists a :: MidBeat(s, a) || MidReap(s, a)
  {
    hide MidBeat, MidReap, FinishNow, PhaseOk, OneHolder;
    var t := FinishNow(s, outcome);
    if a :| MidBeat(s, a) {
      BeatLoses(s, outcome, staleCap, a);
    } else if a :| MidReap(s, a) {
      ReapLoses(s, outcome, staleCap, a);
    } else {
      CalmFinish(s, outcome, staleCap);
      forall steps: seq<Step> | Runs(t, steps, staleCap) ensures Kept(Exec(t, steps, staleCap), outcome) {
        CalmRuns(t, outcome, steps, staleCap);
      }
    }
  }

  lemma BeatLoses(s: State, outcome: Outcome, staleCap: real, a: Actor)
    requires Inv(s, staleCap) && MidBeat(s, a)
    ensures CanLose(FinishNow(s, outcome), outcome, staleCap)
  {
    assert PhaseOk(s, a, s.phases[a], staleCap);
    BeatRevives(s, outcome, staleCap, a);
    var t := FinishNow(s, outcome);
    var steps: seq<Step> :| Runs(t, steps, staleCap) && !Ended(Exec(t, steps, staleCap));
    assert !Kept(Exec(t, steps, staleCap), outcome) by { KeptIsEnded(Exec(t, steps, staleCap), outcome); }
  }

  lemma KeptIsEnded(s: State, outcome: Outcome)
    ensures Kept(s, outcome) ==> Ended(s)
  {
  }

  /** How long until the heartbeat of `r` is stale. */
  function Wait(r: Record, now: real, staleCap: real): real {
    if r.heartbeatAt.Some? then Max(0.0, staleCap + r.heartbeatAt.value - now) + 1.0 else 0.0
  }

  /** Once its processes are gone and its heartbeat is stale, an identified worker is dead. */
  lemma DeadInTheEnd(r: Record, now: real, staleCap: real)
    requires r.IsRunning() && WorkerIdentified(r)
    ensures Wait(r, now, staleCap) >= 0.0 && Death(r, now + Wait(r, now, staleCap), {}, staleCap).Some?
    ensures !Death(r, now + Wait(r, now, staleCap), {}, staleCap).value.Reported?
  {
  }

  lemma NotIdentifiedNotDead(r: Record, now: real, alive: set<int>, staleCap: real)
    requires r.IsRunning() && !WorkerIdentified(r)
    ensures Death(r, now, alive, staleCap).None?
  {
  }

  lemma ReapLoses(s: State, outcome: Outcome, staleCap: real, a: Actor)
    requires Inv(s, staleCap) && MidReap(s, a)
    ensures CanLose(FinishNow(s, outcome), outcome, staleCap)
  {
    hide Death, Runs, Exec, PhaseOk, OneHolder;
    var t := FinishNow(s, outcome);
    if s.phases[a].Condemned? {
      VerdictOfReaper(s, staleCap, a);
      CondemnedSaves(t, outcome, staleCap, a);
    } else {
      LateReap(t, s.phases[a].found.value, outcome, staleCap, a);
    }
  }

  /** A reaper that has read `r` running and identified can still condemn and replace
      whatever stands by then. */
  lemma LateReap(t: State, r: Record, outcome: Outcome, staleCap: real, a: Actor)
    requires a.Reaper? && a in t.phases && t.phases[a].Loaded? && t.phases[a].found == Some(r)
    requires r.IsRunning() && WorkerIdentified(r)
    ensures var steps := [Process({}), Tick(Wait(r, t.now, staleCap)), Judge(a), Save(a)];
            && Runs(t, steps, staleCap) && !Kept(Exec(t, steps, staleCap), outcome)
            && Exec(t, steps, staleCap).record.Some? && Exec(t, steps, staleCap).record.value.status == Error
  {
    hide Death, Runs, Exec;
    var wait := Wait(r, t.now, staleCap);
    DeadInTheEnd(r, t.now, staleCap);
    var t1 := Apply(t, Process({}), staleCap);
    var t2 := Apply(t1, Tick(wait), staleCap);
    var t3 := Apply(t2, Judge(a), staleCap);
    CondemnedSaves(t3, outcome, staleCap, a);
    RunCons(t2, Judge(a), [Save(a)], staleCap);
    RunCons(t1, Tick(wait), [Judge(a)] + [Save(a)], staleCap);
    RunCons(t, Process({}), [Tick(wait)] + ([Judge(a)] + [Save(a)]), staleCap);
    assert [Process({})] + ([Tick(wait)] + ([Judge(a)] + [Save(a)])) == [Process({}), Tick(wait), Judge(a), Save(a)];
  }

  /** What a reaper writes is never what a worker reported. */
  lemma VerdictOfReaper(s: State, staleCap: real, a: Actor)
    requires Inv(s, staleCap) && a in s.phases && s.phases[a].Condemned?
    ensures !s.phases[a].why.Reported?
  {
    assert PhaseOk(s, a, s.phases[a], staleCap);
  }

  lemma CondemnedSaves(t: State, outcome: Outcome, staleCap: real, a: Actor)
    requires a in t.phases && t.phases[a].Condemned? && !t.phases[a].why.Reported?
    ensures Runs(t, [Save(a)], staleCap) && !Kept(Exec(t, [Save(a)], staleCap), outcome)
    ensures Exec(t, [Save(a)], staleCap).record.Some? && Exec(t, [Save(a)], staleCap).record.value.status == Error
  {
    hide Runs, Exec;
    OneStep(t, Save(a), staleCap);
  }

  /** The outcome is written and nobody is about to overwrite it. */
  ghost predicate Calm(s: State, outcome: Outcome, staleCap: real) {
    && Inv(s, staleCap) && s.finished && Kept(s, outcome)
    && forall a :: a in s.phases ==> !MidBeat(s, a) && !MidReap(s, a)
  }

  lemma CalmFinish(s: State, outcome: Outcome, staleCap: real)
    requires Inv(s, staleCap) && forall a :: !MidBeat(s, a) && !MidReap(s, a)
    ensures Calm(FinishNow(s, outcome), outcome, staleCap)
  {
    hide Death, WorkerIdentified;
    var t := FinishNow(s, outcome);
    forall a | a in t.phases
      ensures PhaseOk(t, a, t.phases[a], staleCap) && !MidBeat(t, a) && !MidReap(t, a)
    {
      assert PhaseOk(s, a, s.phases[a], staleCap) && !MidBeat(s, a) && !MidReap(s, a);
    }
  }

  lemma CalmStep(s: State, outcome: Outcome, step: Step, staleCap: real)
    requires Calm(s, outcome, staleCap) && Enabled(s, step)
    ensures Calm(Apply(s, step, staleCap), outcome, staleCap)
  {
    hide Death, WorkerIdentified;
    var s' := Apply(s, step, staleCap);
    StepKeepsInv(s, step, staleCap);
    CalmWriter(s, outcome, step, staleCap);
    assert Kept(s', outcome);
    forall a | a in s'.phases ensures !MidBeat(s', a) && !MidReap(s', a) {
      CalmActor(s, outcome, step, staleCap, a);
    }
  }

  /** Nobody can save while the state is calm. */
  lemma CalmWriter(s: State, outcome: Outcome, step: Step, staleCap: real)
    requires Calm(s, outcome, staleCap) && Enabled(s, step)
    ensures !step.Save? && !step.SaveFails? && !step.Stamp? && !step.Finish?
  {
    hide Death, WorkerIdentified;
    if step.Save? || step.SaveFails? || step.Stamp? {
      CalmPhase(s, outcome, staleCap, step.a);
    }
  }

  lemma CalmPhase(s: State, outcome: Outcome, staleCap: real, a: Actor)
    requires Calm(s, outcome, staleCap) && a in s.phases
    ensures var p := s.phases[a];
            && !p.Condemned? && !p.Ready?
            && (p.Loaded? && p.found.Some? && p.found.value.IsRunning() ==> a.Reaper?)
  {
    hide Death, WorkerIdentified;
    assert PhaseOk(s, a, s.phases[a], staleCap) && !MidBeat(s, a) && !MidReap(s, a);
  }

  lemma CalmActor(s: State, outcome: Outcome, step: Step, staleCap: real, a: Actor)
    requires Calm(s, outcome, staleCap) && Enabled(s, step) && a in Apply(s, step, staleCap).phases
    ensures !MidBeat(Apply(s, step, staleCap), a) && !MidReap(Apply(s, step, staleCap), a)
  {
    hide Death, WorkerIdentified, Inv;
    CalmWriter(s, outcome, step, staleCap);
    if a in s.phases {
      assert !MidBeat(s, a) && !MidReap(s, a);
    }
    if step.Judge? && step.a == a {
      NotIdentifiedNotDead(s.phases[a].found.value, s.now, s.alive, staleCap);
    }
  }

  lemma {:induction false} CalmRuns(s: State, outcome: Outcome, steps: seq<Step>, staleCap: real)
    requires Calm(s, outcome, staleCap) && Runs(s, steps, staleCap)
    ensures Kept(Exec(s, steps, staleCap), outcome)
    decreases |steps|
  {
    hide Enabled, Apply, Kept, Inv;
    if steps != [] {
      CalmStep(s, outcome, steps[0], staleCap);
      CalmRuns(Apply(s, steps[0], staleCap), outcome, steps[1..], staleCap);
    }
  }

  /** A poller has read the record running; the worker joins its heartbeat, writes its
      outcome and exits; the poller then finds the worker of the record it has read dead. */
  function LossySteps(r: Record, outcome: Outcome, now: real, staleCap: real): seq<Step> {
    var a := Reaper(0);
    [Acquire(a), Load(a), Join, Finish(outcome), Process({}), Tick(Wait(r, now, staleCap)), Judge(a), Save(a)]
  }

  /** Joining the heartbeat first does not save the outcome, even of a worker that lives
      until it has written it. */
  lemma JoinIsNotEnough(s: State, outcome: Outcome, staleCap: real)
    requires Fresh(s) && WorkerIdentified(s.record.value)
    ensures var steps := LossySteps(s.record.value, outcome, s.now, staleCap);
            && Runs(s, steps, staleCap) && !Kept(Exec(s, steps, staleCap), outcome)
            && Exec(s, steps, staleCap).record.Some? && Exec(s, steps, staleCap).record.value.status == Error
  {
    hide Death, Runs, Exec, Kept;
    var r, a := s.record.value, Reaper(0);
    var s1 := Apply(s, Acquire(a), staleCap);
    var s2 := Apply(s1, Load(a), staleCap);
    var s3 := Apply(s2, Join, staleCap);
    var s4 := Apply(s3, Finish(outcome), staleCap);
    var tail := [Process({}), Tick(Wait(r, s.now, staleCap)), Judge(a), Save(a)];
    LateReap(s4, r, outcome, staleCap, a);
    RunCons(s3, Finish(outcome), tail, staleCap);
    RunCons(s2, Join, [Finish(outcome)] + tail, staleCap);
    RunCons(s1, Load(a), [Join] + ([Finish(outcome)] + tail), staleCap);
    RunCons(s, Acquire(a), [Load(a)] + ([Join] + ([Finish(outcome)] + tail)), staleCap);
    assert [Acquire(a)] + ([Load(a)] + ([Join] + ([Finish(outcome)] + tail)))
        == LossySteps(r, outcome, s.now, staleCap);
  }
}
