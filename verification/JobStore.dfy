/** The job store's operations, in the source's form, over one directory of job
    records with a non-blocking lease per job. (engine/job_store.py) */
module JobStores {
  import opened Text
  import opened JobProtocol

  /** A job's file: a record, or a torn write that no longer parses. */
  type File = Option<Record>

  /** What a liveness check sees: the clock and the processes that are alive. */
  datatype Look = Look(now: real, alive: set<int>)

  function Readable(files: map<string, File>, id: string): Option<Record> {
    if id in files then files[id] else None
  }

  /** `reason or why`. */
  function Because(reason: Option<Why>, why: Why): Why {
    if reason.Some? then reason.value else why
  }

  /** The record a reap leaves: condemned only when the lease was free and the
      record, read again under it, still claims to run without a live worker. */
  function ReapOutcome(current: Option<Record>, leaseFree: bool, look: Look, ended: real,
                       reason: Option<Why>, staleCap: real): Option<Record>
  {
    if !leaseFree || current.None? || !current.value.IsRunning() then current
    else match Death(current.value, look.now, look.alive, staleCap)
         case None => current
         case Some(why) => Some(Reaped(current.value, Because(reason, why), ended))
  }

  /** The record a beat leaves. */
  function BeatOutcome(current: Option<Record>, leaseFree: bool, extra: PidField, now: real): Option<Record> {
    if leaseFree && current.Some? && current.value.IsRunning() then Some(Stamped(current.value, extra, now))
    else current
  }

  /** The files after `id` reads as `r`; a file that did not change is not written. */
  function Written(files: map<string, File>, id: string, r: Option<Record>): map<string, File> {
    if r == Readable(files, id) then files else files[id := r]
  }

  /** One job of a listing, newest first, with what its liveness check sees, what a
      reap sees when it reads again, when that ends, and whether its save succeeds. */
  datatype Listed = Listed(id: string, job: Record, look: Look, again: Look, ended: real, writable: bool)

  predicate ForKey(job: Record, taskId: string, workdir: string) {
    job.taskId == taskId && job.workdir == workdir && job.IsRunning()
  }

  function WhyDead(l: Listed, staleCap: real): Option<Why> {
    Death(l.job, l.look.now, l.look.alive, staleCap)
  }

  /** The first listed job for the key whose worker is alive. */
  function FirstLive(listing: seq<Listed>, taskId: string, workdir: string, staleCap: real): (k: nat)
    ensures k <= |listing|
    ensures k < |listing| ==> ForKey(listing[k].job, taskId, workdir) && WhyDead(listing[k], staleCap).None?
    ensures forall j :: 0 <= j < k && ForKey(listing[j].job, taskId, workdir) ==> WhyDead(listing[j], staleCap).Some?
    decreases |listing|
  {
    if listing == [] then 0
    else if ForKey(listing[0].job, taskId, workdir) && WhyDead(listing[0], staleCap).None? then 0
    else 1 + FirstLive(listing[1..], taskId, workdir, staleCap)
  }

  /** The files after every dead job for the key among the first `n` was reaped. */
  function SweptFiles(files: map<string, File>, leased: set<string>, listing: seq<Listed>, n: nat,
                      taskId: string, workdir: string, staleCap: real): map<string, File>
    requires n <= |listing|
  {
    if n == 0 then files
    else
      var before := SweptFiles(files, leased, listing, n - 1, taskId, workdir, staleCap);
      var l := listing[n - 1];
      if ForKey(l.job, taskId, workdir) && WhyDead(l, staleCap).Some? then
        Written(before, l.id,
                ReapOutcome(Readable(before, l.id), l.id !in leased, l.again, l.ended, WhyDead(l, staleCap), staleCap))
      else before
  }

  /** A reap under a free lease ends a running record exactly when its worker's process is
      gone or its heartbeat is too old; it then says the reason given, or else which of the
      two it was, and changes nothing else. */
  lemma ReapedIff(r: Record, look: Look, ended: real, reason: Option<Why>, staleCap: real)
    requires r.status == Running
    ensures var dead := WorkerGone(r, look.alive) || Silent(r, look.now, staleCap);
            var left := ReapOutcome(Some(r), true, look, ended, reason, staleCap);
            && left.Some? && (left.value.status == Error <==> dead) && (!dead ==> left.value == r)
            && (dead ==>
                  && left.value.finishedAt == Some(ended)
                  && left.value.error == (if reason.Some? then reason
                                          else if WorkerGone(r, look.alive) then Some(WorkerDied) else Some(StaleHeartbeat))
                  && left.value.(status := r.status, error := r.error, finishedAt := r.finishedAt) == r)
  {
    hide Death, WorkerGone, Silent;
    DeathIff(r, look.now, look.alive, staleCap);
  }

  /** A beat under a free lease stamps a running record with the time, and with the worker's
      process if it names one, and changes nothing else. */
  lemma BeatSays(r: Record, extra: PidField, now: real)
    requires r.status == Running
    ensures var left := BeatOutcome(Some(r), true, extra, now);
            && left.Some? && left.value.heartbeatAt == Some(now)
            && left.value.workerPid == (if extra == Absent then r.workerPid else extra)
            && left.value.(heartbeatAt := r.heartbeatAt, workerPid := r.workerPid) == r
    ensures BeatOutcome(Some(r), false, extra, now) == Some(r)
  {
  }

  /** A running record whose worker shows up: its process is not gone and it is not silent. */
  predicate Alive(l: Listed, staleCap: real) {
    l.job.status == Running && !WorkerGone(l.job, l.look.alive) && !Silent(l.job, l.look.now, staleCap)
  }

  /** What a search returns is listed for the key and alive, and no earlier one is both. */
  lemma FirstLiveIsAlive(listing: seq<Listed>, taskId: string, workdir: string, staleCap: real, k: nat)
    requires k < |listing|
    ensures FirstLive(listing, taskId, workdir, staleCap) == k
            <==> && listing[k].job.taskId == taskId && listing[k].job.workdir == workdir && Alive(listing[k], staleCap)
                 && forall j :: 0 <= j < k && listing[j].job.taskId == taskId && listing[j].job.workdir == workdir ==>
                      !Alive(listing[j], staleCap)
  {
    hide Death, WorkerGone, Silent;
    forall j | 0 <= j < |listing|
      ensures Alive(listing[j], staleCap) <==> listing[j].job.status == Running && WhyDead(listing[j], staleCap).None?
    {
      DeathIff(listing[j].job, listing[j].look.now, listing[j].look.alive, staleCap);
    }
  }

  class JobStore {
    var files: map<string, File>
    var leased: set<string>
    const staleCap: real

    constructor (cap: real)
      ensures files == map[] && leased == {} && staleCap == cap
    {
      files, leased, staleCap := map[], {}, cap;
    }

    method AcquireResumeLease(id: string) returns (ok: bool)
      modifies this`leased
      ensures ok <==> id !in old(leased)
      ensures leased == old(leased) + {id}
    {
      ok := id !in leased;
      leased := leased + {id};
    }

    method ReleaseResumeLease(id: string)
      modifies this`leased
      ensures leased == old(leased) - {id}
    {
      leased := leased - {id};
    }

    method LoadJob(id: string) returns (r: Option<Record>)
      ensures r == Readable(files, id)
    {
      r := if id in files then files[id] else None;
    }

    /** The write is one rename, so it happens whole or, when the disk refuses, not at all. */
    method SaveJob(id: string, r: Record, writable: bool) returns (saved: bool)
      modifies this`files
      ensures saved == writable
      ensures files == if saved then old(files)[id := Some(r)] else old(files)
    {
      saved := writable;
      if writable {
        files := files[id := Some(r)];
      }
    }

    /** Whatever happens the lease is as before, and only this job's record can
        change; a refused save leaves it as it was. */
    method ReapStaleJob(id: string, look: Look, ended: real, reason: Option<Why>, writable: bool)
      returns (r: Option<Record>, raised: bool)
      modifies this
      ensures leased == old(leased)
      ensures var outcome := ReapOutcome(old(Readable(files, id)), id !in old(leased), look, ended, reason, staleCap);
              && raised == (!writable && outcome != old(Readable(files, id)))
              && files == (if raised then old(files) else Written(old(files), id, outcome))
              && (!raised ==> r == outcome)
      ensures forall job :: old(Readable(files, id)) == Some(job) && job.status == Running
                            && id !in old(leased) && writable ==>
                && Readable(files, id).Some?
                && (Readable(files, id).value.status == Error
                    <==> WorkerGone(job, look.alive) || Silent(job, look.now, staleCap))
    {
      if Readable(files, id).Some? && Readable(files, id).value.status == Running {
        ReapedIff(Readable(files, id).value, look, ended, reason, staleCap);
      }
      raised := false;
      var ok := AcquireResumeLease(id);
      if !ok {
        r := LoadJob(id);
        return;
      }
      r := LoadJob(id);
      if r.Some? && r.value.IsRunning() {
        var death := Death(r.value, look.now, look.alive, staleCap);
        if death.Some? {
          r := Some(Reaped(r.value, Because(reason, death.value), ended));
          var saved := SaveJob(id, r.value, writable);
          raised := !saved;
        }
      }
      ReleaseResumeLease(id);
    }

    /** The newest live job for the key and nothing else is returned. What a reap
        reports is not consulted, so None means only that no listed job was live
        when its record was read. A save that is refused ends the search. */
    method FindRunningJob(taskId: string, workdir: string, listing: seq<Listed>, reap: bool)
      returns (found: Option<Record>, raised: bool)
      modifies this
      ensures leased == old(leased)
      ensures !raised ==>
                var k := FirstLive(listing, taskId, workdir, staleCap);
                && found == (if k < |listing| then Some(listing[k].job) else None)
                && files == (if reap then SweptFiles(old(files), leased, listing, k, taskId, workdir, staleCap)
                             else old(files))
      ensures raised ==>
                && reap && found.None?
                && exists j :: 0 <= j < FirstLive(listing, taskId, workdir, staleCap) && !listing[j].writable
                               && files == SweptFiles(old(files), leased, listing, j, taskId, workdir, staleCap)
    {
      var i := 0;
      raised := false;
      while i < |listing|
        invariant i <= |listing| && !raised
        invariant leased == old(leased)
        invariant FirstLive(listing, taskId, workdir, staleCap) == i + FirstLive(listing[i..], taskId, workdir, staleCap)
        invariant files == if reap then SweptFiles(old(files), leased, listing, i, taskId, workdir, staleCap)
                           else old(files)
      {
        var l := listing[i];
        assert listing[i..][0] == l && listing[i..][1..] == listing[i + 1..];
        if ForKey(l.job, taskId, workdir) {
          var why := Death(l.job, l.look.now, l.look.alive, staleCap);
          if why.None? {
            return Some(l.job), false;
          }
          if reap {
            var r, refused := ReapStaleJob(l.id, l.again, l.ended, why, l.writable);
            if refused {
              return None, true;
            }
          }
        }
        i := i + 1;
      }
      found := None;
    }
  }

  /** A running worker's heartbeat. */
  class JobHeartbeat {
    const id: string
    const store: JobStore
    const extra: PidField
    var beats: nat

    constructor (store: JobStore, id: string, extra: PidField)
      ensures this.store == store && this.id == id && this.extra == extra && beats == 0
    {
      this.store, this.id, this.extra := store, id, extra;
      beats := 0;
    }

    method Beat(now: real, writable: bool) returns (stamped: bool)
      modifies store
      ensures store.leased == old(store.leased)
      ensures stamped <==> && writable && id !in old(store.leased)
                           && old(Readable(store.files, id)).Some?
                           && old(Readable(store.files, id)).value.IsRunning()
      ensures !stamped ==> store.files == old(store.files)
      ensures stamped ==>
                store.files == old(store.files)[id := BeatOutcome(old(Readable(store.files, id)), true, extra, now)]
    {
      var ok := store.AcquireResumeLease(id);
      if !ok {
        return false;
      }
      var job := store.LoadJob(id);
      if job.None? || !job.value.IsRunning() {
        stamped := false;
      } else {
        stamped := store.SaveJob(id, Stamped(job.value, extra, now), writable);
      }
      store.ReleaseResumeLease(id);
    }

    /** The thread's loop: one attempt per wake-up until the stop is set. */
    method Run(wakes: seq<Wake>)
      modifies this`beats, store
      ensures store.leased == old(store.leased)
      ensures var landed := Landed(wakes, old(Readable(store.files, id)), id in old(store.leased));
              && beats == old(beats) + |landed|
              && store.files == StampedFiles(old(store.files), id, extra, landed)
    {
      hide Stamped, Landed, StampedFiles, Readable;
      var i := 0;
      ghost var files := store.files;
      ghost var taken := id in store.leased;
      ghost var landed: seq<real> := [];
      NothingStamped(files, id, extra);
      while i < |wakes| && !wakes[i].stopping
        invariant i <= |wakes|
        invariant store.leased == old(store.leased)
        invariant beats == old(beats) + |landed|
        invariant Landed(wakes, Readable(files, id), taken) == landed + Landed(wakes[i..], Readable(files, id), taken)
        invariant store.files == StampedFiles(files, id, extra, landed)
        invariant landed != [] ==> RunsIn(files, id)
      {
        StampedStillRuns(files, id, extra, landed);
        var stamped := Beat(wakes[i].now, wakes[i].writable);
        LandedStep(wakes, i, Readable(files, id), taken);
        if stamped {
          StampedAgain(files, id, extra, landed, wakes[i].now);
          beats := beats + 1;
          landed := landed + [wakes[i].now];
        }
        i := i + 1;
      }
      assert Landed(wakes[i..], Readable(files, id), taken) == [] && landed + [] == landed;
    }
  }

  predicate RunsIn(files: map<string, File>, id: string) {
    Readable(files, id).Some? && Readable(files, id).value.IsRunning()
  }

  /** The files after the beats that landed; each stamp replaces the one before. */
  function StampedFiles(files: map<string, File>, id: string, extra: PidField, landed: seq<real>): map<string, File> {
    if landed == [] || Readable(files, id).None? then files
    else files[id := Some(Stamped(Readable(files, id).value, extra, landed[|landed| - 1]))]
  }

  lemma NothingStamped(files: map<string, File>, id: string, extra: PidField)
    ensures StampedFiles(files, id, extra, []) == files
  {
  }

  lemma StampedStillRuns(files: map<string, File>, id: string, extra: PidField, landed: seq<real>)
    ensures RunsIn(StampedFiles(files, id, extra, landed), id) <==> RunsIn(files, id)
  {
  }

  lemma StampedAgain(files: map<string, File>, id: string, extra: PidField, landed: seq<real>, now: real)
    requires RunsIn(files, id)
    ensures var before := StampedFiles(files, id, extra, landed);
            before[id := BeatOutcome(Readable(before, id), true, extra, now)]
            == StampedFiles(files, id, extra, landed + [now])
  {
    hide Stamped;
    var before := StampedFiles(files, id, extra, landed);
    StampedStillRuns(files, id, extra, landed);
    if landed != [] {
      Restamped(Readable(files, id).value, extra, landed[|landed| - 1], now);
    }
    assert before[id := BeatOutcome(Readable(before, id), true, extra, now)]
        == files[id := BeatOutcome(Readable(before, id), true, extra, now)];
  }

  /** One wake-up of the heartbeat thread; another thread may have set the stop. */
  datatype Wake = Wake(stopping: bool, now: real, writable: bool)

  /** When each stamp of the loop is taken. */
  function Landed(wakes: seq<Wake>, start: Option<Record>, taken: bool): (times: seq<real>)
    ensures taken || start.None? || !start.value.IsRunning() ==> times == []
    ensures wakes == [] || wakes[0].stopping ==> times == []
    decreases |wakes|
  {
    if wakes == [] || wakes[0].stopping || taken || start.None? || !start.value.IsRunning() then []
    else (if wakes[0].writable then [wakes[0].now] else []) + Landed(wakes[1..], start, taken)
  }

  lemma LandedStep(wakes: seq<Wake>, i: nat, start: Option<Record>, taken: bool)
    requires i < |wakes| && !wakes[i].stopping
    ensures Landed(wakes[i..], start, taken)
            == (if wakes[i].writable && !taken && start.Some? && start.value.IsRunning() then [wakes[i].now] else [])
               + Landed(wakes[i + 1..], start, taken)
  {
    assert wakes[i..][0] == wakes[i] && wakes[i..][1..] == wakes[i + 1..];
  }

  /** A later stamp replaces an earlier one. */
  lemma Restamped(r: Record, extra: PidField, t0: real, t1: real)
    ensures Stamped(Stamped(r, extra, t0), extra, t1) == Stamped(r, extra, t1)
    ensures Stamped(r, extra, t1).status == r.status
  {
  }

  // ---- What a search means ----

  /** A search reaps nothing that is alive: a job whose worker is alive when its
      record is read again under the lease is left exactly as it was. */
  lemma {:induction false} SweepSparesTheLiving(files: map<string, File>, leased: set<string>, listing: seq<Listed>,
                                                n: nat, taskId: string, workdir: string, staleCap: real, id: string)
    requires n <= |listing|
    requires Readable(files, id).Some? && Readable(files, id).value.IsRunning()
    requires id in leased || forall j :: 0 <= j < n && listing[j].id == id ==>
               Death(Readable(files, id).value, listing[j].again.now, listing[j].again.alive, staleCap).None?
    ensures Readable(SweptFiles(files, leased, listing, n, taskId, workdir, staleCap), id) == Readable(files, id)
  {
    hide Death, ForKey, WhyDead, Reaped;
    if n > 0 {
      SweepSparesTheLiving(files, leased, listing, n - 1, taskId, workdir, staleCap, id);
    }
  }

  /** After a search that found nothing, every listed job for the key whose lease was
      free and whose worker was still dead when read again has ended. */
  lemma {:induction false} SweepEndsTheDead(files: map<string, File>, leased: set<string>, listing: seq<Listed>,
                                            n: nat, taskId: string, workdir: string, staleCap: real, j: nat)
    requires j < n <= |listing| && FirstLive(listing, taskId, workdir, staleCap) == |listing|
    requires ForKey(listing[j].job, taskId, workdir) && listing[j].id !in leased
    requires Readable(files, listing[j].id) == Some(listing[j].job)
    requires Death(listing[j].job, listing[j].again.now, listing[j].again.alive, staleCap).Some?
    ensures var after := Readable(SweptFiles(files, leased, listing, n, taskId, workdir, staleCap), listing[j].id);
            after.Some? && !after.value.IsRunning()
  {
    hide Death;
    var before := SweptFiles(files, leased, listing, n - 1, taskId, workdir, staleCap);
    SweepOnlyEnds(files, leased, listing, n - 1, taskId, workdir, staleCap, listing[j].id);
    if j < n - 1 {
      SweepEndsTheDead(files, leased, listing, n - 1, taskId, workdir, staleCap, j);
    }
  }

  /** A search changes a record only by ending it. */
  lemma {:induction false} SweepOnlyEnds(files: map<string, File>, leased: set<string>, listing: seq<Listed>,
                                         n: nat, taskId: string, workdir: string, staleCap: real, id: string)
    requires n <= |listing|
    ensures var was, left := Readable(files, id),
                             Readable(SweptFiles(files, leased, listing, n, taskId, workdir, staleCap), id);
            left == was || (was.Some? && was.value.IsRunning() && left.Some? && left.value.status == Error)
  {
    hide Death;
    if n > 0 {
      SweepOnlyEnds(files, leased, listing, n - 1, taskId, workdir, staleCap, id);
    }
  }

  // ---- The operations are runs of the protocol ----

  function ReapSteps(s: State, a: Actor, staleCap: real): seq<Step>
    requires s.record.Some?
  {
    if s.holder.Some? then [AcquireFails(a)]
    else if !s.record.value.IsRunning() then [Acquire(a), Load(a), Release(a)]
    else if Death(s.record.value, s.now, s.alive, staleCap).None? then [Acquire(a), Load(a), Judge(a), Release(a)]
    else [Acquire(a), Load(a), Judge(a), Save(a), Release(a)]
  }

  /** A reap that nobody interrupts is one run of the protocol's steps, and leaves
      the record the method leaves. */
  lemma ReapIsARun(s: State, id: nat, staleCap: real)
    requires s.record.Some? && Reaper(id) !in s.phases
    ensures var steps := ReapSteps(s, Reaper(id), staleCap);
            && Runs(s, steps, staleCap)
            && var end := Exec(s, steps, staleCap);
               && end.record == ReapOutcome(s.record, s.holder.None?, Look(s.now, s.alive), s.now, None, staleCap)
               && end.holder == s.holder && end.phases == s.phases
  {
    hide Death, Runs, Exec, Reaped;
    var a := Reaper(id);
    if s.holder.Some? {
      OneStep(s, AcquireFails(a), staleCap);
    } else {
      var s1 := Apply(s, Acquire(a), staleCap);
      var s2 := Apply(s1, Load(a), staleCap);
      if !s.record.value.IsRunning() {
        var s3 := Apply(s2, Release(a), staleCap);
        assert s3.phases == s.phases;
        OneStep(s2, Release(a), staleCap);
        RunCons(s1, Load(a), [Release(a)], staleCap);
        RunCons(s, Acquire(a), [Load(a)] + [Release(a)], staleCap);
        assert [Acquire(a)] + ([Load(a)] + [Release(a)]) == [Acquire(a), Load(a), Release(a)];
      } else {
        var s3 := Apply(s2, Judge(a), staleCap);
        var rest := if s3.phases[a].Done? then [Release(a)] else [Save(a)] + [Release(a)];
        JudgedRun(s3, a, staleCap);
        RunCons(s2, Judge(a), rest, staleCap);
        RunCons(s1, Load(a), [Judge(a)] + rest, staleCap);
        RunCons(s, Acquire(a), [Load(a)] + ([Judge(a)] + rest), staleCap);
        assert [Acquire(a)] + ([Load(a)] + ([Judge(a)] + rest)) == ReapSteps(s, a, staleCap);
        assert s3.phases - {a} == s.phases;
      }
    }
  }

  /** What is left of a reap once it has judged. */
  lemma JudgedRun(s: State, a: Actor, staleCap: real)
    requires a in s.phases && (s.phases[a].Done? || s.phases[a].Condemned?)
    ensures var rest := if s.phases[a].Done? then [Release(a)] else [Save(a)] + [Release(a)];
            && Runs(s, rest, staleCap)
            && var end := Exec(s, rest, staleCap);
               && end.holder.None? && end.phases == s.phases - {a}
               && end.record == (if s.phases[a].Done? then s.record
                                 else Some(Reaped(s.phases[a].seen, s.phases[a].why, s.now)))
  {
    hide Death, Reaped, Runs, Exec;
    if s.phases[a].Done? {
      OneStep(s, Release(a), staleCap);
    } else {
      var s' := Apply(s, Save(a), staleCap);
      OneStep(s', Release(a), staleCap);
      RunCons(s, Save(a), [Release(a)], staleCap);
      assert s'.phases - {a} == s.phases - {a};
    }
  }

  function BeatSteps(s: State, a: Actor, extra: PidField): seq<Step>
    requires s.record.Some?
  {
    if s.holder.Some? then [AcquireFails(a)]
    else if !s.record.value.IsRunning() then [Acquire(a), Load(a), Release(a)]
    else [Acquire(a), Load(a), Stamp(a, extra), Save(a), Release(a)]
  }

  /** What is left of a beat once it has read a running record. */
  lemma StampedRun(s: State, a: Actor, extra: PidField, staleCap: real)
    requires a.Beat? && a in s.phases && s.phases[a].Loaded? && s.phases[a].found.Some?
    requires s.phases[a].found.value.IsRunning()
    ensures var rest := [Stamp(a, extra)] + ([Save(a)] + [Release(a)]);
            && Runs(s, rest, staleCap)
            && var end := Exec(s, rest, staleCap);
               && end.holder.None? && end.phases == s.phases - {a} && end.beats == s.beats + 1
               && end.record == Some(Stamped(s.phases[a].found.value, extra, s.now))
  {
    hide Death, Stamped, Runs, Exec;
    var s1 := Apply(s, Stamp(a, extra), staleCap);
    var s2 := Apply(s1, Save(a), staleCap);
    OneStep(s2, Release(a), staleCap);
    RunCons(s1, Save(a), [Release(a)], staleCap);
    RunCons(s, Stamp(a, extra), [Save(a)] + [Release(a)], staleCap);
    assert s2.phases - {a} == s.phases - {a};
  }

  /** So is a beat; a beat that lands is counted once. */
  lemma BeatIsARun(s: State, id: nat, extra: PidField, staleCap: real)
    requires s.record.Some? && Beat(id) !in s.phases && !s.stopped
    ensures var steps := BeatSteps(s, Beat(id), extra);
            && Runs(s, steps, staleCap)
            && var end := Exec(s, steps, staleCap);
               && end.record == BeatOutcome(s.record, s.holder.None?, extra, s.now)
               && end.holder == s.holder && end.phases == s.phases
               && end.beats == s.beats + (if s.holder.None? && s.record.value.IsRunning() then 1 else 0)
  {
    hide Death, Stamped, Runs, Exec;
    var a := Beat(id);
    if s.holder.Some? {
      OneStep(s, AcquireFails(a), staleCap);
    } else {
      var s1 := Apply(s, Acquire(a), staleCap);
      var s2 := Apply(s1, Load(a), staleCap);
      if !s.record.value.IsRunning() {
        var s3 := Apply(s2, Release(a), staleCap);
        assert s3.phases == s.phases;
        OneStep(s2, Release(a), staleCap);
        RunCons(s1, Load(a), [Release(a)], staleCap);
        RunCons(s, Acquire(a), [Load(a)] + [Release(a)], staleCap);
        assert [Acquire(a)] + ([Load(a)] + [Release(a)]) == [Acquire(a), Load(a), Release(a)];
      } else {
        var rest := [Stamp(a, extra)] + ([Save(a)] + [Release(a)]);
        StampedRun(s2, a, extra, staleCap);
        RunCons(s1, Load(a), rest, staleCap);
        RunCons(s, Acquire(a), [Load(a)] + rest, staleCap);
        assert [Acquire(a)] + ([Load(a)] + rest) == BeatSteps(s, a, extra);
        assert s2.phases - {a} == s.phases;
      }
    }
  }
}
