/**
 The worker's reads, device calls and row updates one by one, with the API's
 writes and other device calls in between. A tick is one way to put them in order.
 */
module ScheduleSplit {
  import opened Devices
  import opened Simulators
  import opened ScheduleSteps
  import opened ScheduleTheorems

  /** Where the worker is: it has read a job's hotspot, or a device has accepted what is still to be recorded. */
  datatype Worker =
    | Idle
    | HasRead(h: nat, row: HotspotRow)
    | Recording(h: nat, multiplier: int)

  datatype State = State(world: World, worker: Worker)

  /** The answers of the two queries may be old, so a rate call may carry any multiplier. */
  datatype Step =
    | ReadHotspot(h: nat)
    | CallConfig(rx: int, tx: int, uptimeLimit: int, fails: bool)
    | CallRate(job: RateJob, failed: bool)
    | Record
    | SkipJob
    | MarkJob(j: nat, status: JobStatus)
    | Between(event: Event)

  ghost predicate Enabled(s: State, step: Step) {
    match step
    case ReadHotspot(h) => s.worker.Idle? && h < |s.world.hotspots|
    case CallConfig(_, _, _, _) => s.worker.HasRead?
    case CallRate(job, _) => s.worker.Idle? && JobFits(s.world.hotspots, job)
    case Record => s.worker.Recording? && s.worker.h < |s.world.hotspots|
    case SkipJob => s.worker.HasRead?
    case MarkJob(j, _) => j < |s.world.jobs|
    case Between(e) => !e.Tick? && Allowed(s.world, e)
  }

  ghost function Do(s: State, step: Step): State
    requires Enabled(s, step)
  {
    var w := s.world;
    match step
    case ReadHotspot(h) => State(w, HasRead(h, w.hotspots[h]))
    case CallConfig(rx, tx, uptimeLimit, fails) =>
      var row := s.worker.row;
      var reply := MemoryCall(w.devices, ApplyHotspotConfig(row.router, row.name, rx, tx, uptimeLimit));
      var called := w.(calls := w.calls + 1);
      if fails || reply.1 != Accepted then State(called, Idle)
      else State(called.(devices := reply.0), Recording(s.worker.h, row.applied))
    case CallRate(job, failed) =>
      var reply := MemoryCall(w.devices, ApplyRateMultiplier(job.router, job.name, Times(job.multiplier)));
      var called := w.(calls := w.calls + 1, rateCalls := w.rateCalls + 1);
      if failed || reply.1 != Accepted then State(called, Idle)
      else State(called.(devices := reply.0), Recording(job.hotspot, job.multiplier))
    case Record => State(w.(hotspots := SetConfigured(w.hotspots, s.worker.h, s.worker.multiplier)), Idle)
    case SkipJob => State(w, Idle)
    case MarkJob(j, status) => s.(world := w.(jobs := SetJob(w.jobs, j, status)))
    case Between(e) => s.(world := Apply(w, e))
  }

  ghost predicate AllEnabled(s: State, steps: seq<Step>)
    decreases |steps|, 0
  {
    steps == [] || (AllEnabled(s, steps[..|steps| - 1]) &&
                    Enabled(AfterSteps(s, steps[..|steps| - 1]), steps[|steps| - 1]))
  }

  ghost function AfterSteps(s: State, steps: seq<Step>): State
    requires AllEnabled(s, steps)
    decreases |steps|, 1
  {
    if steps == [] then s else Do(AfterSteps(s, steps[..|steps| - 1]), steps[|steps| - 1])
  }

  // ---- What every step keeps ----

  /** The multiplier that the device of a hotspot has: the recorded one, or the one about to be recorded. */
  function Expected(s: State, h: nat): int
    requires h < |s.world.hotspots|
  {
    if s.worker.Recording? && s.worker.h == h then s.worker.multiplier else s.world.hotspots[h].applied
  }

  /** The world as it will be once the accepted multiplier is recorded. */
  function Recorded(s: State): World {
    var w := s.world;
    if s.worker.Recording? && s.worker.h < |w.hotspots|
    then w.(hotspots := w.hotspots[s.worker.h := w.hotspots[s.worker.h].(applied := s.worker.multiplier)]) else w
  }

  /** What the worker has read is outdated in profile and status at most. */
  ghost predicate WorkerOk(s: State) {
    match s.worker
    case Idle => true
    case HasRead(h, row) =>
      h < |s.world.hotspots| &&
      row == s.world.hotspots[h].(profile := row.profile, status := row.status)
    case Recording(h, _) => h < |s.world.hotspots|
  }

  ghost predicate SplitGood(s: State) {
    Good(Recorded(s)) && WorkerOk(s)
  }

  lemma CallConfigKeepsGood(s: State, step: Step)
    requires SplitGood(s) && step.CallConfig? && Enabled(s, step)
    ensures SplitGood(Do(s, step))
  {
    var w, row := s.world, s.worker.row;
    ConfigCall(w.devices, row.router, row.name, step.rx, step.tx, step.uptimeLimit);
    hide MemoryCall, OnDevice, Knows, WithMultiplier;
    var s' := Do(s, step);
    if s'.worker.Recording? {
      assert Recorded(s').hotspots == w.hotspots;
      forall r, n | Knows(s'.world.devices, r, n)
        ensures exists g :: 0 <= g < |w.hotspots| && Is(w.hotspots[g], r, n)
      {
        if !Knows(w.devices, r, n) {
          assert Is(w.hotspots[s.worker.h], r, n);
        }
      }
    }
  }

  lemma CallRateKeepsGood(s: State, step: Step)
    requires SplitGood(s) && step.CallRate? && Enabled(s, step)
    ensures SplitGood(Do(s, step))
  {
    hide MemoryCall, Good, Times;
    var w, s' := s.world, Do(s, step);
    var fails: Failures := (n, router) => step.failed;
    RateKeepsGood(w, step.job, fails);
    if s'.worker.Recording? {
      RowsKeepGood(ApplyRate(w, step.job, fails), Recorded(s'));
    } else {
      assert ApplyRate(w, step.job, fails) == s'.world;
    }
  }

  lemma RecordKeepsGood(s: State)
    requires SplitGood(s) && Enabled(s, Record)
    ensures SplitGood(Do(s, Record))
  {
    hide Good;
    RowsKeepGood(Recorded(s), Do(s, Record).world);
  }

  lemma BetweenKeepsGood(s: State, e: Event)
    requires SplitGood(s) && Enabled(s, Between(e))
    ensures SplitGood(Do(s, Between(e)))
  {
    AllowedAnyway(s, e);
    EventKeepsGood(Recorded(s), e);
    hide Good, MemoryCall, Allowed;
    SameEitherWay(s, e);
  }

  lemma AllowedAnyway(s: State, e: Event)
    requires WorkerOk(s) && !e.Tick? && Allowed(s.world, e)
    ensures Allowed(Recorded(s), e)
  {
    hide Playable;
  }

  /** What happens in between does not mind whether the multiplier is recorded before or after. */
  lemma SameEitherWay(s: State, e: Event)
    requires WorkerOk(s) && !e.Tick? && Allowed(s.world, e) && Allowed(Recorded(s), e)
    ensures Recorded(Do(s, Between(e))) == Apply(Recorded(s), e) && WorkerOk(Do(s, Between(e)))
  {
    hide MemoryCall, Playable;
    var a, b := Recorded(Do(s, Between(e))), Apply(Recorded(s), e);
    assert a.hotspots == b.hotspots;
  }

  lemma StepKeepsGood(s: State, step: Step)
    requires SplitGood(s) && Enabled(s, step)
    ensures SplitGood(Do(s, step))
  {
    match step
    case CallConfig(_, _, _, _) => CallConfigKeepsGood(s, step);
    case CallRate(_, _) => CallRateKeepsGood(s, step);
    case Record => RecordKeepsGood(s);
    case Between(e) => BetweenKeepsGood(s, e);
    case MarkJob(j, status) =>
      hide NamesDistinct, Synced, Backed, RatesOk, WindowsFit;
    case ReadHotspot(h) =>
    case SkipJob =>
  }

  lemma StartIsGood()
    ensures SplitGood(State(START, Idle))
  {
  }

  /**
   However API writes and device calls come between the worker's calls and
   updates, and whatever calls fail, each device has the recorded multiplier, or
   the one that the worker is about to record.
   */
  lemma {:induction false} RecordedOrAboutToBe(steps: seq<Step>)
    requires AllEnabled(State(START, Idle), steps)
    ensures SplitGood(AfterSteps(State(START, Idle), steps))
    ensures var s := AfterSteps(State(START, Idle), steps);
            forall h :: 0 <= h < |s.world.hotspots| ==>
              OnDevice(s.world.devices, s.world.hotspots[h].router, s.world.hotspots[h].name) == Times(Expected(s, h))
  {
    hide SplitGood, Do, Enabled;
    if steps == [] {
      StartIsGood();
    } else {
      RecordedOrAboutToBe(steps[..|steps| - 1]);
      StepKeepsGood(AfterSteps(State(START, Idle), steps[..|steps| - 1]), steps[|steps| - 1]);
    }
    GoodIsExpected(AfterSteps(State(START, Idle), steps));
  }

  lemma GoodIsExpected(s: State)
    requires SplitGood(s)
    ensures forall h :: 0 <= h < |s.world.hotspots| ==>
              OnDevice(s.world.devices, s.world.hotspots[h].router, s.world.hotspots[h].name) == Times(Expected(s, h))
  {
    hide OnDevice, Times;
    var w := Recorded(s);
    forall h | 0 <= h < |s.world.hotspots|
      ensures OnDevice(s.world.devices, s.world.hotspots[h].router, s.world.hotspots[h].name) == Times(Expected(s, h))
    {
      assert w.hotspots[h] == s.world.hotspots[h].(applied := Expected(s, h));
    }
  }

  // ---- A tick is such a run ----

  lemma {:induction false} StepsAppend(s: State, a: seq<Step>, b: seq<Step>)
    requires AllEnabled(s, a) && AllEnabled(AfterSteps(s, a), b)
    ensures AllEnabled(s, a + b) && AfterSteps(s, a + b) == AfterSteps(AfterSteps(s, a), b)
    decreases |b|
  {
    hide Do, Enabled;
    if b == [] {
      assert a + b == a;
    } else {
      StepsAppend(s, a, b[..|b| - 1]);
      assert (a + b)[..|a + b| - 1] == a + b[..|b| - 1];
    }
  }

  lemma OneStep(s: State, step: Step)
    requires Enabled(s, step)
    ensures AllEnabled(s, [step]) && AfterSteps(s, [step]) == Do(s, step)
  {
    hide Do, Enabled;
    assert [step][..0] == [];
    assert AllEnabled(s, []) && AfterSteps(s, []) == s;
  }

  lemma TwoSteps(s: State, a: Step, b: Step)
    requires Enabled(s, a) && Enabled(Do(s, a), b)
    ensures AllEnabled(s, [a, b]) && AfterSteps(s, [a, b]) == Do(Do(s, a), b)
  {
    hide Do, Enabled, AllEnabled, AfterSteps;
    OneStep(s, a);
    OneStep(Do(s, a), b);
    StepsAppend(s, [a], [b]);
    assert [a] + [b] == [a, b];
  }

  /** One turn of the rate loops: the call and, if it is accepted, the update. */
  lemma RateIsSteps(w: World, job: RateJob, fails: Failures) returns (steps: seq<Step>)
    requires JobFits(w.hotspots, job)
    ensures AllEnabled(State(w, Idle), steps)
    ensures AfterSteps(State(w, Idle), steps) == State(ApplyRate(w, job, fails), Idle)
  {
    hide MemoryCall, AllEnabled, AfterSteps;
    var s, call := State(w, Idle), CallRate(job, fails(w.calls, job.router));
    if Do(s, call).worker.Recording? {
      TwoSteps(s, call, Record);
      return [call, Record];
    } else {
      OneStep(s, call);
      return [call];
    }
  }

  /** One turn of the job loop: read, perhaps call, mark the job, perhaps update. */
  lemma JobIsSteps(w: World, j: nat, fails: Failures) returns (steps: seq<Step>)
    requires j < |w.jobs|
    ensures AllEnabled(State(w, Idle), steps)
    ensures AfterSteps(State(w, Idle), steps) == State(RunJob(w, j, fails), Idle)
  {
    hide MemoryCall, AllEnabled, AfterSteps;
    var s, h := State(w, Idle), w.jobs[j].hotspot;
    if h >= |w.hotspots| || w.hotspots[h].tenant != w.jobs[j].tenant {
      NoSteps(s);
      return [];
    }
    var hs := w.hotspots[h];
    var s1 := Do(s, ReadHotspot(h));
    if hs.profile !in w.profiles || w.profiles[hs.profile].tenant != hs.tenant {
      TwoSteps(s, ReadHotspot(h), SkipJob);
      OneStep(Do(s1, SkipJob), MarkJob(j, JobStatus.Failed));
      StepsAppend(s, [ReadHotspot(h), SkipJob], [MarkJob(j, JobStatus.Failed)]);
      return [ReadHotspot(h), SkipJob] + [MarkJob(j, JobStatus.Failed)];
    }
    var p := w.profiles[hs.profile];
    var call := CallConfig(p.rx, p.tx, p.uptimeLimit, fails(w.calls, hs.router));
    TwoSteps(s, ReadHotspot(h), call);
    var s2 := Do(s1, call);
    if s2.worker.Recording? {
      TwoSteps(s2, MarkJob(j, JobStatus.Done), Record);
      StepsAppend(s, [ReadHotspot(h), call], [MarkJob(j, JobStatus.Done), Record]);
      return [ReadHotspot(h), call] + [MarkJob(j, JobStatus.Done), Record];
    } else {
      OneStep(s2, MarkJob(j, JobStatus.Failed));
      StepsAppend(s, [ReadHotspot(h), call], [MarkJob(j, JobStatus.Failed)]);
      return [ReadHotspot(h), call] + [MarkJob(j, JobStatus.Failed)];
    }
  }

  lemma NoSteps(s: State)
    ensures AllEnabled(s, []) && AfterSteps(s, []) == s
  {
  }

  lemma {:induction false} JobsAreSteps(w: World, js: seq<nat>, fails: Failures) returns (steps: seq<Step>)
    requires forall i :: 0 <= i < |js| ==> js[i] < |w.jobs|
    ensures AllEnabled(State(w, Idle), steps)
    ensures AfterSteps(State(w, Idle), steps) == State(RunJobs(w, js, fails), Idle)
  {
    hide RunJob, AllEnabled, AfterSteps;
    if js == [] {
      NoSteps(State(w, Idle));
      steps := [];
    } else {
      var n := |js| - 1;
      var before := JobsAreSteps(w, js[..n], fails);
      var last := JobIsSteps(RunJobs(w, js[..n], fails), js[n], fails);
      StepsAppend(State(w, Idle), before, last);
      steps := before + last;
    }
  }

  lemma {:induction false} RatesAreSteps(w: World, js: seq<RateJob>, fails: Failures) returns (steps: seq<Step>)
    requires Good(w) && AllFit(w.hotspots, js)
    ensures AllEnabled(State(w, Idle), steps)
    ensures AfterSteps(State(w, Idle), steps) == State(ApplyRates(w, js, fails), Idle)
  {
    hide Good, ApplyRate, AllEnabled, AfterSteps, StaysOn, RowAfter;
    if js == [] {
      NoSteps(State(w, Idle));
      steps := [];
    } else {
      var n := |js| - 1;
      assert js == js[..n] + [js[n]] && forall i :: 0 <= i < n ==> js[..n][i] == js[i];
      var before := RatesAreSteps(w, js[..n], fails);
      RatesKeepGood(w, js[..n], fails);
      var mid := ApplyRates(w, js[..n], fails);
      assert JobFits(mid.hotspots, js[n]);
      var last := RateIsSteps(mid, js[n], fails);
      StepsAppend(State(w, Idle), before, last);
      steps := before + last;
    }
  }

  /** Every tick is a run of these steps with nothing in between. */
  lemma TickIsSteps(w: World, t: TickChoice) returns (steps: seq<Step>)
    requires Good(w) && TickOk(w, t)
    ensures AllEnabled(State(w, Idle), steps)
    ensures AfterSteps(State(w, Idle), steps) == State(AfterTick(w, t), Idle)
  {
    TickParts(w, t);
    PendingInOrder(w.jobs, 0);
    var jobs := JobsAreSteps(w, PendingJobs(w.jobs, 20), t.fails);
    var w1, w2 := AfterJobs(w, t), AfterStarts(w, t);
    hide Good, RunJobs, ApplyRates, AllEnabled, AfterSteps, StaysOn, RowAfter, Starts, Ends, PendingJobs;
    StartsFit(w1.hotspots, w1.windows, t.startNow, t.starts);
    var starts := RatesAreSteps(w1, t.starts, t.fails);
    EndsFit(w2.hotspots, w2.windows, t.endNow, t.ends);
    var ends := RatesAreSteps(w2, t.ends, t.fails);
    StepsAppend(State(w, Idle), jobs, starts);
    StepsAppend(State(w, Idle), jobs + starts, ends);
    steps := jobs + starts + ends;
  }
}
