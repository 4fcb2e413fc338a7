/** From a new or changed hotspot to its device: what one tick makes of a queued configuration. */
module ScheduleConfigured {
  import opened DeviceRates
  import opened Simulators
  import opened ScheduleSteps
  import opened ScheduleTheorems
  import opened ScheduleJobs

  /** The hotspot is in service on a router that is online, with its profile's base rates and limit. */
  ghost predicate InService(w: World, h: nat) {
    && h < |w.hotspots| && w.hotspots[h].status == Active && ProfileFound(w, w.hotspots[h]) && Reachable(w, h)
    && var row := w.hotspots[h];
       var hotspot := w.devices[row.router].hotspots[row.name];
       && hotspot.baseRx == w.profiles[row.profile].rx && hotspot.baseTx == w.profiles[row.profile].tx
       && hotspot.uptimeLimit == w.profiles[row.profile].uptimeLimit
  }

  // ---- What keeps it there ----

  /** Another job leaves it, and another one for the same hotspot configures the same. */
  lemma JobKeepsService(w: World, k: nat, fails: Failures, h: nat)
    requires Good(w) && InService(w, h) && k < |w.jobs|
    ensures InService(RunJob(w, k, fails), h) && RunJob(w, k, fails).profiles == w.profiles
  {
    if HotspotFound(w, k) && ProfileFound(w, w.hotspots[w.jobs[k].hotspot]) {
      var g := w.jobs[k].hotspot;
      var row := w.hotspots[g];
      var p := w.profiles[row.profile];
      RecordedHundredths(w, g);
      ConfigAnswers(w.devices, row.router, row.name, p.rx, p.tx, p.uptimeLimit, row.applied);
      assert g != h ==> !Is(row, w.hotspots[h].router, w.hotspots[h].name);
    }
    hide MemoryCall, RatesFollow, Synced, Backed, RatesOk, WindowsFit;
  }

  lemma RateKeepsService(w: World, j: RateJob, fails: Failures, h: nat)
    requires Good(w) && InService(w, h) && JobFits(w.hotspots, j)
    ensures var w' := ApplyRate(w, j, fails);
            InService(w', h) && w'.profiles == w.profiles && w'.jobs == w.jobs
  {
    BoostAnswers(w.devices, j.router, j.name, j.multiplier);
    hide MemoryCall, RatesFollow, Good;
  }

  lemma {:induction false} RatesKeepService(w: World, js: seq<RateJob>, fails: Failures, h: nat)
    requires Good(w) && InService(w, h) && AllFit(w.hotspots, js)
    ensures InService(ApplyRates(w, js, fails), h) && ApplyRates(w, js, fails).jobs == w.jobs
    ensures ApplyRates(w, js, fails).profiles == w.profiles
  {
    hide Good, ApplyRate, InService, StaysOn, RowAfter;
    if js != [] {
      var init, j := js[..|js| - 1], js[|js| - 1];
      assert forall i :: 0 <= i < |init| ==> init[i] == js[i];
      RatesKeepService(w, init, fails, h);
      RatesKeepGood(w, init, fails);
      var mid := ApplyRates(w, init, fails);
      assert JobFits(mid.hotspots, j);
      RateKeepsService(mid, j, fails, h);
    }
  }

  // ---- What brings it there ----

  /** The job's router is online and none of its calls fails. */
  ghost predicate CallsSucceed(w: World, j: nat, fails: Failures)
    requires j < |w.jobs| && HotspotFound(w, j)
  {
    var router := w.hotspots[w.jobs[j].hotspot].router;
    router in w.devices && w.devices[router].connected && forall n: nat :: !fails(n, router)
  }

  /** The pending job has its rows, and its call will succeed. */
  ghost predicate Ready(w: World, j: nat, fails: Failures) {
    && j < |w.jobs| && w.jobs[j].status == JobStatus.Pending && HotspotFound(w, j)
    && ProfileFound(w, w.hotspots[w.jobs[j].hotspot]) && CallsSucceed(w, j, fails)
  }

  lemma JobServes(w: World, j: nat, fails: Failures)
    requires Good(w) && Ready(w, j, fails)
    ensures var w' := RunJob(w, j, fails);
            && InService(w', w.jobs[j].hotspot) && |w'.jobs| == |w.jobs| && w'.jobs[j].status == JobStatus.Done
            && w'.jobs[j].hotspot == w.jobs[j].hotspot && w'.profiles == w.profiles
  {
    JobConfigures(w, j, fails);
    hide RunJob, Good, RatesFollow;
  }

  /** Jobs for other hotspots leave it ready. */
  lemma StaysReady(w: World, k: nat, fails: Failures, j: nat)
    requires Good(w) && Ready(w, j, fails) && k < |w.jobs| && k != j
    ensures Ready(RunJob(w, k, fails), j, fails)
    ensures RunJob(w, k, fails).jobs[j] == w.jobs[j] && RunJob(w, k, fails).profiles == w.profiles
  {
    RunJobDecides(w, k, fails, j);
    JobKeepsGood(w, k, fails);
    ProfilesStay(w, k, fails);
    hide RunJob, Good;
  }

  lemma ProfilesStay(w: World, k: nat, fails: Failures)
    requires k < |w.jobs|
    ensures RunJob(w, k, fails).profiles == w.profiles
  {
    hide MemoryCall;
  }

  /** A list of jobs, before and after the turn of job `j`. */
  lemma {:induction false} JobsServe(w: World, js: seq<nat>, fails: Failures, j: nat)
    requires Good(w) && j < |w.jobs| && Ready(w, j, fails) && forall i :: 0 <= i < |js| ==> js[i] < |w.jobs|
    requires forall a, b :: 0 <= a < b < |js| ==> js[a] < js[b]
    ensures var w' := RunJobs(w, js, fails);
            && Good(w') && |w'.jobs| == |w.jobs| && w'.profiles == w.profiles
            && w'.jobs[j].hotspot == w.jobs[j].hotspot
            && if j in js then InService(w', w.jobs[j].hotspot) && w'.jobs[j].status == JobStatus.Done
               else Ready(w', j, fails)
  {
    hide RunJob, Good, InService, Ready;
    if js != [] {
      var n := |js| - 1;
      assert js == js[..n] + [js[n]];
      JobsServe(w, js[..n], fails, j);
      var mid := RunJobs(w, js[..n], fails);
      JobKeepsGood(mid, js[n], fails);
      JobTurn(mid, js[n], fails, j, w.jobs[j].hotspot, j in js[..n]);
    }
  }

  lemma JobTurn(w: World, k: nat, fails: Failures, j: nat, h: nat, served: bool)
    requires Good(w) && j < |w.jobs| && k < |w.jobs| && w.jobs[j].hotspot == h
    requires if served then k != j && InService(w, h) && w.jobs[j].status == JobStatus.Done else Ready(w, j, fails)
    ensures var w' := RunJob(w, k, fails);
            && |w'.jobs| == |w.jobs| && w'.profiles == w.profiles && w'.jobs[j].hotspot == h
            && if served || k == j then InService(w', h) && w'.jobs[j].status == JobStatus.Done
               else Ready(w', j, fails)
  {
    hide RunJob, Good, InService, Ready;
    RunJobDecides(w, k, fails, j);
    if served {
      JobKeepsService(w, k, fails, h);
    } else if k == j {
      JobServes(w, j, fails);
    } else {
      StaysReady(w, k, fails, j);
    }
  }

  /**
   A queued configuration with fewer than twenty jobs pending before it, whose
   rows exist and whose router is online and answers, is done after the next
   tick: the hotspot is in service and its device has the base rates and limit of
   its profile, and the rates that follow from them at the recorded multiplier.
   */
  lemma TickServes(w: World, t: TickChoice, j: nat)
    requires Good(w) && TickOk(w, t) && Ready(w, j, t.fails) && |Older(w.jobs, j)| < 20
    ensures var w' := AfterTick(w, t);
            && |w'.jobs| == |w.jobs| && w'.jobs[j].status == JobStatus.Done
            && InService(w', w.jobs[j].hotspot)
            && var row := w'.hotspots[w.jobs[j].hotspot];
               RatesFollow(w'.devices[row.router].hotspots[row.name], row.applied)
  {
    TakenIff(w.jobs, 20, j);
    OldestPending(w.jobs, 20);
    hide Older, PendingJobs, RunJobs, ApplyRates, Good, Ready, InService, RatesFollow;
    PendingInOrder(w.jobs, 0);
    JobsServe(w, PendingJobs(w.jobs, 20), t.fails, j);
    TickKeepsService(w, t, w.jobs[j].hotspot);
    TickKeepsGood(w, t);
    ServiceFollows(AfterTick(w, t), w.jobs[j].hotspot);
  }

  /** The rate calls of the tick keep what its jobs have set. */
  lemma TickKeepsService(w: World, t: TickChoice, h: nat)
    requires Good(w) && TickOk(w, t) && InService(AfterJobs(w, t), h)
    ensures InService(AfterTick(w, t), h) && AfterTick(w, t).jobs == AfterJobs(w, t).jobs
  {
    TickParts(w, t);
    hide Good, InService, AfterJobs, ApplyRates, StaysOn, RowAfter, Starts, Ends;
    var w1, w2 := AfterJobs(w, t), AfterStarts(w, t);
    StartsFit(w1.hotspots, w1.windows, t.startNow, t.starts);
    RatesKeepService(w1, t.starts, t.fails, h);
    EndsFit(w2.hotspots, w2.windows, t.endNow, t.ends);
    RatesKeepService(w2, t.ends, t.fails, h);
  }

  lemma ServiceFollows(w: World, h: nat)
    requires Good(w) && InService(w, h)
    ensures RatesFollow(w.devices[w.hotspots[h].router].hotspots[w.hotspots[h].name], w.hotspots[h].applied)
  {
    DeviceFollows(w, h);
    hide Good, RatesFollow;
  }

  /** A new or changed hotspot is out of service until that tick, and nothing else about it changes. */
  lemma SavingTakesOutOfService(w: World, tenant: int, router: int, name: string, profile: int, h: nat)
    requires Allowed(w, CreateHotspot(tenant, router, name, profile))
    ensures var w' := Apply(w, CreateHotspot(tenant, router, name, profile));
            && w' == w.(hotspots := w.hotspots + [HotspotRow(tenant, router, name, profile, Configuring, 100)])
            && !InService(w', |w.hotspots|)
    ensures h < |w.hotspots| ==>
              var w' := Apply(w, UpdateHotspot(h, profile));
              && w' == w.(hotspots := w'.hotspots)
              && w'.hotspots == w.hotspots[h := w.hotspots[h].(profile := profile, status := Configuring)]
              && !InService(w', h)
  {
  }
}
