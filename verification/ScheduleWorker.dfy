/** The worker's tick as it goes: queries, device calls and row updates one after the other. */
module ScheduleWorker {
  import opened Simulators
  import opened SimulatorStores
  import opened ScheduleSteps

  class Worker {
    const device: Simulator
    var hotspots: seq<HotspotRow>
    var windows: seq<RateWindow>
    var profiles: map<int, Profile>
    var jobs: seq<Job>
    var calls: nat
    var rateCalls: nat

    ghost predicate Valid()
      reads this, device
    {
      device.Valid()
    }

    ghost function Contents(): World
      reads this, device
    {
      World(hotspots, windows, profiles, jobs, device.routers, calls, rateCalls)
    }

    constructor (device: Simulator)
      requires device.Valid() && device.routers == map[]
      ensures Valid() && Contents() == START && this.device == device
    {
      this.device := device;
      hotspots, windows, profiles, jobs, calls, rateCalls := [], [], map[], [], 0, 0;
    }

    method SetHotspotConfigured(h: nat, multiplier: int)
      requires h < |hotspots|
      modifies this`hotspots
      ensures hotspots == SetConfigured(old(hotspots), h, multiplier)
    {
      hotspots := hotspots[h := hotspots[h].(status := Active)];
      hotspots := hotspots[h := hotspots[h].(applied := multiplier)];
    }

    method FailJob(j: nat)
      requires j < |jobs|
      modifies this`jobs
      ensures jobs == SetJob(old(jobs), j, JobStatus.Failed)
    {
      if jobs[j].status == JobStatus.Pending {
        jobs := jobs[j := jobs[j].(status := JobStatus.Failed)];
      }
    }

    method DoneJob(j: nat)
      requires j < |jobs|
      modifies this`jobs
      ensures jobs == SetJob(old(jobs), j, JobStatus.Done)
    {
      jobs := jobs[j := jobs[j].(status := JobStatus.Done)];
    }

    /** One pending job: look up, configure the device, record the outcome. */
    method ApplyJob(j: nat, fails: Failures)
      requires Valid() && j < |jobs|
      modifies this, device
      ensures Valid() && Contents() == RunJob(old(Contents()), j, fails)
      ensures windows == old(windows) && |jobs| == old(|jobs|)
    {
      var h := jobs[j].hotspot;
      if h >= |hotspots| || hotspots[h].tenant != jobs[j].tenant {
        return;
      }
      var hs := hotspots[h];
      if hs.profile !in profiles || profiles[hs.profile].tenant != hs.tenant {
        FailJob(j);
        return;
      }
      var profile := profiles[hs.profile];
      calls := calls + 1;
      if fails(calls - 1, hs.router) {
        FailJob(j);
        return;
      }
      ghost var before := device.routers;
      var reply := device.ApplyHotspotConfig(hs.router, hs.name, profile.rx, profile.tx, profile.uptimeLimit);
      if reply != Accepted {
        RejectedChangesNothing(
          before, ApplyHotspotConfig(hs.router, hs.name, profile.rx, profile.tx, profile.uptimeLimit));
        FailJob(j);
        return;
      }
      DoneJob(j);
      SetHotspotConfigured(h, hs.applied);
    }

    /** SELECT of the rate windows to start: a scan of all windows. */
    method WindowsToStart(now: int) returns (list: seq<RateJob>)
      ensures Starts(hotspots, windows, now, list)
    {
      list := [];
      for n := 0 to |windows|
        invariant StartsUpTo(hotspots, windows, n, now, list)
      {
        if ToStart(hotspots, windows[n], now) {
          list := list + [JobFor(hotspots, windows[n].hotspot, windows[n].boost)];
        }
      }
    }

    /** SELECT of the hotspots to revert: a scan of all hotspots. */
    method ListExpiredAppliedWindows(now: int) returns (list: seq<RateJob>)
      ensures Ends(hotspots, windows, now, list)
    {
      list := [];
      for h := 0 to |hotspots|
        invariant forall i :: 0 <= i < |list| ==>
                    ToRevert(hotspots, windows, list[i].hotspot, now) &&
                    list[i] == JobFor(hotspots, list[i].hotspot, 100)
        invariant forall g :: 0 <= g < h && ToRevert(hotspots, windows, g, now) ==> JobFor(hotspots, g, 100) in list
      {
        if ToRevert(hotspots, windows, h, now) {
          list := list + [JobFor(hotspots, h, 100)];
        }
      }
    }

    /** One turn of the loops over windows: call the device and, on success, record the multiplier. */
    method ChangeRate(job: RateJob, fails: Failures)
      requires Valid() && job.hotspot < |hotspots|
      modifies this, device
      ensures Valid() && Contents() == ApplyRate(old(Contents()), job, fails)
      ensures windows == old(windows) && |hotspots| == old(|hotspots|)
    {
      calls, rateCalls := calls + 1, rateCalls + 1;
      if fails(calls - 1, job.router) {
        return;
      }
      ghost var before := device.routers;
      var reply := device.ApplyRateMultiplier(job.router, job.name, Times(job.multiplier));
      if reply != Accepted {
        RejectedChangesNothing(before, ApplyRateMultiplier(job.router, job.name, Times(job.multiplier)));
        return;
      }
      SetHotspotConfigured(job.hotspot, job.multiplier);
    }

    method ChangeRates(list: seq<RateJob>, fails: Failures)
      requires Valid() && InRange(list, |hotspots|)
      modifies this, device
      ensures Valid() && Contents() == ApplyRates(old(Contents()), list, fails)
    {
      hide ApplyRate;
      for k := 0 to |list|
        invariant Valid() && |hotspots| == old(|hotspots|)
        invariant Contents() == ApplyRates(old(Contents()), list[..k], fails)
      {
        ChangeRate(list[k], fails);
        assert list[..k + 1][..k] == list[..k];
      }
      assert list[..|list|] == list;
    }

    method ApplyPendingJobs(fails: Failures)
      requires Valid()
      modifies this, device
      ensures Valid() && Contents() == AfterJobs(old(Contents()), TickChoice(0, 0, [], [], fails))
    {
      hide RunJob, RunJobs, PendingFrom;
      var pending := PendingJobs(jobs, 20);
      PendingInOrder(jobs, 0);
      NoJobs(Contents(), fails);
      assert pending[..0] == [];
      for k := 0 to |pending|
        invariant Valid() && |jobs| == old(|jobs|)
        invariant forall i :: 0 <= i < |pending| ==> pending[i] < old(|jobs|)
        invariant Contents() == RunJobs(old(Contents()), pending[..k], fails)
      {
        ApplyJob(pending[k], fails);
        OneMoreJob(old(Contents()), pending, k, fails);
      }
      assert pending[..|pending|] == pending;
    }

    method SchedulerTick(startNow: int, endNow: int, fails: Failures)
      returns (starts: seq<RateJob>, ends: seq<RateJob>)
      requires Valid()
      modifies this, device
      ensures Valid()
      ensures TickOk(old(Contents()), TickChoice(startNow, endNow, starts, ends, fails))
      ensures Contents() == AfterTick(old(Contents()), TickChoice(startNow, endNow, starts, ends, fails))
    {
      hide Starts, Ends, ApplyRates, RunJobs;
      ApplyPendingJobs(fails);
      starts := WindowsToStart(startNow);
      InRangeOfStarts(hotspots, windows, startNow, starts);
      ChangeRates(starts, fails);
      ends := ListExpiredAppliedWindows(endNow);
      InRangeOfEnds(hotspots, windows, endNow, ends);
      ChangeRates(ends, fails);
    }
  }

  lemma NoJobs(w: World, fails: Failures)
    ensures RunJobs(w, [], fails) == w
  {
  }

  lemma OneMoreJob(w: World, js: seq<nat>, k: nat, fails: Failures)
    requires k < |js| && forall i :: 0 <= i < |js| ==> js[i] < |w.jobs|
    ensures RunJobs(w, js[..k + 1], fails) == RunJob(RunJobs(w, js[..k], fails), js[k], fails)
  {
    assert js[..k + 1][..k] == js[..k];
  }

  lemma RejectedChangesNothing(devices: Memory, c: Call)
    requires (c.ApplyHotspotConfig? || c.ApplyRateMultiplier?) && MemoryCall(devices, c).1 != Accepted
    ensures MemoryCall(devices, c).0 == devices
  {
    if c.id in devices {
      assert devices[c.id := devices[c.id]] == devices;
    }
  }

  lemma InRangeOfStarts(hotspots: seq<HotspotRow>, windows: seq<RateWindow>, now: int, list: seq<RateJob>)
    requires Starts(hotspots, windows, now, list)
    ensures InRange(list, |hotspots|)
  {
  }

  lemma InRangeOfEnds(hotspots: seq<HotspotRow>, windows: seq<RateWindow>, now: int, list: seq<RateJob>)
    requires Ends(hotspots, windows, now, list)
    ensures InRange(list, |hotspots|)
  {
  }
}
