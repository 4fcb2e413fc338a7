/** What one configuration job does to its hotspot, its device and its own status. */
module ScheduleJobs {
  import opened DeviceRates
  import opened Simulators
  import opened ScheduleSteps
  import opened ScheduleTheorems

  /** The job's hotspot is of the job's tenant. */
  predicate HotspotFound(w: World, j: nat)
    requires j < |w.jobs|
  {
    w.jobs[j].hotspot < |w.hotspots| && w.hotspots[w.jobs[j].hotspot].tenant == w.jobs[j].tenant
  }

  predicate ProfileFound(w: World, row: HotspotRow) {
    row.profile in w.profiles && w.profiles[row.profile].tenant == row.tenant
  }

  /** Only the status of job `j` may have changed among the jobs. */
  predicate OnlyJob(w: World, w': World, j: nat, status: JobStatus)
    requires j < |w.jobs|
  {
    w'.jobs == w.jobs[j := w.jobs[j].(status := status)]
  }

  /** A job without its hotspot changes nothing, and one without its profile fails without a device call. */
  lemma JobWithoutRows(w: World, j: nat, fails: Failures)
    requires j < |w.jobs| && w.jobs[j].status == JobStatus.Pending
    requires !(HotspotFound(w, j) && ProfileFound(w, w.hotspots[w.jobs[j].hotspot]))
    ensures var w' := RunJob(w, j, fails);
            && w' == w.(jobs := w'.jobs)
            && OnlyJob(w, w', j, if HotspotFound(w, j) then JobStatus.Failed else JobStatus.Pending)
  {
    hide MemoryCall;
  }

  /** A job that was decided meanwhile never fails afterwards; only a call that succeeds makes it done again. */
  lemma DecidedStays(w: World, j: nat, fails: Failures)
    requires j < |w.jobs| && w.jobs[j].status != JobStatus.Pending
    ensures RunJob(w, j, fails).jobs == w.jobs ||
            (OnlyJob(w, RunJob(w, j, fails), j, JobStatus.Done) && HotspotFound(w, j) &&
             !fails(w.calls, w.hotspots[w.jobs[j].hotspot].router))
  {
    hide MemoryCall;
  }

  /**
   A pending job with its rows makes one device call. It is done exactly when the
   call succeeds on a router that is online; then the hotspot is active with its
   multiplier unchanged, and the device has the profile's base rates and limit
   and the rates that follow from them. Otherwise it has failed and nothing else
   is touched.
   */
  lemma JobConfigures(w: World, j: nat, fails: Failures)
    requires Good(w) && j < |w.jobs| && w.jobs[j].status == JobStatus.Pending && HotspotFound(w, j)
    requires ProfileFound(w, w.hotspots[w.jobs[j].hotspot])
    ensures var row, w' := w.hotspots[w.jobs[j].hotspot], RunJob(w, j, fails);
            var done := !fails(w.calls, row.router) && row.router in w.devices && w.devices[row.router].connected;
            && w'.calls == w.calls + 1 && w'.rateCalls == w.rateCalls
            && w'.windows == w.windows && w'.profiles == w.profiles
            && OnlyJob(w, w', j, if done then JobStatus.Done else JobStatus.Failed)
            && (!done ==> w'.hotspots == w.hotspots && w'.devices == w.devices)
            && (done ==>
                  && w'.hotspots == w.hotspots[w.jobs[j].hotspot := row.(status := Active)]
                  && OnlyHotspotSet(w.devices, w'.devices, row.router, row.name)
                  && w'.devices[row.router].hotspots[row.name].baseRx == w.profiles[row.profile].rx
                  && w'.devices[row.router].hotspots[row.name].baseTx == w.profiles[row.profile].tx
                  && w'.devices[row.router].hotspots[row.name].uptimeLimit == w.profiles[row.profile].uptimeLimit
                  && RatesFollow(w'.devices[row.router].hotspots[row.name], row.applied))
  {
    var row := w.hotspots[w.jobs[j].hotspot];
    var p := w.profiles[row.profile];
    RecordedHundredths(w, w.jobs[j].hotspot);
    ConfigAnswers(w.devices, row.router, row.name, p.rx, p.tx, p.uptimeLimit, row.applied);
    hide MemoryCall, Good, RatesFollow;
  }

  /** The recorded multiplier is the device's, and 100 for a hotspot the device does not know. */
  lemma RecordedHundredths(w: World, h: nat)
    requires Good(w) && h < |w.hotspots|
    ensures var row := w.hotspots[h];
            if row.router in w.devices && row.name in w.devices[row.router].hotspots
            then w.devices[row.router].hotspots[row.name].multiplier == row.applied as real / 100.0
            else row.applied == 100
  {
    assert OnDevice(w.devices, w.hotspots[h].router, w.hotspots[h].name) == Times(w.hotspots[h].applied);
  }

  // ---- Which jobs a tick takes ----

  /** The pending jobs older than `j`. */
  function Older(jobs: seq<Job>, j: int): set<int> {
    set k | 0 <= k < |jobs| && k < j && jobs[k].status == JobStatus.Pending
  }

  /** All pending jobs, in order. */
  ghost predicate ListsPending(jobs: seq<Job>, all: seq<nat>) {
    && (forall a :: 0 <= a < |all| ==> all[a] < |jobs| && jobs[all[a]].status == JobStatus.Pending)
    && (forall a, b :: 0 <= a < b < |all| ==> all[a] < all[b])
    && (forall j :: 0 <= j < |jobs| && jobs[j].status == JobStatus.Pending ==> j in all)
  }

  /** In such a list each job comes at the place of its number of older ones. */
  lemma {:induction false} PlaceIsOlder(jobs: seq<Job>, all: seq<nat>, i: nat)
    requires ListsPending(jobs, all) && i < |all|
    ensures |Older(jobs, all[i])| == i
  {
    hide Older, ListsPending;
    if i == 0 {
      OlderAt(jobs, all, 0, {});
    } else {
      PlaceIsOlder(jobs, all, i - 1);
      AtEarlier(jobs, all, i - 1);
      OlderAt(jobs, all, i, Older(jobs, all[i - 1]) + {all[i - 1]});
    }
  }

  /** The older ones of the next job are one more. */
  lemma AtEarlier(jobs: seq<Job>, all: seq<nat>, i: nat)
    requires ListsPending(jobs, all) && i + 1 < |all|
    ensures all[i] !in Older(jobs, all[i])
    ensures forall k :: k in Older(jobs, all[i]) + {all[i]} <==> k in Older(jobs, all[i + 1])
  {
    forall k | k in Older(jobs, all[i + 1])
      ensures k in Older(jobs, all[i]) + {all[i]}
    {
      var a :| 0 <= a < |all| && all[a] == k;
      assert a <= i;
    }
  }

  lemma OlderAt(jobs: seq<Job>, all: seq<nat>, i: nat, older: set<int>)
    requires ListsPending(jobs, all) && i < |all|
    requires if i == 0 then older == {} else forall k :: k in older <==> k in Older(jobs, all[i])
    ensures Older(jobs, all[i]) == older
  {
    if i == 0 {
      assert forall k :: k !in Older(jobs, all[0]);
    }
  }

  /** The worker's list has a pending job exactly when fewer jobs than its limit are pending before it. */
  lemma TakenIff(jobs: seq<Job>, limit: nat, j: nat)
    requires j < |jobs| && jobs[j].status == JobStatus.Pending
    ensures j in PendingJobs(jobs, limit) <==> |Older(jobs, j)| < limit
  {
    PendingInOrder(jobs, 0);
    var all := PendingFrom(jobs, 0);
    var i :| 0 <= i < |all| && all[i] == j;
    assert ListsPending(jobs, all);
    PlaceIsOlder(jobs, all, i);
    hide PendingFrom, Older, ListsPending;
    if i < limit {
      assert PendingJobs(jobs, limit)[i] == j;
    }
  }

  /** Jobs leave the tenants, profiles and other jobs alone, and decide their own. */
  lemma RunJobDecides(w: World, j: nat, fails: Failures, k: nat)
    requires j < |w.jobs| && k < |w.jobs|
    ensures var w' := RunJob(w, j, fails);
            && |w'.jobs| == |w.jobs| && (k != j ==> w'.jobs[k] == w.jobs[k])
            && w'.jobs[k].hotspot == w.jobs[k].hotspot && w'.jobs[k].tenant == w.jobs[k].tenant
            && (HotspotFound(w', k) <==> HotspotFound(w, k))
            && (k == j && HotspotFound(w, j) && w.jobs[j].status == JobStatus.Pending ==>
                  w'.jobs[j].status != JobStatus.Pending)
  {
    hide MemoryCall;
  }

  lemma {:induction false} RunJobsDecide(w: World, js: seq<nat>, fails: Failures, j: nat)
    requires j < |w.jobs| && forall i :: 0 <= i < |js| ==> js[i] < |w.jobs|
    requires forall a, b :: 0 <= a < b < |js| ==> js[a] < js[b]
    ensures HotspotFound(RunJobs(w, js, fails), j) <==> HotspotFound(w, j)
    ensures j !in js ==> RunJobs(w, js, fails).jobs[j] == w.jobs[j]
    ensures j in js && HotspotFound(w, j) && w.jobs[j].status == JobStatus.Pending ==>
              RunJobs(w, js, fails).jobs[j].status != JobStatus.Pending
  {
    hide RunJob, HotspotFound;
    if js != [] {
      var n := |js| - 1;
      assert js == js[..n] + [js[n]];
      RunJobsDecide(w, js[..n], fails, j);
      RunJobDecides(RunJobs(w, js[..n], fails), js[n], fails, j);
    }
  }

  /**
   A tick decides a pending job whose hotspot exists exactly when fewer than
   twenty jobs are pending before it; otherwise it leaves the job for later.
   */
  lemma TickTakesTwenty(w: World, t: TickChoice, j: nat)
    requires j < |w.jobs| && w.jobs[j].status == JobStatus.Pending && HotspotFound(w, j)
    ensures |AfterJobs(w, t).jobs| == |w.jobs|
    ensures if |Older(w.jobs, j)| < 20 then AfterJobs(w, t).jobs[j].status != JobStatus.Pending
            else AfterJobs(w, t).jobs[j] == w.jobs[j]
  {
    TakenIff(w.jobs, 20, j);
    OldestPending(w.jobs, 20);
    PendingInOrder(w.jobs, 0);
    hide PendingJobs, RunJobs, Older;
    RunJobsDecide(w, PendingJobs(w.jobs, 20), t.fails, j);
  }
}
