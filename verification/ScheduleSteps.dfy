/**
 The scheduler tick of the worker: configuration jobs, rate windows that became
 effective, and reverts. Multipliers are hundredths (`NUMERIC(5, 2)` columns).
 Any device call may fail; a failed call changes nothing on the device. Database
 statements succeed.
 */
module ScheduleSteps {
  import opened Simulators

  datatype HotspotStatus = Configuring | Active | Disabled | Broken

  datatype HotspotRow = HotspotRow(tenant: int, router: int, name: string, profile: int, status: HotspotStatus,
                                   applied: int)

  datatype RateWindow = RateWindow(tenant: int, hotspot: nat, boost: int, from: int, until: int) {
    predicate ActiveAt(now: int) {
      from <= now < until
    }
  }

  datatype Profile = Profile(tenant: int, rx: int, tx: int, uptimeLimit: int)

  datatype JobStatus = Pending | Done | Failed

  datatype Job = Job(tenant: int, hotspot: nat, status: JobStatus)

  /** The tables, the devices, and the numbers of device calls and of rate calls made so far. */
  datatype World = World(hotspots: seq<HotspotRow>, windows: seq<RateWindow>, profiles: map<int, Profile>,
                         jobs: seq<Job>, devices: Memory, calls: nat, rateCalls: nat)

  /** Whether the device call with that number fails when it is made to that router. */
  type Failures = (nat, int) -> bool

  function Times(hundredths: int): real {
    hundredths as real / 100.0
  }

  // ---- Configuration jobs ----

  function PendingFrom(jobs: seq<Job>, k: nat): seq<nat>
    decreases |jobs| - k
  {
    if k >= |jobs| then []
    else (if jobs[k].status == JobStatus.Pending then [k] else []) + PendingFrom(jobs, k + 1)
  }

  /** PendingJobs: the first ones by id. */
  function PendingJobs(jobs: seq<Job>, limit: nat): seq<nat> {
    var all := PendingFrom(jobs, 0);
    if |all| <= limit then all else all[..limit]
  }

  /** DoneJob and FailJob; only the latter asks for a job that is still pending. */
  function SetJob(jobs: seq<Job>, j: nat, status: JobStatus): seq<Job>
    requires j < |jobs|
  {
    if status.Done? || jobs[j].status.Pending? then jobs[j := jobs[j].(status := status)] else jobs
  }

  /** SetHotspotConfigured */
  function SetConfigured(hotspots: seq<HotspotRow>, h: nat, multiplier: int): seq<HotspotRow>
    requires h < |hotspots|
  {
    hotspots[h := hotspots[h].(status := Active, applied := multiplier)]
  }

  ghost function RunJob(w: World, j: nat, fails: Failures): World
    requires j < |w.jobs|
  {
    var h := w.jobs[j].hotspot;
    if h >= |w.hotspots| || w.hotspots[h].tenant != w.jobs[j].tenant then w
    else
      var hs := w.hotspots[h];
      if hs.profile !in w.profiles || w.profiles[hs.profile].tenant != hs.tenant
      then w.(jobs := SetJob(w.jobs, j, JobStatus.Failed))
      else
        var p := w.profiles[hs.profile];
        var reply := MemoryCall(w.devices, ApplyHotspotConfig(hs.router, hs.name, p.rx, p.tx, p.uptimeLimit));
        if fails(w.calls, hs.router) || reply.1 != Accepted
        then w.(calls := w.calls + 1, jobs := SetJob(w.jobs, j, JobStatus.Failed))
        else w.(calls := w.calls + 1, devices := reply.0, jobs := SetJob(w.jobs, j, JobStatus.Done),
                hotspots := SetConfigured(w.hotspots, h, hs.applied))
  }

  ghost function RunJobs(w: World, js: seq<nat>, fails: Failures): (w': World)
    requires forall i :: 0 <= i < |js| ==> js[i] < |w.jobs|
    ensures |w'.jobs| == |w.jobs|
  {
    if js == [] then w else RunJob(RunJobs(w, js[..|js| - 1], fails), js[|js| - 1], fails)
  }

  /** The pending jobs, in ascending order and each once. */
  lemma {:induction false} PendingInOrder(jobs: seq<Job>, k: nat)
    ensures forall i :: 0 <= i < |PendingFrom(jobs, k)| ==>
              k <= PendingFrom(jobs, k)[i] < |jobs| && jobs[PendingFrom(jobs, k)[i]].status.Pending?
    ensures forall j :: k <= j < |jobs| && jobs[j].status.Pending? ==> j in PendingFrom(jobs, k)
    ensures forall i, j :: 0 <= i < j < |PendingFrom(jobs, k)| ==> PendingFrom(jobs, k)[i] < PendingFrom(jobs, k)[j]
    decreases |jobs| - k
  {
    if k < |jobs| {
      PendingInOrder(jobs, k + 1);
    }
  }

  /** The worker gets the oldest pending jobs, each once, and all of them unless the limit cuts the list. */
  lemma OldestPending(jobs: seq<Job>, limit: nat)
    ensures |PendingJobs(jobs, limit)| <= limit
    ensures forall i :: 0 <= i < |PendingJobs(jobs, limit)| ==>
              PendingJobs(jobs, limit)[i] < |jobs| && jobs[PendingJobs(jobs, limit)[i]].status.Pending?
    ensures forall i, j :: 0 <= i < j < |PendingJobs(jobs, limit)| ==>
              PendingJobs(jobs, limit)[i] < PendingJobs(jobs, limit)[j]
    ensures forall j :: 0 <= j < |jobs| && jobs[j].status.Pending? && j !in PendingJobs(jobs, limit) ==>
              |PendingJobs(jobs, limit)| == limit &&
              forall i :: 0 <= i < limit ==> PendingJobs(jobs, limit)[i] < j
  {
    PendingInOrder(jobs, 0);
    hide PendingFrom;
  }

  // ---- Rate windows ----

  datatype RateJob = RateJob(hotspot: nat, name: string, router: int, multiplier: int)

  /** abs(applied_multiplier - boost_multiplier) > 0.001 */
  predicate Differs(applied: int, boost: int) {
    10 * (if applied > boost then applied - boost else boost - applied) > 1
  }

  predicate ToStart(hotspots: seq<HotspotRow>, rw: RateWindow, now: int) {
    && rw.hotspot < |hotspots| && hotspots[rw.hotspot].tenant == rw.tenant && rw.ActiveAt(now)
    && hotspots[rw.hotspot].status == Active && Differs(hotspots[rw.hotspot].applied, rw.boost)
  }

  function JobFor(hotspots: seq<HotspotRow>, h: nat, multiplier: int): RateJob
    requires h < |hotspots|
  {
    RateJob(h, hotspots[h].name, hotspots[h].router, multiplier)
  }

  /** The call is for one of the first `n` rate windows. */
  predicate ForOneOf(hotspots: seq<HotspotRow>, windows: seq<RateWindow>, n: nat, now: int, job: RateJob)
    requires n <= |windows|
  {
    exists k :: 0 <= k < n && ToStart(hotspots, windows[k], now) &&
                job == JobFor(hotspots, windows[k].hotspot, windows[k].boost)
  }

  /** The rate windows to start among the first `n`, in any order. */
  ghost predicate StartsUpTo(hotspots: seq<HotspotRow>, windows: seq<RateWindow>, n: nat, now: int, list: seq<RateJob>)
    requires n <= |windows|
  {
    && (forall i :: 0 <= i < |list| ==> ForOneOf(hotspots, windows, n, now, list[i]))
    && (forall k :: 0 <= k < n && ToStart(hotspots, windows[k], now) ==>
          JobFor(hotspots, windows[k].hotspot, windows[k].boost) in list)
  }

  /** The answer of WindowsToStart. */
  ghost predicate Starts(hotspots: seq<HotspotRow>, windows: seq<RateWindow>, now: int, list: seq<RateJob>) {
    StartsUpTo(hotspots, windows, |windows|, now, list)
  }

  predicate ActiveFor(windows: seq<RateWindow>, k: int, h: nat, now: int) {
    0 <= k < |windows| && windows[k].hotspot == h && windows[k].ActiveAt(now)
  }

  predicate HasActive(windows: seq<RateWindow>, h: nat, now: int) {
    exists k :: 0 <= k < |windows| && ActiveFor(windows, k, h, now)
  }

  predicate ToRevert(hotspots: seq<HotspotRow>, windows: seq<RateWindow>, h: nat, now: int) {
    h < |hotspots| && hotspots[h].applied != 100 && !HasActive(windows, h, now)
  }

  /** The answer of ListExpiredAppliedWindows, in any order, with the multiplier that a revert applies. */
  ghost predicate Ends(hotspots: seq<HotspotRow>, windows: seq<RateWindow>, now: int, list: seq<RateJob>) {
    && (forall i :: 0 <= i < |list| ==>
          ToRevert(hotspots, windows, list[i].hotspot, now) && list[i] == JobFor(hotspots, list[i].hotspot, 100))
    && (forall h :: 0 <= h < |hotspots| && ToRevert(hotspots, windows, h, now) ==> JobFor(hotspots, h, 100) in list)
  }

  /** One rate call and, if it is accepted, the update of the hotspot row. */
  ghost function ApplyRate(w: World, j: RateJob, fails: Failures): World
    requires j.hotspot < |w.hotspots|
  {
    var reply := MemoryCall(w.devices, ApplyRateMultiplier(j.router, j.name, Times(j.multiplier)));
    var called := w.(calls := w.calls + 1, rateCalls := w.rateCalls + 1);
    if fails(w.calls, j.router) || reply.1 != Accepted then called
    else called.(devices := reply.0, hotspots := SetConfigured(w.hotspots, j.hotspot, j.multiplier))
  }

  predicate InRange(js: seq<RateJob>, count: nat) {
    forall i :: 0 <= i < |js| ==> js[i].hotspot < count
  }

  ghost function ApplyRates(w: World, js: seq<RateJob>, fails: Failures): (w': World)
    requires InRange(js, |w.hotspots|)
    ensures |w'.hotspots| == |w.hotspots|
  {
    if js == [] then w else ApplyRate(ApplyRates(w, js[..|js| - 1], fails), js[|js| - 1], fails)
  }

  // ---- The tick ----

  /** The clock readings of the database and of the worker, the answers of the two queries, and the failures. */
  datatype TickChoice = TickChoice(startNow: int, endNow: int, starts: seq<RateJob>, ends: seq<RateJob>,
                                   fails: Failures)

  ghost function AfterJobs(w: World, t: TickChoice): World {
    PendingInOrder(w.jobs, 0);
    RunJobs(w, PendingJobs(w.jobs, 20), t.fails)
  }

  ghost predicate StartsOk(w: World, t: TickChoice) {
    Starts(AfterJobs(w, t).hotspots, AfterJobs(w, t).windows, t.startNow, t.starts)
  }

  ghost function AfterStarts(w: World, t: TickChoice): World
    requires StartsOk(w, t)
  {
    ApplyRates(AfterJobs(w, t), t.starts, t.fails)
  }

  ghost predicate TickOk(w: World, t: TickChoice) {
    StartsOk(w, t) && Ends(AfterStarts(w, t).hotspots, AfterStarts(w, t).windows, t.endNow, t.ends)
  }

  /** schedulerTick up to the reconciliation of sessions. */
  ghost function AfterTick(w: World, t: TickChoice): World
    requires TickOk(w, t)
  {
    ApplyRates(AfterStarts(w, t), t.ends, t.fails)
  }

  // ---- What else happens between ticks ----

  datatype Event =
    | Tick(choice: TickChoice)
    | CreateHotspot(tenant: int, router: int, name: string, profile: int)
    | UpdateHotspot(h: nat, newProfile: int)
    | SetHotspotStatus(hotspot: nat, status: HotspotStatus)
    | SaveProfile(id: int, row: Profile)
    | EnqueueJob(jobTenant: int, jobHotspot: nat)
    | CreateRateWindow(rw: RateWindow)
    | DeleteRateWindow(k: nat)
    | Device(call: Call)

  /**
   No router is unregistered and no hotspot renamed; hotspot names are distinct
   per router; devices are configured and boosted by the worker only.
   */
  ghost predicate Allowed(w: World, e: Event) {
    match e
    case Tick(t) => TickOk(w, t)
    case CreateHotspot(_, router, name, _) =>
      forall h :: 0 <= h < |w.hotspots| ==> !(w.hotspots[h].router == router && w.hotspots[h].name == name)
    case CreateRateWindow(rw) => rw.hotspot < |w.hotspots| && w.hotspots[rw.hotspot].tenant == rw.tenant
    case Device(c) =>
      && !c.UnregisterRouter? && !c.ApplyHotspotConfig? && !c.ApplyRateMultiplier?
      && (c.id in w.devices ==> Playable(w.devices[c.id], c, if c.ListSessions? then c.order else []))
    case _ => true
  }

  ghost function Apply(w: World, e: Event): World
    requires Allowed(w, e)
  {
    match e
    case Tick(t) => AfterTick(w, t)
    case CreateHotspot(tenant, router, name, profile) =>
      w.(hotspots := w.hotspots + [HotspotRow(tenant, router, name, profile, Configuring, 100)])
    case UpdateHotspot(h, profile) =>
      if h < |w.hotspots|
      then w.(hotspots := w.hotspots[h := w.hotspots[h].(profile := profile, status := Configuring)]) else w
    case SetHotspotStatus(h, status) =>
      if h < |w.hotspots| then w.(hotspots := w.hotspots[h := w.hotspots[h].(status := status)]) else w
    case SaveProfile(id, row) => w.(profiles := w.profiles[id := row])
    case EnqueueJob(tenant, h) => w.(jobs := w.jobs + [Job(tenant, h, JobStatus.Pending)])
    case CreateRateWindow(rw) => w.(windows := w.windows + [rw])
    case DeleteRateWindow(k) =>
      if k < |w.windows| then w.(windows := w.windows[..k] + w.windows[k + 1..]) else w
    case Device(c) => w.(devices := MemoryCall(w.devices, c).0)
  }

  ghost predicate AllAllowed(w: World, events: seq<Event>)
    decreases |events|, 0
  {
    events == [] || (AllAllowed(w, events[..|events| - 1]) &&
                     Allowed(After(w, events[..|events| - 1]), events[|events| - 1]))
  }

  ghost function After(w: World, events: seq<Event>): World
    requires AllAllowed(w, events)
    decreases |events|, 1
  {
    if events == [] then w else Apply(After(w, events[..|events| - 1]), events[|events| - 1])
  }

  const START: World := World([], [], map[], [], map[], 0, 0)
}
