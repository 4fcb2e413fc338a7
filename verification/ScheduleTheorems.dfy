/** What the scheduler keeps in every run, and what one tick achieves. */
module ScheduleTheorems {
  import opened Devices
  import opened DeviceRates
  import opened Simulators
  import opened ScheduleSteps

  // ---- What holds between ticks ----

  /** The multiplier of a hotspot on its device; one that was never configured counts as unboosted. */
  function OnDevice(devices: Memory, router: int, name: string): real {
    if router in devices && name in devices[router].hotspots then devices[router].hotspots[name].multiplier else 1.0
  }

  predicate Knows(devices: Memory, router: int, name: string) {
    router in devices && name in devices[router].hotspots
  }

  predicate Is(row: HotspotRow, router: int, name: string) {
    row.router == router && row.name == name
  }

  ghost predicate NamesDistinct(hotspots: seq<HotspotRow>) {
    forall g, h :: 0 <= g < h < |hotspots| ==> !Is(hotspots[g], hotspots[h].router, hotspots[h].name)
  }

  /** The recorded multiplier of each hotspot is the one on its device. */
  ghost predicate Synced(hotspots: seq<HotspotRow>, devices: Memory) {
    forall h :: 0 <= h < |hotspots| ==>
      OnDevice(devices, hotspots[h].router, hotspots[h].name) == Times(hotspots[h].applied)
  }

  /** Devices know only hotspots that have a row. */
  ghost predicate Backed(hotspots: seq<HotspotRow>, devices: Memory) {
    forall r, n :: Knows(devices, r, n) ==> exists h :: 0 <= h < |hotspots| && Is(hotspots[h], r, n)
  }

  /** Rates on devices are the base rates times the multiplier. */
  ghost predicate RatesOk(devices: Memory) {
    forall r, n :: Knows(devices, r, n) ==>
      devices[r].hotspots[n] == WithMultiplier(devices[r].hotspots[n], devices[r].hotspots[n].multiplier)
  }

  /** Rate windows belong to the tenant of their hotspot. */
  ghost predicate WindowsFit(hotspots: seq<HotspotRow>, windows: seq<RateWindow>) {
    forall k :: 0 <= k < |windows| ==>
      windows[k].hotspot < |hotspots| && hotspots[windows[k].hotspot].tenant == windows[k].tenant
  }

  ghost predicate Good(w: World) {
    && NamesDistinct(w.hotspots) && Synced(w.hotspots, w.devices) && Backed(w.hotspots, w.devices)
    && RatesOk(w.devices) && WindowsFit(w.hotspots, w.windows)
  }

  // ---- One device call ----

  lemma ConfigCall(devices: Memory, router: int, name: string, rx: int, tx: int, uptimeLimit: int)
    requires RatesOk(devices)
    ensures var reply := MemoryCall(devices, ApplyHotspotConfig(router, name, rx, tx, uptimeLimit));
            reply.1 == Accepted ==>
              && RatesOk(reply.0) && StaysOn(devices, reply.0)
              && (forall r, n :: OnDevice(reply.0, r, n) == OnDevice(devices, r, n))
              && (forall r, n :: Knows(reply.0, r, n) ==> Knows(devices, r, n) || (r == router && n == name))
  {
    hide Scaled;
  }

  lemma RateCall(devices: Memory, router: int, name: string, multiplier: real)
    requires RatesOk(devices)
    ensures var reply := MemoryCall(devices, ApplyRateMultiplier(router, name, multiplier));
            && (reply.1 == Accepted <==>
                  router in devices && devices[router].connected && name in devices[router].hotspots)
            && (reply.1 == Accepted ==>
                  && RatesOk(reply.0) && StaysOn(devices, reply.0)
                  && (forall r, n :: Knows(reply.0, r, n) <==> Knows(devices, r, n))
                  && OnDevice(reply.0, router, name) == multiplier
                  && (forall r, n :: r != router || n != name ==>
                        OnDevice(reply.0, r, n) == OnDevice(devices, r, n)))
  {
    hide Scaled;
  }

  /** No router goes away or offline, and none forgets a hotspot. */
  ghost predicate StaysOn(devices: Memory, devices': Memory) {
    && (forall r :: r in devices && devices[r].connected ==> r in devices' && devices'[r].connected)
    && (forall r, n :: Knows(devices, r, n) ==> Knows(devices', r, n))
  }

  // ---- One step of a tick ----

  /** The same hotspots on the same routers, with perhaps another status or multiplier; the same windows. */
  ghost predicate SameSetup(w: World, w': World) {
    && w'.windows == w.windows && |w'.hotspots| == |w.hotspots| && StaysOn(w.devices, w'.devices)
    && forall h :: 0 <= h < |w.hotspots| ==>
         w'.hotspots[h] == w.hotspots[h].(status := w'.hotspots[h].status, applied := w'.hotspots[h].applied)
  }

  ghost predicate StepKeeps(w: World, w': World) {
    Good(w') && SameSetup(w, w')
  }

  /** Jobs leave every multiplier alone and take no hotspot out of service. */
  ghost predicate JobsKeep(w: World, w': World) {
    && StepKeeps(w, w') && w'.rateCalls == w.rateCalls
    && forall h :: 0 <= h < |w.hotspots| ==>
         w'.hotspots[h].applied == w.hotspots[h].applied &&
         (w.hotspots[h].status == Active ==> w'.hotspots[h].status == Active)
  }

  lemma JobKeepsGood(w: World, j: nat, fails: Failures)
    requires Good(w) && j < |w.jobs|
    ensures JobsKeep(w, RunJob(w, j, fails))
  {
    var h := w.jobs[j].hotspot;
    if h < |w.hotspots| && w.hotspots[h].profile in w.profiles {
      var hs := w.hotspots[h];
      var p := w.profiles[hs.profile];
      ConfigCall(w.devices, hs.router, hs.name, p.rx, p.tx, p.uptimeLimit);
    }
    hide MemoryCall, OnDevice, Knows, WithMultiplier;
    var w' := RunJob(w, j, fails);
    assert Backed(w'.hotspots, w'.devices) by {
      forall r, n | Knows(w'.devices, r, n)
        ensures exists g :: 0 <= g < |w'.hotspots| && Is(w'.hotspots[g], r, n)
      {
        if Knows(w.devices, r, n) {
          var g :| 0 <= g < |w.hotspots| && Is(w.hotspots[g], r, n);
          assert Is(w'.hotspots[g], r, n);
        } else {
          assert Is(w'.hotspots[h], r, n);
        }
      }
    }
  }

  lemma {:induction false} JobsKeepGood(w: World, js: seq<nat>, fails: Failures)
    requires Good(w) && forall i :: 0 <= i < |js| ==> js[i] < |w.jobs|
    ensures JobsKeep(w, RunJobs(w, js, fails))
  {
    hide Good, RunJob, Knows;
    if js != [] {
      JobsKeepGood(w, js[..|js| - 1], fails);
      JobKeepsGood(RunJobs(w, js[..|js| - 1], fails), js[|js| - 1], fails);
    }
  }

  ghost predicate JobFits(hotspots: seq<HotspotRow>, j: RateJob) {
    j.hotspot < |hotspots| && j == JobFor(hotspots, j.hotspot, j.multiplier)
  }

  ghost predicate AllFit(hotspots: seq<HotspotRow>, js: seq<RateJob>)
    ensures AllFit(hotspots, js) ==> InRange(js, |hotspots|)
  {
    forall i :: 0 <= i < |js| ==> JobFits(hotspots, js[i])
  }

  /** The hotspot's router answers and knows the hotspot. */
  ghost predicate Reachable(w: World, h: nat)
    requires h < |w.hotspots|
  {
    var row := w.hotspots[h];
    row.router in w.devices && w.devices[row.router].connected && Knows(w.devices, row.router, row.name)
  }

  lemma RateKeepsGood(w: World, j: RateJob, fails: Failures)
    requires Good(w) && JobFits(w.hotspots, j)
    ensures StepKeeps(w, ApplyRate(w, j, fails)) && ApplyRate(w, j, fails).rateCalls == w.rateCalls + 1
    ensures forall h :: 0 <= h < |w.hotspots| && h != j.hotspot ==>
              ApplyRate(w, j, fails).hotspots[h] == w.hotspots[h]
    ensures var boosted := w.hotspots[j.hotspot].(status := Active, applied := j.multiplier);
            ApplyRate(w, j, fails).hotspots[j.hotspot] ==
            if !fails(w.calls, j.router) && Reachable(w, j.hotspot) then boosted else w.hotspots[j.hotspot]
  {
    RateCall(w.devices, j.router, j.name, Times(j.multiplier));
    hide MemoryCall, OnDevice, WithMultiplier, Times;
    var w' := ApplyRate(w, j, fails);
    if !fails(w.calls, j.router) && Reachable(w, j.hotspot) {
      assert Synced(w'.hotspots, w'.devices);
      assert Backed(w'.hotspots, w'.devices) by {
        forall r, n | Knows(w'.devices, r, n)
          ensures exists g :: 0 <= g < |w'.hotspots| && Is(w'.hotspots[g], r, n)
        {
          var g :| 0 <= g < |w.hotspots| && Is(w.hotspots[g], r, n);
          assert Is(w'.hotspots[g], r, n);
        }
      }
    }
  }

  /** A list of rate calls, as seen from one hotspot. */
  ghost predicate RatesKeep(w: World, js: seq<RateJob>, fails: Failures, w': World) {
    && StepKeeps(w, w') && w'.rateCalls == w.rateCalls + |js|
    && forall h :: 0 <= h < |w.hotspots| ==> RowAfter(w, js, fails, h, w'.hotspots[h])
  }

  /** The row of a hotspot after a list of rate calls: untouched, or at the multiplier of one of its calls. */
  ghost predicate RowAfter(w: World, js: seq<RateJob>, fails: Failures, h: nat, row: HotspotRow)
    requires h < |w.hotspots|
  {
    if row == w.hotspots[h]
    then (forall j :: j in js ==> j.hotspot != h) || !Answers(w, h, fails) ||
         exists j :: j in js && j.hotspot == h && Boosted(row, j) == row
    else exists j :: j in js && j.hotspot == h && row == Boosted(w.hotspots[h], j)
  }

  function Boosted(row: HotspotRow, j: RateJob): HotspotRow {
    row.(status := Active, applied := j.multiplier)
  }

  /** Every call to the hotspot's router succeeds, and the router knows the hotspot. */
  ghost predicate Answers(w: World, h: nat, fails: Failures)
    requires h < |w.hotspots|
  {
    Reachable(w, h) && forall n: nat :: !fails(n, w.hotspots[h].router)
  }

  lemma AnswersStay(w: World, w': World, h: nat, fails: Failures)
    requires SameSetup(w, w') && h < |w.hotspots| && Answers(w, h, fails)
    ensures Answers(w', h, fails)
  {
  }

  lemma {:induction false} RatesKeepGood(w: World, js: seq<RateJob>, fails: Failures)
    requires Good(w) && AllFit(w.hotspots, js)
    ensures RatesKeep(w, js, fails, ApplyRates(w, js, fails))
  {
    hide Good, ApplyRate, Knows, StaysOn, Reachable, Answers;
    if js == [] {
      StaysOnSelf(w.devices);
    } else {
      var init, j := js[..|js| - 1], js[|js| - 1];
      assert js == init + [j] && forall i :: 0 <= i < |init| ==> init[i] == js[i];
      RatesKeepGood(w, init, fails);
      var mid := ApplyRates(w, init, fails);
      assert JobFits(mid.hotspots, j);
      RateKeepsGood(mid, j, fails);
      var last := ApplyRate(mid, j, fails);
      StaysOnTrans(w.devices, mid.devices, last.devices);
      forall h | 0 <= h < |w.hotspots|
        ensures RowAfter(w, js, fails, h, last.hotspots[h])
      {
        RowStep(w, init, j, fails, h, mid, last);
      }
    }
  }

  lemma StaysOnSelf(devices: Memory)
    ensures StaysOn(devices, devices)
  {
  }

  lemma StaysOnTrans(a: Memory, b: Memory, c: Memory)
    requires StaysOn(a, b) && StaysOn(b, c)
    ensures StaysOn(a, c)
  {
  }

  lemma RowStep(w: World, init: seq<RateJob>, j: RateJob, fails: Failures, h: nat, mid: World, last: World)
    requires SameSetup(w, mid) && h < |w.hotspots| && RowAfter(w, init, fails, h, mid.hotspots[h])
    requires JobFits(mid.hotspots, j) && |last.hotspots| == |mid.hotspots|
    requires j.hotspot != h ==> last.hotspots[h] == mid.hotspots[h]
    requires j.hotspot == h ==>
               last.hotspots[h] ==
               if !fails(mid.calls, j.router) && Reachable(mid, h) then Boosted(mid.hotspots[h], j)
               else mid.hotspots[h]
    ensures RowAfter(w, init + [j], fails, h, last.hotspots[h])
  {
    var js := init + [j];
    assert forall i :: i in js <==> i in init || i == j;
    if Answers(w, h, fails) {
      AnswersStay(w, mid, h, fails);
    }
    hide Reachable, Knows, StaysOn;
  }

  // ---- One tick ----

  lemma StartsFit(hotspots: seq<HotspotRow>, windows: seq<RateWindow>, now: int, list: seq<RateJob>)
    requires Starts(hotspots, windows, now, list)
    ensures AllFit(hotspots, list)
  {
  }

  lemma EndsFit(hotspots: seq<HotspotRow>, windows: seq<RateWindow>, now: int, list: seq<RateJob>)
    requires Ends(hotspots, windows, now, list)
    ensures AllFit(hotspots, list)
  {
  }

  /** The three parts of a tick, each with what it keeps. */
  lemma TickParts(w: World, t: TickChoice)
    requires Good(w) && TickOk(w, t)
    ensures JobsKeep(w, AfterJobs(w, t))
    ensures RatesKeep(AfterJobs(w, t), t.starts, t.fails, AfterStarts(w, t))
    ensures RatesKeep(AfterStarts(w, t), t.ends, t.fails, AfterTick(w, t))
  {
    hide Good, RunJobs, ApplyRates, StaysOn, RowAfter, Starts, Ends;
    PendingInOrder(w.jobs, 0);
    JobsKeepGood(w, PendingJobs(w.jobs, 20), t.fails);
    var w1 := AfterJobs(w, t);
    StartsFit(w1.hotspots, w1.windows, t.startNow, t.starts);
    RatesKeepGood(w1, t.starts, t.fails);
    var w2 := AfterStarts(w, t);
    EndsFit(w2.hotspots, w2.windows, t.endNow, t.ends);
    RatesKeepGood(w2, t.ends, t.fails);
  }

  /** Whatever fails and whatever the clocks say, a tick keeps the recorded multipliers those of the devices. */
  lemma TickKeepsGood(w: World, t: TickChoice)
    requires Good(w) && TickOk(w, t)
    ensures Good(AfterTick(w, t)) && SameSetup(w, AfterTick(w, t))
    ensures AfterTick(w, t).rateCalls == w.rateCalls + |t.starts| + |t.ends|
  {
    TickParts(w, t);
    hide Good, RunJobs, ApplyRates, StaysOn, RowAfter, TickOk, AfterJobs, AfterStarts, AfterTick;
    var w1, w2 := AfterJobs(w, t), AfterStarts(w, t);
    StaysOnTrans(w.devices, w1.devices, w2.devices);
    StaysOnTrans(w.devices, w2.devices, AfterTick(w, t).devices);
  }

  lemma EventKeepsGood(w: World, e: Event)
    requires Good(w) && Allowed(w, e)
    ensures Good(Apply(w, e))
  {
    match e
    case Tick(t) => TickKeepsGood(w, t);
    case CreateHotspot(tenant, router, name, profile) => CreateKeepsGood(w, tenant, router, name, profile);
    case Device(c) => DeviceKeepsGood(w, c);
    case UpdateHotspot(h, _) => RowsKeepGood(w, Apply(w, e));
    case SetHotspotStatus(h, _) => RowsKeepGood(w, Apply(w, e));
    case _ =>
  }

  /** Rows that keep tenant, router, name and multiplier. */
  lemma RowsKeepGood(w: World, w': World)
    requires Good(w) && w'.devices == w.devices && w'.windows == w.windows && |w'.hotspots| == |w.hotspots|
    requires forall h :: 0 <= h < |w.hotspots| ==>
               w'.hotspots[h] == w.hotspots[h].(profile := w'.hotspots[h].profile, status := w'.hotspots[h].status)
    ensures Good(w')
  {
    hide OnDevice, Knows, Times;
    forall r, n | Knows(w.devices, r, n)
      ensures exists g :: 0 <= g < |w'.hotspots| && Is(w'.hotspots[g], r, n)
    {
      var g :| 0 <= g < |w.hotspots| && Is(w.hotspots[g], r, n);
      assert Is(w'.hotspots[g], r, n);
    }
  }

  lemma CreateKeepsGood(w: World, tenant: int, router: int, name: string, profile: int)
    requires Good(w) && Allowed(w, CreateHotspot(tenant, router, name, profile))
    ensures Good(Apply(w, CreateHotspot(tenant, router, name, profile)))
  {
    var w' := Apply(w, CreateHotspot(tenant, router, name, profile));
    assert !Knows(w.devices, router, name);
    assert Times(100) == 1.0;
    forall r, n | Knows(w.devices, r, n)
      ensures exists g :: 0 <= g < |w'.hotspots| && Is(w'.hotspots[g], r, n)
    {
      var g :| 0 <= g < |w.hotspots| && Is(w.hotspots[g], r, n);
      assert Is(w'.hotspots[g], r, n);
    }
  }

  lemma DeviceKeepsGood(w: World, c: Call)
    requires Good(w) && Allowed(w, Device(c))
    ensures Good(Apply(w, Device(c)))
  {
    var devices' := MemoryCall(w.devices, c).0;
    assert forall r, n :: Knows(devices', r, n) <==> Knows(w.devices, r, n);
    assert forall r, n :: Knows(devices', r, n) ==> devices'[r].hotspots[n] == w.devices[r].hotspots[n];
    hide MemoryCall, Visit, Scaled;
  }

  /** In every run, whatever calls fail, each recorded multiplier is the device's. */
  lemma {:induction false} RecordedIsApplied(events: seq<Event>)
    requires AllAllowed(START, events)
    ensures Good(After(START, events))
    ensures forall h :: 0 <= h < |After(START, events).hotspots| ==>
              var row := After(START, events).hotspots[h];
              OnDevice(After(START, events).devices, row.router, row.name) == Times(row.applied)
  {
    if events != [] {
      RecordedIsApplied(events[..|events| - 1]);
      EventKeepsGood(After(START, events[..|events| - 1]), events[|events| - 1]);
    }
  }

  // ---- Convergence ----

  /** The active windows of a hotspot ask for one multiplier; so it is when they do not overlap. */
  ghost predicate Agree(windows: seq<RateWindow>, h: nat, now: int) {
    forall k, l :: ActiveFor(windows, k, h, now) && ActiveFor(windows, l, h, now) ==>
      windows[k].boost == windows[l].boost
  }

  /** What the schedule asks for. */
  ghost predicate Scheduled(windows: seq<RateWindow>, h: nat, now: int, multiplier: int) {
    if HasActive(windows, h, now)
    then exists k :: ActiveFor(windows, k, h, now) && windows[k].boost == multiplier
    else multiplier == 100
  }

  lemma NotStarted(w: World, now: int, js: seq<RateJob>, h: nat)
    requires Starts(w.hotspots, w.windows, now, js) && !HasActive(w.windows, h, now)
    ensures forall j :: j in js ==> j.hotspot != h
  {
    forall i | 0 <= i < |js|
      ensures js[i].hotspot != h
    {
      assert ForOneOf(w.hotspots, w.windows, |w.windows|, now, js[i]);
      var k :| 0 <= k < |w.windows| && ToStart(w.hotspots, w.windows[k], now) &&
               js[i] == JobFor(w.hotspots, w.windows[k].hotspot, w.windows[k].boost);
      assert js[i].hotspot == h ==> ActiveFor(w.windows, k, h, now);
    }
  }

  /** After the starts, a hotspot with an active window has its multiplier; one without is as before. */
  lemma StartsSteer(w: World, now: int, js: seq<RateJob>, fails: Failures, h: nat, row: HotspotRow)
    requires WindowsFit(w.hotspots, w.windows) && h < |w.hotspots| && Starts(w.hotspots, w.windows, now, js)
    requires Answers(w, h, fails) && w.hotspots[h].status == Active && Agree(w.windows, h, now)
    requires RowAfter(w, js, fails, h, row)
    ensures row.status == Active
    ensures if HasActive(w.windows, h, now) then Scheduled(w.windows, h, now, row.applied) else row == w.hotspots[h]
  {
    hide Answers;
    if HasActive(w.windows, h, now) {
      var k :| ActiveFor(w.windows, k, h, now);
      if ToStart(w.hotspots, w.windows[k], now) {
        var job := JobFor(w.hotspots, h, w.windows[k].boost);
        assert job in js && job.hotspot == h;
      }
      assert row.applied == w.windows[k].boost;
    } else {
      NotStarted(w, now, js, h);
    }
  }

  /** After the reverts, a hotspot without an active window is at 100; one with is as before. */
  lemma EndsSteer(w: World, now: int, js: seq<RateJob>, fails: Failures, h: nat, row: HotspotRow)
    requires h < |w.hotspots| && Ends(w.hotspots, w.windows, now, js) && Answers(w, h, fails)
    requires RowAfter(w, js, fails, h, row) && w.hotspots[h].status == Active
    ensures row.status == Active
    ensures if HasActive(w.windows, h, now) then row == w.hotspots[h] else row.applied == 100
  {
    hide Answers;
    if !HasActive(w.windows, h, now) && w.hotspots[h].applied != 100 {
      assert JobFor(w.hotspots, h, 100) in js;
    }
  }

  /**
   One tick brings a hotspot to the boost of its windows that contain the present
   moment, or to 100 without one, whatever happens to other hotspots; its rates on
   the device become the base rates times that, exactly the base rates at 100.
   */
  lemma TickSteers(w: World, t: TickChoice, h: nat)
    requires Good(w) && TickOk(w, t) && t.startNow == t.endNow && h < |w.hotspots|
    requires w.hotspots[h].status == Active && Answers(w, h, t.fails) && Agree(w.windows, h, t.startNow)
    ensures |AfterTick(w, t).hotspots| == |w.hotspots|
    ensures Scheduled(w.windows, h, t.startNow, AfterTick(w, t).hotspots[h].applied)
    ensures forall k :: 0 <= k < |w.windows| && w.windows[k].hotspot == h &&
                        w.windows[k].from <= t.startNow < w.windows[k].until ==>
              AfterTick(w, t).hotspots[h].applied == w.windows[k].boost
    ensures (forall k :: 0 <= k < |w.windows| && w.windows[k].hotspot == h ==>
               !(w.windows[k].from <= t.startNow < w.windows[k].until)) ==> AfterTick(w, t).hotspots[h].applied == 100
    ensures AfterTick(w, t).hotspots[h].status == Active
    ensures Knows(AfterTick(w, t).devices, w.hotspots[h].router, w.hotspots[h].name)
    ensures var hotspot := AfterTick(w, t).devices[w.hotspots[h].router].hotspots[w.hotspots[h].name];
            var applied := AfterTick(w, t).hotspots[h].applied;
            && hotspot.multiplier == applied as real / 100.0
            && (hotspot.baseRx >= 0 && applied >= 0 ==>
                  100 * hotspot.rxRate <= hotspot.baseRx * applied < 100 * hotspot.rxRate + 100)
            && (hotspot.baseTx >= 0 && applied >= 0 ==>
                  100 * hotspot.txRate <= hotspot.baseTx * applied < 100 * hotspot.txRate + 100)
            && (applied == 100 ==> hotspot.rxRate == hotspot.baseRx && hotspot.txRate == hotspot.baseTx)
  {
    TickSchedules(w, t, h);
    TickKeepsGood(w, t);
    hide AfterTick, TickOk, Answers;
    ScheduledIs(w.windows, h, t.startNow, AfterTick(w, t).hotspots[h].applied);
    DeviceFollows(AfterTick(w, t), h);
  }

  lemma TickSchedules(w: World, t: TickChoice, h: nat)
    requires Good(w) && TickOk(w, t) && t.startNow == t.endNow && h < |w.hotspots|
    requires w.hotspots[h].status == Active && Answers(w, h, t.fails) && Agree(w.windows, h, t.startNow)
    ensures |AfterTick(w, t).hotspots| == |w.hotspots|
    ensures Scheduled(w.windows, h, t.startNow, AfterTick(w, t).hotspots[h].applied)
    ensures AfterTick(w, t).hotspots[h].status == Active
    ensures Knows(AfterTick(w, t).devices, w.hotspots[h].router, w.hotspots[h].name)
  {
    TickParts(w, t);
    TickKeepsGood(w, t);
    hide AfterJobs, AfterStarts, AfterTick, RowAfter, Starts, Ends, Agree;
    var w1, w2 := AfterJobs(w, t), AfterStarts(w, t);
    AnswersStay(w, w1, h, t.fails);
    StartsSteer(w1, t.startNow, t.starts, t.fails, h, w2.hotspots[h]);
    AnswersStay(w1, w2, h, t.fails);
    EndsSteer(w2, t.endNow, t.ends, t.fails, h, AfterTick(w, t).hotspots[h]);
  }

  /** What the schedule asks for, from the windows themselves. */
  lemma ScheduledIs(windows: seq<RateWindow>, h: nat, now: int, multiplier: int)
    requires Agree(windows, h, now) && Scheduled(windows, h, now, multiplier)
    ensures forall k :: 0 <= k < |windows| && windows[k].hotspot == h && windows[k].from <= now < windows[k].until ==>
              multiplier == windows[k].boost
    ensures (forall k :: 0 <= k < |windows| && windows[k].hotspot == h ==>
               !(windows[k].from <= now < windows[k].until)) ==> multiplier == 100
  {
    forall k | 0 <= k < |windows| && windows[k].hotspot == h && windows[k].from <= now < windows[k].until
      ensures multiplier == windows[k].boost
    {
      assert ActiveFor(windows, k, h, now);
    }
  }

  /** A hotspot known to its device has the rates of its recorded multiplier there. */
  lemma DeviceFollows(w: World, h: nat)
    requires Good(w) && h < |w.hotspots| && Knows(w.devices, w.hotspots[h].router, w.hotspots[h].name)
    ensures RatesFollow(w.devices[w.hotspots[h].router].hotspots[w.hotspots[h].name], w.hotspots[h].applied)
    ensures var hotspot := w.devices[w.hotspots[h].router].hotspots[w.hotspots[h].name];
            w.hotspots[h].applied == 100 ==> hotspot.rxRate == hotspot.baseRx && hotspot.txRate == hotspot.baseTx
  {
    hide WithMultiplier, RatesFollow, NamesDistinct, Backed, WindowsFit;
    var hotspot := w.devices[w.hotspots[h].router].hotspots[w.hotspots[h].name];
    assert hotspot.multiplier == w.hotspots[h].applied as real / 100.0;
    MultiplierFollows(hotspot, w.hotspots[h].applied);
    Unboosted(hotspot);
  }

  lemma Unboosted(h: Hotspot)
    ensures Times(100) == 1.0
    ensures WithMultiplier(h, 1.0).rxRate == h.baseRx && WithMultiplier(h, 1.0).txRate == h.baseTx
  {
    ScaledByOne(h.baseRx);
    ScaledByOne(h.baseTx);
  }

  lemma ScaledByOne(base: int)
    ensures Scaled(base, 1.0) == base
  {
    assert base as real * 1.0 == base as real;
  }

  // ---- Quiescence ----

  predicate CallsFor(js: seq<RateJob>, h: nat) {
    exists i :: 0 <= i < |js| && js[i].hotspot == h
  }

  /** A tick calls an active hotspot exactly when it is not where the schedule wants it, for every window. */
  lemma CallsIff(w: World, t: TickChoice, h: nat)
    requires Good(w) && TickOk(w, t) && t.startNow == t.endNow && h < |w.hotspots| && w.hotspots[h].status == Active
    ensures CallsFor(t.starts, h) <==>
            exists k :: ActiveFor(w.windows, k, h, t.startNow) && w.windows[k].boost != w.hotspots[h].applied
    ensures CallsFor(t.ends, h) <==>
            !HasActive(w.windows, h, t.endNow) && w.hotspots[h].applied != 100
  {
    TickParts(w, t);
    hide AfterJobs, AfterStarts, AfterTick, RunJobs, ApplyRates, StaysOn, Synced, Backed, RatesOk, NamesDistinct;
    var w1, w2 := AfterJobs(w, t), AfterStarts(w, t);
    StartsCall(w1, t.startNow, t.starts, h);
    EndsCall(w2, t.endNow, t.ends, h);
    if !HasActive(w.windows, h, t.startNow) {
      NotStarted(w1, t.startNow, t.starts, h);
      assert w2.hotspots[h] == w1.hotspots[h];
    }
  }

  lemma StartsCall(w: World, now: int, js: seq<RateJob>, h: nat)
    requires WindowsFit(w.hotspots, w.windows) && Starts(w.hotspots, w.windows, now, js)
    requires h < |w.hotspots| && w.hotspots[h].status == Active
    ensures CallsFor(js, h) <==>
            exists k :: ActiveFor(w.windows, k, h, now) && w.windows[k].boost != w.hotspots[h].applied
  {
    if k :| ActiveFor(w.windows, k, h, now) && w.windows[k].boost != w.hotspots[h].applied {
      assert ToStart(w.hotspots, w.windows[k], now);
      assert JobFor(w.hotspots, h, w.windows[k].boost) in js;
    }
    if CallsFor(js, h) {
      var i :| 0 <= i < |js| && js[i].hotspot == h;
      assert ForOneOf(w.hotspots, w.windows, |w.windows|, now, js[i]);
      var k :| 0 <= k < |w.windows| && ToStart(w.hotspots, w.windows[k], now) &&
               js[i] == JobFor(w.hotspots, w.windows[k].hotspot, w.windows[k].boost);
      assert ActiveFor(w.windows, k, h, now);
    }
  }

  lemma EndsCall(w: World, now: int, js: seq<RateJob>, h: nat)
    requires Ends(w.hotspots, w.windows, now, js) && h < |w.hotspots|
    ensures CallsFor(js, h) <==> ToRevert(w.hotspots, w.windows, h, now)
  {
    if ToRevert(w.hotspots, w.windows, h, now) {
      assert JobFor(w.hotspots, h, 100) in js;
    }
  }

  /**
   A second tick at the same time leaves a hotspot alone if and only if its
   active windows agree: overlapping windows with different boosts make the
   worker change the rate in every tick.
   */
  lemma SettledIff(w: World, t: TickChoice, t': TickChoice, h: nat)
    requires Good(w) && TickOk(w, t) && TickOk(AfterTick(w, t), t') && h < |w.hotspots|
    requires t.startNow == t.endNow == t'.startNow == t'.endNow
    requires w.hotspots[h].status == Active && Answers(w, h, t.fails)
    ensures !CallsFor(t'.starts, h) && !CallsFor(t'.ends, h) <==> Agree(w.windows, h, t.startNow)
  {
    TickKeepsGood(w, t);
    TickStaysActive(w, t, h);
    hide AfterTick, Good, StaysOn, Agree, Scheduled, Answers, WithMultiplier;
    CallsIff(AfterTick(w, t), t', h);
    if Agree(w.windows, h, t.startNow) {
      TickSteers(w, t, h);
    }
    AgreeIff(w.windows, h, t.startNow, AfterTick(w, t).hotspots[h].applied);
  }

  lemma AgreeIff(windows: seq<RateWindow>, h: nat, now: int, applied: int)
    requires Agree(windows, h, now) ==> Scheduled(windows, h, now, applied)
    ensures Agree(windows, h, now) <==>
            && (forall k :: ActiveFor(windows, k, h, now) ==> windows[k].boost == applied)
            && (!HasActive(windows, h, now) ==> applied == 100)
  {
  }

  lemma TickStaysActive(w: World, t: TickChoice, h: nat)
    requires Good(w) && TickOk(w, t) && h < |w.hotspots| && w.hotspots[h].status == Active
    ensures |AfterTick(w, t).hotspots| == |w.hotspots| && AfterTick(w, t).hotspots[h].status == Active
  {
    TickParts(w, t);
    hide AfterJobs, AfterStarts, AfterTick, Good, StaysOn, Answers;
  }

  /** With every hotspot in service, the second tick makes no rate call at all exactly when all windows agree. */
  lemma QuietIff(w: World, t: TickChoice, t': TickChoice)
    requires Good(w) && TickOk(w, t) && TickOk(AfterTick(w, t), t')
    requires t.startNow == t.endNow == t'.startNow == t'.endNow
    requires forall h :: 0 <= h < |w.hotspots| ==> w.hotspots[h].status == Active && Answers(w, h, t.fails)
    ensures AfterTick(AfterTick(w, t), t').rateCalls == AfterTick(w, t).rateCalls <==>
            forall h :: 0 <= h < |w.hotspots| ==> Agree(w.windows, h, t.startNow)
  {
    hide Good, Answers, Agree, AfterTick, TickOk, StaysOn, CallsFor, InRange;
    TickKeepsGood(w, t);
    TickKeepsGood(AfterTick(w, t), t');
    TickListsFit(AfterTick(w, t), t');
    forall h | 0 <= h < |w.hotspots|
      ensures !CallsFor(t'.starts, h) && !CallsFor(t'.ends, h) <==> Agree(w.windows, h, t.startNow)
    {
      SettledIff(w, t, t', h);
    }
    NoCalls(t'.starts, |w.hotspots|);
    NoCalls(t'.ends, |w.hotspots|);
  }

  lemma NoCalls(js: seq<RateJob>, count: nat)
    requires InRange(js, count)
    ensures js == [] <==> forall h :: 0 <= h < count ==> !CallsFor(js, h)
  {
    if js != [] {
      assert CallsFor(js, js[0].hotspot);
    }
  }

  lemma TickListsFit(w: World, t: TickChoice)
    requires Good(w) && TickOk(w, t)
    ensures InRange(t.starts, |w.hotspots|) && InRange(t.ends, |w.hotspots|)
  {
    TickParts(w, t);
    hide Good, RunJobs, ApplyRates, StaysOn, RowAfter;
  }

  // ---- Hotspots out of service ----

  lemma {:induction false} JobsSpare(w: World, js: seq<nat>, fails: Failures, h: nat)
    requires h < |w.hotspots| && forall i :: 0 <= i < |js| ==> js[i] < |w.jobs| && w.jobs[js[i]].hotspot != h
    ensures |RunJobs(w, js, fails).hotspots| == |w.hotspots| && RunJobs(w, js, fails).hotspots[h] == w.hotspots[h]
    ensures forall j :: 0 <= j < |w.jobs| ==> RunJobs(w, js, fails).jobs[j].hotspot == w.jobs[j].hotspot
  {
    hide RunJob;
    if js != [] {
      JobsSpare(w, js[..|js| - 1], fails, h);
      JobSpares(RunJobs(w, js[..|js| - 1], fails), js[|js| - 1], fails, h);
    }
  }

  lemma JobSpares(w: World, j: nat, fails: Failures, h: nat)
    requires h < |w.hotspots| && j < |w.jobs| && w.jobs[j].hotspot != h
    ensures |RunJob(w, j, fails).hotspots| == |w.hotspots| && RunJob(w, j, fails).hotspots[h] == w.hotspots[h]
    ensures |RunJob(w, j, fails).jobs| == |w.jobs|
    ensures forall i :: 0 <= i < |w.jobs| ==> RunJob(w, j, fails).jobs[i].hotspot == w.jobs[i].hotspot
  {
    hide MemoryCall;
  }

  /**
   A revert puts a hotspot back in service: without a pending job, one that is
   not active becomes active exactly when it is boosted and no window is active.
   */
  lemma RevertReactivatesIff(w: World, t: TickChoice, h: nat)
    requires Good(w) && TickOk(w, t) && h < |w.hotspots|
    requires w.hotspots[h].status != Active && Answers(w, h, t.fails)
    requires forall j :: 0 <= j < |w.jobs| && w.jobs[j].status.Pending? ==> w.jobs[j].hotspot != h
    ensures |AfterTick(w, t).hotspots| == |w.hotspots|
    ensures AfterTick(w, t).hotspots[h].status == Active <==>
            w.hotspots[h].applied != 100 && !HasActive(w.windows, h, t.endNow)
  {
    hide AfterJobs, AfterStarts, AfterTick, Good, StaysOn, Answers, RowAfter, Starts, Ends, RunJobs;
    TickParts(w, t);
    TickJobsSpare(w, t, h);
    var w1, w2 := AfterJobs(w, t), AfterStarts(w, t);
    AnswersStay(w, w1, h, t.fails);
    AnswersStay(w1, w2, h, t.fails);
    OutOfServiceNotStarted(w1, t.startNow, t.starts, h);
    NoCallNoChange(w1, t.starts, t.fails, h, w2.hotspots[h]);
    RevertedRow(w2, t.endNow, t.ends, t.fails, h, AfterTick(w, t).hotspots[h]);
  }

  lemma TickJobsSpare(w: World, t: TickChoice, h: nat)
    requires h < |w.hotspots|
    requires forall j :: 0 <= j < |w.jobs| && w.jobs[j].status.Pending? ==> w.jobs[j].hotspot != h
    ensures |AfterJobs(w, t).hotspots| == |w.hotspots| && AfterJobs(w, t).hotspots[h] == w.hotspots[h]
  {
    PendingInOrder(w.jobs, 0);
    JobsSpare(w, PendingJobs(w.jobs, 20), t.fails, h);
  }

  lemma NoCallNoChange(w: World, js: seq<RateJob>, fails: Failures, h: nat, row: HotspotRow)
    requires h < |w.hotspots| && RowAfter(w, js, fails, h, row) && forall j :: j in js ==> j.hotspot != h
    ensures row == w.hotspots[h]
  {
  }

  lemma RevertedRow(w: World, now: int, js: seq<RateJob>, fails: Failures, h: nat, row: HotspotRow)
    requires h < |w.hotspots| && Ends(w.hotspots, w.windows, now, js) && Answers(w, h, fails)
    requires RowAfter(w, js, fails, h, row)
    ensures row == if ToRevert(w.hotspots, w.windows, h, now) then w.hotspots[h].(status := Active, applied := 100)
                   else w.hotspots[h]
  {
    hide Answers;
    if ToRevert(w.hotspots, w.windows, h, now) {
      assert JobFor(w.hotspots, h, 100) in js;
    }
  }

  lemma OutOfServiceNotStarted(w: World, now: int, js: seq<RateJob>, h: nat)
    requires Starts(w.hotspots, w.windows, now, js) && h < |w.hotspots| && w.hotspots[h].status != Active
    ensures forall j :: j in js ==> j.hotspot != h
  {
    forall i | 0 <= i < |js|
      ensures js[i].hotspot != h
    {
      assert ForOneOf(w.hotspots, w.windows, |w.windows|, now, js[i]);
      var k :| 0 <= k < |w.windows| && ToStart(w.hotspots, w.windows[k], now) &&
               js[i] == JobFor(w.hotspots, w.windows[k].hotspot, w.windows[k].boost);
    }
  }
}
