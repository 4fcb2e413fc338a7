/** Runs that reach the worlds in which the scheduler does not settle, or puts a disabled hotspot back in service. */
module ScheduleWitnesses {
  import opened Devices
  import opened Simulators
  import opened ScheduleSteps
  import opened ScheduleTheorems

  const NEVER: Failures := (n, router) => false

  const ROW := HotspotRow(1, 1, "h", 1, Active, 100)
  const PROFILE := Profile(1, 10, 20, 0)
  const DEVICE := Hotspot("h", 10, 20, 10, 20, 1.0, 0)

  function OnRouterOne(h: Hotspot): Memory {
    map[1 := Router(1, "r", true, 0, map[], map["h" := h])]
  }

  lemma Extend(events: seq<Event>, e: Event)
    requires AllAllowed(START, events) && Allowed(After(START, events), e)
    ensures AllAllowed(START, events + [e]) && After(START, events + [e]) == Apply(After(START, events), e)
  {
    assert (events + [e])[..|events|] == events;
  }

  /** One hotspot, created and configured by a tick. */
  const CONFIGURED: World :=
    World([ROW], [], map[1 := PROFILE], [Job(1, 0, JobStatus.Done)], OnRouterOne(DEVICE), 1, 0)

  lemma TickConfigures()
    ensures var w := World([ROW.(status := Configuring)], [], map[1 := PROFILE], [Job(1, 0, JobStatus.Pending)],
                           map[1 := Router(1, "r", true, 0, map[], map[])], 0, 0);
            TickOk(w, TickChoice(0, 0, [], [], NEVER)) && AfterTick(w, TickChoice(0, 0, [], [], NEVER)) == CONFIGURED
  {
    var w := World([ROW.(status := Configuring)], [], map[1 := PROFILE], [Job(1, 0, JobStatus.Pending)],
                   map[1 := Router(1, "r", true, 0, map[], map[])], 0, 0);
    ScaledByOne(10);
    ScaledByOne(20);
    hide Scaled;
    assert PendingJobs(w.jobs, 20) == [0] by {
      assert PendingFrom(w.jobs, 1) == [];
    }
    var r := w.devices[1];
    assert Configured(r, "h", 10, 20, 0) == r.(hotspots := map["h" := DEVICE]);
    assert w.devices[1 := r.(hotspots := map["h" := DEVICE])] == OnRouterOne(DEVICE);
    assert MemoryCall(w.devices, ApplyHotspotConfig(1, "h", 10, 20, 0)) == (OnRouterOne(DEVICE), Accepted);
    hide MemoryCall;
    assert RunJob(w, 0, NEVER) == CONFIGURED;
    hide RunJob, PendingJobs;
    assert [0][..0] == [];
    assert RunJobs(w, [], NEVER) == w;
    assert AfterJobs(w, TickChoice(0, 0, [], [], NEVER)) == CONFIGURED;
  }

  lemma ReachConfigured() returns (events: seq<Event>)
    ensures AllAllowed(START, events) && After(START, events) == CONFIGURED
  {
    var e1, e2 := Device(RegisterRouter(1, "r", 0)), CreateHotspot(1, 1, "h", 1);
    var e3, e4 := SaveProfile(1, PROFILE), EnqueueJob(1, 0);
    TickConfigures();
    hide TickOk, AfterTick, After, AllAllowed;
    assert AllAllowed(START, []) && After(START, []) == START by {
      NothingYet();
    }
    Extend([], e1);
    Extend([] + [e1], e2);
    Extend([] + [e1] + [e2], e3);
    Extend([] + [e1] + [e2] + [e3], e4);
    events := [] + [e1] + [e2] + [e3] + [e4];
    assert [] + [ROW.(status := Configuring)] == [ROW.(status := Configuring)];
    assert [] + [Job(1, 0, JobStatus.Pending)] == [Job(1, 0, JobStatus.Pending)];
    assert After(START, events).devices == map[1 := Router(1, "r", true, 0, map[], map[])];
    Extend(events, Tick(TickChoice(0, 0, [], [], NEVER)));
    events := events + [Tick(TickChoice(0, 0, [], [], NEVER))];
  }

  lemma NothingYet()
    ensures AllAllowed(START, []) && After(START, []) == START
  {
  }

  // ---- Overlapping windows ----

  const LOW := RateWindow(1, 0, 150, 0, 10)
  const HIGH := RateWindow(1, 0, 200, 0, 10)

  /** A reachable world, and every two ticks from it: the second one changes the rate again. */
  lemma OverlapNeverSettles() returns (events: seq<Event>)
    ensures AllAllowed(START, events) && Good(After(START, events)) && |After(START, events).hotspots| == 1
    ensures var w := After(START, events);
            w.hotspots[0].status == Active && Answers(w, 0, NEVER) && !Agree(w.windows, 0, 0)
    ensures forall t, t' :: NextTicks(After(START, events), t, t') ==> CallsFor(t'.starts, 0) || CallsFor(t'.ends, 0)
  {
    events := ReachConfigured();
    hide After, AllAllowed, TickOk, AfterTick;
    Extend(events, CreateRateWindow(LOW));
    assert [] + [LOW] == [LOW] && [LOW] + [HIGH] == [LOW, HIGH];
    events := events + [CreateRateWindow(LOW)];
    Extend(events, CreateRateWindow(HIGH));
    events := events + [CreateRateWindow(HIGH)];
    RecordedIsApplied(events);
    var w := After(START, events);
    assert w == CONFIGURED.(windows := [LOW, HIGH]);
    assert ActiveFor(w.windows, 0, 0, 0) && ActiveFor(w.windows, 1, 0, 0);
    hide Good;
    forall t, t' | NextTicks(w, t, t')
      ensures CallsFor(t'.starts, 0) || CallsFor(t'.ends, 0)
    {
      SettledIff(w, t, t', 0);
    }
  }

  /** Two ticks at time 0, the first one without a failure. */
  ghost predicate NextTicks(w: World, t: TickChoice, t': TickChoice) {
    && TickOk(w, t) && TickOk(AfterTick(w, t), t') && t.fails == NEVER
    && t.startNow == t.endNow == t'.startNow == t'.endNow == 0
  }

  // ---- A disabled hotspot ----

  const BOOSTED: World :=
    World([ROW.(applied := 150)], [LOW], map[1 := PROFILE], [Job(1, 0, JobStatus.Done)],
          OnRouterOne(WithMultiplier(DEVICE, 1.5)), 2, 1)

  lemma TickBoosts()
    ensures var w, t := CONFIGURED.(windows := [LOW]), TickChoice(0, 0, [RateJob(0, "h", 1, 150)], [], NEVER);
            TickOk(w, t) && AfterTick(w, t) == BOOSTED
  {
    var w, t := CONFIGURED.(windows := [LOW]), TickChoice(0, 0, [RateJob(0, "h", 1, 150)], [], NEVER);
    var job := RateJob(0, "h", 1, 150);
    assert PendingJobs(w.jobs, 20) == [] by {
      assert PendingFrom(w.jobs, 1) == [];
    }
    hide PendingJobs;
    assert AfterJobs(w, t) == w;
    assert Times(150) == 1.5;
    hide WithMultiplier;
    var r, h := w.devices[1], WithMultiplier(DEVICE, 1.5);
    assert Devices.Boosted(r, "h", 1.5) == r.(hotspots := map["h" := h]);
    assert w.devices[1 := r.(hotspots := map["h" := h])] == OnRouterOne(h);
    assert MemoryCall(w.devices, ApplyRateMultiplier(1, "h", 1.5)) == (OnRouterOne(h), Accepted);
    hide MemoryCall, AfterJobs, Times;
    assert ToStart(w.hotspots, LOW, 0) && JobFor(w.hotspots, 0, 150) == job;
    assert ForOneOf(w.hotspots, w.windows, 1, 0, job) by {
      assert w.windows[0] == LOW;
    }
    assert Starts(w.hotspots, w.windows, 0, t.starts);
    assert ApplyRate(w, job, NEVER) == BOOSTED;
    assert [job][..0] == [];
    assert ApplyRates(w, [], NEVER) == w;
    assert AfterStarts(w, t) == BOOSTED;
    hide ApplyRate, AfterStarts, Starts;
    assert ActiveFor(BOOSTED.windows, 0, 0, 0);
    assert Ends(BOOSTED.hotspots, BOOSTED.windows, 0, []);
  }

  /** A reachable world with a disabled hotspot, which the tick after its window ends puts back in service. */
  lemma DisabledComesBack() returns (events: seq<Event>)
    ensures AllAllowed(START, events) && Good(After(START, events)) && |After(START, events).hotspots| == 1
    ensures var w := After(START, events);
            w.hotspots[0].status == Disabled && w.hotspots[0].applied == 150 && Answers(w, 0, NEVER)
    ensures forall t :: TickOk(After(START, events), t) && t.fails == NEVER && t.endNow == 10 ==>
              |AfterTick(After(START, events), t).hotspots| == 1 &&
              AfterTick(After(START, events), t).hotspots[0].status == Active
  {
    events := ReachConfigured();
    TickBoosts();
    hide After, AllAllowed, TickOk, AfterTick, WithMultiplier;
    Extend(events, CreateRateWindow(LOW));
    assert [] + [LOW] == [LOW];
    events := events + [CreateRateWindow(LOW)];
    assert After(START, events) == CONFIGURED.(windows := [LOW]);
    var boost := Tick(TickChoice(0, 0, [RateJob(0, "h", 1, 150)], [], NEVER));
    Extend(events, boost);
    events := events + [boost];
    Extend(events, SetHotspotStatus(0, Disabled));
    events := events + [SetHotspotStatus(0, Disabled)];
    RecordedIsApplied(events);
    var w := After(START, events);
    assert w.hotspots == [ROW.(applied := 150, status := Disabled)] && w.windows == [LOW];
    hide Good;
    forall t | TickOk(w, t) && t.fails == NEVER && t.endNow == 10
      ensures |AfterTick(w, t).hotspots| == 1 && AfterTick(w, t).hotspots[0].status == Active
    {
      RevertReactivatesIff(w, t, 0);
    }
  }
}
