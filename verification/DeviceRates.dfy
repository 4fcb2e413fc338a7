/** Rates and counters of the emulated routers in numbers, and what each call answers about them. */
module DeviceRates {
  import opened Devices
  import opened Simulators

  /** `n` is `x` cut off to a whole number, for natural `x`. */
  predicate CutsOff(n: int, x: real) {
    n as real <= x < n as real + 1.0
  }

  lemma TruncateCuts(x: real)
    requires x >= 0.0
    ensures CutsOff(Truncate(x), x) && Truncate(x) >= 0
  {
  }

  /** A rate at `m` hundredths is m percent of the base rate, cut off; that of a negative base rate mirrors it. */
  lemma ScaledBounds(base: int, m: nat)
    ensures base >= 0 ==>
              100 * Scaled(base, m as real / 100.0) <= base * m < 100 * Scaled(base, m as real / 100.0) + 100
    ensures Scaled(-base, m as real / 100.0) == -Scaled(base, m as real / 100.0)
  {
    var x := base as real * (m as real / 100.0);
    assert 100.0 * x == (base * m) as real;
    if base >= 0 {
      assert x >= 0.0;
      TruncateCuts(x);
    }
    assert (-base) as real == -(base as real);
    assert (-base) as real * (m as real / 100.0) == -x;
  }

  // ---- Configuring and boosting ----

  /** Both rates of a hotspot are its base rates times its multiplier of `m` hundredths, cut off. */
  predicate RatesFollow(h: Hotspot, m: int) {
    && h.multiplier == m as real / 100.0
    && (h.baseRx >= 0 && m >= 0 ==> 100 * h.rxRate <= h.baseRx * m < 100 * h.rxRate + 100)
    && (h.baseTx >= 0 && m >= 0 ==> 100 * h.txRate <= h.baseTx * m < 100 * h.txRate + 100)
  }

  lemma MultiplierFollows(h: Hotspot, m: int)
    ensures RatesFollow(WithMultiplier(h, m as real / 100.0), m)
  {
    if m >= 0 && h.baseRx >= 0 {
      ScaledBounds(h.baseRx, m);
    }
    if m >= 0 && h.baseTx >= 0 {
      ScaledBounds(h.baseTx, m);
    }
  }

  /** Only the hotspot `name` of router `id` may have changed, and it is there afterwards. */
  ghost predicate OnlyHotspotSet(m: Memory, m': Memory, id: int, name: string) {
    && id in m && id in m' && name in m'[id].hotspots
    && m' == m[id := m[id].(hotspots := m[id].hotspots[name := m'[id].hotspots[name]])]
  }

  /** Who accepts a configuration, and the hotspot then: new base rates under the multiplier it had, at first 1. */
  lemma ConfigAnswers(m: Memory, id: int, name: string, rx: int, tx: int, uptimeLimit: int, hundredths: int)
    requires id in m && name in m[id].hotspots ==> m[id].hotspots[name].multiplier == hundredths as real / 100.0
    requires id in m && name !in m[id].hotspots ==> hundredths == 100
    ensures var (m', reply) := MemoryCall(m, ApplyHotspotConfig(id, name, rx, tx, uptimeLimit));
            && (reply == Accepted <==> id in m && m[id].connected)
            && (reply == Failed(UnknownRouter) <==> id !in m)
            && (reply == Failed(RouterOffline) <==> id in m && !m[id].connected)
            && (reply != Accepted ==> m' == m)
            && (reply == Accepted ==>
                  && OnlyHotspotSet(m, m', id, name) && RatesFollow(m'[id].hotspots[name], hundredths)
                  && (hundredths == 100 ==> m'[id].hotspots[name].rxRate == rx && m'[id].hotspots[name].txRate == tx)
                  && m'[id].hotspots[name].baseRx == rx && m'[id].hotspots[name].baseTx == tx
                  && m'[id].hotspots[name].uptimeLimit == uptimeLimit)
  {
    var (m', reply) := MemoryCall(m, ApplyHotspotConfig(id, name, rx, tx, uptimeLimit));
    if id in m && m[id].connected {
      var h := m'[id].hotspots[name];
      assert h == WithMultiplier(h, hundredths as real / 100.0);
      MultiplierFollows(h, hundredths);
    }
    hide Scaled, WithMultiplier;
  }

  /** Who accepts a boost, and the hotspot afterwards: the same base rates under the new multiplier. */
  lemma BoostAnswers(m: Memory, id: int, name: string, hundredths: int)
    ensures var (m', reply) := MemoryCall(m, ApplyRateMultiplier(id, name, hundredths as real / 100.0));
            && (reply == Accepted <==> id in m && m[id].connected && name in m[id].hotspots)
            && (reply == Failed(UnknownRouter) <==> id !in m)
            && (reply == Failed(RouterOffline) <==> id in m && !m[id].connected)
            && (reply != Accepted ==> m' == m)
            && (reply == Accepted ==>
                  && OnlyHotspotSet(m, m', id, name) && RatesFollow(m'[id].hotspots[name], hundredths)
                  && m'[id].hotspots[name].baseRx == m[id].hotspots[name].baseRx
                  && m'[id].hotspots[name].baseTx == m[id].hotspots[name].baseTx
                  && m'[id].hotspots[name].uptimeLimit == m[id].hotspots[name].uptimeLimit)
  {
    var (m', reply) := MemoryCall(m, ApplyRateMultiplier(id, name, hundredths as real / 100.0));
    if id in m && m[id].connected && name in m[id].hotspots {
      var h := m'[id].hotspots[name];
      assert h == WithMultiplier(m[id].hotspots[name], hundredths as real / 100.0);
      MultiplierFollows(m[id].hotspots[name], hundredths);
    } else if id in m {
      assert m' == m;
    }
    hide Scaled, WithMultiplier;
  }

  /** Boosting and configuring a hotspot in either order leaves the same router. */
  lemma BoostAndConfigCommute(r: Router, name: string, multiplier: real, rx: int, tx: int, uptimeLimit: int)
    requires name in r.hotspots
    ensures Configured(Boosted(r, name, multiplier), name, rx, tx, uptimeLimit) ==
            Boosted(Configured(r, name, rx, tx, uptimeLimit), name, multiplier)
  {
    hide Scaled;
    assert Configured(Boosted(r, name, multiplier), name, rx, tx, uptimeLimit).hotspots ==
           Boosted(Configured(r, name, rx, tx, uptimeLimit), name, multiplier).hotspots;
  }

  // ---- Traffic ----

  /** Without a positive receive rate a router moves 1024 kilobits per second, and otherwise its largest one. */
  lemma RateIs(hotspots: map<string, Hotspot>)
    ensures (forall n :: n in hotspots ==> hotspots[n].rxRate <= 0) ==> Rate(hotspots) == 1024
    ensures forall n :: n in hotspots && hotspots[n].rxRate > 0 ==>
              Rate(hotspots) >= hotspots[n].rxRate &&
              exists k :: k in hotspots && hotspots[k].rxRate == Rate(hotspots)
  {
  }

  /** From `s` to `s'`, the counters grew by `full` bytes at that jitter, 28 percent of it in the other direction. */
  predicate Moved(s: SimSession, s': SimSession, full: real, jitter: real) {
    && CutsOff(s'.bytesRX - s.bytesRX, full * jitter)
    && CutsOff(s'.bytesTX - s.bytesTX, full * jitter * 0.28)
    && 0.6 * full <= full * jitter <= 1.4 * full
  }

  /** A listing reports each session with what its router's rate, in kilobits per second, moves at the drawn jitter. */
  lemma ListingTraffic(r: Router, intervalSec: real, c: Choices, order: seq<string>, i: nat)
    requires Enumerates(order, r.sessions.Keys) && ChoicesFor(c, r.sessions.Keys) && intervalSec >= 0.0 && i < |order|
    ensures order[i] in r.sessions && |Listed(r, intervalSec, c, order).1| == |order|
    ensures Moved(r.sessions[order[i]], Listed(r, intervalSec, c, order).1[i],
                  Rate(r.hotspots) as real * intervalSec * 125.0, c.jitter[order[i]])
  {
    hide Visit, IsRate, Advanced, Moved;
    var rate := Rate(r.hotspots);
    VisitReports(r.sessions, order, rate, intervalSec, c);
    assert order[i] in r.sessions.Keys;
    AdvancedMoves(r.sessions[order[i]], rate, intervalSec, c.jitter[order[i]]);
  }

  lemma AdvancedMoves(s: SimSession, rate: int, intervalSec: real, jitter: real)
    requires rate > 0 && intervalSec >= 0.0 && 0.6 <= jitter < 1.4
    ensures Moved(s, Advanced(s, rate, intervalSec, jitter), rate as real * intervalSec * 125.0, jitter)
  {
    var full := rate as real * intervalSec * 125.0;
    assert rate as real * intervalSec >= 0.0;
    TimesGrows(full, 0.6, jitter);
    TimesGrows(full, jitter, 1.4);
    TruncateCuts(full * jitter);
    TruncateCuts(full * jitter * 0.28);
  }

  lemma TimesGrows(x: real, a: real, b: real)
    requires x >= 0.0 && a <= b
    ensures x * a <= x * b
  {
    assert x * (b - a) >= 0.0;
  }
}
