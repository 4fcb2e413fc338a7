/** The two simulators as objects, each call changing its state in place. */
module SimulatorStores {
  import opened Wrappers
  import opened Devices
  import opened Simulators

  /** The loop over the hotspots that finds the rate of a router's sessions. */
  method RateOf(hotspots: map<string, Hotspot>) returns (rate: int)
    ensures rate == Rate(hotspots)
  {
    var max := 0;
    var left := hotspots.Keys;
    while left != {}
      invariant left <= hotspots.Keys && max >= 0
      invariant forall k :: k in hotspots && k !in left ==> hotspots[k].rxRate <= max
      invariant max > 0 ==> exists k :: k in hotspots && hotspots[k].rxRate == max
      decreases left
    {
      assert (exists k :: k in left) || left == {};
      var k :| k in left;
      if hotspots[k].rxRate > max {
        max := hotspots[k].rxRate;
      }
      left := left - {k};
    }
    rate := if max <= 0 then 1024 else max;
    assert IsRate(hotspots, rate);
    RateIsUnique(hotspots, rate, Rate(hotspots));
  }

  lemma RateIsUnique(hotspots: map<string, Hotspot>, a: int, b: int)
    requires IsRate(hotspots, a) && IsRate(hotspots, b)
    ensures a == b
  {
  }

  /** The listing's loop seen half-way: what is left to do, added to what has been reported. */
  ghost predicate HalfWay(sessions: map<string, SimSession>, order: seq<string>, k: nat, rate: int, intervalSec: real,
                          c: Choices, left: map<string, SimSession>, out: seq<SimSession>)
    requires k <= |order| && (forall n :: n in order ==> n in sessions && n in c.jitter)
    requires forall i, j :: 0 <= i < j < |order| ==> order[i] != order[j]
  {
    && (forall n :: n in order[k..] ==> n in left && n in order)
    && var rest := Visit(left, order[k..], rate, intervalSec, c);
       Visit(sessions, order, rate, intervalSec, c) == (rest.0, out + rest.1)
  }

  lemma HalfWayStarts(sessions: map<string, SimSession>, order: seq<string>, rate: int, intervalSec: real, c: Choices)
    requires (forall n :: n in order ==> n in sessions && n in c.jitter)
    requires forall i, j :: 0 <= i < j < |order| ==> order[i] != order[j]
    ensures HalfWay(sessions, order, 0, rate, intervalSec, c, sessions, [])
  {
    hide Visit;
    assert order[0..] == order;
    assert [] + Visit(sessions, order, rate, intervalSec, c).1 == Visit(sessions, order, rate, intervalSec, c).1;
  }

  lemma HalfWayStep(sessions: map<string, SimSession>, order: seq<string>, k: nat, rate: int, intervalSec: real,
                    c: Choices, left: map<string, SimSession>, out: seq<SimSession>)
    requires k < |order| && (forall n :: n in order ==> n in sessions && n in c.jitter)
    requires forall i, j :: 0 <= i < j < |order| ==> order[i] != order[j]
    requires HalfWay(sessions, order, k, rate, intervalSec, c, left, out)
    ensures order[k] in left
    ensures var s := Advanced(left[order[k]], rate, intervalSec, c.jitter[order[k]]);
            var left' := if order[k] in c.drops && |left| > 1 then left - {order[k]} else left[order[k] := s];
            HalfWay(sessions, order, k + 1, rate, intervalSec, c, left', out + [s])
  {
    hide Advanced, Visit;
    var name, tail := order[k], order[k + 1..];
    assert order[k..] == [name] + tail;
    assert name in order[k..] && name !in tail && forall n :: n in tail ==> n in order[k..];
    VisitFirst(left, name, tail, rate, intervalSec, c);
    var s := Advanced(left[name], rate, intervalSec, c.jitter[name]);
    var left' := if name in c.drops && |left| > 1 then left - {name} else left[name := s];
    var rest := Visit(left', tail, rate, intervalSec, c);
    assert out + ([s] + rest.1) == (out + [s]) + rest.1;
  }

  /** One turn of the listing's loop. */
  lemma VisitFirst(left: map<string, SimSession>, name: string, tail: seq<string>, rate: int, intervalSec: real,
                   c: Choices)
    requires name in left && name in c.jitter && name !in tail
    requires (forall n :: n in tail ==> n in left && n in c.jitter)
    requires forall i, j :: 0 <= i < j < |tail| ==> tail[i] != tail[j]
    ensures var s := Advanced(left[name], rate, intervalSec, c.jitter[name]);
            var left' := if name in c.drops && |left| > 1 then left - {name} else left[name := s];
            (forall n :: n in tail ==> n in left') &&
            var rest := Visit(left', tail, rate, intervalSec, c);
            Visit(left, [name] + tail, rate, intervalSec, c) == (rest.0, [s] + rest.1)
  {
    hide Advanced;
    assert ([name] + tail)[1..] == tail;
  }

  lemma HalfWayEnds(sessions: map<string, SimSession>, order: seq<string>, rate: int, intervalSec: real, c: Choices,
                    left: map<string, SimSession>, out: seq<SimSession>)
    requires (forall n :: n in order ==> n in sessions && n in c.jitter)
    requires forall i, j :: 0 <= i < j < |order| ==> order[i] != order[j]
    requires HalfWay(sessions, order, |order|, rate, intervalSec, c, left, out)
    ensures (left, out) == Visit(sessions, order, rate, intervalSec, c)
  {
    assert order[|order|..] == [];
    assert out + [] == out;
  }

  // ---- In memory ----

  class Simulator {
    var routers: Memory

    ghost predicate Valid()
      reads this
    {
      forall id :: id in routers ==> routers[id].id == id && KeyedByName(routers[id].sessions)
    }

    constructor ()
      ensures Valid() && routers == map[]
    {
      routers := map[];
    }

    method RegisterRouter(id: int, name: string, now: int)
      requires Valid()
      modifies this
      ensures Valid() && routers == MemoryCall(old(routers), Call.RegisterRouter(id, name, now)).0
    {
      if id !in routers {
        routers := routers[id := Router(id, name, false, 0, map[], map[])];
      }
      routers := routers[id := routers[id].(connected := true, lastSeen := now)];
    }

    method UnregisterRouter(id: int)
      requires Valid()
      modifies this
      ensures Valid() && routers == MemoryCall(old(routers), Call.UnregisterRouter(id)).0
    {
      routers := routers - {id};
    }

    method Reset(id: int)
      requires Valid()
      modifies this
      ensures Valid() && routers == MemoryCall(old(routers), Call.Reset(id)).0
    {
      if id in routers {
        routers := routers[id := routers[id].(connected := false)];
      }
    }

    method Probe(id: int, now: int) returns (reply: Reply)
      requires Valid()
      modifies this
      ensures Valid() && (routers, reply) == MemoryCall(old(routers), Call.Probe(id, now))
    {
      if id !in routers {
        return Failed(UnknownRouter);
      }
      routers := routers[id := routers[id].(lastSeen := now)];
      return Probed(routers[id].connected, routers[id].lastSeen);
    }

    method ApplyHotspotConfig(id: int, hotspot: string, rx: int, tx: int, uptimeLimit: int) returns (reply: Reply)
      requires Valid()
      modifies this
      ensures Valid()
      ensures (routers, reply) == MemoryCall(old(routers), Call.ApplyHotspotConfig(id, hotspot, rx, tx, uptimeLimit))
    {
      if id !in routers {
        return Failed(UnknownRouter);
      }
      if !routers[id].connected {
        assert routers == routers[id := routers[id]];
        return Failed(RouterOffline);
      }
      var r := routers[id];
      if hotspot !in r.hotspots {
        r := r.(hotspots := r.hotspots[hotspot := Hotspot(hotspot, 0, 0, 0, 0, 1.0, 0)]);
      }
      var h := r.hotspots[hotspot];
      h := h.(baseRx := rx, baseTx := tx);
      h := h.(rxRate := Scaled(rx, h.multiplier), txRate := Scaled(tx, h.multiplier));
      h := h.(uptimeLimit := uptimeLimit);
      assert r.(hotspots := r.hotspots[hotspot := h]) == Configured(routers[id], hotspot, rx, tx, uptimeLimit) by {
        assert r.hotspots[hotspot := h] == routers[id].hotspots[hotspot := h];
      }
      routers := routers[id := r.(hotspots := r.hotspots[hotspot := h])];
      return Accepted;
    }

    method ApplyRateMultiplier(id: int, hotspot: string, multiplier: real) returns (reply: Reply)
      requires Valid()
      modifies this
      ensures Valid() && (routers, reply) == MemoryCall(old(routers), Call.ApplyRateMultiplier(id, hotspot, multiplier))
    {
      if id !in routers {
        return Failed(UnknownRouter);
      }
      if !routers[id].connected {
        assert routers == routers[id := routers[id]];
        return Failed(RouterOffline);
      }
      var r := routers[id];
      if hotspot !in r.hotspots {
        assert routers == routers[id := routers[id]];
        return Failed(NoHotspot);
      }
      var h := r.hotspots[hotspot].(multiplier := multiplier);
      h := h.(rxRate := Scaled(h.baseRx, multiplier), txRate := Scaled(h.baseTx, multiplier));
      assert r.(hotspots := r.hotspots[hotspot := h]) == Boosted(r, hotspot, multiplier);
      routers := routers[id := r.(hotspots := r.hotspots[hotspot := h])];
      return Accepted;
    }

    method SeedSession(id: int, username: string, mac: string, ip: string, bytesRX: int, bytesTX: int)
      requires Valid()
      modifies this
      ensures Valid()
      ensures var s := SimSession(username, mac, ip, bytesRX, bytesTX);
              routers == MemoryCall(old(routers), Call.SeedSession(id, s)).0
    {
      if id in routers && routers[id].connected {
        var s := SimSession(username, mac, ip, bytesRX, bytesTX);
        routers := routers[id := routers[id].(sessions := routers[id].sessions[username := s])];
      }
    }

    method DisconnectSession(id: int, username: string) returns (reply: Reply)
      requires Valid()
      modifies this
      ensures Valid() && (routers, reply) == MemoryCall(old(routers), Call.DisconnectSession(id, username))
    {
      if id !in routers {
        return Failed(UnknownRouter);
      }
      if !routers[id].connected {
        assert routers == routers[id := routers[id]];
        return Failed(RouterOffline);
      }
      routers := routers[id := routers[id].(sessions := routers[id].sessions - {username})];
      return Accepted;
    }

    /** Visits the sessions in map order, deleting a dropped one under its own username. */
    method ListSessions(id: int, intervalSec: real, choices: Choices, order: seq<string>) returns (reply: Reply)
      requires Valid()
      requires id in routers && routers[id].connected ==>
                 Enumerates(order, routers[id].sessions.Keys) && ChoicesFor(choices, routers[id].sessions.Keys)
      modifies this
      ensures Valid()
      ensures (routers, reply) == MemoryCall(old(routers), Call.ListSessions(id, intervalSec, choices, order, order))
    {
      if id !in routers {
        return Failed(UnknownRouter);
      }
      if !routers[id].connected {
        assert routers == routers[id := routers[id]];
        return Failed(RouterOffline);
      }
      var r := routers[id];
      var rate := RateOf(r.hotspots);
      var left, out := VisitInMapOrder(r.sessions, order, rate, intervalSec, choices);
      routers := routers[id := r.(sessions := left)];
      return Sessions(out);
    }
  }

  /** The loop of the in-memory listing; a dropped session is deleted under its own username. */
  method VisitInMapOrder(sessions: map<string, SimSession>, order: seq<string>, rate: int, intervalSec: real,
                         choices: Choices)
    returns (left: map<string, SimSession>, out: seq<SimSession>)
    requires Enumerates(order, sessions.Keys) && ChoicesFor(choices, sessions.Keys) && KeyedByName(sessions)
    ensures (left, out) == Visit(sessions, order, rate, intervalSec, choices) && KeyedByName(left)
  {
    hide Advanced, HalfWay, Visit;
    left, out := sessions, [];
    HalfWayStarts(sessions, order, rate, intervalSec, choices);
    for k := 0 to |order|
      invariant HalfWay(sessions, order, k, rate, intervalSec, choices, left, out) && KeyedByName(left)
    {
      var name := order[k];
      HalfWayStep(sessions, order, k, rate, intervalSec, choices, left, out);
      var s := Advanced(left[name], rate, intervalSec, choices.jitter[name]);
      AdvancedKeepsName(left[name], rate, intervalSec, choices.jitter[name]);
      out := out + [s];
      if name in choices.drops && |left| > 1 {
        left := left - {s.username};
      } else {
        left := left[name := s];
      }
    }
    HalfWayEnds(sessions, order, rate, intervalSec, choices, left, out);
  }

  lemma AdvancedKeepsName(s: SimSession, rate: int, intervalSec: real, jitter: real)
    ensures Advanced(s, rate, intervalSec, jitter).username == s.username
  {
  }

  // ---- In Redis ----

  /** The loop of the Redis listing, over the sorted names. */
  method VisitSorted(sessions: map<string, SimSession>, names: seq<string>, rate: int, intervalSec: real,
                     choices: Choices)
    returns (left: map<string, SimSession>, out: seq<SimSession>)
    requires Enumerates(names, sessions.Keys) && ChoicesFor(choices, sessions.Keys)
    ensures (left, out) == Visit(sessions, names, rate, intervalSec, choices)
  {
    hide Advanced, HalfWay, Visit;
    left, out := sessions, [];
    HalfWayStarts(sessions, names, rate, intervalSec, choices);
    for k := 0 to |names|
      invariant HalfWay(sessions, names, k, rate, intervalSec, choices, left, out)
    {
      HalfWayStep(sessions, names, k, rate, intervalSec, choices, left, out);
      var s := Advanced(left[names[k]], rate, intervalSec, choices.jitter[names[k]]);
      out := out + [s];
      if names[k] in choices.drops && |left| > 1 {
        left := left - {names[k]};
      } else {
        left := left[names[k] := s];
      }
    }
    HalfWayEnds(sessions, names, rate, intervalSec, choices, left, out);
  }

  class RedisSimulator {
    var docs: Documents

    /** Each document is stored under the key of its own id. */
    ghost predicate Valid()
      reads this
    {
      forall id :: KeyFor(id) in docs ==> docs[KeyFor(id)].id == id
    }

    constructor ()
      ensures Valid() && docs == map[]
    {
      docs := map[];
    }

    function GetRouter(id: int): Result<Router, Error>
      reads this
    {
      if KeyFor(id) in docs then Ok(docs[KeyFor(id)]) else Err(UnknownRouter)
    }

    method PutRouter(r: Router)
      requires Valid()
      modifies this
      ensures Valid() && docs == old(docs)[KeyFor(r.id) := r]
    {
      forall id
        ensures KeyFor(id) == KeyFor(r.id) <==> id == r.id
      {
        KeysDiffer(id, r.id);
      }
      docs := docs[KeyFor(r.id) := r];
    }

    method RegisterRouter(id: int, name: string, now: int)
      requires Valid()
      modifies this
      ensures Valid() && docs == RedisCall(old(docs), Call.RegisterRouter(id, name, now)).0
    {
      var got := GetRouter(id);
      var r := if got.Err? then Router(id, name, false, 0, map[], map[]) else got.value;
      r := r.(connected := true, lastSeen := now);
      if name != "" {
        r := r.(name := name);
      }
      PutRouter(r);
    }

    method UnregisterRouter(id: int)
      requires Valid()
      modifies this
      ensures Valid() && docs == RedisCall(old(docs), Call.UnregisterRouter(id)).0
    {
      docs := docs - {KeyFor(id)};
    }

    method Reset(id: int)
      requires Valid()
      modifies this
      ensures Valid() && docs == RedisCall(old(docs), Call.Reset(id)).0
    {
      var got := GetRouter(id);
      if got.Ok? {
        PutRouter(got.value.(connected := false));
      }
    }

    method Probe(id: int, now: int) returns (reply: Reply)
      requires Valid()
      modifies this
      ensures Valid() && (docs, reply) == RedisCall(old(docs), Call.Probe(id, now))
    {
      var got := GetRouter(id);
      if got.Err? {
        return Failed(got.error);
      }
      var r := got.value.(lastSeen := now);
      PutRouter(r);
      return Probed(r.connected, r.lastSeen);
    }

    method ApplyHotspotConfig(id: int, hotspot: string, rx: int, tx: int, uptimeLimit: int) returns (reply: Reply)
      requires Valid()
      modifies this
      ensures Valid()
      ensures (docs, reply) == RedisCall(old(docs), Call.ApplyHotspotConfig(id, hotspot, rx, tx, uptimeLimit))
    {
      var got := GetRouter(id);
      if got.Err? {
        return Failed(got.error);
      }
      var r := got.value;
      if !r.connected {
        assert docs == docs[KeyFor(id) := docs[KeyFor(id)]];
        return Failed(RouterOffline);
      }
      if hotspot !in r.hotspots {
        r := r.(hotspots := r.hotspots[hotspot := Hotspot(hotspot, 0, 0, 0, 0, 1.0, 0)]);
      }
      var h := r.hotspots[hotspot];
      h := h.(baseRx := rx, baseTx := tx);
      h := h.(rxRate := Scaled(rx, h.multiplier), txRate := Scaled(tx, h.multiplier));
      h := h.(uptimeLimit := uptimeLimit);
      assert r.(hotspots := r.hotspots[hotspot := h]) == Configured(got.value, hotspot, rx, tx, uptimeLimit) by {
        assert r.hotspots[hotspot := h] == got.value.hotspots[hotspot := h];
      }
      PutRouter(r.(hotspots := r.hotspots[hotspot := h]));
      return Accepted;
    }

    method ApplyRateMultiplier(id: int, hotspot: string, multiplier: real) returns (reply: Reply)
      requires Valid()
      modifies this
      ensures Valid() && (docs, reply) == RedisCall(old(docs), Call.ApplyRateMultiplier(id, hotspot, multiplier))
    {
      var got := GetRouter(id);
      if got.Err? {
        return Failed(got.error);
      }
      var r := got.value;
      if !r.connected {
        assert docs == docs[KeyFor(id) := docs[KeyFor(id)]];
        return Failed(RouterOffline);
      }
      if hotspot !in r.hotspots {
        assert docs == docs[KeyFor(id) := docs[KeyFor(id)]];
        return Failed(NoHotspot);
      }
      var h := r.hotspots[hotspot].(multiplier := multiplier);
      h := h.(rxRate := Scaled(h.baseRx, multiplier), txRate := Scaled(h.baseTx, multiplier));
      assert r.(hotspots := r.hotspots[hotspot := h]) == Boosted(r, hotspot, multiplier);
      PutRouter(r.(hotspots := r.hotspots[hotspot := h]));
      return Accepted;
    }

    method SeedSession(id: int, username: string, mac: string, ip: string, bytesRX: int, bytesTX: int)
      requires Valid()
      modifies this
      ensures var s := SimSession(username, mac, ip, bytesRX, bytesTX);
              Valid() && docs == RedisCall(old(docs), Call.SeedSession(id, s)).0
    {
      var got := GetRouter(id);
      if got.Err? || !got.value.connected {
        assert got.Ok? ==> docs == docs[KeyFor(id) := docs[KeyFor(id)]];
        return;
      }
      var s := SimSession(username, mac, ip, bytesRX, bytesTX);
      PutRouter(got.value.(sessions := got.value.sessions[username := s]));
    }

    method DisconnectSession(id: int, username: string) returns (reply: Reply)
      requires Valid()
      modifies this
      ensures Valid() && (docs, reply) == RedisCall(old(docs), Call.DisconnectSession(id, username))
    {
      var got := GetRouter(id);
      if got.Err? {
        return Failed(got.error);
      }
      if !got.value.connected {
        assert docs == docs[KeyFor(id) := docs[KeyFor(id)]];
        return Failed(RouterOffline);
      }
      PutRouter(got.value.(sessions := got.value.sessions - {username}));
      return Accepted;
    }

    /** Visits the document's sessions in the order of their sorted names. */
    method ListSessions(id: int, intervalSec: real, choices: Choices, sorted: seq<string>) returns (reply: Reply)
      requires Valid()
      requires GetRouter(id).Ok? && GetRouter(id).value.connected ==>
                 Enumerates(sorted, GetRouter(id).value.sessions.Keys) &&
                 ChoicesFor(choices, GetRouter(id).value.sessions.Keys)
      modifies this
      ensures Valid()
      ensures (docs, reply) == RedisCall(old(docs), Call.ListSessions(id, intervalSec, choices, sorted, sorted))
    {
      var got := GetRouter(id);
      if got.Err? {
        return Failed(got.error);
      }
      var r := got.value;
      if !r.connected {
        assert docs == docs[KeyFor(id) := docs[KeyFor(id)]];
        return Failed(RouterOffline);
      }
      var rate := RateOf(r.hotspots);
      var left, out := VisitSorted(r.sessions, sorted, rate, intervalSec, choices);
      PutRouter(r.(sessions := left));
      return Sessions(out);
    }
  }
}
