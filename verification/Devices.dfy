/** Emulated routers: what each call of SimState does to a router and what it answers. */
module Devices {
  datatype SimSession = SimSession(username: string, mac: string, ip: string, bytesRX: int, bytesTX: int)

  datatype Hotspot = Hotspot(name: string, baseRx: int, baseTx: int, rxRate: int, txRate: int, multiplier: real,
                             uptimeLimit: int)

  datatype Router = Router(id: int, name: string, connected: bool, lastSeen: int,
                           sessions: map<string, SimSession>, hotspots: map<string, Hotspot>)

  datatype Error = UnknownRouter | RouterOffline | NoHotspot

  /** int64(x) of a float: truncation towards zero. */
  function Truncate(x: real): int {
    if x >= 0.0 then x.Floor else -((-x).Floor)
  }

  predicate KeyedByName(sessions: map<string, SimSession>) {
    forall n :: n in sessions ==> sessions[n].username == n
  }

  // ---- Hotspots ----

  /** int64(float64(base) * multiplier) */
  function Scaled(base: int, multiplier: real): int {
    Truncate(base as real * multiplier)
  }

  function WithMultiplier(h: Hotspot, multiplier: real): Hotspot {
    h.(multiplier := multiplier, rxRate := Scaled(h.baseRx, multiplier), txRate := Scaled(h.baseTx, multiplier))
  }

  /** ApplyHotspotConfig on a connected router. */
  function Configured(r: Router, hotspot: string, rx: int, tx: int, uptimeLimit: int): Router {
    var h := if hotspot in r.hotspots then r.hotspots[hotspot] else Hotspot(hotspot, 0, 0, 0, 0, 1.0, 0);
    r.(hotspots := r.hotspots[hotspot :=
         WithMultiplier(h.(baseRx := rx, baseTx := tx, uptimeLimit := uptimeLimit), h.multiplier)])
  }

  /** ApplyRateMultiplier on a connected router that knows the hotspot. */
  function Boosted(r: Router, hotspot: string, multiplier: real): Router
    requires hotspot in r.hotspots
  {
    r.(hotspots := r.hotspots[hotspot := WithMultiplier(r.hotspots[hotspot], multiplier)])
  }

  /** `rate` is the largest positive receive rate of the hotspots, or 1024 when none is positive. */
  ghost predicate IsRate(hotspots: map<string, Hotspot>, rate: int) {
    if exists k :: k in hotspots && hotspots[k].rxRate > 0
    then rate > 0 && (exists k :: k in hotspots && hotspots[k].rxRate == rate) &&
         forall k :: k in hotspots ==> hotspots[k].rxRate <= rate
    else rate == 1024
  }

  lemma {:induction false} RateExists(hotspots: map<string, Hotspot>)
    ensures exists rate :: IsRate(hotspots, rate)
    decreases |hotspots|
  {
    if exists k :: k in hotspots && hotspots[k].rxRate > 0 {
      var k :| k in hotspots && hotspots[k].rxRate > 0;
      var rest := hotspots - {k};
      RateExists(rest);
      var below :| IsRate(rest, below);
      var best := if (exists j :: j in rest && rest[j].rxRate > 0) && below > hotspots[k].rxRate then below
                  else hotspots[k].rxRate;
      assert forall j :: j in hotspots && j != k ==> j in rest && rest[j] == hotspots[j];
      assert IsRate(hotspots, best);
    } else {
      assert IsRate(hotspots, 1024);
    }
  }

  /** rateForSession and rateForRouter. */
  ghost function Rate(hotspots: map<string, Hotspot>): (rate: int)
    ensures IsRate(hotspots, rate) && rate > 0
  {
    RateExists(hotspots);
    var rate :| IsRate(hotspots, rate);
    rate
  }

  // ---- Listing ----

  /** The random choices of one listing: a jitter and a drop per session. */
  datatype Choices = Choices(jitter: map<string, real>, drops: set<string>)

  ghost predicate ChoicesFor(c: Choices, names: set<string>) {
    names <= c.jitter.Keys && forall n :: n in c.jitter ==> 0.6 <= c.jitter[n] < 1.4
  }

  /** A session's counters after `intervalSec` more seconds of traffic. */
  function Advanced(s: SimSession, rate: int, intervalSec: real, jitter: real): SimSession {
    s.(bytesRX := s.bytesRX + Truncate(rate as real * intervalSec * 125.0 * jitter),
       bytesTX := s.bytesTX + Truncate(rate as real * intervalSec * 125.0 * jitter * 0.28))
  }

  /** `order` visits each name once. */
  ghost predicate Enumerates(order: seq<string>, names: set<string>) {
    && (forall i, j :: 0 <= i < j < |order| ==> order[i] != order[j])
    && (forall n :: n in names <==> n in order)
  }

  /** The loop of ListSessions over the sessions still to visit: advance, report, perhaps drop. */
  function Visit(sessions: map<string, SimSession>, order: seq<string>, rate: int, intervalSec: real, c: Choices)
    : (r: (map<string, SimSession>, seq<SimSession>))
    requires forall n :: n in order ==> n in sessions && n in c.jitter
    requires forall i, j :: 0 <= i < j < |order| ==> order[i] != order[j]
    decreases |order|
  {
    if order == [] then (sessions, [])
    else
      var name := order[0];
      var s := Advanced(sessions[name], rate, intervalSec, c.jitter[name]);
      var left := if name in c.drops && |sessions| > 1 then sessions - {name} else sessions[name := s];
      var rest := Visit(left, order[1..], rate, intervalSec, c);
      (rest.0, [s] + rest.1)
  }

  /** The sessions that a listing keeps: those not chosen to drop, or the last one visited when all were. */
  ghost function Kept(names: set<string>, order: seq<string>, drops: set<string>): set<string> {
    if names <= drops && order != [] then {order[|order| - 1]} else names - drops
  }

  /** The same in the middle of the loop, when only `order` is left to visit. */
  ghost predicate Survives(names: set<string>, order: seq<string>, drops: set<string>, kept: set<string>) {
    var dropped := set n | n in order && n in drops;
    if names <= dropped && order != [] then kept == {order[|order| - 1]} else kept == names - dropped
  }

  lemma TwoNames(names: set<string>, a: string, b: string)
    requires a in names && b in names && a != b
    ensures |names| > 1
  {
    assert names == names - {a} + {a};
    assert b in names - {a};
  }

  lemma {:induction false} VisitKeeps(sessions: map<string, SimSession>, order: seq<string>, rate: int,
                                      intervalSec: real, c: Choices)
    requires forall n :: n in order ==> n in sessions && n in c.jitter
    requires forall i, j :: 0 <= i < j < |order| ==> order[i] != order[j]
    ensures Survives(sessions.Keys, order, c.drops, Visit(sessions, order, rate, intervalSec, c).0.Keys)
    decreases |order|
  {
    hide Advanced;
    if order != [] {
      var name := order[0];
      var s := Advanced(sessions[name], rate, intervalSec, c.jitter[name]);
      var left := if name in c.drops && |sessions| > 1 then sessions - {name} else sessions[name := s];
      VisitKeeps(left, order[1..], rate, intervalSec, c);
      assert |sessions.Keys| == |sessions|;
      SurvivesStep(sessions.Keys, order, c.drops, left.Keys, Visit(left, order[1..], rate, intervalSec, c).0.Keys);
    }
  }

  /** One visit, as far as names go. */
  lemma SurvivesStep(names: set<string>, order: seq<string>, drops: set<string>, left: set<string>, kept: set<string>)
    requires order != [] && (forall n :: n in order ==> n in names)
    requires forall i, j :: 0 <= i < j < |order| ==> order[i] != order[j]
    requires left == if order[0] in drops && |names| > 1 then names - {order[0]} else names
    requires Survives(left, order[1..], drops, kept)
    ensures Survives(names, order, drops, kept)
  {
    var name := order[0];
    var dropped := set n | n in order && n in drops;
    var later := set n | n in order[1..] && n in drops;
    assert name !in order[1..];
    assert dropped == if name in drops then later + {name} else later;
    if names <= dropped {
      VisitDropsAll(names, order, drops);
    } else {
      var other :| other in names && other !in dropped;
      if name in drops {
        TwoNames(names, name, other);
        assert other in left && other !in later;
        assert left - later == names - dropped;
      } else {
        assert name in left && name !in later;
      }
    }
  }

  /** When everything left is to be dropped, more than one name is left unless this is the last visit. */
  lemma VisitDropsAll(names: set<string>, order: seq<string>, drops: set<string>)
    requires order != [] && (forall i, j :: 0 <= i < j < |order| ==> order[i] != order[j])
    requires (forall n :: n in order ==> n in names) && names <= (set n | n in order && n in drops)
    ensures |order| > 1 ==> |names| > 1
    ensures |order| == 1 ==> names == {order[0]} && |names| == 1
  {
    if |order| > 1 {
      assert order[1] in order;
      TwoNames(names, order[0], order[1]);
    } else {
      assert names == {order[0]};
    }
  }

  /** Each session is reported once, with its counters advanced, whatever is dropped; kept ones stay advanced. */
  lemma {:induction false} VisitReports(sessions: map<string, SimSession>, order: seq<string>, rate: int,
                                        intervalSec: real, c: Choices)
    requires forall n :: n in order ==> n in sessions && n in c.jitter
    requires forall i, j :: 0 <= i < j < |order| ==> order[i] != order[j]
    ensures var r := Visit(sessions, order, rate, intervalSec, c);
            && |r.1| == |order|
            && (forall i :: 0 <= i < |order| ==>
                  r.1[i] == Advanced(sessions[order[i]], rate, intervalSec, c.jitter[order[i]]))
            && (forall n :: n in r.0 ==> n in sessions)
            && (forall n :: n in r.0 && n in order ==>
                  r.0[n] == Advanced(sessions[n], rate, intervalSec, c.jitter[n]))
            && (forall n :: n in r.0 && n !in order ==> r.0[n] == sessions[n])
    decreases |order|
  {
    hide Advanced;
    if order != [] {
      var name := order[0];
      var s := Advanced(sessions[name], rate, intervalSec, c.jitter[name]);
      var left := if name in c.drops && |sessions| > 1 then sessions - {name} else sessions[name := s];
      VisitReports(left, order[1..], rate, intervalSec, c);
      assert name !in order[1..];
      assert order == [name] + order[1..];
    }
  }

  /** ListSessions on a connected router. */
  ghost function Listed(r: Router, intervalSec: real, c: Choices, order: seq<string>): (Router, seq<SimSession>)
    requires Enumerates(order, r.sessions.Keys) && ChoicesFor(c, r.sessions.Keys)
  {
    var v := Visit(r.sessions, order, Rate(r.hotspots), intervalSec, c);
    (r.(sessions := v.0), v.1)
  }

  /** `later` is the session `earlier` with counters that did not fall. */
  predicate Counted(earlier: SimSession, later: SimSession) {
    && later == earlier.(bytesRX := later.bytesRX, bytesTX := later.bytesTX)
    && later.bytesRX >= earlier.bytesRX && later.bytesTX >= earlier.bytesTX
  }

  /** A listing reports every session exactly once, lowers no counter and never empties a router. */
  lemma ListingKeepsCounters(r: Router, intervalSec: real, c: Choices, order: seq<string>)
    requires Enumerates(order, r.sessions.Keys) && ChoicesFor(c, r.sessions.Keys) && intervalSec >= 0.0
    ensures |Listed(r, intervalSec, c, order).1| == |order| == |r.sessions|
    ensures forall i :: 0 <= i < |order| ==>
              order[i] in r.sessions && Counted(r.sessions[order[i]], Listed(r, intervalSec, c, order).1[i])
    ensures var left := Listed(r, intervalSec, c, order).0.sessions;
            && left.Keys == Kept(r.sessions.Keys, order, c.drops)
            && (forall n :: n in left ==> n in r.sessions && Counted(r.sessions[n], left[n]))
            && (r.sessions != map[] ==> left != map[])
  {
    hide Kept, IsRate, Counted, Advanced, Visit;
    KeptSessions(r.sessions, order, Rate(r.hotspots), intervalSec, c);
    VisitCounts(r.sessions, order, Rate(r.hotspots), intervalSec, c);
  }

  lemma VisitCounts(sessions: map<string, SimSession>, order: seq<string>, rate: int, intervalSec: real, c: Choices)
    requires Enumerates(order, sessions.Keys) && ChoicesFor(c, sessions.Keys) && intervalSec >= 0.0 && rate > 0
    ensures var v := Visit(sessions, order, rate, intervalSec, c);
            && |v.1| == |order|
            && (forall i :: 0 <= i < |order| ==> order[i] in sessions && Counted(sessions[order[i]], v.1[i]))
            && (forall n :: n in v.0 ==> n in sessions && Counted(sessions[n], v.0[n]))
  {
    hide Advanced, Counted, Visit;
    VisitReports(sessions, order, rate, intervalSec, c);
    forall n | n in sessions
      ensures Counted(sessions[n], Advanced(sessions[n], rate, intervalSec, c.jitter[n]))
    {
      AdvancedCounts(sessions[n], rate, intervalSec, c.jitter[n]);
    }
    forall i | 0 <= i < |order|
      ensures order[i] in sessions.Keys
    {
    }
  }

  lemma AdvancedCounts(s: SimSession, rate: int, intervalSec: real, jitter: real)
    requires rate > 0 && intervalSec >= 0.0 && jitter >= 0.0
    ensures Counted(s, Advanced(s, rate, intervalSec, jitter))
  {
    TrafficGrows(rate, intervalSec, jitter);
  }

  lemma KeptSessions(sessions: map<string, SimSession>, order: seq<string>, rate: int, intervalSec: real, c: Choices)
    requires Enumerates(order, sessions.Keys) && ChoicesFor(c, sessions.Keys)
    ensures Visit(sessions, order, rate, intervalSec, c).0.Keys == Kept(sessions.Keys, order, c.drops)
    ensures |order| == |sessions|
    ensures sessions != map[] ==> order != [] && Visit(sessions, order, rate, intervalSec, c).0 != map[]
  {
    VisitKeeps(sessions, order, rate, intervalSec, c);
    EnumerationCounts(order, sessions.Keys);
    hide Visit;
    var kept := Visit(sessions, order, rate, intervalSec, c).0;
    assert |sessions.Keys| == |sessions|;
    assert sessions.Keys * c.drops == set n | n in order && n in c.drops;
    if sessions != map[] {
      if sessions.Keys <= c.drops {
        assert order[|order| - 1] in kept.Keys;
      } else {
        var n :| n in sessions.Keys && n !in c.drops;
        assert n in kept.Keys;
      }
    }
  }

  lemma TrafficGrows(rate: int, intervalSec: real, jitter: real)
    requires rate > 0 && intervalSec >= 0.0 && jitter >= 0.0
    ensures Truncate(rate as real * intervalSec * 125.0 * jitter) >= 0
    ensures Truncate(rate as real * intervalSec * 125.0 * jitter * 0.28) >= 0
  {
    var x := rate as real * intervalSec;
    assert x >= 0.0;
    assert x * 125.0 >= 0.0;
    assert x * 125.0 * jitter >= 0.0;
  }

  lemma {:induction false} EnumerationCounts(order: seq<string>, names: set<string>)
    requires Enumerates(order, names)
    ensures |order| == |names|
    decreases |order|
  {
    if order == [] {
      assert names == {} || exists n :: n in names;
      assert names == {};
    } else {
      var rest := names - {order[0]};
      assert order == [order[0]] + order[1..];
      EnumerationCounts(order[1..], rest);
    }
  }

  /**
   Two visiting orders leave the same sessions exactly when some session is not
   chosen to drop, or both visit the same session last.
   */
  lemma OrderMatters(r: Router, intervalSec: real, c: Choices, order: seq<string>, order': seq<string>)
    requires Enumerates(order, r.sessions.Keys) && Enumerates(order', r.sessions.Keys)
    requires ChoicesFor(c, r.sessions.Keys) && r.sessions != map[]
    ensures order != [] && order' != []
    ensures Listed(r, intervalSec, c, order).0 == Listed(r, intervalSec, c, order').0 <==>
              (exists n :: n in r.sessions && n !in c.drops) || order[|order| - 1] == order'[|order'| - 1]
    ensures forall x :: x in Listed(r, intervalSec, c, order).1 <==> x in Listed(r, intervalSec, c, order').1
  {
    var rate := Rate(r.hotspots);
    KeptSessions(r.sessions, order, rate, intervalSec, c);
    KeptSessions(r.sessions, order', rate, intervalSec, c);
    SameSurvivors(r.sessions, order, order', rate, intervalSec, c);
    SameReports(r.sessions, order, order', rate, intervalSec, c);
    SameReports(r.sessions, order', order, rate, intervalSec, c);
    hide Visit, IsRate;
    if r.sessions.Keys <= c.drops {
      assert order[|order| - 1] in {order[|order| - 1]};
    }
  }

  lemma SameSurvivors(sessions: map<string, SimSession>, order: seq<string>, order': seq<string>, rate: int,
                      intervalSec: real, c: Choices)
    requires Enumerates(order, sessions.Keys) && Enumerates(order', sessions.Keys) && sessions.Keys <= c.jitter.Keys
    ensures var v := Visit(sessions, order, rate, intervalSec, c).0;
            var v' := Visit(sessions, order', rate, intervalSec, c).0;
            v == v' <==> v.Keys == v'.Keys
  {
    VisitReports(sessions, order, rate, intervalSec, c);
    VisitReports(sessions, order', rate, intervalSec, c);
    hide Visit, Advanced;
    var v, v' := Visit(sessions, order, rate, intervalSec, c).0, Visit(sessions, order', rate, intervalSec, c).0;
    forall n | n in v && n in v'
      ensures v[n] == v'[n]
    {
      assert n in sessions.Keys;
    }
  }

  lemma SameReports(sessions: map<string, SimSession>, order: seq<string>, order': seq<string>, rate: int,
                    intervalSec: real, c: Choices)
    requires Enumerates(order, sessions.Keys) && Enumerates(order', sessions.Keys) && sessions.Keys <= c.jitter.Keys
    ensures forall x :: x in Visit(sessions, order, rate, intervalSec, c).1 ==>
                        x in Visit(sessions, order', rate, intervalSec, c).1
  {
    VisitReports(sessions, order, rate, intervalSec, c);
    VisitReports(sessions, order', rate, intervalSec, c);
    hide Visit, Advanced;
    var v, v' := Visit(sessions, order, rate, intervalSec, c).1, Visit(sessions, order', rate, intervalSec, c).1;
    forall i | 0 <= i < |order|
      ensures v[i] in v'
    {
      assert order[i] in sessions.Keys;
      var j := Position(order', order[i]);
      assert v'[j] == v[i];
    }
  }

  ghost function Position(order: seq<string>, name: string): (j: nat)
    requires name in order
    ensures j < |order| && order[j] == name
  {
    var j: nat :| j < |order| && order[j] == name;
    j
  }
}
