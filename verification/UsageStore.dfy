/** The store's session methods and the API disconnect, over tables updated in place. */
module UsageStore {
  import opened Wrappers
  import opened UsageTables
  import opened Simulators
  import opened SimulatorStores

  /** A whole transaction of another writer. */
  datatype Write =
    | SnapshotOf(id: int, at: int, now: int, reported: Counters)
    | CloseOf(id: int, endedAt: int, reported: Counters)

  function Apply(t: Tables, w: Write): Tables {
    var r := match w
      case SnapshotOf(id, at, now, reported) => Snapshot(t, id, at, now, reported)
      case CloseOf(id, endedAt, reported) => Close(t, id, endedAt, reported);
    if r.Ok? then r.value else t
  }

  function ApplyAll(t: Tables, ws: seq<Write>): Tables {
    if ws == [] then t else Apply(ApplyAll(t, ws[..|ws| - 1]), ws[|ws| - 1])
  }

  class Store {
    var sessions: map<int, Session>
    var usage: seq<UsageRow>

    function View(): Tables
      reads this
    {
      Tables(sessions, usage)
    }

    constructor ()
      ensures View() == Tables(map[], [])
    {
      sessions, usage := map[], [];
    }

    method SnapshotSessionUsage(id: int, at: int, now: int, bytesRX: nat, bytesTX: nat)
      returns (r: Result<Session, Error>)
      modifies this
      ensures var spec := Snapshot(old(View()), id, at, now, Counters(bytesRX, bytesTX));
              if spec.Ok? then View() == spec.value && r == Ok(sessions[id]) && id in sessions
              else View() == old(View()) && r == Err(spec.error)
    {
      if id !in sessions || !sessions[id].active {
        return Err(NotFound);
      }
      var sess := sessions[id];
      var deltaRX := bytesRX - sess.bytes.rx;
      var deltaTX := bytesTX - sess.bytes.tx;
      if deltaRX < 0 {
        deltaRX := 0;
      }
      if deltaTX < 0 {
        deltaTX := 0;
      }
      var row := UsageRow(sess.tenant, id, sess.voucher, at, at, 0, Counters(deltaRX, deltaTX), sess.rateWindow);
      var k := FindRow(usage, id, at);
      if k.None? {
        usage := usage + [row];
      } else {
        usage := usage[k.value := usage[k.value].(bytes := Plus(usage[k.value].bytes, row.bytes), endedAt := now)];
      }
      sess := sess.(bytes := Counters(bytesRX, bytesTX), lastSeenAt := at);
      sessions := sessions[id := sess];
      return Ok(sess);
    }

    method CloseSession(id: int, endedAt: int, reportedRX: nat, reportedTX: nat) returns (r: Result<Session, Error>)
      modifies this
      ensures var spec := Close(old(View()), id, endedAt, Counters(reportedRX, reportedTX));
              if spec.Ok? then View() == spec.value && id in sessions && r == Ok(sessions[id]) && !sessions[id].active
              else View() == old(View()) && r == Err(spec.error)
    {
      if id !in sessions || !sessions[id].active {
        return Err(NotFound);
      }
      var sess := sessions[id];
      var bytesRX, bytesTX := reportedRX, reportedTX;
      var deltaRX := bytesRX - sess.bytes.rx;
      var deltaTX := bytesTX - sess.bytes.tx;
      if deltaRX < 0 {
        deltaRX := 0;
      }
      if deltaTX < 0 {
        deltaTX := 0;
      }
      if bytesRX < sess.bytes.rx {
        bytesRX := sess.bytes.rx;
      }
      if bytesTX < sess.bytes.tx {
        bytesTX := sess.bytes.tx;
      }
      var duration := WholeSeconds(endedAt - sess.startedAt);
      if duration < 0 || duration > MAX_INTEGER {
        return Err(CheckViolation);
      }
      var row := UsageRow(sess.tenant, id, sess.voucher, endedAt - MINUTE, endedAt, duration,
                          Counters(deltaRX, deltaTX), sess.rateWindow);
      var k := FindRow(usage, id, endedAt - MINUTE);
      if k.None? {
        usage := usage + [row];
      } else {
        usage := usage[k.value := usage[k.value].(bytes := Plus(usage[k.value].bytes, row.bytes), endedAt := endedAt,
                                                  durationSec := duration)];
      }
      sess := sess.(active := false, endTime := Some(endedAt), bytes := Counters(bytesRX, bytesTX));
      sessions := sessions[id := sess];
      return Ok(sess);
    }

    /** Whole transactions of other writers, in the order they commit. */
    method LetOthersWrite(ws: seq<Write>)
      modifies this
      ensures View() == ApplyAll(old(View()), ws)
    {
      for i := 0 to |ws|
        invariant View() == ApplyAll(old(View()), ws[..i])
      {
        assert ws[..i + 1][..i] == ws[..i];
        match ws[i]
        case SnapshotOf(id, at, now, reported) => var _ := SnapshotSessionUsage(id, at, now, reported.rx, reported.tx);
        case CloseOf(id, endedAt, reported) => var _ := CloseSession(id, endedAt, reported.rx, reported.tx);
      }
      assert ws[..|ws|] == ws;
    }

    /**
     Reads the session, looks up its router (`router` is None when its hotspot or
     router is not found), drops it from the router whether or not that works,
     and closes it with the counters it read; others write in between.
     */
    method PostSessionDisconnect(tenant: int, id: int, router: Option<int>, device: Simulator, endedAt: int,
                                 meanwhile: seq<Write>)
      returns (r: Result<Session, Error>)
      requires device.Valid()
      modifies this, device
      ensures device.Valid()
      ensures !(id in old(sessions) && old(sessions[id]).tenant == tenant) ==>
                r == Err(NotFound) && View() == old(View()) && device.routers == old(device.routers)
      ensures id in old(sessions) && old(sessions[id]).tenant == tenant && !old(sessions[id]).active ==>
                r == Ok(old(sessions[id])) && View() == old(View()) && device.routers == old(device.routers)
      ensures id in old(sessions) && old(sessions[id]).tenant == tenant && old(sessions[id]).active && router.None? ==>
                r == Err(NotFound) && View() == old(View()) && device.routers == old(device.routers)
      ensures id in old(sessions) && old(sessions[id]).tenant == tenant && old(sessions[id]).active && router.Some? ==>
                var sess := old(sessions[id]);
                var now := ApplyAll(old(View()), meanwhile);
                var spec := Close(now, id, endedAt, sess.bytes);
                && device.routers ==
                   MemoryCall(old(device.routers), DisconnectSession(router.value, sess.username)).0
                && (if spec.Ok? then View() == spec.value && id in sessions && r == Ok(sessions[id])
                    else View() == now && r == Err(spec.error))
    {
      if id !in sessions || sessions[id].tenant != tenant {
        return Err(NotFound);
      }
      var sess := sessions[id];
      if !sess.active {
        return Ok(sess);
      }
      if router.None? {
        return Err(NotFound);
      }
      var _ := device.DisconnectSession(router.value, sess.username);
      LetOthersWrite(meanwhile);
      r := CloseSession(id, endedAt, sess.bytes.rx, sess.bytes.tx);
    }
  }
}
