/** What the sales report of a batch counts, and redemption from a typed code to its session. */
module VoucherSales {
  import opened Wrappers
  import opened Codes
  import opened Vouchers

  /** The vouchers of a batch and tenant with that status. */
  function Having(vouchers: seq<Voucher>, tenant: int, batch: nat, status: Status): set<int> {
    set v | 0 <= v < |vouchers| && vouchers[v].tenant == tenant && vouchers[v].batch == batch &&
            vouchers[v].status == status
  }

  /** The sessions opened with vouchers of a batch. */
  function SessionsOf(s: State, batch: nat): set<int> {
    set i | 0 <= i < |s.sessions| && s.sessions[i].voucher < |s.vouchers| &&
            s.vouchers[s.sessions[i].voucher].batch == batch
  }

  /** Vouchers belong to the tenant of their batch, and none expires. */
  ghost predicate Fits(s: State) {
    && (forall v :: 0 <= v < |s.vouchers| ==>
          s.vouchers[v].batch < |s.batches| && s.batches[s.vouchers[v].batch].tenant == s.vouchers[v].tenant)
    && (forall v :: 0 <= v < |s.vouchers| ==> s.vouchers[v].status != Expired)
  }

  lemma {:induction false} RunFits(s: State, events: seq<Event>)
    requires Fits(s)
    ensures Fits(Run(s, events))
    decreases |events|
  {
    if events != [] {
      hide StartRedeem, Run;
      assert Fits(Next(s, events[0]));
      RunFits(Next(s, events[0]), events[1..]);
    }
  }

  lemma {:induction false} CountsHaving(vouchers: seq<Voucher>, tenant: int, batch: nat, status: Status)
    requires forall v :: 0 <= v < |vouchers| && vouchers[v].batch == batch ==> vouchers[v].tenant == tenant
    ensures CountStatus(vouchers, batch, status) == |Having(vouchers, tenant, batch, status)|
  {
    if vouchers == [] {
      assert Having(vouchers, tenant, batch, status) == {};
    } else {
      var n := |vouchers| - 1;
      CountsHaving(vouchers[..n], tenant, batch, status);
      HavingStep(vouchers[..n], vouchers[n], tenant, batch, status);
      assert vouchers[..n] + [vouchers[n]] == vouchers;
      hide Having;
    }
  }

  lemma HavingStep(vouchers: seq<Voucher>, last: Voucher, tenant: int, batch: nat, status: Status)
    requires last.batch == batch ==> last.tenant == tenant
    ensures |Having(vouchers + [last], tenant, batch, status)| ==
            |Having(vouchers, tenant, batch, status)| + (if last.batch == batch && last.status == status then 1 else 0)
  {
    var earlier, all := Having(vouchers, tenant, batch, status), Having(vouchers + [last], tenant, batch, status);
    assert forall v :: 0 <= v < |vouchers| ==> (v in all <==> v in earlier);
    if last.batch == batch && last.status == status {
      assert all == earlier + {|vouchers|};
    } else {
      assert all == earlier;
    }
  }

  /** One of those sessions was opened with that voucher. */
  predicate Opened(sessions: seq<Session>, these: set<int>, v: int) {
    exists i :: i in these && 0 <= i < |sessions| && sessions[i].voucher == v
  }

  /** As many sessions as vouchers, when no two sessions share one. */
  lemma {:induction false} AsManySessions(sessions: seq<Session>, these: set<int>, vouchers: set<int>)
    requires forall i :: i in these ==> 0 <= i < |sessions| && sessions[i].voucher in vouchers
    requires forall i, j :: i in these && j in these && i != j ==> sessions[i].voucher != sessions[j].voucher
    requires forall v :: v in vouchers ==> Opened(sessions, these, v)
    ensures |these| == |vouchers|
    decreases |these|
  {
    assert (exists i :: i in these) || these == {};
    if these == {} {
      assert forall v :: !Opened(sessions, these, v);
      assert forall v :: v !in vouchers;
    } else {
      var i :| i in these;
      var v := sessions[i].voucher;
      forall w | w in vouchers - {v}
        ensures Opened(sessions, these - {i}, w)
      {
        assert Opened(sessions, these, w);
        var j :| j in these && 0 <= j < |sessions| && sessions[j].voucher == w;
        assert j in these - {i};
      }
      AsManySessions(sessions, these - {i}, vouchers - {v});
    }
  }

  lemma RedeemedAreSessions(s: State, tenant: int, batch: nat)
    requires SessionsOk(s) && Fits(s) && batch < |s.batches| && s.batches[batch].tenant == tenant
    ensures |Having(s.vouchers, tenant, batch, Redeemed)| == |SessionsOf(s, batch)|
  {
    hide NamesVoucher;
    var these := SessionsOf(s, batch);
    forall v | v in Having(s.vouchers, tenant, batch, Redeemed)
      ensures Opened(s.sessions, these, v)
    {
      assert HasSession(s, v);
      var i :| 0 <= i < |s.sessions| && s.sessions[i].voucher == v;
      assert i in these;
    }
    AsManySessions(s.sessions, these, Having(s.vouchers, tenant, batch, Redeemed));
  }

  /**
   After every run, the report of a batch counts its vouchers status by status;
   the redeemed ones are as many as the sessions opened with them, and none has
   expired. Another tenant, or a batch without vouchers, gets no report.
   */
  lemma SalesCount(events: seq<Event>, tenant: int, batch: nat)
    ensures var s := Run(EMPTY, events);
            var sales := BatchSales(s, tenant, batch);
            && (sales.Some? <==>
                  batch < |s.batches| && s.batches[batch].tenant == tenant && s.batches[batch].created > 0)
            && (sales.Some? ==>
                  && sales.value.unused == |Having(s.vouchers, tenant, batch, Unused)|
                  && sales.value.redeemed == |Having(s.vouchers, tenant, batch, Redeemed)| == |SessionsOf(s, batch)|
                  && sales.value.expired == 0
                  && sales.value.revoked == |Having(s.vouchers, tenant, batch, Revoked)|)
  {
    RunKeepsInv(EMPTY, events);
    RunFits(EMPTY, events);
    var s := Run(EMPTY, events);
    assert SessionsOk(s) && BatchesOk(s);
    hide Run, Fits, Inv, SessionsOk, BatchesOk;
    if batch < |s.batches| && s.batches[batch].tenant == tenant {
      CountsAre(s, tenant, batch);
    }
  }

  lemma CountsAre(s: State, tenant: int, batch: nat)
    requires SessionsOk(s) && BatchesOk(s) && Fits(s) && batch < |s.batches| && s.batches[batch].tenant == tenant
    ensures BatchSales(s, tenant, batch).Some? <==> s.batches[batch].created > 0
    ensures CountStatus(s.vouchers, batch, Unused) == |Having(s.vouchers, tenant, batch, Unused)|
    ensures CountStatus(s.vouchers, batch, Redeemed) == |Having(s.vouchers, tenant, batch, Redeemed)|
    ensures |Having(s.vouchers, tenant, batch, Redeemed)| == |SessionsOf(s, batch)|
    ensures CountStatus(s.vouchers, batch, Expired) == 0
    ensures CountStatus(s.vouchers, batch, Revoked) == |Having(s.vouchers, tenant, batch, Revoked)|
  {
    InBatchPositive(s.vouchers, batch);
    CountsHaving(s.vouchers, tenant, batch, Unused);
    CountsHaving(s.vouchers, tenant, batch, Redeemed);
    CountsHaving(s.vouchers, tenant, batch, Expired);
    CountsHaving(s.vouchers, tenant, batch, Revoked);
    RedeemedAreSessions(s, tenant, batch);
    hide SessionsOk, CountStatus;
    assert Having(s.vouchers, tenant, batch, Expired) == {};
    hide Having, SessionsOf;
  }

  lemma {:induction false} InBatchPositive(vouchers: seq<Voucher>, batch: nat)
    ensures InBatch(vouchers, batch) > 0 <==> exists v :: 0 <= v < |vouchers| && vouchers[v].batch == batch
  {
    if vouchers != [] {
      var n := |vouchers| - 1;
      InBatchPositive(vouchers[..n], batch);
      if v :| 0 <= v < |vouchers| && vouchers[v].batch == batch {
        assert v < n ==> vouchers[..n][v].batch == batch;
      }
    }
  }

  lemma {:induction false} CountAppend(vouchers: seq<Voucher>, more: seq<Voucher>, batch: nat, status: Status)
    ensures CountStatus(vouchers + more, batch, status) ==
            CountStatus(vouchers, batch, status) + CountStatus(more, batch, status)
  {
    if more == [] {
      assert vouchers + more == vouchers;
    } else {
      var n := |more| - 1;
      assert (vouchers + more)[..|vouchers| + n] == vouchers + more[..n];
      CountAppend(vouchers, more[..n], batch, status);
    }
  }

  lemma {:induction false} CountUnused(vouchers: seq<Voucher>, batch: nat, status: Status)
    requires forall v :: 0 <= v < |vouchers| ==> vouchers[v].batch == batch && vouchers[v].status == Unused
    ensures CountStatus(vouchers, batch, status) == if status == Unused then |vouchers| else 0
  {
    if vouchers != [] {
      CountUnused(vouchers[..|vouchers| - 1], batch, status);
    }
  }

  lemma {:induction false} CountNone(vouchers: seq<Voucher>, batch: nat, status: Status)
    requires forall v :: 0 <= v < |vouchers| ==> vouchers[v].batch < batch
    ensures CountStatus(vouchers, batch, status) == 0
  {
    if vouchers != [] {
      CountNone(vouchers[..|vouchers| - 1], batch, status);
    }
  }

  /** The codes differ from each other and from those of all vouchers. */
  predicate AllNew(vouchers: seq<Voucher>, codes: seq<string>) {
    && (forall i, j :: 0 <= i < j < |codes| ==> codes[i] != codes[j])
    && (forall i, v :: 0 <= i < |codes| && 0 <= v < |vouchers| ==> codes[i] != vouchers[v].code)
  }

  /**
   A batch of a positive quantity whose codes differ from each other and from all
   vouchers gets a voucher for each code, all of them unused; any other is
   refused as a whole.
   */
  lemma NewBatchSales(s: State, tenant: int, quantity: int, codes: seq<string>)
    requires BatchesOk(s) && Generated(codes)
    ensures var s' := Next(s, NewBatch(tenant, quantity, codes));
            if quantity > 0 && AllNew(s.vouchers, codes)
            then BatchSales(s', tenant, |s.batches|) == if codes == [] then None else Some(Sales(|codes|, 0, 0, 0))
            else s' == s
  {
    hide Generated, BatchSales, CodesFree, AllNew, BatchesOk;
    AcceptedIff(s.vouchers, quantity, codes);
    if BatchAccepted(s.vouchers, quantity, codes) {
      SalesOfNew(s, tenant, quantity, codes);
    }
  }

  /** Its vouchers come after all others, in the order of the codes. */
  lemma NewBatchRows(s: State, tenant: int, quantity: int, codes: seq<string>, i: nat)
    requires Generated(codes) && quantity > 0 && AllNew(s.vouchers, codes)
    ensures var s' := Next(s, NewBatch(tenant, quantity, codes));
            && |s'.vouchers| == |s.vouchers| + |codes|
            && s'.batches == s.batches + [Batch(tenant, quantity, |codes|)]
            && (i < |s.vouchers| ==> s'.vouchers[i] == s.vouchers[i])
            && (i < |codes| ==> s'.vouchers[|s.vouchers| + i] == Voucher(tenant, |s.batches|, codes[i], Unused))
  {
    hide Generated, CodesFree, AllNew;
    AcceptedIff(s.vouchers, quantity, codes);
  }

  lemma AcceptedIff(vouchers: seq<Voucher>, quantity: int, codes: seq<string>)
    ensures BatchAccepted(vouchers, quantity, codes) <==> quantity > 0 && AllNew(vouchers, codes)
  {
  }

  lemma SalesOfNew(s: State, tenant: int, quantity: int, codes: seq<string>)
    requires BatchesOk(s) && BatchAccepted(s.vouchers, quantity, codes)
    ensures BatchSales(CreateBatch(s, tenant, quantity, codes), tenant, |s.batches|) ==
            if codes == [] then None else Some(Sales(|codes|, 0, 0, 0))
  {
    hide CountStatus, InBatch, BatchAccepted;
    var s', more := CreateBatch(s, tenant, quantity, codes), NewVouchers(tenant, |s.batches|, codes);
    assert s'.vouchers == s.vouchers + more;
    CountMore(s.vouchers, more, |s.batches|, Unused);
    CountMore(s.vouchers, more, |s.batches|, Redeemed);
    CountMore(s.vouchers, more, |s.batches|, Expired);
    CountMore(s.vouchers, more, |s.batches|, Revoked);
    if codes != [] {
      assert s'.vouchers[|s.vouchers|] == more[0];
    }
  }

  lemma CountMore(vouchers: seq<Voucher>, more: seq<Voucher>, batch: nat, status: Status)
    requires forall v :: 0 <= v < |vouchers| ==> vouchers[v].batch < batch
    requires forall v :: 0 <= v < |more| ==> more[v].batch == batch && more[v].status == Unused
    ensures CountStatus(vouchers + more, batch, status) == if status == Unused then |more| else 0
  {
    CountAppend(vouchers, more, batch, status);
    CountNone(vouchers, batch, status);
    CountUnused(more, batch, status);
  }

  // ---- From a typed code to a session ----

  /** Transaction `t` is over with that result, and the tables are as given. */
  predicate Ended(s': State, t: int, r: Result<(), Error>, vouchers: seq<Voucher>, sessions: seq<Session>) {
    t in s'.procs && s'.procs[t] == Done(r) && s'.vouchers == vouchers && s'.sessions == sessions
  }

  ghost function RedeemRun(s: State, t: int, tenant: int, raw: string, profile: int, hotspotKnown: bool): State {
    Run(s, [BeginRedeem(t, tenant, raw, profile, hotspotKnown), Step(t), Step(t), Step(t)])
  }

  lemma RunsAll(s: State, t: int, tenant: int, raw: string, profile: int, hotspotKnown: bool)
    ensures RedeemRun(s, t, tenant, raw, profile, hotspotKnown) ==
            Next(Next(Next(Next(s, BeginRedeem(t, tenant, raw, profile, hotspotKnown)), Step(t)), Step(t)), Step(t))
  {
    hide Next;
    var e := BeginRedeem(t, tenant, raw, profile, hotspotKnown);
    assert [e, Step(t), Step(t), Step(t)][1..] == [Step(t), Step(t), Step(t)];
    RunThree(Next(s, e), Step(t), Step(t), Step(t));
  }

  lemma DoneStays(s: State, t: int)
    requires t in s.procs && s.procs[t].Done?
    ensures Next(s, Step(t)) == s
  {
  }

  /** From the guarded update on: three steps of a redemption whose voucher row is free. */
  lemma UpdateAlone(s: State, t: int, tenant: int, v: nat, hotspotKnown: bool, username: string)
    requires t in s.procs && s.procs[t] == RedeemUpdate(tenant, v, hotspotKnown, username)
    requires v < |s.vouchers| && v !in s.lock && s.vouchers[v].tenant == tenant && s.vouchers[v].status == Unused
    ensures var s' := Next(Next(Next(s, Step(t)), Step(t)), Step(t));
            if hotspotKnown
            then Ended(s', t, Ok(()), s.vouchers[v := s.vouchers[v].(status := Redeemed)],
                       s.sessions + [Session(tenant, v, username)])
            else Ended(s', t, Err(NotFound), s.vouchers, s.sessions)
  {
    var s1 := Next(s, Step(t));
    if !hotspotKnown {
      DoneStays(s1, t);
    } else {
      assert s1 == Goto(s, t, RedeemInsert(tenant, v, username)).(lock := s.lock[v := t]);
      assert Next(s1, Step(t)) == Goto(s1, t, RedeemCommit(tenant, v, username));
    }
  }

  /**
   Typing a voucher's code in any spelling redeems that voucher, if it is unused
   and the hotspot is known, and opens one session under the username of that
   profile and code; a used or revoked one conflicts, and nothing else changes.
   */
  lemma RedeemByCode(s: State, t: int, tenant: int, raw: string, profile: int, hotspotKnown: bool, v: nat, code: string)
    requires Inv(s) && t !in s.procs && v < |s.vouchers| && v !in s.lock
    requires IsCode(code) && s.vouchers[v].code == DisplayCode(code) && NormalizeCode(raw) == Ok(code)
    requires s.vouchers[v].tenant == tenant
    ensures var s' := RedeemRun(s, t, tenant, raw, profile, hotspotKnown);
            if s.vouchers[v].status != Unused then Ended(s', t, Err(Conflict), s.vouchers, s.sessions)
            else if !hotspotKnown then Ended(s', t, Err(NotFound), s.vouchers, s.sessions)
            else Ended(s', t, Ok(()), s.vouchers[v := s.vouchers[v].(status := Redeemed)],
                       s.sessions + [Session(tenant, v, SessionUsername(profile, code))])
  {
    LookupFinds(s, tenant, v, code);
    RunsAll(s, t, tenant, raw, profile, hotspotKnown);
    hide Inv, NormalizeCode, DisplayCode, SessionUsername, RedeemRun, VoucherByCode, IsCode;
    var s1 := Next(s, BeginRedeem(t, tenant, raw, profile, hotspotKnown));
    if s.vouchers[v].status != Unused {
      DoneStays(s1, t);
    } else {
      UpdateAlone(s1, t, tenant, v, hotspotKnown, SessionUsername(profile, code));
    }
  }

  /** A typed code of the wrong format, or that none of the tenant's vouchers has, changes nothing. */
  lemma RedeemWrongCode(s: State, t: int, tenant: int, raw: string, profile: int, hotspotKnown: bool)
    requires Inv(s) && t !in s.procs
    requires NormalizeCode(raw).Ok? ==>
               forall v :: 0 <= v < |s.vouchers| && s.vouchers[v].tenant == tenant ==>
                 s.vouchers[v].code != DisplayCode(NormalizeCode(raw).value)
    ensures Ended(RedeemRun(s, t, tenant, raw, profile, hotspotKnown), t,
                  Err(if NormalizeCode(raw).Ok? then NotFound else InvalidFormat), s.vouchers, s.sessions)
  {
    if NormalizeCode(raw).Ok? {
      NormalizeIdempotent(raw);
      var found := VoucherByCode(s.vouchers, tenant, NormalizeCode(raw).value);
      if found.Some? {
        assert IsDisplayed(s.vouchers[found.value].code);
        var c :| IsCode(c) && s.vouchers[found.value].code == DisplayCode(c);
        LookupFindsOnlyItsCode(c, raw);
        assert false;
      }
    }
    RunsAll(s, t, tenant, raw, profile, hotspotKnown);
    hide Inv, NormalizeCode, DisplayCode, SessionUsername, RedeemRun, VoucherByCode, IsCode;
    var s1 := Next(s, BeginRedeem(t, tenant, raw, profile, hotspotKnown));
    DoneStays(s1, t);
  }

  lemma LookupFinds(s: State, tenant: int, v: nat, code: string)
    requires CodesOk(s.vouchers) && v < |s.vouchers| && s.vouchers[v].tenant == tenant
    requires IsCode(code) && s.vouchers[v].code == DisplayCode(code)
    ensures VoucherByCode(s.vouchers, tenant, code) == Some(v)
  {
    DisplayStrips(code);
    hide Without, ToUpper, DisplayCode, IsCode;
    var found := VoucherByCode(s.vouchers, tenant, code);
    assert MatchesStored(s.vouchers[v].code, code);
    assert found.Some? && IsDisplayed(s.vouchers[found.value].code);
    var c :| IsCode(c) && s.vouchers[found.value].code == DisplayCode(c);
    DisplayStrips(c);
    assert c == code;
  }
}
