/**
 Batches of single-use vouchers, redeemed through the portal and revoked by
 staff, with any number of redemptions and revocations interleaved.
 */
module Vouchers {
  import opened Wrappers
  import opened Codes

  datatype Status = Unused | Redeemed | Expired | Revoked

  datatype Voucher = Voucher(tenant: int, batch: nat, code: string, status: Status)

  /** `created` records how many codes the batch was created with. */
  datatype Batch = Batch(tenant: int, quantity: int, created: nat)

  datatype Session = Session(tenant: int, voucher: nat, username: string)

  datatype Error = InvalidFormat | NotFound | Conflict | Aborted

  datatype Proc =
    | RedeemUpdate(tenant: int, voucher: nat, hotspotKnown: bool, username: string)
    | RedeemInsert(tenant: int, voucher: nat, username: string)        // holds the voucher row
    | RedeemCommit(tenant: int, voucher: nat, username: string)
    | RevokeUpdate(tenant: int, revoked: nat)
    | Done(result: Result<(), Error>)

  datatype State = State(batches: seq<Batch>, vouchers: seq<Voucher>, sessions: seq<Session>,
                         lock: map<nat, int>, procs: map<int, Proc>)

  const EMPTY := State([], [], [], map[], map[])

  function Held(p: Proc): Option<nat> {
    match p
    case RedeemInsert(_, v, _) => Some(v)
    case RedeemCommit(_, v, _) => Some(v)
    case _ => None
  }

  function Goto(s: State, t: int, p: Proc): State {
    s.(procs := s.procs[t := p])
  }

  function Finish(s: State, t: int, r: Result<(), Error>): State {
    s.(lock := Unlock(s.lock, t), procs := s.procs[t := Done(r)])
  }

  function Unlock(lock: map<nat, int>, t: int): map<nat, int> {
    map v | v in lock && lock[v] != t :: lock[v]
  }

  /** VoucherByCode */
  function VoucherByCode(vouchers: seq<Voucher>, tenant: int, code: string): (r: Option<nat>)
    ensures r.Some? ==> r.value < |vouchers| && vouchers[r.value].tenant == tenant &&
                        MatchesStored(vouchers[r.value].code, code)
    ensures r.None? ==> forall v :: 0 <= v < |vouchers| ==>
                          !(vouchers[v].tenant == tenant && MatchesStored(vouchers[v].code, code))
  {
    if vouchers == [] then None
    else
      var n := |vouchers| - 1;
      var earlier := VoucherByCode(vouchers[..n], tenant, code);
      if earlier.Some? then earlier
      else if vouchers[n].tenant == tenant && MatchesStored(vouchers[n].code, code) then Some(n)
      else None
  }

  /** PortalPostRedeem up to its call of RedeemVoucher: normalise, look up, check the status. */
  function StartRedeem(s: State, tenant: int, raw: string, profile: int, hotspotKnown: bool): Proc {
    var code := NormalizeCode(raw);
    if code.Err? then Done(Err(InvalidFormat))
    else
      var found := VoucherByCode(s.vouchers, tenant, code.value);
      if found.None? then Done(Err(NotFound))
      else if s.vouchers[found.value].status != Unused then Done(Err(Conflict))
      else RedeemUpdate(tenant, found.value, hotspotKnown, SessionUsername(profile, code.value))
  }

  /** One statement of a redemption or revocation; None while it waits for the voucher row. */
  function Advance(s: State, t: int): Option<State>
    requires t in s.procs
  {
    match s.procs[t]
    case RedeemUpdate(tenant, v, hotspotKnown, username) =>
      if !hotspotKnown then Some(Finish(s, t, Err(NotFound)))
      else if v >= |s.vouchers| || s.vouchers[v].tenant != tenant || s.vouchers[v].status != Unused
      then Some(Finish(s, t, Err(Conflict)))
      else if v in s.lock then None
      else Some(Goto(s, t, RedeemInsert(tenant, v, username)).(lock := s.lock[v := t]))
    case RedeemInsert(tenant, v, username) =>
      Some(Goto(s, t, RedeemCommit(tenant, v, username)))
    case RedeemCommit(tenant, v, username) =>
      Some(if v >= |s.vouchers| then Finish(s, t, Err(NotFound))
           else Finish(s.(vouchers := s.vouchers[v := s.vouchers[v].(status := Redeemed)],
                          sessions := s.sessions + [Session(tenant, v, username)]), t, Ok(())))
    case RevokeUpdate(tenant, v) =>
      if v >= |s.vouchers| || s.vouchers[v].tenant != tenant || s.vouchers[v].status != Unused
      then Some(Finish(s, t, Err(NotFound)))
      else if v in s.lock then None
      else Some(Finish(s.(vouchers := s.vouchers[v := s.vouchers[v].(status := Revoked)]), t, Ok(())))
    case Done(_) => None
  }

  // ---- Batches ----

  /** The codes that GenerateBatchCodes hands to CreateBatch. */
  ghost predicate Generated(codes: seq<string>) {
    forall i :: 0 <= i < |codes| ==> IsDisplayed(codes[i])
  }

  ghost predicate IsDisplayed(code: string) {
    exists c :: IsCode(c) && code == DisplayCode(c)
  }

  predicate CodesFree(vouchers: seq<Voucher>, codes: seq<string>) {
    && (forall i, j :: 0 <= i < j < |codes| ==> codes[i] != codes[j])
    && (forall i, v :: 0 <= i < |codes| && 0 <= v < |vouchers| ==> vouchers[v].code != codes[i])
  }

  function NewVouchers(tenant: int, batch: nat, codes: seq<string>): (vs: seq<Voucher>)
    ensures |vs| == |codes|
    ensures forall i :: 0 <= i < |vs| ==> vs[i] == Voucher(tenant, batch, codes[i], Unused)
  {
    seq(|codes|, i requires 0 <= i < |codes| => Voucher(tenant, batch, codes[i], Unused))
  }

  /** CreateBatch: the whole batch, or nothing when the quantity or a code is refused. */
  function CreateBatch(s: State, tenant: int, quantity: int, codes: seq<string>): State {
    if BatchAccepted(s.vouchers, quantity, codes)
    then s.(batches := s.batches + [Batch(tenant, quantity, |codes|)],
            vouchers := s.vouchers + NewVouchers(tenant, |s.batches|, codes))
    else s
  }

  predicate BatchAccepted(vouchers: seq<Voucher>, quantity: int, codes: seq<string>) {
    quantity > 0 && CodesFree(vouchers, codes)
  }

  function CountStatus(vouchers: seq<Voucher>, batch: nat, status: Status): nat {
    if vouchers == [] then 0
    else
      var last := vouchers[|vouchers| - 1];
      CountStatus(vouchers[..|vouchers| - 1], batch, status) +
      (if last.batch == batch && last.status == status then 1 else 0)
  }

  datatype Sales = Sales(unused: nat, redeemed: nat, expired: nat, revoked: nat)

  /** BatchSales: no row when the batch has no voucher to join. */
  function BatchSales(s: State, tenant: int, batch: nat): Option<Sales> {
    if batch < |s.batches| && s.batches[batch].tenant == tenant &&
       exists v :: 0 <= v < |s.vouchers| && s.vouchers[v].batch == batch && s.vouchers[v].tenant == tenant
    then Some(Sales(CountStatus(s.vouchers, batch, Unused), CountStatus(s.vouchers, batch, Redeemed),
                    CountStatus(s.vouchers, batch, Expired), CountStatus(s.vouchers, batch, Revoked)))
    else None
  }

  // ---- Runs ----

  datatype Event =
    | NewBatch(tenant: int, quantity: int, codes: seq<string>)
    | BeginRedeem(tx: int, tenant: int, raw: string, profile: int, hotspotKnown: bool)
    | BeginRevoke(tx: int, tenant: int, voucher: nat)
    | Step(tx: int)
    | Abort(tx: int)

  ghost function Next(s: State, ev: Event): State {
    match ev
    case NewBatch(tenant, quantity, codes) => if Generated(codes) then CreateBatch(s, tenant, quantity, codes) else s
    case BeginRedeem(t, tenant, raw, profile, hotspotKnown) =>
      if t in s.procs then s else Goto(s, t, StartRedeem(s, tenant, raw, profile, hotspotKnown))
    case BeginRevoke(t, tenant, v) => if t in s.procs then s else Goto(s, t, RevokeUpdate(tenant, v))
    case Step(t) => if t in s.procs && Advance(s, t).Some? then Advance(s, t).value else s
    case Abort(t) => if t in s.procs && !s.procs[t].Done? then Finish(s, t, Err(Aborted)) else s
  }

  ghost function Run(s: State, events: seq<Event>): State
    decreases |events|
  {
    if events == [] then s else Run(Next(s, events[0]), events[1..])
  }

  // ---- What every event keeps ----

  ghost predicate LocksOk(s: State) {
    && (forall v :: v in s.lock ==> s.lock[v] in s.procs && Held(s.procs[s.lock[v]]) == Some(v))
    && (forall t :: t in s.procs && Held(s.procs[t]).Some? ==>
          Held(s.procs[t]).value in s.lock && s.lock[Held(s.procs[t]).value] == t)
  }

  /** A username built from some spelling of the voucher's own code. */
  ghost predicate NamesVoucher(s: State, v: nat, username: string) {
    v < |s.vouchers| &&
    exists profile, code :: IsCode(code) && username == SessionUsername(profile, code) &&
                            MatchesStored(s.vouchers[v].code, code)
  }

  ghost predicate ProcOk(s: State, p: Proc) {
    match p
    case RedeemUpdate(_, v, _, username) => NamesVoucher(s, v, username)
    case RedeemInsert(_, v, username) => NamesVoucher(s, v, username) && s.vouchers[v].status == Unused
    case RedeemCommit(_, v, username) => NamesVoucher(s, v, username) && s.vouchers[v].status == Unused
    case _ => true
  }

  ghost predicate CodesOk(vouchers: seq<Voucher>) {
    && (forall v :: 0 <= v < |vouchers| ==> IsDisplayed(vouchers[v].code))
    && (forall v, w :: 0 <= v < w < |vouchers| ==> vouchers[v].code != vouchers[w].code)
  }

  ghost predicate SessionsNamed(s: State) {
    forall i :: 0 <= i < |s.sessions| ==>
      NamesVoucher(s, s.sessions[i].voucher, s.sessions[i].username) &&
      s.vouchers[s.sessions[i].voucher].status == Redeemed
  }

  ghost predicate SessionsOk(s: State) {
    && SessionsNamed(s)
    && (forall i, j :: 0 <= i < j < |s.sessions| ==> s.sessions[i].voucher != s.sessions[j].voucher)
    && (forall v: nat :: v < |s.vouchers| && s.vouchers[v].status == Redeemed ==> HasSession(s, v))
  }

  ghost predicate HasSession(s: State, v: nat) {
    exists i :: 0 <= i < |s.sessions| && s.sessions[i].voucher == v
  }

  function InBatch(vouchers: seq<Voucher>, batch: nat): nat {
    if vouchers == [] then 0
    else InBatch(vouchers[..|vouchers| - 1], batch) + (if vouchers[|vouchers| - 1].batch == batch then 1 else 0)
  }

  ghost predicate BatchesOk(s: State) {
    && (forall v :: 0 <= v < |s.vouchers| ==> s.vouchers[v].batch < |s.batches|)
    && (forall b :: 0 <= b < |s.batches| ==> InBatch(s.vouchers, b) == s.batches[b].created)
  }

  ghost predicate Inv(s: State) {
    && LocksOk(s) && (forall t :: t in s.procs ==> ProcOk(s, s.procs[t]))
    && CodesOk(s.vouchers) && SessionsOk(s) && BatchesOk(s)
  }

  /** Two vouchers never answer to the same code, so usernames tell vouchers apart. */
  lemma NamesOneVoucher(s: State, v: nat, w: nat, username: string)
    requires CodesOk(s.vouchers) && NamesVoucher(s, v, username) && NamesVoucher(s, w, username)
    ensures v == w
  {
    var p, c :| IsCode(c) && username == SessionUsername(p, c) && MatchesStored(s.vouchers[v].code, c);
    var q, d :| IsCode(d) && username == SessionUsername(q, d) && MatchesStored(s.vouchers[w].code, d);
    UsernameInjective(p, c, q, d);
    assert IsDisplayed(s.vouchers[v].code) && IsDisplayed(s.vouchers[w].code);
    var cv :| IsCode(cv) && s.vouchers[v].code == DisplayCode(cv);
    var cw :| IsCode(cw) && s.vouchers[w].code == DisplayCode(cw);
    DisplayStrips(cv);
    DisplayStrips(cw);
    CodeIsPlain(c);
  }

  lemma MoveKeepsInv(s: State, s': State, t: int, p: Proc)
    requires Inv(s) && s'.batches == s.batches && s'.vouchers == s.vouchers && s'.sessions == s.sessions
    requires s'.procs == s.procs[t := p] && LocksOk(s') && ProcOk(s, p)
    ensures Inv(s')
  {
    forall u | u in s'.procs
      ensures ProcOk(s', s'.procs[u])
    {
      assert u != t ==> ProcOk(s, s.procs[u]);
      SameNames(s, s');
    }
    SameNames(s, s');
    forall v: nat | v < |s.vouchers| && s.vouchers[v].status == Redeemed
      ensures HasSession(s', v)
    {
      assert HasSession(s, v);
    }
  }

  /** Names only depend on codes, which no event changes. */
  lemma SameNames(s: State, s': State)
    requires |s.vouchers| <= |s'.vouchers|
    requires forall v :: 0 <= v < |s.vouchers| ==> s'.vouchers[v].code == s.vouchers[v].code
    ensures forall v: nat, username :: NamesVoucher(s, v, username) ==> NamesVoucher(s', v, username)
  {
    forall v: nat, username | NamesVoucher(s, v, username)
      ensures NamesVoucher(s', v, username)
    {
      var p, c :| IsCode(c) && username == SessionUsername(p, c) && MatchesStored(s.vouchers[v].code, c);
      assert MatchesStored(s'.vouchers[v].code, c);
    }
  }

  lemma FinishReleases(s: State, t: int, r: Result<(), Error>)
    requires LocksOk(s) && t in s.procs
    ensures LocksOk(Finish(s, t, r))
  {
  }

  lemma {:induction false} InBatchUpdate(vouchers: seq<Voucher>, v: nat, x: Voucher, batch: nat)
    requires v < |vouchers| && x.batch == vouchers[v].batch
    ensures InBatch(vouchers[v := x], batch) == InBatch(vouchers, batch)
  {
    var n := |vouchers| - 1;
    if v == n {
      assert vouchers[v := x][..n] == vouchers[..n];
    } else {
      assert vouchers[v := x][..n] == vouchers[..n][v := x];
      InBatchUpdate(vouchers[..n], v, x, batch);
    }
  }

  /** A status change of an unused voucher that nobody, or only `t`, holds. */
  lemma StatusKeepsRest(s: State, t: int, v: nat, status: Status, s': State)
    requires Inv(s) && t in s.procs && v < |s.vouchers| && s.vouchers[v].status == Unused && status != Unused
    requires forall u :: u in s.procs && u != t ==> Held(s.procs[u]) != Some(v)
    requires s'.vouchers == s.vouchers[v := s.vouchers[v].(status := status)] && s'.batches == s.batches
    requires s'.procs == s.procs[t := Done(Ok(()))]
    ensures (forall u :: u in s'.procs ==> ProcOk(s', s'.procs[u])) && CodesOk(s'.vouchers) && BatchesOk(s')
  {
    SameNames(s, s');
    forall u | u in s'.procs
      ensures ProcOk(s', s'.procs[u])
    {
      assert u != t ==> ProcOk(s, s.procs[u]);
    }
    forall b | 0 <= b < |s.batches|
      ensures InBatch(s'.vouchers, b) == s.batches[b].created
    {
      InBatchUpdate(s.vouchers, v, s'.vouchers[v], b);
    }
    forall w | 0 <= w < |s'.vouchers|
      ensures IsDisplayed(s'.vouchers[w].code)
    {
      assert s'.vouchers[w].code == s.vouchers[w].code;
    }
  }

  lemma RedeemKeepsInv(s: State, t: int)
    requires Inv(s) && t in s.procs && s.procs[t].RedeemCommit?
    ensures Inv(Advance(s, t).value)
  {
    assert ProcOk(s, s.procs[t]);
    var v := s.procs[t].voucher;
    var s' := Advance(s, t).value;
    FinishReleases(s, t, Ok(()));
    assert LocksOk(s') by {
      assert s'.procs == Finish(s, t, Ok(())).procs && s'.lock == Finish(s, t, Ok(())).lock;
    }
    StatusKeepsRest(s, t, v, Redeemed, s');
    RedeemKeepsSessions(s, s', v, s.procs[t].tenant, s.procs[t].username);
  }

  lemma RedeemKeepsSessions(s: State, s': State, v: nat, tenant: int, username: string)
    requires SessionsOk(s) && v < |s.vouchers| && NamesVoucher(s, v, username) && s.vouchers[v].status == Unused
    requires s'.vouchers == s.vouchers[v := s.vouchers[v].(status := Redeemed)]
    requires s'.sessions == s.sessions + [Session(tenant, v, username)]
    ensures SessionsOk(s')
  {
    hide SessionsNamed, NamesVoucher;
    RedeemKeepsNames(s, s', v, tenant, username);
    UnusedHasNoSession(s, v);
    assert s'.sessions[|s.sessions|].voucher == v;
    RedeemedHaveSessions(s, s', v);
  }

  lemma UnusedHasNoSession(s: State, v: nat)
    requires SessionsNamed(s) && v < |s.vouchers| && s.vouchers[v].status == Unused
    ensures forall i :: 0 <= i < |s.sessions| ==> s.sessions[i].voucher != v
  {
    hide NamesVoucher;
  }

  lemma RedeemKeepsNames(s: State, s': State, v: nat, tenant: int, username: string)
    requires SessionsNamed(s) && v < |s.vouchers| && NamesVoucher(s, v, username)
    requires s'.vouchers == s.vouchers[v := s.vouchers[v].(status := Redeemed)]
    requires s'.sessions == s.sessions + [Session(tenant, v, username)]
    ensures SessionsNamed(s')
  {
    SameNames(s, s');
    hide NamesVoucher;
    forall i | 0 <= i < |s'.sessions|
      ensures NamesVoucher(s', s'.sessions[i].voucher, s'.sessions[i].username)
    {
      if i < |s.sessions| {
        assert NamesVoucher(s, s.sessions[i].voucher, s.sessions[i].username);
      } else {
        assert NamesVoucher(s, v, username);
      }
    }
  }

  lemma RedeemedHaveSessions(s: State, s': State, v: nat)
    requires v < |s.vouchers| && |s'.vouchers| == |s.vouchers| && s.sessions <= s'.sessions && HasSession(s', v)
    requires forall w: nat :: w < |s.vouchers| && w != v ==> s'.vouchers[w] == s.vouchers[w]
    requires forall w: nat :: w < |s.vouchers| && s.vouchers[w].status == Redeemed ==> HasSession(s, w)
    ensures forall w: nat :: w < |s'.vouchers| && s'.vouchers[w].status == Redeemed ==> HasSession(s', w)
  {
    forall w: nat | w < |s'.vouchers| && s'.vouchers[w].status == Redeemed && w != v
      ensures HasSession(s', w)
    {
      assert HasSession(s, w);
      var i :| 0 <= i < |s.sessions| && s.sessions[i].voucher == w;
      assert s'.sessions[i].voucher == w;
    }
  }

  lemma RevokeKeepsInv(s: State, t: int)
    requires Inv(s) && t in s.procs && s.procs[t].RevokeUpdate? && Advance(s, t).Some?
    requires s.procs[t].revoked < |s.vouchers| && Advance(s, t).value.vouchers != s.vouchers
    ensures Inv(Advance(s, t).value)
  {
    var v := s.procs[t].revoked;
    var s' := Advance(s, t).value;
    FinishReleases(s, t, Ok(()));
    assert LocksOk(s') by {
      assert s'.procs == Finish(s, t, Ok(())).procs && s'.lock == Finish(s, t, Ok(())).lock;
    }
    StatusKeepsRest(s, t, v, Revoked, s');
    SameNames(s, s');
    forall w: nat | w < |s'.vouchers| && s'.vouchers[w].status == Redeemed
      ensures HasSession(s', w)
    {
      assert HasSession(s, w);
    }
  }

  lemma FinishKeepsInv(s: State, t: int, r: Result<(), Error>)
    requires Inv(s) && t in s.procs
    ensures Inv(Finish(s, t, r))
  {
    FinishReleases(s, t, r);
    MoveKeepsInv(s, Finish(s, t, r), t, Done(r));
  }

  lemma UpdateKeepsInv(s: State, t: int)
    requires Inv(s) && t in s.procs && s.procs[t].RedeemUpdate? && Advance(s, t).Some?
    ensures Inv(Advance(s, t).value)
  {
    assert ProcOk(s, s.procs[t]);
    hide Inv, NamesVoucher;
    var p, s' := s.procs[t], Advance(s, t).value;
    if !p.hotspotKnown {
      FinishKeepsInv(s, t, Err(NotFound));
    } else if s.vouchers[p.voucher].tenant != p.tenant || s.vouchers[p.voucher].status != Unused {
      FinishKeepsInv(s, t, Err(Conflict));
    } else {
      LockKeepsInv(s, t, p.tenant, p.voucher, p.username);
    }
  }

  lemma LockKeepsInv(s: State, t: int, tenant: int, v: nat, username: string)
    requires Inv(s) && t in s.procs && Held(s.procs[t]).None? && v !in s.lock
    requires ProcOk(s, RedeemInsert(tenant, v, username))
    ensures Inv(Goto(s, t, RedeemInsert(tenant, v, username)).(lock := s.lock[v := t]))
  {
    hide ProcOk;
    var p := RedeemInsert(tenant, v, username);
    MoveKeepsInv(s, Goto(s, t, p).(lock := s.lock[v := t]), t, p);
  }

  lemma InsertKeepsInv(s: State, t: int)
    requires Inv(s) && t in s.procs && s.procs[t].RedeemInsert?
    ensures Inv(Advance(s, t).value)
  {
    assert ProcOk(s, s.procs[t]);
    hide NamesVoucher;
    var p := s.procs[t];
    MoveKeepsInv(s, Advance(s, t).value, t, RedeemCommit(p.tenant, p.voucher, p.username));
  }

  lemma StepKeepsInv(s: State, t: int)
    requires Inv(s) && t in s.procs && Advance(s, t).Some?
    ensures Inv(Advance(s, t).value)
  {
    hide Inv;
    match s.procs[t]
    case RedeemUpdate(_, _, _, _) => UpdateKeepsInv(s, t);
    case RedeemInsert(_, _, _) => InsertKeepsInv(s, t);
    case RedeemCommit(_, _, _) => RedeemKeepsInv(s, t);
    case RevokeUpdate(tenant, v) =>
      if v >= |s.vouchers| || s.vouchers[v].tenant != tenant || s.vouchers[v].status != Unused {
        FinishKeepsInv(s, t, Err(NotFound));
      } else {
        assert Advance(s, t).value.vouchers[v].status == Revoked;
        RevokeKeepsInv(s, t);
      }
    case Done(_) =>
  }

  lemma {:induction false} InBatchAppend(vouchers: seq<Voucher>, more: seq<Voucher>, batch: nat)
    ensures InBatch(vouchers + more, batch) == InBatch(vouchers, batch) + InBatch(more, batch)
  {
    if more == [] {
      assert vouchers + more == vouchers;
    } else {
      var n := |more| - 1;
      assert (vouchers + more)[..|vouchers| + n] == vouchers + more[..n];
      InBatchAppend(vouchers, more[..n], batch);
    }
  }

  lemma {:induction false} InBatchAll(vouchers: seq<Voucher>, of: nat, batch: nat)
    requires forall v :: 0 <= v < |vouchers| ==> vouchers[v].batch == of
    ensures InBatch(vouchers, batch) == if of == batch then |vouchers| else 0
  {
    if vouchers != [] {
      InBatchAll(vouchers[..|vouchers| - 1], of, batch);
    }
  }

  lemma {:induction false} InBatchNone(vouchers: seq<Voucher>, batch: nat)
    requires forall v :: 0 <= v < |vouchers| ==> vouchers[v].batch != batch
    ensures InBatch(vouchers, batch) == 0
  {
    if vouchers != [] {
      InBatchNone(vouchers[..|vouchers| - 1], batch);
    }
  }

  lemma CreateBatchKeepsInv(s: State, tenant: int, quantity: int, codes: seq<string>)
    requires Inv(s) && Generated(codes)
    ensures Inv(CreateBatch(s, tenant, quantity, codes))
  {
    var s' := CreateBatch(s, tenant, quantity, codes);
    if BatchAccepted(s.vouchers, quantity, codes) {
      CreateBatchKeepsBatches(s, s', tenant, quantity, codes);
      CreateBatchKeepsCodes(s.vouchers, tenant, |s.batches|, codes);
      SameNames(s, s');
      hide NamesVoucher, CodesFree, CodesOk, BatchesOk;
      forall u | u in s'.procs
        ensures ProcOk(s', s'.procs[u])
      {
        assert ProcOk(s, s.procs[u]);
      }
      forall w: nat | w < |s'.vouchers| && s'.vouchers[w].status == Redeemed
        ensures HasSession(s', w)
      {
        assert HasSession(s, w);
      }
    }
  }

  lemma CreateBatchKeepsBatches(s: State, s': State, tenant: int, quantity: int, codes: seq<string>)
    requires BatchesOk(s) && BatchAccepted(s.vouchers, quantity, codes) && s' == CreateBatch(s, tenant, quantity, codes)
    ensures BatchesOk(s')
  {
    var more := NewVouchers(tenant, |s.batches|, codes);
    forall b | 0 <= b < |s'.batches|
      ensures InBatch(s'.vouchers, b) == s'.batches[b].created
    {
      InBatchAppend(s.vouchers, more, b);
      InBatchAll(more, |s.batches|, b);
      if b == |s.batches| {
        InBatchNone(s.vouchers, b);
      }
    }
  }

  lemma CreateBatchKeepsCodes(vouchers: seq<Voucher>, tenant: int, batch: nat, codes: seq<string>)
    requires CodesOk(vouchers) && CodesFree(vouchers, codes) && Generated(codes)
    ensures CodesOk(vouchers + NewVouchers(tenant, batch, codes))
  {
    hide IsDisplayed;
    var vouchers' := vouchers + NewVouchers(tenant, batch, codes);
    forall w | 0 <= w < |vouchers'|
      ensures vouchers'[w].code == if w < |vouchers| then vouchers[w].code else codes[w - |vouchers|]
    {
    }
  }

  lemma StartRedeemOk(s: State, tenant: int, raw: string, profile: int, hotspotKnown: bool)
    ensures ProcOk(s, StartRedeem(s, tenant, raw, profile, hotspotKnown))
    ensures Held(StartRedeem(s, tenant, raw, profile, hotspotKnown)).None?
  {
    var code := NormalizeCode(raw);
    if code.Ok? {
      NormalizeIdempotent(raw);
      var found := VoucherByCode(s.vouchers, tenant, code.value);
      if found.Some? {
        assert NamesVoucher(s, found.value, SessionUsername(profile, code.value));
      }
    }
  }

  lemma NextKeepsInv(s: State, ev: Event)
    requires Inv(s)
    ensures Inv(Next(s, ev))
  {
    match ev
    case NewBatch(tenant, quantity, codes) =>
      if Generated(codes) {
        CreateBatchKeepsInv(s, tenant, quantity, codes);
      }
    case BeginRedeem(t, tenant, raw, profile, hotspotKnown) =>
      if t !in s.procs {
        StartRedeemOk(s, tenant, raw, profile, hotspotKnown);
        hide StartRedeem;
        MoveKeepsInv(s, Next(s, ev), t, StartRedeem(s, tenant, raw, profile, hotspotKnown));
      }
    case BeginRevoke(t, tenant, v) =>
      if t !in s.procs {
        MoveKeepsInv(s, Next(s, ev), t, RevokeUpdate(tenant, v));
      }
    case Step(t) =>
      if t in s.procs && Advance(s, t).Some? {
        StepKeepsInv(s, t);
      }
    case Abort(t) =>
      if t in s.procs && !s.procs[t].Done? {
        FinishReleases(s, t, Err(Aborted));
        MoveKeepsInv(s, Next(s, ev), t, Done(Err(Aborted)));
      }
  }

  lemma {:induction false} RunKeepsInv(s: State, events: seq<Event>)
    requires Inv(s)
    ensures Inv(Run(s, events))
    decreases |events|
  {
    if events != [] {
      NextKeepsInv(s, events[0]);
      RunKeepsInv(Next(s, events[0]), events[1..]);
    }
  }

  // ---- Theorems ----

  /** After every run a voucher is redeemed exactly when one session refers to it, and no voucher has two. */
  lemma RedeemedExactlyOnce(events: seq<Event>, v: nat)
    requires v < |Run(EMPTY, events).vouchers|
    ensures var s := Run(EMPTY, events);
            && (s.vouchers[v].status == Redeemed <==> HasSession(s, v))
            && (forall i, j :: 0 <= i < j < |s.sessions| ==>
                  !(s.sessions[i].voucher == v && s.sessions[j].voucher == v))
  {
    RunKeepsInv(EMPTY, events);
  }

  /** No two sessions ever opened by redemptions share a username. */
  lemma UsernamesDistinct(events: seq<Event>, i: nat, j: nat)
    requires i < j < |Run(EMPTY, events).sessions|
    ensures Run(EMPTY, events).sessions[i].username != Run(EMPTY, events).sessions[j].username
  {
    RunKeepsInv(EMPTY, events);
    var s := Run(EMPTY, events);
    if s.sessions[i].username == s.sessions[j].username {
      NamesOneVoucher(s, s.sessions[i].voucher, s.sessions[j].voucher, s.sessions[i].username);
    }
  }

  /** Redeemed and revoked are final; codes, batches and sessions are never rewritten. */
  ghost predicate Extends(s: State, s': State) {
    && |s.vouchers| <= |s'.vouchers| && s.sessions <= s'.sessions && s.batches <= s'.batches
    && (forall v :: 0 <= v < |s.vouchers| ==>
          s'.vouchers[v] == s.vouchers[v] ||
          (s.vouchers[v].status == Unused && s'.vouchers[v] == s.vouchers[v].(status := s'.vouchers[v].status)))
  }

  lemma {:induction false} StatusIsFinal(s: State, events: seq<Event>)
    requires Inv(s)
    ensures Extends(s, Run(s, events))
    decreases |events|
  {
    if events != [] {
      NextKeepsInv(s, events[0]);
      StepExtends(s, events[0]);
      hide Inv;
      StatusIsFinal(Next(s, events[0]), events[1..]);
    }
  }

  lemma StepExtends(s: State, ev: Event)
    requires Inv(s)
    ensures Extends(s, Next(s, ev))
  {
    if ev.Step? && ev.tx in s.procs {
      assert ProcOk(s, s.procs[ev.tx]);
      AdvanceExtends(s, ev.tx);
    }
    hide Inv, StartRedeem, Advance;
  }

  lemma AdvanceExtends(s: State, t: int)
    requires t in s.procs && ProcOk(s, s.procs[t])
    ensures Advance(s, t).Some? ==> Extends(s, Advance(s, t).value)
  {
    hide NamesVoucher;
  }

  lemma {:induction false} StatusesCover(vouchers: seq<Voucher>, batch: nat)
    ensures CountStatus(vouchers, batch, Unused) + CountStatus(vouchers, batch, Redeemed) +
            CountStatus(vouchers, batch, Expired) + CountStatus(vouchers, batch, Revoked) == InBatch(vouchers, batch)
  {
    if vouchers != [] {
      StatusesCover(vouchers[..|vouchers| - 1], batch);
    }
  }

  /** The four counts of a batch always add up to the number of codes it was created with. */
  lemma SalesAddUp(events: seq<Event>, tenant: int, batch: nat)
    requires BatchSales(Run(EMPTY, events), tenant, batch).Some?
    ensures var s := Run(EMPTY, events);
            var b := BatchSales(s, tenant, batch).value;
            batch < |s.batches| && b.unused + b.redeemed + b.expired + b.revoked == s.batches[batch].created
  {
    RunKeepsInv(EMPTY, events);
    StatusesCover(Run(EMPTY, events).vouchers, batch);
  }

  // ---- In place ----

  /** The unique constraint on codes. */
  predicate CodeTaken(vouchers: seq<Voucher>, code: string) {
    exists v :: 0 <= v < |vouchers| && vouchers[v].code == code
  }

  lemma TakenIsNotFree(before: seq<Voucher>, codes: seq<string>, k: nat, tenant: int, batch: nat)
    requires k < |codes| && CodeTaken(before + NewVouchers(tenant, batch, codes[..k]), codes[k])
    ensures !CodesFree(before, codes)
  {
    var vs := before + NewVouchers(tenant, batch, codes[..k]);
    var v :| 0 <= v < |vs| && vs[v].code == codes[k];
    if v < |before| {
      assert before[v].code == codes[k];
    } else {
      assert codes[v - |before|] == codes[k];
    }
  }

  lemma FreeSoFar(before: seq<Voucher>, codes: seq<string>, k: nat, tenant: int, batch: nat)
    requires k < |codes| && CodesFree(before, codes[..k])
    requires !CodeTaken(before + NewVouchers(tenant, batch, codes[..k]), codes[k])
    ensures CodesFree(before, codes[..k + 1])
  {
    var vs := before + NewVouchers(tenant, batch, codes[..k]);
    forall v | 0 <= v < |before|
      ensures before[v].code != codes[k]
    {
      assert vs[v].code != codes[k];
    }
    forall i | 0 <= i < k
      ensures codes[i] != codes[k]
    {
      assert vs[|before| + i].code == codes[..k][i];
    }
  }

  /** A transaction alone at work, until it is done. */
  ghost function Alone(batches: seq<Batch>, vouchers: seq<Voucher>, sessions: seq<Session>, p: Proc): State {
    Run(State(batches, vouchers, sessions, map[], map[0 := p]), [Step(0), Step(0), Step(0)])
  }

  lemma RedeemAlone(batches: seq<Batch>, vouchers: seq<Voucher>, sessions: seq<Session>, tenant: int, v: nat,
                    hotspotKnown: bool, username: string)
    ensures var s := Alone(batches, vouchers, sessions, RedeemUpdate(tenant, v, hotspotKnown, username));
            && 0 in s.procs && s.batches == batches && s.lock == map[]
            && if !hotspotKnown
               then s.procs[0] == Done(Err(NotFound)) && s.vouchers == vouchers && s.sessions == sessions
               else if v >= |vouchers| || vouchers[v].tenant != tenant || vouchers[v].status != Unused
               then s.procs[0] == Done(Err(Conflict)) && s.vouchers == vouchers && s.sessions == sessions
               else s.procs[0] == Done(Ok(())) && s.vouchers == vouchers[v := vouchers[v].(status := Redeemed)] &&
                    s.sessions == sessions + [Session(tenant, v, username)]
  {
    var s := State(batches, vouchers, sessions, map[], map[0 := RedeemUpdate(tenant, v, hotspotKnown, username)]);
    RunThree(s, Step(0), Step(0), Step(0));
    hide Run;
    var s1 := Next(s, Step(0));
    assert s1.procs[0].Done? ==> Next(s1, Step(0)) == s1;
  }

  lemma RevokeAlone(batches: seq<Batch>, vouchers: seq<Voucher>, sessions: seq<Session>, tenant: int, v: nat)
    ensures var s := Alone(batches, vouchers, sessions, RevokeUpdate(tenant, v));
            && 0 in s.procs && s.batches == batches && s.lock == map[] && s.sessions == sessions
            && if v >= |vouchers| || vouchers[v].tenant != tenant || vouchers[v].status != Unused
               then s.procs[0] == Done(Err(NotFound)) && s.vouchers == vouchers
               else s.procs[0] == Done(Ok(())) && s.vouchers == vouchers[v := vouchers[v].(status := Revoked)]
  {
    var s := State(batches, vouchers, sessions, map[], map[0 := RevokeUpdate(tenant, v)]);
    RunThree(s, Step(0), Step(0), Step(0));
    hide Run;
    var s1 := Next(s, Step(0));
    assert s1.procs[0].Done? && Next(s1, Step(0)) == s1;
  }

  lemma RunThree(s: State, a: Event, b: Event, c: Event)
    ensures Run(s, [a, b, c]) == Next(Next(Next(s, a), b), c)
  {
    assert [a, b, c][1..] == [b, c] && [b, c][1..] == [c] && [c][1..] == [];
    assert Run(Next(Next(Next(s, a), b), c), []) == Next(Next(Next(s, a), b), c);
    assert Run(Next(Next(s, a), b), [c]) == Next(Next(Next(s, a), b), c);
  }

  class BatchStore {
    var batches: seq<Batch>
    var vouchers: seq<Voucher>
    var sessions: seq<Session>

    /** RedeemVoucher: mark the voucher and open its session, or neither. */
    method RedeemVoucher(tenant: int, v: nat, hotspotKnown: bool, username: string) returns (r: Result<(), Error>)
      modifies this
      ensures var p := RedeemUpdate(tenant, v, hotspotKnown, username);
              var s := Alone(old(batches), old(vouchers), old(sessions), p);
              && 0 in s.procs && s.procs[0] == Done(r)
              && (batches, vouchers, sessions) == (s.batches, s.vouchers, s.sessions)
      ensures r.Ok? <==> hotspotKnown && v < |old(vouchers)| && old(vouchers)[v].tenant == tenant &&
                         old(vouchers)[v].status == Unused
    {
      RedeemAlone(batches, vouchers, sessions, tenant, v, hotspotKnown, username);
      hide Alone;
      if !hotspotKnown {
        return Err(NotFound);
      }
      if v >= |vouchers| || vouchers[v].tenant != tenant || vouchers[v].status != Unused {
        return Err(Conflict);
      }
      vouchers := vouchers[v := vouchers[v].(status := Redeemed)];
      sessions := sessions + [Session(tenant, v, username)];
      return Ok(());
    }

    /** RevokeVoucher: one guarded update. */
    method RevokeVoucher(tenant: int, v: nat) returns (r: Result<(), Error>)
      modifies this`vouchers
      ensures var s := Alone(batches, old(vouchers), sessions, RevokeUpdate(tenant, v));
              && 0 in s.procs && s.procs[0] == Done(r)
              && (batches, vouchers, sessions) == (s.batches, s.vouchers, s.sessions)
      ensures r.Ok? <==> v < |old(vouchers)| && old(vouchers)[v].tenant == tenant && old(vouchers)[v].status == Unused
    {
      RevokeAlone(batches, vouchers, sessions, tenant, v);
      hide Alone;
      if v >= |vouchers| || vouchers[v].tenant != tenant || vouchers[v].status != Unused {
        return Err(NotFound);
      }
      vouchers := vouchers[v := vouchers[v].(status := Revoked)];
      return Ok(());
    }

    /** CreateBatch: one INSERT per code inside a transaction; a refused row rolls everything back. */
    method CreateBatchRows(tenant: int, quantity: int, codes: seq<string>) returns (r: Option<seq<Voucher>>)
      modifies this
      ensures BatchAccepted(old(vouchers), quantity, codes) ==>
                && r == Some(NewVouchers(tenant, |old(batches)|, codes))
                && batches == old(batches) + [Batch(tenant, quantity, |codes|)]
                && vouchers == old(vouchers) + r.value
      ensures !BatchAccepted(old(vouchers), quantity, codes) ==>
                r == None && batches == old(batches) && vouchers == old(vouchers)
      ensures sessions == old(sessions)
    {
      if quantity <= 0 {
        return None;
      }
      var before, id := vouchers, |batches|;
      var inserted: seq<Voucher> := [];
      for k := 0 to |codes|
        invariant vouchers == before + inserted && batches == old(batches) && sessions == old(sessions)
        invariant inserted == NewVouchers(tenant, id, codes[..k])
        invariant CodesFree(before, codes[..k])
      {
        if CodeTaken(vouchers, codes[k]) {
          TakenIsNotFree(before, codes, k, tenant, id);
          vouchers := before;
          return None;
        }
        FreeSoFar(before, codes, k, tenant, id);
        inserted := inserted + [Voucher(tenant, id, codes[k], Unused)];
        assert inserted == NewVouchers(tenant, id, codes[..k + 1]);
        vouchers := before + inserted;
      }
      assert codes[..|codes|] == codes;
      batches := batches + [Batch(tenant, quantity, |codes|)];
      return Some(inserted);
    }
  }
}
