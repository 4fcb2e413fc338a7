/**
 The fixed-window request limiter. Times are milliseconds and never go back.
 A key is a counter with an expiry. `slack` is how long before its expiry a key
 already reports a TTL of zero (Redis rounds the remaining time to whole
 seconds); with slack 0 the TTL is positive exactly until expiry.
 */
module RateLimit {
  import opened Wrappers

  datatype Entry = Entry(count: nat, expiresAt: int)

  datatype Config = Config(limit: int, windowMs: nat, slack: nat) {
    /** int64(window.Seconds()) */
    function WindowSec(): nat {
      windowMs / 1000
    }

    /** How long a key counts: from the request that sets it until its TTL reads zero. */
    function Lifetime(): int {
      WindowSec() * 1000 - slack
    }

    predicate Usable() {
      WindowSec() >= 1 && slack < WindowSec() * 1000
    }

    /** What one lifetime lets through: the request that sets the key always passes. */
    function Quota(): nat {
      if limit < 1 then 1 else limit
    }
  }

  /** TTL > 0 */
  predicate Alive(c: Config, e: Option<Entry>, now: int) {
    e.Some? && e.value.expiresAt - now > c.slack
  }

  datatype Answer = Answer(allowed: bool, entry: Option<Entry>)

  /** The script; SET with an expiry of zero seconds is an error, and an error denies. */
  function Decide(c: Config, e: Option<Entry>, now: int): Answer {
    var held := if e.Some? && e.value.expiresAt > now then e else None;
    var n := if held.Some? then held.value.count else 0;
    if n >= c.limit && Alive(c, held, now) then Answer(false, held)
    else if !Alive(c, held, now) then
      if c.WindowSec() < 1 then Answer(false, held)
      else Answer(true, Some(Entry(1, now + c.WindowSec() * 1000)))
    else Answer(true, Some(held.value.(count := n + 1)))
  }

  class Limiter {
    var keys: map<string, Entry>

    /** rateAllow: decides one request and updates its key in place, and no other key. */
    method RateAllow(c: Config, key: string, now: int) returns (ok: bool)
      modifies this
      ensures var held := if key in old(keys) then Some(old(keys)[key]) else None;
              var a := Decide(c, held, now);
              && ok == a.allowed
              && (if a.entry.Some? then key in keys && keys[key] == a.entry.value else key !in keys)
      ensures forall k :: k != key ==> (k in keys <==> k in old(keys)) && (k in keys ==> keys[k] == old(keys)[k])
    {
      if key in keys && keys[key].expiresAt <= now {
        keys := keys - {key};
      }
      var n := if key in keys then keys[key].count else 0;
      var ttlPositive := key in keys && keys[key].expiresAt - now > c.slack;
      if n >= c.limit && ttlPositive {
        return false;
      }
      if !ttlPositive {
        if c.WindowSec() < 1 {
          return false;
        }
        keys := keys[key := Entry(1, now + c.WindowSec() * 1000)];
      } else {
        keys := keys[key := keys[key].(count := n + 1)];
      }
      return true;
    }
  }

  // ---- Runs of requests for one key ----

  predicate Ordered(times: seq<int>) {
    forall i, j :: 0 <= i < j < |times| ==> times[i] <= times[j]
  }

  /** The key after a run of requests. */
  function KeyAfter(c: Config, e: Option<Entry>, times: seq<int>): Option<Entry>
    decreases |times|
  {
    if times == [] then e else KeyAfter(c, Decide(c, e, times[0]).entry, times[1..])
  }

  /** How many of them pass. */
  function Admitted(c: Config, e: Option<Entry>, times: seq<int>): nat
    decreases |times|
  {
    if times == [] then 0
    else (if Decide(c, e, times[0]).allowed then 1 else 0) + Admitted(c, Decide(c, e, times[0]).entry, times[1..])
  }

  /** Keys that requests can leave behind. */
  predicate Sound(c: Config, e: Option<Entry>) {
    e.Some? ==> 1 <= e.value.count <= c.Quota()
  }

  lemma DecideKeepsSound(c: Config, e: Option<Entry>, now: int)
    requires Sound(c, e)
    ensures Sound(c, Decide(c, e, now).entry)
  {
  }

  /** While a key lives, no more pass than its quota leaves. */
  lemma {:induction false} OneLifetime(c: Config, e: Option<Entry>, times: seq<int>)
    requires Ordered(times) && Sound(c, e) && e.Some?
    requires forall i :: 0 <= i < |times| ==> Alive(c, e, times[i])
    ensures Admitted(c, e, times) == Min(c.Quota() - e.value.count, |times|)
    decreases |times|
  {
    if times != [] {
      var next := Decide(c, e, times[0]).entry;
      assert Alive(c, e, times[0]);
      assert next.value.expiresAt == e.value.expiresAt;
      OneLifetime(c, next, times[1..]);
    }
  }

  function Min(a: nat, b: nat): nat {
    if a < b then a else b
  }

  /** How many keys can be set within `span` milliseconds, one lifetime apart. */
  function Slots(span: int, lifetime: int): nat
    requires lifetime > 0
    decreases if span < 0 then 0 else span + 1
  {
    if span < 0 then 0 else 1 + Slots(span - lifetime, lifetime)
  }

  lemma {:induction false} MoreSlots(span: int, longer: int, lifetime: int)
    requires lifetime > 0 && span <= longer
    ensures Slots(span, lifetime) <= Slots(longer, lifetime)
    decreases if span < 0 then 0 else span + 1
  {
    if span >= 0 {
      MoreSlots(span - lifetime, longer - lifetime, lifetime);
    }
  }

  function Times(k: nat, quota: nat): nat {
    if k == 0 then 0 else Times(k - 1, quota) + quota
  }

  lemma {:induction false} TimesMonotone(k: nat, l: nat, quota: nat)
    requires k <= l
    ensures Times(k, quota) <= Times(l, quota) && Times(k, quota) == k * quota
    decreases l
  {
    if k < l {
      TimesMonotone(k, l - 1, quota);
    } else if k > 0 {
      TimesMonotone(k - 1, k - 1, quota);
    }
  }

  /** When a key dies. */
  function Death(c: Config, e: Entry): int {
    e.expiresAt - c.slack
  }

  /** The most that can pass from the first of these requests on: what its live key leaves, and full quotas after it. */
  function Room(c: Config, e: Option<Entry>, times: seq<int>): nat
    requires c.Usable() && Sound(c, e)
  {
    if times == [] then 0
    else
      var last := times[|times| - 1];
      if Alive(c, e, times[0])
      then c.Quota() - e.value.count + Times(Slots(last - Death(c, e.value), c.Lifetime()), c.Quota())
      else Times(Slots(last - times[0], c.Lifetime()), c.Quota())
  }

  /** No run admits more, whatever its span. */
  lemma {:induction false} SpanBound(c: Config, e: Option<Entry>, times: seq<int>)
    requires c.Usable() && Ordered(times) && Sound(c, e)
    ensures Admitted(c, e, times) <= Room(c, e, times)
    decreases |times|
  {
    if times != [] {
      var a := Decide(c, e, times[0]);
      DecideKeepsSound(c, e, times[0]);
      SpanBound(c, a.entry, times[1..]);
      if times[1..] != [] {
        RoomShrinks(c, a.entry, times[0], times[1..]);
      }
      hide Times, Slots;
    }
  }

  /** With a live key of `now`, the room of later requests is at most what that key leaves and full quotas after it. */
  lemma RoomShrinks(c: Config, e: Option<Entry>, now: int, times: seq<int>)
    requires c.Usable() && Sound(c, e) && times != [] && Alive(c, e, now) && now <= times[0]
    ensures Room(c, e, times) <=
            c.Quota() - e.value.count +
            Times(Slots(times[|times| - 1] - Death(c, e.value), c.Lifetime()), c.Quota())
  {
    var last := times[|times| - 1];
    if !Alive(c, e, times[0]) {
      MoreSlots(last - times[0], last - Death(c, e.value), c.Lifetime());
      TimesMonotone(Slots(last - times[0], c.Lifetime()), Slots(last - Death(c, e.value), c.Lifetime()), c.Quota());
    }
  }

  lemma {:induction false} SlotsBelow(span: int, lifetime: int, k: nat)
    requires lifetime > 0 && span < k * lifetime
    ensures Slots(span, lifetime) <= k
    decreases k
  {
    if span >= 0 {
      assert k > 0;
      assert (k - 1) * lifetime == k * lifetime - lifetime;
      SlotsBelow(span - lifetime, lifetime, k - 1);
    }
  }

  /**
   In every run of requests for a key, a span shorter than `k` lifetimes admits
   fewer than `k + 1` times the limit; so one shorter than a lifetime admits
   fewer than twice the limit. (The quota is one when the limit is below one.)
   */
  lemma AnySpan(c: Config, times: seq<int>, i: nat, j: nat, k: nat)
    requires c.Usable() && Ordered(times) && i < j <= |times| && times[j - 1] - times[i] < k * c.Lifetime()
    ensures Admitted(c, KeyAfter(c, None, times[..i]), times[i..j]) <= (k + 1) * c.Quota() - 1
  {
    var e, span := KeyAfter(c, None, times[..i]), times[i..j];
    KeyAfterIsSound(c, None, times[..i]);
    SpanBound(c, e, span);
    var last := times[j - 1];
    assert span[0] == times[i] && span[|span| - 1] == last;
    var slots := Slots(last - (if Alive(c, e, span[0]) then Death(c, e.value) else span[0]), c.Lifetime());
    SlotsBelow(last - (if Alive(c, e, span[0]) then Death(c, e.value) else span[0]), c.Lifetime(), k);
    TimesMonotone(slots, k, c.Quota());
    TimesMonotone(k, k, c.Quota());
    assert (k + 1) * c.Quota() == k * c.Quota() + c.Quota();
  }

  /** A request that sets the key starts a lifetime that outlasts a shorter span. */
  lemma FreshKeyBound(c: Config, e: Option<Entry>, times: seq<int>)
    requires c.Usable() && Ordered(times) && times != [] && !Alive(c, e, times[0])
    requires times[|times| - 1] - times[0] < c.Lifetime()
    ensures Admitted(c, e, times) == Min(c.Quota(), |times|)
  {
    var a := Decide(c, e, times[0]);
    assert a.allowed && a.entry == Some(Entry(1, times[0] + c.WindowSec() * 1000));
    forall i | 0 <= i < |times[1..]|
      ensures Alive(c, a.entry, times[1..][i])
    {
      assert times[1..][i] == times[i + 1] <= times[|times| - 1];
    }
    OneLifetime(c, a.entry, times[1..]);
  }

  lemma {:induction false} KeyAfterIsSound(c: Config, e: Option<Entry>, times: seq<int>)
    requires Sound(c, e)
    ensures Sound(c, KeyAfter(c, e, times))
    decreases |times|
  {
    if times != [] {
      DecideKeepsSound(c, e, times[0]);
      KeyAfterIsSound(c, Decide(c, e, times[0]).entry, times[1..]);
    }
  }

  // ---- Spans shorter than the window ----

  /** What the limiter is for: a span shorter than the window admits at most twice the limit. */
  ghost predicate WindowHolds(c: Config) {
    forall times, i: nat, j: nat {:trigger times[i..j]} ::
      Ordered(times) && i < j <= |times| && times[j - 1] - times[i] < c.windowMs ==>
        Admitted(c, KeyAfter(c, None, times[..i]), times[i..j]) <= 2 * c.Quota()
  }

  /** A span of exactly one lifetime. */
  lemma InclusiveSpan(c: Config, times: seq<int>, i: nat, j: nat)
    requires c.Usable() && Ordered(times) && i < j <= |times| && times[j - 1] - times[i] <= c.Lifetime()
    ensures Admitted(c, KeyAfter(c, None, times[..i]), times[i..j]) <= 2 * c.Quota()
  {
    var e, span := KeyAfter(c, None, times[..i]), times[i..j];
    KeyAfterIsSound(c, None, times[..i]);
    SpanBound(c, e, span);
    var last := times[j - 1];
    assert span[0] == times[i] && span[|span| - 1] == last;
    if Alive(c, e, span[0]) {
      SlotsBelow(last - Death(c, e.value), c.Lifetime(), 1);
      TimesMonotone(Slots(last - Death(c, e.value), c.Lifetime()), 1, c.Quota());
    } else {
      SlotsBelow(last - span[0], c.Lifetime(), 2);
      TimesMonotone(Slots(last - span[0], c.Lifetime()), 2, c.Quota());
    }
  }

  /** A key set at 0 and filled in its last millisecond, the next one filled at once, and one more after that. */
  function ThreeKeys(c: Config): seq<int>
    requires c.Usable()
  {
    var l := c.Lifetime();
    [0] + Repeat(l - 1, c.Quota() - 1) + Repeat(l, c.Quota()) + Repeat(2 * l, c.Quota())
  }

  lemma ThreeKeysOrdered(c: Config)
    requires c.Usable()
    ensures Ordered(ThreeKeys(c)) && |ThreeKeys(c)| == 3 * c.Quota()
    ensures ThreeKeys(c)[0] == 0 && ThreeKeys(c)[|ThreeKeys(c)| - 1] == 2 * c.Lifetime()
    ensures c.Quota() > 1 ==> ThreeKeys(c)[1] == c.Lifetime() - 1
  {
  }

  lemma ThreeKeysAdmitted(c: Config)
    requires c.Usable()
    ensures ThreeKeys(c) != []
    ensures Admitted(c, KeyAfter(c, None, ThreeKeys(c)[..0]), ThreeKeys(c)[0..]) == 3 * c.Quota()
    ensures Admitted(c, KeyAfter(c, None, ThreeKeys(c)[..1]), ThreeKeys(c)[1..]) == 3 * c.Quota() - 1
  {
    var l, q := c.Lifetime(), c.Quota();
    var e := Some(Entry(1, c.WindowSec() * 1000));
    var burst := Repeat(l - 1, q - 1) + (Repeat(l, q) + Repeat(2 * l, q));
    assert ThreeKeys(c)[1..] == burst && ThreeKeys(c)[..1] == [0] && ThreeKeys(c)[..0] == [];
    assert ThreeKeys(c)[0..] == [0] + burst;
    assert KeyAfter(c, None, [0]) == e && Admitted(c, None, [0]) == 1 by {
      assert [0][1..] == [];
    }
    AdmittedSplit(c, None, [0], burst);
    BurstAdmitted(c, e);
  }

  /** What follows the request that set the key. */
  lemma BurstAdmitted(c: Config, e: Option<Entry>)
    requires c.Usable() && e == Some(Entry(1, c.WindowSec() * 1000))
    ensures var l, q := c.Lifetime(), c.Quota();
            Admitted(c, e, Repeat(l - 1, q - 1) + (Repeat(l, q) + Repeat(2 * l, q))) == 3 * q - 1
  {
    var l, q := c.Lifetime(), c.Quota();
    var first, second, third := Repeat(l - 1, q - 1), Repeat(l, q), Repeat(2 * l, q);
    AdmittedSplit(c, e, first, second + third);
    OneLifetime(c, e, first);
    SameExpiry(c, e, first);
    hide Admitted, KeyAfter, Decide;
    var e2 := KeyAfter(c, e, first);
    AdmittedSplit(c, e2, second, third);
    FreshKeyBound(c, e2, second);
    FreshKeyDeath(c, e2, l, q);
    FreshKeyBound(c, KeyAfter(c, e2, second), third);
  }

  /** A key set at `t` by the first of several simultaneous requests. */
  lemma FreshKeyDeath(c: Config, e: Option<Entry>, t: int, n: nat)
    requires c.Usable() && !Alive(c, e, t) && n > 0
    ensures KeyAfter(c, e, Repeat(t, n)).Some? && Death(c, KeyAfter(c, e, Repeat(t, n)).value) == t + c.Lifetime()
  {
    var a := Decide(c, e, t);
    assert Repeat(t, n)[1..] == Repeat(t, n - 1);
    SameExpiry(c, a.entry, Repeat(t, n - 1));
  }

  /**
   The promise holds exactly when a key lives about as long as the window: to
   the millisecond when the limit is two or more, and half as long when it is one.
   A window of 1.5 seconds, cut to one, breaks it for limits of two or more.
   */
  lemma WindowHoldsIff(c: Config)
    requires c.Usable()
    ensures WindowHolds(c) <==> c.windowMs <= (if c.limit >= 2 then c.Lifetime() + 1 else 2 * c.Lifetime())
  {
    var times := ThreeKeys(c);
    ThreeKeysAdmitted(c);
    ThreeKeysOrdered(c);
    var q, l := c.Quota(), c.Lifetime();
    assert times[0..|times|] == times[0..] && times[1..|times|] == times[1..];
    if c.limit >= 2 {
      if c.windowMs <= l + 1 {
        forall ts: seq<int>, i: nat, j: nat {:trigger ts[i..j]} |
          Ordered(ts) && i < j <= |ts| && ts[j - 1] - ts[i] < c.windowMs
          ensures Admitted(c, KeyAfter(c, None, ts[..i]), ts[i..j]) <= 2 * q
        {
          InclusiveSpan(c, ts, i, j);
        }
      }
    } else if c.windowMs <= 2 * l {
      forall ts: seq<int>, i: nat, j: nat {:trigger ts[i..j]} |
        Ordered(ts) && i < j <= |ts| && ts[j - 1] - ts[i] < c.windowMs
        ensures Admitted(c, KeyAfter(c, None, ts[..i]), ts[i..j]) <= 2 * q
      {
        AnySpan(c, ts, i, j, 2);
      }
    }
  }

  /** The fraction of a second by which a window is cut. */
  lemma WindowIsCut(c: Config)
    ensures c.Lifetime() == c.windowMs - c.windowMs % 1000 - c.slack
    ensures c.Usable() <==> c.windowMs >= 1000 && c.slack < c.windowMs - c.windowMs % 1000
  {
  }

  /** The same condition in terms of the configured window: what it loses to the cut and to the TTL. */
  lemma WindowHoldsByLoss(c: Config)
    requires c.windowMs >= 1000 && c.slack < c.windowMs - c.windowMs % 1000
    ensures WindowHolds(c) <==> var loss := c.windowMs % 1000 + c.slack;
                                if c.limit >= 2 then loss <= 1 else 2 * loss <= c.windowMs
  {
    WindowIsCut(c);
    WindowHoldsIff(c);
    hide WindowHolds;
  }

  /** Windows of whole seconds, with an exact TTL, keep the promise, and a key lives exactly as long as the window. */
  lemma OrdinaryWindowHolds(c: Config)
    requires c.windowMs >= 1000 && c.windowMs % 1000 == 0 && c.slack == 0
    ensures c.Usable() && c.Lifetime() == c.windowMs && WindowHolds(c)
  {
    WindowIsCut(c);
    WindowHoldsIff(c);
    hide WindowHolds;
  }

  /** What a request does to its key: a dead key is set anew for the window's whole seconds, a live one counts up. */
  lemma RequestOnKey(c: Config, e: Option<Entry>, now: int)
    requires Sound(c, e)
    ensures var live := e.Some? && now < e.value.expiresAt - c.slack;
            var a := Decide(c, e, now);
            if live && e.value.count >= c.limit then !a.allowed && a.entry == e
            else if live then a.allowed && a.entry == Some(Entry(e.value.count + 1, e.value.expiresAt))
            else if c.windowMs < 1000 then !a.allowed
            else a.allowed && a.entry == Some(Entry(1, now + c.windowMs - c.windowMs % 1000))
  {
  }

  /** A key's lifetime admits exactly its quota, or every request if there are fewer. */
  lemma LifetimeAdmitsQuota(c: Config, before: seq<int>, times: seq<int>)
    requires c.Usable() && Ordered(times) && times != [] && times[|times| - 1] - times[0] < c.Lifetime()
    requires !Alive(c, KeyAfter(c, None, before), times[0])
    ensures Admitted(c, KeyAfter(c, None, before), times) == Min(c.Quota(), |times|)
  {
    FreshKeyBound(c, KeyAfter(c, None, before), times);
  }

  function Repeat(t: int, n: nat): seq<int> {
    seq(n, _ => t)
  }

  /**
   The bound is reached, for every limit: after the request that sets the key,
   the rest of its quota comes at its last live millisecond and a full new quota
   one millisecond later.
   */
  lemma BoundIsReached(c: Config)
    requires c.Usable() && c.limit >= 1 && c.Lifetime() >= 2
    ensures var last := c.Lifetime() - 1;
            var burst := Repeat(last, c.limit - 1) + Repeat(last + 1, c.limit);
            && Ordered([0] + burst) && burst[|burst| - 1] - burst[0] <= 1 < c.Lifetime()
            && Admitted(c, KeyAfter(c, None, [0]), burst) == |burst| == 2 * c.limit - 1
  {
    var last := c.Lifetime() - 1;
    var first, second := Repeat(last, c.limit - 1), Repeat(last + 1, c.limit);
    var e := Some(Entry(1, c.WindowSec() * 1000));
    assert KeyAfter(c, None, [0]) == e by {
      assert [0][1..] == [];
    }
    AdmittedSplit(c, e, first, second);
    OneLifetime(c, e, first);
    SameExpiry(c, e, first);
    FreshKeyBound(c, KeyAfter(c, e, first), second);
  }

  lemma {:induction false} AdmittedSplit(c: Config, e: Option<Entry>, a: seq<int>, b: seq<int>)
    ensures Admitted(c, e, a + b) == Admitted(c, e, a) + Admitted(c, KeyAfter(c, e, a), b)
    decreases |a|
  {
    if a == [] {
      assert a + b == b;
    } else {
      assert (a + b)[1..] == a[1..] + b;
      AdmittedSplit(c, Decide(c, e, a[0]).entry, a[1..], b);
    }
  }

  lemma {:induction false} SameExpiry(c: Config, e: Option<Entry>, times: seq<int>)
    requires e.Some? && forall i :: 0 <= i < |times| ==> Alive(c, e, times[i])
    ensures KeyAfter(c, e, times).Some? && KeyAfter(c, e, times).value.expiresAt == e.value.expiresAt
    decreases |times|
  {
    if times != [] {
      assert Alive(c, e, times[0]);
      SameExpiry(c, Decide(c, e, times[0]).entry, times[1..]);
    }
  }

  /** A denied request: its key is alive with its quota used up; or there is none and the window is below a second. */
  lemma DeniedOnlyWhenUsedUp(c: Config, e: Option<Entry>, now: int)
    requires Sound(c, e)
    ensures !Decide(c, e, now).allowed <==>
              (c.WindowSec() < 1 && !Alive(c, e, now)) || (Alive(c, e, now) && e.value.count == c.Quota())
  {
  }
}
