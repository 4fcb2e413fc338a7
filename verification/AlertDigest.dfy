/** What each summary of a digest counts, adds up and covers. */
module AlertDigest {
  import opened Wrappers
  import opened Alerts
  import opened AlertEngine

  /** The alert is of that hotspot, 0 standing for none, kind and severity. */
  predicate OfKey(a: Alert, hotspot: int, kind: string, severity: string) {
    && a.kind == kind && a.severity == severity
    && (if hotspot == 0 then a.hotspot == None || a.hotspot == Some(0) else a.hotspot == Some(hotspot))
  }

  lemma KeyIs(a: Alert, hotspot: int, kind: string, severity: string)
    ensures KeyOf(a) == Key(hotspot, kind, severity) <==> OfKey(a, hotspot, kind, severity)
  {
  }

  /** The alerts of that key. */
  function Those(alerts: seq<Alert>, hotspot: int, kind: string, severity: string): set<int> {
    set i | 0 <= i < |alerts| && OfKey(alerts[i], hotspot, kind, severity)
  }

  /** Those of them with that status. */
  function ThoseIn(alerts: seq<Alert>, hotspot: int, kind: string, severity: string, status: Status): set<int> {
    set i | 0 <= i < |alerts| && OfKey(alerts[i], hotspot, kind, severity) && alerts[i].status == status
  }

  /** The sum of their values. */
  function Values(alerts: seq<Alert>, hotspot: int, kind: string, severity: string): real {
    if alerts == [] then 0.0
    else (if OfKey(alerts[0], hotspot, kind, severity) then alerts[0].value else 0.0) +
         Values(alerts[1..], hotspot, kind, severity)
  }

  lemma {:induction false} ValuesAppend(alerts: seq<Alert>, a: Alert, hotspot: int, kind: string, severity: string)
    ensures Values(alerts + [a], hotspot, kind, severity) ==
            Values(alerts, hotspot, kind, severity) + (if OfKey(a, hotspot, kind, severity) then a.value else 0.0)
  {
    hide OfKey;
    if alerts == [] {
      assert [] + [a] == [a];
    } else {
      assert (alerts + [a])[1..] == alerts[1..] + [a];
      ValuesAppend(alerts[1..], a, hotspot, kind, severity);
    }
  }

  lemma ThoseStep(alerts: seq<Alert>, a: Alert, hotspot: int, kind: string, severity: string)
    ensures |Those(alerts + [a], hotspot, kind, severity)| ==
            |Those(alerts, hotspot, kind, severity)| + (if OfKey(a, hotspot, kind, severity) then 1 else 0)
  {
    hide OfKey;
    var those, more := Those(alerts, hotspot, kind, severity), Those(alerts + [a], hotspot, kind, severity);
    if OfKey(a, hotspot, kind, severity) {
      assert more == those + {|alerts|};
    } else {
      assert more == those;
    }
  }

  lemma ThoseInStep(alerts: seq<Alert>, a: Alert, hotspot: int, kind: string, severity: string, status: Status)
    ensures |ThoseIn(alerts + [a], hotspot, kind, severity, status)| ==
            |ThoseIn(alerts, hotspot, kind, severity, status)| +
            (if OfKey(a, hotspot, kind, severity) && a.status == status then 1 else 0)
  {
    hide OfKey;
    var those := ThoseIn(alerts, hotspot, kind, severity, status);
    var more := ThoseIn(alerts + [a], hotspot, kind, severity, status);
    if OfKey(a, hotspot, kind, severity) && a.status == status {
      assert more == those + {|alerts|};
    } else {
      assert more == those;
    }
  }

  /** The group holds what its alerts amount to. */
  ghost predicate GroupFits(alerts: seq<Alert>, hotspot: int, kind: string, severity: string, g: Option<Group>) {
    && (g == None <==> Those(alerts, hotspot, kind, severity) == {})
    && Values(alerts, hotspot, kind, severity) == (if g.Some? then g.value.value else 0.0)
    && |Those(alerts, hotspot, kind, severity)| == (if g.Some? then Size(g.value.tally) else 0)
    && |ThoseIn(alerts, hotspot, kind, severity, Open)| == (if g.Some? then g.value.tally.open else 0)
    && |ThoseIn(alerts, hotspot, kind, severity, Acknowledged)| == (if g.Some? then g.value.tally.acknowledged else 0)
    && |ThoseIn(alerts, hotspot, kind, severity, Resolved)| == (if g.Some? then g.value.tally.resolved else 0)
    && |ThoseIn(alerts, hotspot, kind, severity, Dismissed)| == (if g.Some? then g.value.tally.dismissed else 0)
  }

  lemma {:induction false} GroupsFit(alerts: seq<Alert>, hotspot: int, kind: string, severity: string)
    ensures GroupFits(alerts, hotspot, kind, severity, GroupOf(alerts, Key(hotspot, kind, severity)))
  {
    if alerts == [] {
      NoneThere(hotspot, kind, severity);
    } else {
      var n := |alerts| - 1;
      var init, a := alerts[..n], alerts[n];
      assert init + [a] == alerts;
      GroupsFit(init, hotspot, kind, severity);
      GroupStep(init, a, hotspot, kind, severity, GroupOf(init, Key(hotspot, kind, severity)));
      KeyIs(a, hotspot, kind, severity);
      hide GroupFits, KeyOf, AddTo, OfKey;
    }
  }

  lemma NoneThere(hotspot: int, kind: string, severity: string)
    ensures GroupFits([], hotspot, kind, severity, None)
  {
    assert Those([], hotspot, kind, severity) == {};
    forall status
      ensures ThoseIn([], hotspot, kind, severity, status) == {}
    {
    }
  }

  lemma GroupStep(alerts: seq<Alert>, a: Alert, hotspot: int, kind: string, severity: string, g: Option<Group>)
    requires GroupFits(alerts, hotspot, kind, severity, g)
    ensures GroupFits(alerts + [a], hotspot, kind, severity,
                      if OfKey(a, hotspot, kind, severity) then Some(AddTo(g, a)) else g)
  {
    ThoseStep(alerts, a, hotspot, kind, severity);
    ThoseInStep(alerts, a, hotspot, kind, severity, Open);
    ThoseInStep(alerts, a, hotspot, kind, severity, Acknowledged);
    ThoseInStep(alerts, a, hotspot, kind, severity, Resolved);
    ThoseInStep(alerts, a, hotspot, kind, severity, Dismissed);
    ValuesAppend(alerts, a, hotspot, kind, severity);
    SomeOrNone(alerts, a, hotspot, kind, severity);
    hide OfKey, Those, ThoseIn, Values;
  }

  lemma SomeOrNone(alerts: seq<Alert>, a: Alert, hotspot: int, kind: string, severity: string)
    ensures Those(alerts + [a], hotspot, kind, severity) == {} <==>
            Those(alerts, hotspot, kind, severity) == {} && !OfKey(a, hotspot, kind, severity)
  {
    hide OfKey;
    if OfKey(a, hotspot, kind, severity) {
      assert |alerts| in Those(alerts + [a], hotspot, kind, severity);
    } else {
      assert Those(alerts + [a], hotspot, kind, severity) == Those(alerts, hotspot, kind, severity);
    }
  }

  /**
   A digest has one summary for each hotspot, kind and severity among its alerts,
   with the number of the open ones, of all and of the resolved ones, the sum of
   their values, the first one's creation time and the latest.
   */
  lemma SummaryIs(alerts: seq<Alert>, hotspot: int, kind: string, severity: string)
    ensures GroupOf(alerts, Key(hotspot, kind, severity)).Some? <==>
            exists i :: 0 <= i < |alerts| && OfKey(alerts[i], hotspot, kind, severity)
    ensures GroupOf(alerts, Key(hotspot, kind, severity)).Some? ==>
              var s := Summarised(GroupOf(alerts, Key(hotspot, kind, severity)).value);
              && s.open == |ThoseIn(alerts, hotspot, kind, severity, Open)|
              && s.total == |Those(alerts, hotspot, kind, severity)|
              && s.resolved == |ThoseIn(alerts, hotspot, kind, severity, Resolved)|
              && s.value == Values(alerts, hotspot, kind, severity)
              && (exists i :: 0 <= i < |alerts| && OfKey(alerts[i], hotspot, kind, severity) &&
                              alerts[i].createdAt == s.first &&
                              forall j :: 0 <= j < i ==> !OfKey(alerts[j], hotspot, kind, severity))
              && (exists i :: 0 <= i < |alerts| && OfKey(alerts[i], hotspot, kind, severity) &&
                              alerts[i].createdAt == s.last)
              && (forall i :: 0 <= i < |alerts| && OfKey(alerts[i], hotspot, kind, severity) ==>
                    alerts[i].createdAt <= s.last)
  {
    var k := Key(hotspot, kind, severity);
    GroupsFit(alerts, hotspot, kind, severity);
    forall i | 0 <= i < |alerts|
      ensures KeyOf(alerts[i]) == k <==> OfKey(alerts[i], hotspot, kind, severity)
    {
      KeyIs(alerts[i], hotspot, kind, severity);
    }
    GroupedIff(alerts, k);
    hide KeyOf, OfKey, GroupOf, Values, Those, ThoseIn;
    if GroupOf(alerts, k).Some? {
      GroupTimes(alerts, k);
    }
  }

  // ---- Findings and vouchers ----

  /** Of the findings with one fingerprint, a run inserts the earliest. */
  lemma {:induction false} FirstsAreEarliest(findings: seq<Finding>, k: nat)
    requires k < |Firsts(findings)|
    ensures exists i :: 0 <= i < |findings| && findings[i] == Firsts(findings)[k] &&
                        !Seen(findings[..i], findings[i].fingerprint)
  {
    var n := |findings| - 1;
    var init := findings[..n];
    if k < |Firsts(init)| {
      FirstsAreEarliest(init, k);
      var i :| 0 <= i < |init| && init[i] == Firsts(init)[k] && !Seen(init[..i], init[i].fingerprint);
      assert init[..i] == findings[..i];
      assert findings[i] == Firsts(findings)[k] && !Seen(findings[..i], findings[i].fingerprint);
    } else {
      assert findings[n] == Firsts(findings)[k] && !Seen(findings[..n], findings[n].fingerprint);
    }
  }

  /** The count of a voucher is how often it occurs among the sessions. */
  lemma {:induction false} UsesAre(vouchers: seq<Option<int>>, v: int)
    ensures Uses(vouchers, v) == multiset(vouchers)[Some(v)]
  {
    if vouchers != [] {
      var n := |vouchers| - 1;
      UsesAre(vouchers[..n], v);
      assert vouchers == vouchers[..n] + [vouchers[n]];
    }
  }
}
