/**
 The traffic-spike rule: the median of a week of hourly totals, the
 root-mean-square deviation about it, and a threshold three deviations above.
 Floating-point numbers are exact reals.
 */
module Spikes {
  import Devices

  datatype Bucket = Bucket(hour: int, bytes: nat)

  /** What a value contributes to a sum over a sample. */
  datatype Weight =
    | Below(bound: real)
    | AtMost(bound: real)
    | Beyond(center: real, variance: real)
    | SquareAbout(center: real)

  function Square(x: real): real {
    x * x
  }

  /** More than three deviations above the center, without taking the root of the variance. */
  predicate IsBeyond(x: real, center: real, variance: real) {
    x > center && Square(x - center) > 9.0 * variance
  }

  function Weigh(w: Weight, x: real): real {
    match w
    case Below(bound) => if x < bound then 1.0 else 0.0
    case AtMost(bound) => if x <= bound then 1.0 else 0.0
    case Beyond(center, variance) => if IsBeyond(x, center, variance) then 1.0 else 0.0
    case SquareAbout(center) => Square(x - center)
  }

  function Sum(v: seq<real>, w: Weight): real {
    if v == [] then 0.0 else Sum(v[..|v| - 1], w) + Weigh(w, v[|v| - 1])
  }

  /** How many values lie below, or at most at, a bound, or beyond three deviations. */
  function Count(v: seq<real>, w: Weight): real
    requires !w.SquareAbout?
  {
    Sum(v, w)
  }

  function Variance(v: seq<real>, center: real): real
    requires v != []
  {
    Sum(v, SquareAbout(center)) / |v| as real
  }

  /** The element with at most half of the sample below it and more than half at or below it. */
  ghost predicate IsMedian(v: seq<real>, m: real) {
    && m in v
    && Count(v, Below(m)) <= (|v| / 2) as real < Count(v, AtMost(m))
  }

  // ---- Sums do not depend on the order ----

  lemma {:induction false} SumRemove(v: seq<real>, k: nat, w: Weight)
    requires k < |v|
    ensures Sum(v, w) == Sum(v[..k] + v[k + 1..], w) + Weigh(w, v[k])
  {
    hide Weigh;
    var n := |v| - 1;
    if k == n {
      assert v[..k] + v[k + 1..] == v[..n];
    } else {
      SumRemove(v[..n], k, w);
      var rest := v[..k] + v[k + 1..];
      assert rest[|rest| - 1] == v[n];
      assert rest[..|rest| - 1] == v[..n][..k] + v[..n][k + 1..];
    }
  }

  lemma RemoveFromMultiset(v: seq<real>, k: nat)
    requires k < |v|
    ensures multiset(v[..k] + v[k + 1..]) == multiset(v) - multiset{v[k]}
  {
    assert v == v[..k] + [v[k]] + v[k + 1..];
  }

  lemma {:induction false} SumPermuted(a: seq<real>, b: seq<real>, w: Weight)
    requires multiset(a) == multiset(b)
    ensures Sum(a, w) == Sum(b, w) && |a| == |b|
    decreases |a|
  {
    hide Weigh;
    SameSize(a, b);
    if a != [] {
      var n := |a| - 1;
      var k := SameElement(a, b);
      SumPermuted(a[..n], b[..k] + b[k + 1..], w);
      SumRemove(b, k, w);
    }
  }

  lemma SameSize(a: seq<real>, b: seq<real>)
    requires multiset(a) == multiset(b)
    ensures |a| == |b|
  {
    assert |a| == |multiset(a)| == |multiset(b)| == |b|;
  }

  /** The place in a permutation of the last element, and what is left without it. */
  lemma SameElement(a: seq<real>, b: seq<real>) returns (k: nat)
    requires multiset(a) == multiset(b) && a != []
    ensures k < |b| && b[k] == a[|a| - 1] && multiset(b[..k] + b[k + 1..]) == multiset(a[..|a| - 1])
  {
    var n := |a| - 1;
    assert a[n] in multiset(a);
    k :| 0 <= k < |b| && b[k] == a[n];
    RemoveFromMultiset(b, k);
    RemoveFromMultiset(a, n);
    assert a[..n] + a[n + 1..] == a[..n];
  }

  lemma {:induction false} SumMonotone(v: seq<real>, w: Weight, w': Weight)
    requires forall x :: x in v ==> Weigh(w, x) <= Weigh(w', x)
    ensures Sum(v, w) <= Sum(v, w')
  {
    hide Weigh;
    if v != [] {
      assert v[|v| - 1] in v && forall x :: x in v[..|v| - 1] ==> x in v;
      SumMonotone(v[..|v| - 1], w, w');
    }
  }

  // ---- The median ----

  lemma MedianIsUnique(v: seq<real>, m: real, m': real)
    requires IsMedian(v, m) && IsMedian(v, m')
    ensures m == m'
  {
    if m < m' {
      SumMonotone(v, AtMost(m), Below(m'));
    } else if m' < m {
      SumMonotone(v, AtMost(m'), Below(m));
    }
  }

  predicate Ascending(v: seq<real>) {
    forall i, j :: 0 <= i < j < |v| ==> v[i] <= v[j]
  }

  lemma {:induction false} FewBelow(v: seq<real>, k: nat, n: nat)
    requires Ascending(v) && k < |v| && n <= |v|
    ensures Count(v[..n], Below(v[k])) <= (if n <= k then n else k) as real
    decreases n
  {
    if n > 0 {
      FewBelow(v, k, n - 1);
      assert v[..n][..n - 1] == v[..n - 1];
    }
  }

  lemma {:induction false} ManyAtMost(v: seq<real>, k: nat, n: nat)
    requires Ascending(v) && k < |v| && n <= |v|
    ensures Count(v[..n], AtMost(v[k])) >= (if n <= k then n else k + 1) as real
    decreases n
  {
    if n > 0 {
      ManyAtMost(v, k, n - 1);
      assert v[..n][..n - 1] == v[..n - 1];
    }
  }

  /** The middle element of the sorted sample is the median of the sample. */
  lemma MiddleIsMedian(v: seq<real>, sorted: seq<real>)
    requires Ascending(sorted) && multiset(sorted) == multiset(v) && v != []
    ensures |sorted| == |v| && IsMedian(v, sorted[|v| / 2])
  {
    SumPermuted(sorted, v, Below(0.0));
    var m := sorted[|v| / 2];
    FewBelow(sorted, |v| / 2, |v|);
    ManyAtMost(sorted, |v| / 2, |v|);
    assert sorted[..|v|] == sorted;
    SumPermuted(sorted, v, Below(m));
    SumPermuted(sorted, v, AtMost(m));
    assert m in multiset(sorted);
  }

  // ---- The threshold ----

  /** sum of squares >= 9 * variance * (number of values beyond), strictly if there is any. */
  lemma {:induction false} SquaresCoverBeyond(v: seq<real>, center: real, variance: real)
    requires variance > 0.0
    ensures 0.0 <= Count(v, Beyond(center, variance))
    ensures Sum(v, SquareAbout(center)) >= 9.0 * variance * Count(v, Beyond(center, variance))
    ensures Count(v, Beyond(center, variance)) > 0.0 ==>
              Sum(v, SquareAbout(center)) > 9.0 * variance * Count(v, Beyond(center, variance))
  {
    if v != [] {
      var x := v[|v| - 1];
      SquaresCoverBeyond(v[..|v| - 1], center, variance);
      SquareNotNegative(x - center);
      var c := Count(v[..|v| - 1], Beyond(center, variance));
      assert 9.0 * variance * (c + 1.0) == 9.0 * variance * c + 9.0 * variance;
    }
  }

  lemma SquareNotNegative(x: real)
    ensures Square(x) >= 0.0
  {
  }

  /**
   Hours more than three deviations above any center are fewer than a ninth of
   all hours, the deviation being the root-mean-square one about that center.
   */
  lemma BeyondIsRare(v: seq<real>, center: real)
    requires v != [] && Variance(v, center) > 0.0
    ensures 9.0 * Count(v, Beyond(center, Variance(v, center))) < |v| as real
  {
    var n, variance := |v| as real, Variance(v, center);
    var c := Count(v, Beyond(center, variance));
    SquaresCoverBeyond(v, center, variance);
    assert variance * n == Sum(v, SquareAbout(center)) by {
      Cancel(Sum(v, SquareAbout(center)), n);
    }
    if c > 0.0 {
      assert variance * n > variance * (9.0 * c);
      Divide(variance, n, 9.0 * c);
    }
  }

  lemma Cancel(x: real, n: real)
    requires n > 0.0
    ensures x / n * n == x
  {
  }

  lemma Divide(k: real, a: real, b: real)
    requires k > 0.0 && k * a > k * b
    ensures a > b
  {
    if a <= b {
      Scale(k, a, b);
    }
  }

  lemma Scale(k: real, a: real, b: real)
    requires k >= 0.0 && a <= b
    ensures k * a <= k * b
  {
  }

  lemma ScaleStrictly(k: real, a: real, b: real)
    requires k > 0.0 && a < b
    ensures k * a < k * b
  {
  }

  lemma {:induction false} OneBeyond(v: seq<real>, x: real, center: real, variance: real)
    requires x in v && IsBeyond(x, center, variance)
    ensures Count(v, Beyond(center, variance)) >= 1.0
  {
    var n := |v| - 1;
    assert v == v[..n] + [v[n]];
    if x in v[..n] {
      OneBeyond(v[..n], x, center, variance);
    } else {
      CountNotNegative(v[..n], Beyond(center, variance));
    }
  }

  lemma {:induction false} CountNotNegative(v: seq<real>, w: Weight)
    requires !w.SquareAbout?
    ensures Count(v, w) >= 0.0
  {
    if v != [] {
      CountNotNegative(v[..|v| - 1], w);
    }
  }

  /** The comparison with the truncated threshold, for any root of the variance. */
  lemma ThresholdIsBeyond(cur: nat, center: real, variance: real, std: real)
    requires center >= 0.0 && std >= 0.0 && std * std == variance
    ensures cur > Devices.Truncate(center + 3.0 * std) <==> IsBeyond(cur as real, center, variance)
  {
    var d := cur as real - center;
    assert Square(3.0 * std) == 9.0 * variance;
    SquaresOrder(d, 3.0 * std);
    assert cur > Devices.Truncate(center + 3.0 * std) <==> cur as real > center + 3.0 * std;
  }

  lemma SquareGrows(a: real, b: real)
    requires 0.0 <= a < b
    ensures Square(a) < Square(b)
  {
    var d := b - a;
    assert Square(b) == Square(a) + 2.0 * (a * d) + Square(d);
    ScaleStrictly(d, 0.0, d);
    assert d * 0.0 == 0.0;
    assert d * d > 0.0;
    assert a * d >= 0.0;
  }

  lemma SquaresOrder(a: real, b: real)
    requires b >= 0.0
    ensures a > b <==> a > 0.0 && Square(a) > Square(b)
  {
    if a > b {
      SquareGrows(b, a);
    } else if a > 0.0 {
      Scale(a, a, b);
      Scale(b, a, b);
      assert Square(a) <= a * b == b * a <= Square(b);
    }
  }

  // ---- The rule ----

  function Sample(buckets: seq<Bucket>): (v: seq<real>)
    ensures |v| == |buckets| && forall i :: 0 <= i < |v| ==> v[i] == buckets[i].bytes as real
  {
    seq(|buckets|, i requires 0 <= i < |buckets| => buckets[i].bytes as real)
  }

  /** The bytes of the current hour: those of its last bucket, none if it has no bucket. */
  function Current(buckets: seq<Bucket>, hour: int): (cur: nat)
    ensures cur == 0 || exists i :: 0 <= i < |buckets| && buckets[i].hour == hour && buckets[i].bytes == cur
  {
    if buckets == [] then 0
    else if buckets[|buckets| - 1].hour == hour then buckets[|buckets| - 1].bytes
    else Current(buckets[..|buckets| - 1], hour)
  }

  /** A spike alert is raised for the hotspot with these buckets. */
  ghost predicate Fires(buckets: seq<Bucket>, hour: int) {
    && |buckets| >= 5
    && exists m ::
         && IsMedian(Sample(buckets), m) && Variance(Sample(buckets), m) > 0.0
         && IsBeyond(Current(buckets, hour) as real, m, Variance(Sample(buckets), m))
         && Current(buckets, hour) > Devices.Truncate(m * 2.0)
  }

  /** No spike alert with fewer than ten buckets, whatever the traffic, despite the guard of five. */
  lemma NoSpikeBelowTen(buckets: seq<Bucket>, hour: int)
    requires Fires(buckets, hour)
    ensures |buckets| >= 10
  {
    var v, cur := Sample(buckets), Current(buckets, hour);
    var m :| IsMedian(v, m) && Variance(v, m) > 0.0 && IsBeyond(cur as real, m, Variance(v, m));
    hide Variance, Sum;
    assert m in v && m >= 0.0;
    assert cur as real in v;
    OneBeyond(v, cur as real, m, Variance(v, m));
    BeyondIsRare(v, m);
  }

  /** Quiet hours and then one with a single byte, the current one. */
  function Peak(n: nat): seq<Bucket>
    requires n > 0
  {
    seq(n, i => Bucket(i, if i == n - 1 then 1 else 0))
  }

  lemma {:induction false} QuietSums(v: seq<real>)
    requires forall i :: 0 <= i < |v| ==> v[i] == 0.0
    ensures Count(v, Below(0.0)) == 0.0 && Count(v, AtMost(0.0)) == |v| as real && Sum(v, SquareAbout(0.0)) == 0.0
  {
    if v != [] {
      QuietSums(v[..|v| - 1]);
    }
  }

  lemma PeakStatistics(v: seq<real>)
    requires |v| >= 10 && v[|v| - 1] == 1.0 && forall i :: 0 <= i < |v| - 1 ==> v[i] == 0.0
    ensures IsMedian(v, 0.0) && Sum(v, SquareAbout(0.0)) == 1.0
  {
    QuietSums(v[..|v| - 1]);
    assert v[0] == 0.0;
    assert Square(1.0) == 1.0;
  }

  lemma PeakFires(n: nat)
    requires n >= 10
    ensures Fires(Peak(n), n - 1)
  {
    var v := Sample(Peak(n));
    PeakStatistics(v);
    hide IsMedian, Sum, Peak;
    assert Variance(v, 0.0) == 1.0 / n as real;
    assert 9.0 * (1.0 / n as real) < 1.0;
    assert Square(1.0) == 1.0;
    assert IsBeyond(1.0, 0.0, Variance(v, 0.0));
    assert Current(Peak(n), n - 1) == 1 by {
      PeakCurrent(n);
    }
  }

  lemma PeakCurrent(n: nat)
    requires n > 0
    ensures Current(Peak(n), n - 1) == 1
  {
  }

  /** Ten buckets are what the rule really needs. */
  lemma SpikeNeedsTen(n: nat)
    ensures (exists buckets, hour :: |buckets| == n && Fires(buckets, hour)) <==> n >= 10
  {
    if n >= 10 {
      PeakFires(n);
      assert |Peak(n)| == n;
    }
    forall buckets, hour | Fires(buckets, hour)
      ensures |buckets| >= 10
    {
      NoSpikeBelowTen(buckets, hour);
    }
  }

  // ---- In place ----

  ghost predicate IsRoot(root: real -> real) {
    forall x :: x >= 0.0 ==> root(x) >= 0.0 && root(x) * root(x) == x
  }

  /** The first `n` elements are in their final places. */
  predicate Placed(v: seq<real>, n: nat) {
    forall j, k :: 0 <= j < n && j < k < |v| ==> v[j] <= v[k]
  }

  lemma SwapPlaces(v: seq<real>, n: nat, least: nat)
    requires n <= least < |v| && Placed(v, n) && forall k :: n <= k < |v| ==> v[least] <= v[k]
    ensures var swapped := v[n := v[least]][least := v[n]];
            Placed(swapped, n + 1) && multiset(swapped) == multiset(v)
  {
  }

  method LeastFrom(a: array<real>, i: nat) returns (least: nat)
    requires i < a.Length
    ensures i <= least < a.Length && forall k :: i <= k < a.Length ==> a[least] <= a[k]
  {
    least := i;
    for j := i + 1 to a.Length
      invariant i <= least < j
      invariant forall k :: i <= k < j ==> a[least] <= a[k]
    {
      if a[j] < a[least] {
        least := j;
      }
    }
  }

  /** Sorts in place. */
  method Sort(a: array<real>)
    modifies a
    ensures Ascending(a[..]) && multiset(a[..]) == multiset(old(a[..]))
  {
    hide Placed;
    assert Placed(a[..], 0) by {
      NonePlaced(a[..]);
    }
    for i := 0 to a.Length
      invariant multiset(a[..]) == multiset(old(a[..])) && Placed(a[..], i)
    {
      var least := LeastFrom(a, i);
      ghost var before := a[..];
      SwapPlaces(before, i, least);
      a[i], a[least] := a[least], a[i];
      assert a[..] == before[i := before[least]][least := before[i]];
    }
    AllPlaced(a[..]);
  }

  lemma NonePlaced(v: seq<real>)
    ensures Placed(v, 0)
  {
  }

  lemma AllPlaced(v: seq<real>)
    requires Placed(v, |v|)
    ensures Ascending(v)
  {
  }

  method SquaresAbout(v: array<real>, median: real) returns (sum: real)
    ensures sum == Sum(v[..], SquareAbout(median)) && sum >= 0.0
  {
    sum := 0.0;
    for i := 0 to v.Length
      invariant sum == Sum(v[..i], SquareAbout(median)) && sum >= 0.0
    {
      assert v[..i + 1][..i] == v[..i];
      SquareNotNegative(v[i] - median);
      sum := sum + (v[i] - median) * (v[i] - median);
    }
    assert v[..v.Length] == v[..];
  }

  /** Sorts the sample and returns its median and the root-mean-square deviation about it. */
  method MeanStd(v: array<real>, root: real -> real) returns (median: real, std: real)
    requires IsRoot(root)
    modifies v
    ensures multiset(v[..]) == multiset(old(v[..]))
    ensures v.Length == 0 ==> median == 0.0 && std == 0.0
    ensures v.Length > 0 ==>
              && IsMedian(old(v[..]), median)
              && std >= 0.0 && std * std == Variance(old(v[..]), median)
  {
    hide Sum, IsMedian;
    if v.Length == 0 {
      return 0.0, 0.0;
    }
    Sort(v);
    median := v[v.Length / 2];
    MiddleIsMedian(old(v[..]), v[..]);
    hide Ascending;
    var sum := SquaresAbout(v, median);
    SumPermuted(v[..], old(v[..]), SquareAbout(median));
    assert sum / v.Length as real >= 0.0;
    std := root(sum / v.Length as real);
  }

  method CurrentOf(buckets: seq<Bucket>, hour: int) returns (cur: nat)
    ensures cur == Current(buckets, hour)
  {
    cur := 0;
    for i := 0 to |buckets|
      invariant cur == Current(buckets[..i], hour)
    {
      assert buckets[..i + 1][..i] == buckets[..i];
      if buckets[i].hour == hour {
        cur := buckets[i].bytes;
      }
    }
    assert buckets[..|buckets|] == buckets;
  }

  /** The rule for one hotspot. */
  method SpikeRule(buckets: seq<Bucket>, hour: int, root: real -> real) returns (fired: bool)
    requires IsRoot(root)
    ensures fired <==> Fires(buckets, hour)
  {
    var n := |buckets|;
    if n < 5 {
      return false;
    }
    hide *;
    var vals := new real[n](i requires 0 <= i < n => buckets[i].bytes as real);
    assert vals[..] == Sample(buckets);
    var mean, std := MeanStd(vals, root);
    FiresByMedian(buckets, hour, mean);
    RootPositive(std, Variance(Sample(buckets), mean));
    if std > 0.0 {
      var threshold := mean + 3.0 * std;
      var cur := CurrentOf(buckets, hour);
      ThresholdIsBeyond(cur, mean, Variance(Sample(buckets), mean), std);
      return cur > Devices.Truncate(threshold) && cur > Devices.Truncate(mean * 2.0);
    }
    return false;
  }

  lemma RootPositive(std: real, variance: real)
    requires std >= 0.0 && std * std == variance
    ensures std > 0.0 <==> variance > 0.0
  {
    if std > 0.0 {
      SquareGrows(0.0, std);
      assert Square(0.0) == 0.0;
    }
  }

  /** The rule in terms of the one median. */
  lemma FiresByMedian(buckets: seq<Bucket>, hour: int, m: real)
    requires |buckets| >= 5 && IsMedian(Sample(buckets), m)
    ensures m >= 0.0
    ensures Fires(buckets, hour) <==>
            && Variance(Sample(buckets), m) > 0.0
            && IsBeyond(Current(buckets, hour) as real, m, Variance(Sample(buckets), m))
            && Current(buckets, hour) > Devices.Truncate(m * 2.0)
  {
    hide Sum, Variance, Current, Devices.Truncate, IsBeyond;
    assert m in Sample(buckets);
    OnlyMedian(Sample(buckets), m);
    hide IsMedian;
  }

  lemma OnlyMedian(v: seq<real>, m: real)
    requires IsMedian(v, m)
    ensures forall m' :: IsMedian(v, m') ==> m' == m
  {
    forall m' | IsMedian(v, m')
      ensures m' == m
    {
      MedianIsUnique(v, m, m');
    }
  }
}
