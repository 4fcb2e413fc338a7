/** The spike rule in whole numbers: no root, no truncation, no sorting. */
module SpikeRules {
  import opened Spikes

  /** The buckets with less traffic than `m`. */
  function Less(buckets: seq<Bucket>, m: nat): set<int> {
    set i | 0 <= i < |buckets| && buckets[i].bytes < m
  }

  /** The buckets with at most that. */
  function NotMore(buckets: seq<Bucket>, m: nat): set<int> {
    set i | 0 <= i < |buckets| && buckets[i].bytes <= m
  }

  /** The traffic of the upper middle one of the buckets. */
  ghost predicate IsMiddle(buckets: seq<Bucket>, m: nat) {
    && (exists i :: 0 <= i < |buckets| && buckets[i].bytes == m)
    && |Less(buckets, m)| <= |buckets| / 2 < |NotMore(buckets, m)|
  }

  /** The sum of the squared distances from `m`. */
  function Squares(buckets: seq<Bucket>, m: nat): int {
    if buckets == [] then 0 else (buckets[0].bytes - m) * (buckets[0].bytes - m) + Squares(buckets[1..], m)
  }

  /** The current traffic is that of the last bucket of the hour. */
  lemma {:induction false} CurrentIsLast(buckets: seq<Bucket>, hour: int, i: nat)
    requires i < |buckets| && buckets[i].hour == hour && forall j :: i < j < |buckets| ==> buckets[j].hour != hour
    ensures Current(buckets, hour) == buckets[i].bytes
  {
    if i < |buckets| - 1 {
      CurrentIsLast(buckets[..|buckets| - 1], hour, i);
    }
  }

  /** Without a bucket of the hour it is zero. */
  lemma {:induction false} NoCurrent(buckets: seq<Bucket>, hour: int)
    requires forall j :: 0 <= j < |buckets| ==> buckets[j].hour != hour
    ensures Current(buckets, hour) == 0
  {
    if buckets != [] {
      NoCurrent(buckets[..|buckets| - 1], hour);
    }
  }

  lemma {:induction false} CountsAre(buckets: seq<Bucket>, m: nat)
    ensures Count(Sample(buckets), Below(m as real)) == |Less(buckets, m)| as real
    ensures Count(Sample(buckets), AtMost(m as real)) == |NotMore(buckets, m)| as real
  {
    if buckets == [] {
      assert Less(buckets, m) == {} && NotMore(buckets, m) == {};
    } else {
      var n := |buckets| - 1;
      CountsAre(buckets[..n], m);
      assert Sample(buckets)[..n] == Sample(buckets[..n]);
      LessStep(buckets, m);
    }
  }

  lemma LessStep(buckets: seq<Bucket>, m: nat)
    requires buckets != []
    ensures var n := |buckets| - 1;
            && |Less(buckets, m)| == |Less(buckets[..n], m)| + (if buckets[n].bytes < m then 1 else 0)
            && |NotMore(buckets, m)| == |NotMore(buckets[..n], m)| + (if buckets[n].bytes <= m then 1 else 0)
  {
    var n := |buckets| - 1;
    assert Less(buckets, m) == if buckets[n].bytes < m then Less(buckets[..n], m) + {n} else Less(buckets[..n], m);
    assert NotMore(buckets, m) ==
           if buckets[n].bytes <= m then NotMore(buckets[..n], m) + {n} else NotMore(buckets[..n], m);
  }

  lemma {:induction false} SquaresAppend(buckets: seq<Bucket>, last: Bucket, m: nat)
    ensures Squares(buckets + [last], m) == Squares(buckets, m) + (last.bytes - m) * (last.bytes - m)
  {
    if buckets == [] {
      assert [] + [last] == [last];
    } else {
      assert (buckets + [last])[1..] == buckets[1..] + [last];
      SquaresAppend(buckets[1..], last, m);
    }
  }

  lemma {:induction false} SquaresAre(buckets: seq<Bucket>, m: nat)
    ensures Sum(Sample(buckets), SquareAbout(m as real)) == Squares(buckets, m) as real
  {
    if buckets != [] {
      var n := |buckets| - 1;
      SquaresAre(buckets[..n], m);
      assert Sample(buckets)[..n] == Sample(buckets[..n]);
      assert buckets[..n] + [buckets[n]] == buckets;
      SquaresAppend(buckets[..n], buckets[n], m);
      SquareOfInt(buckets[n].bytes - m);
      assert (buckets[n].bytes - m) as real == buckets[n].bytes as real - m as real;
    }
  }

  lemma SquareOfInt(x: int)
    ensures Square(x as real) == (x * x) as real
  {
  }

  lemma MiddleIs(buckets: seq<Bucket>, m: nat)
    requires IsMiddle(buckets, m)
    ensures IsMedian(Sample(buckets), m as real)
  {
    CountsAre(buckets, m);
    var i :| 0 <= i < |buckets| && buckets[i].bytes == m;
    assert Sample(buckets)[i] == m as real;
    hide Sum, Less, NotMore;
  }

  /** There is a middle traffic whenever there are buckets: the least one that more than half do not exceed. */
  lemma {:induction false} MiddleExists(buckets: seq<Bucket>, bound: nat) returns (m: nat)
    requires |NotMore(buckets, bound)| > |buckets| / 2
    ensures IsMiddle(buckets, m)
  {
    if bound > 0 && |NotMore(buckets, bound - 1)| > |buckets| / 2 {
      m := MiddleExists(buckets, bound - 1);
    } else {
      m := bound;
      assert Less(buckets, m) == if m > 0 then NotMore(buckets, m - 1) else {};
      if forall i :: 0 <= i < |buckets| ==> buckets[i].bytes != m {
        assert NotMore(buckets, m) == Less(buckets, m);
      }
    }
  }

  lemma MiddleOf(buckets: seq<Bucket>) returns (m: nat)
    requires buckets != []
    ensures IsMiddle(buckets, m)
  {
    var bound: nat := 0;
    for k := 0 to |buckets|
      invariant forall i :: 0 <= i < k ==> buckets[i].bytes <= bound
    {
      bound := if buckets[k].bytes > bound then buckets[k].bytes else bound;
    }
    AllNotMore(buckets, bound);
    m := MiddleExists(buckets, bound);
  }

  lemma {:induction false} AllNotMore(buckets: seq<Bucket>, bound: nat)
    requires forall i :: 0 <= i < |buckets| ==> buckets[i].bytes <= bound
    ensures |NotMore(buckets, bound)| == |buckets|
  {
    if buckets == [] {
      assert NotMore(buckets, bound) == {};
    } else {
      AllNotMore(buckets[..|buckets| - 1], bound);
      LessStep(buckets, bound);
    }
  }

  /** More than three deviations: nine times the mean square, without dividing. */
  lemma BeyondInWholeNumbers(cur: nat, m: nat, squares: int, n: nat)
    requires n > 0 && squares >= 0
    ensures IsBeyond(cur as real, m as real, squares as real / n as real) <==>
            cur > m && n * ((cur - m) * (cur - m)) > 9 * squares
  {
    var s := (cur - m) * (cur - m);
    SquareOfInt(cur - m);
    assert (cur - m) as real == cur as real - m as real;
    var q := squares as real / n as real;
    assert q * n as real == squares as real;
    Times(s as real, 9.0 * q, n as real);
    assert 9.0 * q * n as real == (9 * squares) as real;
    assert s as real * n as real == (n * s) as real;
  }

  lemma Times(a: real, b: real, n: real)
    requires n > 0.0
    ensures a > b <==> a * n > b * n
  {
    if a > b {
      assert (a - b) * n > 0.0;
    } else {
      assert (b - a) * n >= 0.0;
    }
  }

  /**
   With the middle traffic `m`, the sum of squared distances from it and the
   current traffic as whole numbers, the rule fires exactly for at least five
   buckets, not all at `m`, when the current traffic is more than twice `m` and
   the square of its distance is more than nine times the mean square.
   */
  lemma SpikeIff(buckets: seq<Bucket>, hour: int, m: nat, cur: nat)
    requires IsMiddle(buckets, m) && cur == Current(buckets, hour)
    ensures Fires(buckets, hour) <==>
            && |buckets| >= 5 && Squares(buckets, m) > 0 && cur > 2 * m
            && |buckets| * ((cur - m) * (cur - m)) > 9 * Squares(buckets, m)
  {
    hide Sum, Squares, IsMedian, Current, IsMiddle, IsBeyond;
    MiddleIs(buckets, m);
    SquaresAre(buckets, m);
    if |buckets| >= 5 {
      FiresByMedian(buckets, hour, m as real);
      var n, squares := |buckets|, Squares(buckets, m);
      SquaresNatural(buckets, m);
      BeyondInWholeNumbers(cur, m, squares, n);
      assert Variance(Sample(buckets), m as real) == squares as real / n as real;
      assert squares as real / n as real > 0.0 <==> squares > 0;
      assert m as real * 2.0 == (2 * m) as real;
      hide Fires;
    }
  }

  lemma {:induction false} SquaresNatural(buckets: seq<Bucket>, m: nat)
    ensures Squares(buckets, m) >= 0
  {
    if buckets != [] {
      SquaresNatural(buckets[1..], m);
      SquareNatural(buckets[0].bytes - m);
    }
  }

  lemma SquareNatural(x: int)
    ensures x * x >= 0
  {
  }
}
