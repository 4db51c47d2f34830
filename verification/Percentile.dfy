/** The interpolated latency percentile, rounded half to even at three decimal places. */
module Percentile {
  import opened Common

  // ---------------------------------------------------------------- rounding

  /** The whole number nearest to x, a tie going to the even one. */
  function NearestEven(x: real): (n: int)
    ensures n as real - 0.5 <= x <= n as real + 0.5
    ensures x == n as real - 0.5 || x == n as real + 0.5 ==> n % 2 == 0
  {
    var f := x.Floor;
    var rest := x - f as real;
    if rest < 0.5 then f else if rest > 0.5 then f + 1 else if f % 2 == 0 then f else f + 1
  }

  function Round3(x: real): real {
    NearestEven(x * 1000.0) as real / 1000.0
  }

  lemma NearestEvenIsMonotone(x: real, y: real)
    requires x <= y
    ensures NearestEven(x) <= NearestEven(y)
  {
    var m, n := NearestEven(x), NearestEven(y);
    assert m as real - 0.5 <= x <= y <= n as real + 0.5;
    WholeStep(m, n);
  }

  lemma WholeStep(m: int, n: int)
    requires m as real <= n as real + 1.0
    ensures m <= n + 1
  {
    assert (n + 1) as real == n as real + 1.0;
  }

  lemma Round3IsMonotone(x: real, y: real)
    requires x <= y
    ensures Round3(x) <= Round3(y)
  {
    NearestEvenIsMonotone(x * 1000.0, y * 1000.0);
  }

  // ---------------------------------------------------------------- sorting

  predicate Ascending(s: seq<real>) {
    forall i, j :: 0 <= i < j < |s| ==> s[i] <= s[j]
  }

  function Insert(sorted: seq<real>, x: real): seq<real> {
    if sorted == [] || x < sorted[0] then [x] + sorted else [sorted[0]] + Insert(sorted[1..], x)
  }

  function SortAscending(s: seq<real>): seq<real> {
    if s == [] then [] else Insert(SortAscending(s[1..]), s[0])
  }

  lemma {:induction false} InsertKeepsElements(sorted: seq<real>, x: real)
    ensures multiset(Insert(sorted, x)) == multiset(sorted) + multiset{x}
    decreases |sorted|
  {
    HeadAndTail(Insert(sorted, x));
    if sorted != [] && x >= sorted[0] {
      InsertKeepsElements(sorted[1..], x);
      HeadAndTail(sorted);
      assert Insert(sorted, x)[1..] == Insert(sorted[1..], x);
    } else {
      assert Insert(sorted, x)[1..] == sorted;
    }
  }

  lemma {:induction false} InsertSorts(sorted: seq<real>, x: real)
    requires Ascending(sorted)
    ensures Ascending(Insert(sorted, x))
    ensures Insert(sorted, x)[0] == if sorted == [] || x < sorted[0] then x else sorted[0]
    decreases |sorted|
  {
    if sorted != [] && x >= sorted[0] {
      InsertSorts(sorted[1..], x);
      PrependSorted(sorted[0], Insert(sorted[1..], x));
    }
  }

  lemma PrependSorted(x: real, s: seq<real>)
    requires Ascending(s) && (s != [] ==> x <= s[0])
    ensures Ascending([x] + s)
  {
    forall i, j | 0 <= i < j < |[x] + s| ensures ([x] + s)[i] <= ([x] + s)[j] {
      assert s[0] <= s[j - 1];
    }
  }

  lemma {:induction false} SortKeepsElements(s: seq<real>)
    ensures multiset(SortAscending(s)) == multiset(s)
    decreases |s|
  {
    if s != [] {
      SortKeepsElements(s[1..]);
      InsertKeepsElements(SortAscending(s[1..]), s[0]);
      HeadAndTail(s);
    }
  }

  lemma {:induction false} SortIsAscending(s: seq<real>)
    ensures Ascending(SortAscending(s))
    decreases |s|
  {
    if s != [] {
      SortIsAscending(s[1..]);
      InsertSorts(SortAscending(s[1..]), s[0]);
    }
  }

  lemma SortAscendingSorts(s: seq<real>)
    ensures Ascending(SortAscending(s)) && multiset(SortAscending(s)) == multiset(s)
    ensures |SortAscending(s)| == |s|
  {
    SortIsAscending(s);
    SortKeepsElements(s);
    SameLength(SortAscending(s), s);
  }

  lemma {:induction false} SortedIsCanonical(a: seq<real>, b: seq<real>)
    requires Ascending(a) && Ascending(b) && multiset(a) == multiset(b)
    ensures a == b
    decreases |a|
  {
    SameLength(a, b);
    if a != [] {
      FirstsAgree(a, b);
      SameTails(a, b);
      SortedIsCanonical(a[1..], b[1..]);
      assert a == [a[0]] + a[1..] && b == [b[0]] + b[1..];
    }
  }

  lemma SameLength(a: seq<real>, b: seq<real>)
    requires multiset(a) == multiset(b)
    ensures |a| == |b|
  {
    assert |multiset(a)| == |a| && |multiset(b)| == |b|;
  }

  lemma SameTails(a: seq<real>, b: seq<real>)
    requires multiset(a) == multiset(b) && a != [] && b != [] && a[0] == b[0]
    ensures multiset(a[1..]) == multiset(b[1..])
  {
    CancelHead(a, b, 0);
    assert b[..0] + b[1..] == b[1..];
  }

  lemma FirstsAgree(a: seq<real>, b: seq<real>)
    requires Ascending(a) && Ascending(b) && multiset(a) == multiset(b) && a != [] && b != []
    ensures a[0] == b[0]
  {
    assert a[0] in multiset(b) && b[0] in multiset(a);
    var i :| 0 <= i < |b| && b[i] == a[0];
    var j :| 0 <= j < |a| && a[j] == b[0];
    assert b[0] <= b[i] && a[0] <= a[j];
  }

  // ---------------------------------------------------------------- interpolation

  /** The interpolated value at a rank between 0 and the last index. */
  function AtRank(ordered: seq<real>, rank: real): real
    requires ordered != [] && 0.0 <= rank <= (|ordered| - 1) as real
  {
    var low := rank.Floor;
    if low as real == rank then ordered[low]
    else
      var weight := rank - low as real;
      BelowLast(rank, |ordered| - 1);
      ordered[low] * (1.0 - weight) + ordered[low + 1] * weight
  }

  lemma BelowLast(rank: real, last: int)
    requires 0.0 <= rank <= last as real && rank.Floor as real != rank
    ensures 0 <= rank.Floor < last
  {
  }

  /** The point a share w of the way from a to b. */
  function Mixed(a: real, b: real, w: real): real {
    a + (b - a) * w
  }

  lemma Lerp(a: real, b: real, w: real)
    ensures a * (1.0 - w) + b * w == a + (b - a) * w
  {
  }

  lemma NotBelowLow(a: real, b: real, w: real)
    requires a <= b && 0.0 <= w <= 1.0
    ensures a <= a * (1.0 - w) + b * w
  {
    Lerp(a, b, w);
    Shrinks(b - a, w);
  }

  lemma NotAboveHigh(a: real, b: real, w: real)
    requires a <= b && 0.0 <= w <= 1.0
    ensures a * (1.0 - w) + b * w <= b
  {
    Lerp(a, b, w);
    Shrinks(b - a, w);
  }

  lemma Shrinks(d: real, w: real)
    requires d >= 0.0 && 0.0 <= w <= 1.0
    ensures 0.0 <= d * w <= d
  {
  }

  lemma Scales(d: real, w: real, v: real)
    requires d >= 0.0 && w <= v
    ensures d * w <= d * v
  {
  }

  /** The value at a rank lies between the two samples around it. */
  lemma BetweenNeighbours(ordered: seq<real>, rank: real)
    requires Ascending(ordered) && ordered != [] && 0.0 <= rank <= (|ordered| - 1) as real
    ensures 0 <= rank.Floor < |ordered|
    ensures ordered[rank.Floor] <= AtRank(ordered, rank)
    ensures rank.Floor + 1 < |ordered| ==> AtRank(ordered, rank) <= ordered[rank.Floor + 1]
    ensures ordered[0] <= AtRank(ordered, rank) && AtRank(ordered, rank) <= ordered[|ordered| - 1]
  {
    var low := rank.Floor;
    if low as real == rank {
      assert AtRank(ordered, rank) == ordered[low];
    } else {
      BelowLast(rank, |ordered| - 1);
      NotBelowLow(ordered[low], ordered[low + 1], rank - low as real);
      NotAboveHigh(ordered[low], ordered[low + 1], rank - low as real);
    }
  }

  /** Interpolation never falls as the rank grows, inside a segment and across the joins. */
  lemma InterpolationIsMonotone(ordered: seq<real>, r: real, s: real)
    requires Ascending(ordered) && ordered != [] && 0.0 <= r <= s <= (|ordered| - 1) as real
    ensures AtRank(ordered, r) <= AtRank(ordered, s)
  {
    BetweenNeighbours(ordered, r);
    BetweenNeighbours(ordered, s);
    if r.Floor == s.Floor {
      SameSegment(ordered, r, s);
    } else {
      FloorsApart(r, s);
      assert ordered[r.Floor + 1] <= ordered[s.Floor];
    }
  }

  lemma FloorsApart(r: real, s: real)
    requires r <= s && r.Floor != s.Floor
    ensures r.Floor + 1 <= s.Floor
  {
  }

  lemma SameSegment(ordered: seq<real>, r: real, s: real)
    requires Ascending(ordered) && ordered != [] && 0.0 <= r <= s <= (|ordered| - 1) as real
    requires r.Floor == s.Floor
    ensures AtRank(ordered, r) <= AtRank(ordered, s)
  {
    var low := r.Floor;
    if low as real == r {
      BetweenNeighbours(ordered, s);
    } else {
      InsideSegment(ordered, r);
      InsideSegment(ordered, s);
      MixedGrows(ordered[low], ordered[low + 1], r - low as real, s - low as real);
    }
  }

  lemma InsideSegment(ordered: seq<real>, rank: real)
    requires ordered != [] && 0.0 <= rank <= (|ordered| - 1) as real && rank.Floor as real != rank
    ensures rank.Floor + 1 < |ordered|
    ensures AtRank(ordered, rank) == Mixed(ordered[rank.Floor], ordered[rank.Floor + 1], rank - rank.Floor as real)
  {
    BelowLast(rank, |ordered| - 1);
    Lerp(ordered[rank.Floor], ordered[rank.Floor + 1], rank - rank.Floor as real);
  }

  lemma MixedGrows(a: real, b: real, w: real, v: real)
    requires a <= b && w <= v
    ensures Mixed(a, b, w) <= Mixed(a, b, v)
  {
    Scales(b - a, w, v);
  }

  // ---------------------------------------------------------------- the percentile

  function RankOf(percentile: real, count: nat): real {
    percentile / 100.0 * (count as real - 1.0)
  }

  lemma RankInRange(percentile: real, count: nat)
    requires 0.0 <= percentile <= 100.0 && count >= 1
    ensures 0.0 <= RankOf(percentile, count) && RankOf(percentile, count) <= (count - 1) as real
  {
    var last, share := (count - 1) as real, percentile / 100.0;
    assert last == count as real - 1.0 && 0.0 <= share <= 1.0;
    Fraction(last, share);
    assert RankOf(percentile, count) == share * last;
  }

  lemma Fraction(d: real, w: real)
    requires d >= 0.0 && 0.0 <= w <= 1.0
    ensures 0.0 <= w * d && w * d <= d
  {
  }

  lemma RankIsMonotone(p: real, q: real, count: nat)
    requires 0.0 <= p <= q <= 100.0 && count >= 1
    ensures RankOf(p, count) <= RankOf(q, count)
  {
    Scales(count as real - 1.0, p / 100.0, q / 100.0);
  }

  function ComputePercentile(samples: seq<real>, percentile: real): real {
    if samples == [] then 0.0
    else
      var ordered := SortAscending(samples);
      SortAscendingSorts(samples);
      if percentile <= 0.0 then Round3(ordered[0])
      else if percentile >= 100.0 then Round3(ordered[|ordered| - 1])
      else if |ordered| == 1 then Round3(ordered[0])
      else
        RankInRange(percentile, |ordered|);
        Round3(AtRank(ordered, RankOf(percentile, |ordered|)))
  }

  function Clamp(p: real): real {
    if p <= 0.0 then 0.0 else if p >= 100.0 then 100.0 else p
  }

  /** The three early returns agree with interpolation at the clamped percentile. */
  lemma OneFormula(samples: seq<real>, p: real)
    requires samples != []
    ensures |SortAscending(samples)| == |samples| && Ascending(SortAscending(samples))
    ensures 0.0 <= RankOf(Clamp(p), |samples|) <= (|samples| - 1) as real
    ensures ComputePercentile(samples, p) == Round3(AtRank(SortAscending(samples), RankOf(Clamp(p), |samples|)))
  {
    SortAscendingSorts(samples);
    RankInRange(Clamp(p), |samples|);
    if p >= 100.0 {
      assert RankOf(100.0, |samples|) == (|samples| - 1) as real;
      assert ((|samples| - 1) as real).Floor == |samples| - 1;
    } else if p <= 0.0 {
      assert RankOf(0.0, |samples|) == 0.0;
    } else if |samples| == 1 {
      assert RankOf(p, 1) == 0.0;
    }
  }

  /** At the percentile of an index the value is the sample of that rank, rounded. */
  lemma PercentileHitsTheSamples(samples: seq<real>, k: nat)
    requires k < |samples| && |samples| > 1
    ensures |SortAscending(samples)| == |samples|
    ensures ComputePercentile(samples, PercentileAt(k as real, |samples|)) == Round3(SortAscending(samples)[k])
  {
    RankAt(k as real, |samples|);
    OneFormula(samples, PercentileAt(k as real, |samples|));
    AtWholeRank(SortAscending(samples), k);
  }

  lemma AtWholeRank(ordered: seq<real>, k: nat)
    requires k < |ordered|
    ensures 0.0 <= k as real <= (|ordered| - 1) as real && AtRank(ordered, k as real) == ordered[k]
  {
    assert (k as real).Floor == k;
  }

  lemma ShareOf(k: real, last: real)
    requires 0.0 <= k <= last && last > 0.0
    ensures 0.0 <= 100.0 * k / last && 100.0 * k / last <= 100.0
    ensures 100.0 * k / last / 100.0 * last == k
  {
    var q := 100.0 * k / last;
    assert q * last == 100.0 * k;
    assert q / 100.0 * last == q * last / 100.0;
  }

  /** Between two neighbouring ranks the value runs straight from one sample to the next. */
  lemma SegmentsAreStraight(ordered: seq<real>, k: nat, w: real)
    requires k + 1 < |ordered| && 0.0 <= w < 1.0
    ensures 0.0 <= k as real + w <= (|ordered| - 1) as real
    ensures AtRank(ordered, k as real + w) == Mixed(ordered[k], ordered[k + 1], w)
  {
    assert (k as real + w).Floor == k;
    Lerp(ordered[k], ordered[k + 1], w);
  }

  /** At every percentile between two neighbouring samples' own, the value is their linear mix, rounded. */
  lemma PercentileInterpolates(samples: seq<real>, k: nat, w: real)
    requires k + 1 < |samples| && 0.0 <= w < 1.0
    ensures Ascending(SortAscending(samples)) && multiset(SortAscending(samples)) == multiset(samples)
    ensures |SortAscending(samples)| == |samples|
    ensures var ordered := SortAscending(samples);
            ComputePercentile(samples, PercentileAt(k as real + w, |samples|)) ==
            Round3(Mixed(ordered[k], ordered[k + 1], w))
  {
    SortAscendingSorts(samples);
    RankAt(k as real + w, |samples|);
    FromRank(samples, PercentileAt(k as real + w, |samples|), k as real + w);
    SegmentsAreStraight(SortAscending(samples), k, w);
  }

  /** The percentile of a place among the samples, counted from zero. */
  function PercentileAt(place: real, count: nat): real
    requires count > 1
  {
    100.0 * place / (count as real - 1.0)
  }

  lemma RankAt(place: real, count: nat)
    requires count > 1 && 0.0 <= place <= count as real - 1.0
    ensures 0.0 <= PercentileAt(place, count) <= 100.0
    ensures RankOf(PercentileAt(place, count), count) == place
  {
    ShareOf(place, count as real - 1.0);
  }

  lemma FromRank(samples: seq<real>, p: real, rank: real)
    requires samples != [] && 0.0 <= p <= 100.0 && RankOf(p, |samples|) == rank
    ensures |SortAscending(samples)| == |samples| && 0.0 <= rank <= (|samples| - 1) as real
    ensures ComputePercentile(samples, p) == Round3(AtRank(SortAscending(samples), rank))
  {
    OneFormula(samples, p);
  }

  /** Rounding: the nearest whole number of thousandths, the even one of two. */
  lemma RoundingIsToThousandths(x: real)
    ensures -0.0005 <= Round3(x) - x <= 0.0005
    ensures (Round3(x) * 1000.0).Floor as real == Round3(x) * 1000.0
    ensures Round3(x) - x in {-0.0005, 0.0005} ==> (Round3(x) * 1000.0).Floor % 2 == 0
  {
    assert Round3(x) * 1000.0 == NearestEven(x * 1000.0) as real;
  }

  lemma NoSamplesGiveZero(p: real)
    ensures ComputePercentile([], p) == 0.0
  {
  }

  /** A higher percentile is never a lower value. */
  lemma PercentileIsMonotone(samples: seq<real>, p: real, q: real)
    requires p <= q
    ensures ComputePercentile(samples, p) <= ComputePercentile(samples, q)
  {
    if samples != [] {
      OneFormula(samples, p);
      OneFormula(samples, q);
      RankIsMonotone(Clamp(p), Clamp(q), |samples|);
      var ordered := SortAscending(samples);
      InterpolationIsMonotone(ordered, RankOf(Clamp(p), |samples|), RankOf(Clamp(q), |samples|));
      Round3IsMonotone(AtRank(ordered, RankOf(Clamp(p), |samples|)), AtRank(ordered, RankOf(Clamp(q), |samples|)));
    }
  }

  /** Every percentile lies between the rounded least and greatest samples. */
  lemma PercentileStaysInRange(samples: seq<real>, p: real, least: real, greatest: real)
    requires samples != [] && least in samples && greatest in samples
    requires forall x :: x in samples ==> least <= x <= greatest
    ensures Round3(least) <= ComputePercentile(samples, p) <= Round3(greatest)
  {
    OneFormula(samples, p);
    var ordered := SortAscending(samples);
    SortedEndsAreSamples(samples);
    var value := AtRank(ordered, RankOf(Clamp(p), |samples|));
    BetweenNeighbours(ordered, RankOf(Clamp(p), |samples|));
    Round3IsMonotone(least, value);
    Round3IsMonotone(value, greatest);
  }

  lemma SortedEndsAreSamples(samples: seq<real>)
    requires samples != []
    ensures |SortAscending(samples)| == |samples|
    ensures SortAscending(samples)[0] in samples && SortAscending(samples)[|samples| - 1] in samples
  {
    SortAscendingSorts(samples);
    var ordered := SortAscending(samples);
    assert ordered[0] in multiset(ordered) && ordered[|ordered| - 1] in multiset(ordered);
  }

  /** The order of the samples does not matter. */
  lemma PercentileIgnoresOrder(a: seq<real>, b: seq<real>, p: real)
    requires multiset(a) == multiset(b)
    ensures ComputePercentile(a, p) == ComputePercentile(b, p)
  {
    SameSorted(a, b);
  }

  lemma SameSorted(a: seq<real>, b: seq<real>)
    requires multiset(a) == multiset(b)
    ensures SortAscending(a) == SortAscending(b) && |a| == |b|
  {
    SortAscendingSorts(a);
    SortAscendingSorts(b);
    SortedIsCanonical(SortAscending(a), SortAscending(b));
    assert |multiset(a)| == |multiset(b)|;
  }
}
