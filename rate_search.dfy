/** The recommendation shown under a rate search: the prices of the search
    results reduced to an overall mean, the mean of the last (up to) five
    prices, a trend, and the lowest and highest price. Prices are integers;
    the means are exact rationals, and `Math.round` is applied to them as the
    page does. */
module RateSearch {
  import opened Types
  import Sequences

  datatype Trend = Up | Down | Stable

  datatype Recommendation = Recommendation(average: int, recent: int, trend: Trend, min: int, max: int)

  const WindowSize := 5

  /** `rateResults.map(r => r.price)`. */
  function Prices(results: seq<RateSearchResult>): (prices: seq<int>)
    ensures |prices| == |results|
    ensures forall i :: 0 <= i < |results| ==> prices[i] == results[i].price
  {
    Sequences.Map(results, (r: RateSearchResult) => r.price)
  }

  /** `prices.slice(-5)`: the last five prices, or all of them when there are
      fewer. */
  function Window(prices: seq<int>): (w: seq<int>)
    ensures |w| == Sequences.Min(WindowSize, |prices|)
    ensures w == prices[|prices| - |w|..]
  {
    if |prices| <= WindowSize then prices else prices[|prices| - WindowSize..]
  }

  /** The arithmetic mean: the value that, taken once per element, adds up
      to the sum. */
  function Mean(s: seq<int>): (m: real)
    requires |s| > 0
    ensures m * |s| as real == Sequences.Sum(s) as real
  {
    DivideMul(Sequences.Sum(s) as real, |s| as real);
    Sequences.Sum(s) as real / |s| as real
  }

  /** `Math.round`: the nearest integer, a half rounded up. */
  function Round(x: real): (n: int)
    ensures n as real - 0.5 <= x < n as real + 0.5
  {
    (x + 0.5).Floor
  }

  /** The trend compares the recent mean with the overall one. */
  function TrendOf(recent: real, overall: real): (t: Trend)
    ensures t == Up <==> recent > overall
    ensures t == Down <==> recent < overall
    ensures t == Stable <==> recent == overall
  {
    if recent > overall then Up else if recent < overall then Down else Stable
  }

  /** `Math.min(...prices)`. */
  function MinOf(s: seq<int>): (m: int)
    requires |s| > 0
    ensures m in s
    ensures forall i :: 0 <= i < |s| ==> m <= s[i]
  {
    if |s| == 1 then s[0]
    else
      var rest := MinOf(s[1..]);
      assert forall i :: 1 <= i < |s| ==> s[i] == s[1..][i - 1];
      if s[0] <= rest then s[0] else rest
  }

  /** `Math.max(...prices)`. */
  function MaxOf(s: seq<int>): (m: int)
    requires |s| > 0
    ensures m in s
    ensures forall i :: 0 <= i < |s| ==> s[i] <= m
  {
    if |s| == 1 then s[0]
    else
      var rest := MaxOf(s[1..]);
      assert forall i :: 1 <= i < |s| ==> s[i] == s[1..][i - 1];
      if s[0] >= rest then s[0] else rest
  }

  /** A mean lies between any lower and upper bound of its elements. */
  lemma MeanBounds(s: seq<int>, lo: int, hi: int)
    requires |s| > 0
    requires forall i :: 0 <= i < |s| ==> lo <= s[i] <= hi
    ensures lo as real <= Mean(s) <= hi as real
  {
    assert forall x :: x in s ==> lo <= x <= hi;
    Sequences.SumBounds(s, lo, hi);
    CastMul(|s|, lo);
    CastMul(|s|, hi);
    DivideBounds(Sequences.Sum(s) as real, |s| as real, lo as real, hi as real);
  }

  lemma CastMul(a: int, b: int)
    ensures (a * b) as real == a as real * b as real
  {
  }

  lemma DivideBounds(total: real, n: real, lo: real, hi: real)
    requires n > 0.0
    requires n * lo <= total <= n * hi
    ensures lo <= total / n <= hi
  {
  }

  lemma DivideMul(total: real, n: real)
    requires n != 0.0
    ensures (total / n) * n == total
  {
  }

  lemma ScaleCompare(x: real, y: real, c: real)
    requires c > 0.0
    ensures x > y <==> x * c > y * c
    ensures x < y <==> x * c < y * c
  {
  }

  /** A rounded value stays between integer bounds of what was rounded. */
  lemma RoundBounds(x: real, lo: int, hi: int)
    requires lo as real <= x <= hi as real
    ensures lo <= Round(x) <= hi
  {
  }

  /** The recommendation for a list of prices (`recommendedPrice`); none for
      an empty list, so nothing is ever divided by zero. */
  function Summarize(prices: seq<int>): (r: Option<Recommendation>)
    ensures r.None? <==> prices == []
    ensures r.Some? ==> r.value.min in prices && r.value.max in prices
    ensures r.Some? ==> r.value.min <= r.value.average <= r.value.max
    ensures r.Some? ==> r.value.min <= r.value.recent <= r.value.max
    ensures r.Some? ==> forall p :: p in prices ==> r.value.min <= p <= r.value.max
    ensures prices != [] ==>
              && r.Some?
              && r.value.average as real - 0.5 <= Mean(prices) < r.value.average as real + 0.5
              && r.value.recent as real - 0.5 <= Mean(Window(prices)) < r.value.recent as real + 0.5
              && (r.value.trend == Up <==> Mean(Window(prices)) > Mean(prices))
              && (r.value.trend == Down <==> Mean(Window(prices)) < Mean(prices))
  {
    if prices == [] then None
    else
      var avg := Mean(prices);
      var w := Window(prices);
      var recentAvg := Mean(w);
      var lo := MinOf(prices);
      var hi := MaxOf(prices);
      MeanBounds(prices, lo, hi);
      assert forall i :: 0 <= i < |w| ==> w[i] == prices[|prices| - |w| + i];
      MeanBounds(w, lo, hi);
      RoundBounds(avg, lo, hi);
      RoundBounds(recentAvg, lo, hi);
      Some(Recommendation(Round(avg), Round(recentAvg), TrendOf(recentAvg, avg), lo, hi))
  }

  /** The recommendation computed from the current search results. */
  function Recommend(results: seq<RateSearchResult>): (r: Option<Recommendation>)
    ensures r.None? <==> results == []
    ensures r.Some? ==> exists i :: 0 <= i < |results| && results[i].price == r.value.min
    ensures r.Some? ==> exists i :: 0 <= i < |results| && results[i].price == r.value.max
    ensures r.Some? ==> forall i :: 0 <= i < |results| ==> r.value.min <= results[i].price <= r.value.max
    ensures r == Summarize(Prices(results))
  {
    var prices := Prices(results);
    var r := Summarize(prices);
    if r.Some? then
      var lo := MinOf(prices);
      var hi := MaxOf(prices);
      assert r.value.min == lo && r.value.max == hi;
      var a :| 0 <= a < |prices| && prices[a] == lo;
      var b :| 0 <= b < |prices| && prices[b] == hi;
      assert results[a].price == lo && results[b].price == hi;
      r
    else
      r
  }

  /** Comparing two means is comparing the cross products of sums and counts. */
  lemma CompareMeans(a: seq<int>, b: seq<int>)
    requires |a| > 0 && |b| > 0
    ensures Mean(a) > Mean(b) <==> Sequences.Sum(a) * |b| > Sequences.Sum(b) * |a|
    ensures Mean(a) < Mean(b) <==> Sequences.Sum(a) * |b| < Sequences.Sum(b) * |a|
  {
    var sa, sb := Sequences.Sum(a), Sequences.Sum(b);
    CrossCompare(sa, |a|, sb, |b|);
  }

  /** The same comparison on plain numbers: `sa / ka` against `sb / kb`. */
  lemma CrossCompare(sa: int, ka: int, sb: int, kb: int)
    requires ka > 0 && kb > 0
    ensures sa as real / ka as real > sb as real / kb as real <==> sa * kb > sb * ka
    ensures sa as real / ka as real < sb as real / kb as real <==> sa * kb < sb * ka
  {
    var x, y := sa as real / ka as real, sb as real / kb as real;
    var k, n := ka as real, kb as real;
    var c := k * n;
    DivideMul(sa as real, k);
    DivideMul(sb as real, n);
    CastMul(sa, kb);
    CastMul(sb, ka);
    Assoc(x, k, n);
    Assoc(y, n, k);
    assert c > 0.0;
    assert (sa * kb) as real == x * c;
    assert (sb * ka) as real == y * c;
    ScaleCompare(x, y, c);
  }

  lemma Assoc(x: real, k: real, n: real)
    ensures (x * k) * n == x * (k * n)
    ensures x * (k * n) == x * (n * k)
  {
  }

  /** The trend, stated without division: `up` when the window's sum times the
      number of prices exceeds the overall sum times the window's length,
      `down` when it falls short, `stable` on a tie. */
  lemma TrendByCrossMultiplication(prices: seq<int>)
    requires prices != []
    ensures var w := Window(prices);
            var s := Sequences.Sum(w) * |prices|;
            var t := Sequences.Sum(prices) * |w|;
            && (Summarize(prices).value.trend == Up <==> s > t)
            && (Summarize(prices).value.trend == Down <==> s < t)
            && (Summarize(prices).value.trend == Stable <==> s == t)
  {
    CompareMeans(Window(prices), prices);
  }

  /** With five prices or fewer the window is the whole list and the trend is
      `stable`; in particular a single price always gives `stable`. */
  lemma ShortHistoryIsStable(prices: seq<int>)
    requires 0 < |prices| <= WindowSize
    ensures Summarize(prices).value.trend == Stable
    ensures Summarize(prices).value.average == Summarize(prices).value.recent
  {
  }

  /** A single price is its own mean, minimum and maximum. */
  lemma SinglePrice(p: int)
    ensures Summarize([p]) == Some(Recommendation(p, p, Stable, p, p))
  {
    assert Window([p]) == [p];
    assert Sequences.Sum([p]) == p;
    assert Mean([p]) == p as real;
    assert Round(p as real) == p;
  }

  /** Five prices of 100 followed by one of 200: the window of the last five
      averages 120, above the overall 116.67, so the trend is `up`. */
  lemma RisingExample()
    ensures Summarize([100, 100, 100, 100, 100, 200]) == Some(Recommendation(117, 120, Up, 100, 200))
  {
    var p := [100, 100, 100, 100, 100, 200];
    var w := [100, 100, 100, 100, 200];
    assert Window(p) == w;
    assert Sequences.Sum([200]) == 200;
    assert Sequences.Sum([100, 200]) == 300;
    assert Sequences.Sum([100, 100, 200]) == 400;
    assert Sequences.Sum([100, 100, 100, 200]) == 500;
    assert Sequences.Sum(w) == 600;
    assert Sequences.Sum(p) == 700;
    assert Mean(p) == 700.0 / 6.0;
    assert Mean(w) == 120.0;
    assert Round(700.0 / 6.0) == 117;
    assert Round(120.0) == 120;
    assert MinOf(p) == 100 && MaxOf(p) == 200;
  }
}
