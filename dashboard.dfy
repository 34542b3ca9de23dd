/** The dashboard's statistics: client and quotation counts, revenue, the
    number of holdings, the five most recent quotations, the status chart and
    the five busiest routes. The two charts come from a counter object that
    the page fills in place, one `acc[key] = (acc[key] || 0) + 1` per record;
    a JavaScript object with non-numeric keys lists its entries in insertion
    order, so a counter is a sequence of (key, count) pairs in order of first
    appearance. */
module Dashboard {
  import T = Types
  import Sequences
  import Collation
  import Clients

  /** The keys of a counter, in its order. */
  function Keys<K>(h: seq<(K, nat)>): (keys: seq<K>)
    ensures |keys| == |h|
    ensures forall i :: 0 <= i < |h| ==> keys[i] == h[i].0
  {
    if h == [] then [] else [h[0].0] + Keys(h[1..])
  }

  /** `acc[key] || 0`. */
  function CountOf<K(==)>(h: seq<(K, nat)>, k: K): nat
  {
    if h == [] then 0 else if h[0].0 == k then h[0].1 else CountOf(h[1..], k)
  }

  /** The position of `k` among the counter's keys, or -1. */
  function IndexOfKey<K(==)>(h: seq<(K, nat)>, k: K): (i: int)
    ensures -1 <= i < |h|
    ensures i >= 0 ==> h[i].0 == k && forall j :: 0 <= j < i ==> h[j].0 != k
    ensures i < 0 ==> forall j :: 0 <= j < |h| ==> h[j].0 != k
  {
    if h == [] then -1
    else if h[0].0 == k then 0
    else
      var r := IndexOfKey(h[1..], k);
      if r < 0 then -1 else r + 1
  }

  /** `acc[key] = (acc[key] || 0) + 1` on a counter value. */
  function Bump<K(==)>(h: seq<(K, nat)>, k: K): (r: seq<(K, nat)>)
    ensures IndexOfKey(h, k) >= 0 ==> r == h[IndexOfKey(h, k) := (k, h[IndexOfKey(h, k)].1 + 1)]
    ensures IndexOfKey(h, k) < 0 ==> r == h + [(k, 1)]
  {
    if h == [] then [(k, 1)]
    else if h[0].0 == k then [(k, h[0].1 + 1)] + h[1..]
    else [h[0]] + Bump(h[1..], k)
  }

  /** The counter after every key has been counted, first to last. */
  function Histogram<K(==)>(keys: seq<K>): (h: seq<(K, nat)>)
    ensures |h| <= |keys|
    ensures forall i :: 0 <= i < |h| ==> h[i].0 in keys && h[i].1 > 0
  {
    if keys == [] then [] else Bump(Histogram(keys[..|keys| - 1]), keys[|keys| - 1])
  }

  /** The `reduce` that fills a counter: one in-place update per key. */
  method Tally<K(==)>(keys: seq<K>) returns (counts: seq<(K, nat)>)
    ensures counts == Histogram(keys)
  {
    counts := [];
    for i := 0 to |keys|
      invariant counts == Histogram(keys[..i])
    {
      assert keys[..i + 1][..i] == keys[..i];
      var k := keys[i];
      var j := IndexOfKey(counts, k);
      if j >= 0 {
        counts := counts[j := (k, counts[j].1 + 1)];
      } else {
        counts := counts + [(k, 1)];
      }
    }
    assert keys[..|keys|] == keys;
  }

  lemma {:induction false} BumpCountOf<K>(h: seq<(K, nat)>, k: K, x: K)
    ensures CountOf(Bump(h, k), x) == CountOf(h, x) + (if x == k then 1 else 0)
  {
    if h != [] && h[0].0 != k {
      BumpCountOf(h[1..], k, x);
      assert Bump(h, k)[1..] == Bump(h[1..], k);
    }
  }

  lemma {:induction false} BumpKeys<K>(h: seq<(K, nat)>, k: K)
    ensures Keys(Bump(h, k)) == if k in Keys(h) then Keys(h) else Keys(h) + [k]
  {
    if h != [] && h[0].0 != k {
      BumpKeys(h[1..], k);
      assert Bump(h, k)[1..] == Bump(h[1..], k);
      assert Keys(h) == [h[0].0] + Keys(h[1..]);
    }
  }

  function Total<K>(h: seq<(K, nat)>): nat
  {
    if h == [] then 0 else h[0].1 + Total(h[1..])
  }

  lemma {:induction false} BumpTotal<K>(h: seq<(K, nat)>, k: K)
    ensures Total(Bump(h, k)) == Total(h) + 1
  {
    if h != [] && h[0].0 != k {
      BumpTotal(h[1..], k);
      assert Bump(h, k)[1..] == Bump(h[1..], k);
    }
  }

  /** A counter's value for any key is the number of times that key was
      counted (0 for a key never seen). */
  lemma {:induction false} HistogramCountOf<K>(keys: seq<K>, x: K)
    ensures CountOf(Histogram(keys), x) == multiset(keys)[x]
  {
    if keys != [] {
      var p := keys[..|keys| - 1];
      HistogramCountOf(p, x);
      BumpCountOf(Histogram(p), keys[|keys| - 1], x);
      assert keys == p + [keys[|keys| - 1]];
    }
  }

  /** A counter lists each counted key once, in order of first appearance. */
  lemma {:induction false} HistogramKeys<K>(keys: seq<K>)
    ensures Keys(Histogram(keys)) == Sequences.Distinct(keys)
  {
    if keys != [] {
      var p := keys[..|keys| - 1];
      HistogramKeys(p);
      BumpKeys(Histogram(p), keys[|keys| - 1]);
    }
  }

  /** The counts add up to the number of keys counted. */
  lemma {:induction false} HistogramTotal<K>(keys: seq<K>)
    ensures Total(Histogram(keys)) == |keys|
  {
    if keys != [] {
      var p := keys[..|keys| - 1];
      HistogramTotal(p);
      BumpTotal(Histogram(p), keys[|keys| - 1]);
    }
  }

  function Status(c: T.Client): T.ClientStatus
  {
    c.status
  }

  /** `statusCounts`. */
  function StatusCounts(clients: seq<T.Client>): (counts: seq<(T.ClientStatus, nat)>)
    ensures Total(counts) == |clients|
    ensures Keys(counts) == Sequences.Distinct(Sequences.Map(clients, Status))
  {
    HistogramTotal(Sequences.Map(clients, Status));
    HistogramKeys(Sequences.Map(clients, Status));
    Histogram(Sequences.Map(clients, Status))
  }

  /** The text between origin and destination in a route key. */
  const Arrow := " \U{2192} "

  /** The route key `${from} → ${to}`. */
  function RouteKey(q: T.Quotation): (key: string)
    ensures |key| == |q.from| + |Arrow| + |q.to|
    ensures key[..|q.from|] == q.from && key[|q.from|..|q.from| + |Arrow|] == Arrow
    ensures key[|q.from| + |Arrow|..] == q.to
  {
    q.from + Arrow + q.to
  }

  /** `routeCounts`. */
  function RouteCounts(quotations: seq<T.Quotation>): (counts: seq<(string, nat)>)
    ensures Total(counts) == |quotations|
    ensures Keys(counts) == Sequences.Distinct(Sequences.Map(quotations, RouteKey))
  {
    HistogramTotal(Sequences.Map(quotations, RouteKey));
    HistogramKeys(Sequences.Map(quotations, RouteKey));
    Histogram(Sequences.Map(quotations, RouteKey))
  }

  /** When no origin contains the arrow character, equal route keys mean the
      same origin and the same destination, so a route's count is the number
      of quotations for that pair. */
  lemma RouteKeyInjective(a: T.Quotation, b: T.Quotation)
    requires '\U{2192}' !in a.from && '\U{2192}' !in b.from
    requires RouteKey(a) == RouteKey(b)
    ensures a.from == b.from && a.to == b.to
  {
    var key := RouteKey(a);
    FirstArrow(a);
    FirstArrow(b);
    assert a.from == key[..|a.from|] == b.from;
  }

  /** In the key of a route whose origin has no arrow, the first arrow comes
      right after the origin and its space. */
  lemma FirstArrow(q: T.Quotation)
    requires '\U{2192}' !in q.from
    ensures RouteKey(q)[|q.from| + 1] == '\U{2192}'
    ensures forall i :: 0 <= i <= |q.from| ==> RouteKey(q)[i] != '\U{2192}'
  {
    var key := RouteKey(q);
    forall i | 0 <= i <= |q.from| ensures key[i] != '\U{2192}' {
      if i < |q.from| {
        assert key[i] == q.from[i];
      } else {
        assert key[i] == ' ';
      }
    }
  }

  /** Without that condition two different pairs can share a key and are
      counted as one route. */
  lemma RouteKeyCollision()
    ensures var a := T.Quotation("1", "QT000001", "2024-01-01", "A \U{2192} B", "C", T.Forty, 0, 0, 0, 0, 0, 0, 0, "", "", "", 0, T.None, T.None);
            var b := a.(from := "A", to := "B \U{2192} C");
            a.from != b.from && RouteKey(a) == RouteKey(b)
  {
  }

  /** The order of `recentQuotations`: `a` may precede `b` when its date does
      not compare before `b`'s. */
  predicate LaterOrSame(a: T.Quotation, b: T.Quotation)
  {
    Collation.AtMost(b.date, a.date)
  }

  lemma LaterOrSameTotalPreorder()
    ensures Sequences.TotalPreorder(LaterOrSame)
  {
    Collation.AtMostTotalPreorder();
    forall a, b ensures LaterOrSame(a, b) || LaterOrSame(b, a) {
      assert Collation.AtMost(b.date, a.date) || Collation.AtMost(a.date, b.date);
    }
    forall a, b, c | LaterOrSame(a, b) && LaterOrSame(b, c) ensures LaterOrSame(a, c) {
      assert Collation.AtMost(c.date, a.date);
    }
  }

  /** How many entries the dashboard lists. */
  const ListLength := 5

  /** `recentQuotations`. */
  function RecentQuotations(quotations: seq<T.Quotation>): (recent: seq<T.Quotation>)
    ensures |recent| == Sequences.Min(ListLength, |quotations|)
    ensures multiset(recent) <= multiset(quotations)
  {
    LaterOrSameTotalPreorder();
    Sequences.TakeSorted(quotations, LaterOrSame, ListLength);
    Sequences.Take(Sequences.SortBy(quotations, LaterOrSame), ListLength)
  }

  /** At most five quotations, newest first, drawn from the list, and none
      left out is newer than one shown. */
  lemma RecentQuotationsAreNewest(quotations: seq<T.Quotation>)
    ensures var recent := RecentQuotations(quotations);
            && |recent| == Sequences.Min(ListLength, |quotations|)
            && multiset(recent) <= multiset(quotations)
            && (forall i, j :: 0 <= i < j < |recent| ==> Collation.AtMost(recent[j].date, recent[i].date))
            && (forall q :: q in quotations && q !in recent ==>
                  forall i :: 0 <= i < |recent| ==> Collation.AtMost(q.date, recent[i].date))
  {
    LaterOrSameTotalPreorder();
    Sequences.TakeSorted(quotations, LaterOrSame, ListLength);
    var t := Sequences.SortBy(quotations, LaterOrSame);
    var recent := RecentQuotations(quotations);
    forall q | q in quotations && q !in recent ensures forall i :: 0 <= i < |recent| ==> Collation.AtMost(q.date, recent[i].date) {
      assert q in multiset(quotations);
      assert q in multiset(recent) + multiset(t[|recent|..]);
      assert q in t[|recent|..];
      forall i | 0 <= i < |recent| ensures Collation.AtMost(q.date, recent[i].date) {
        assert LaterOrSame(recent[i], q);
      }
    }
  }

  /** The order of `topRoutes`: `a` may precede `b` when its count is at
      least `b`'s. */
  predicate MoreOrSame(a: (string, nat), b: (string, nat))
  {
    a.1 >= b.1
  }

  /** `topRoutes`. */
  function TopRoutes(quotations: seq<T.Quotation>): (top: seq<(string, nat)>)
    ensures |top| == Sequences.Min(ListLength, |RouteCounts(quotations)|)
    ensures multiset(top) <= multiset(RouteCounts(quotations))
  {
    assert Sequences.TotalPreorder(MoreOrSame);
    Sequences.TakeSorted(RouteCounts(quotations), MoreOrSame, ListLength);
    Sequences.Take(Sequences.SortBy(RouteCounts(quotations), MoreOrSame), ListLength)
  }

  /** At most five routes, with non-increasing counts, each a counted route,
      and no route left out has a larger count than one shown. */
  lemma TopRoutesAreBusiest(quotations: seq<T.Quotation>)
    ensures var top := TopRoutes(quotations);
            var counts := RouteCounts(quotations);
            && |top| == Sequences.Min(ListLength, |counts|)
            && multiset(top) <= multiset(counts)
            && (forall i, j :: 0 <= i < j < |top| ==> top[j].1 <= top[i].1)
            && (forall e :: e in counts && e !in top ==> forall i :: 0 <= i < |top| ==> e.1 <= top[i].1)
  {
    var counts := RouteCounts(quotations);
    assert Sequences.TotalPreorder(MoreOrSame);
    Sequences.TakeSorted(counts, MoreOrSame, ListLength);
    var t := Sequences.SortBy(counts, MoreOrSame);
    var top := TopRoutes(quotations);
    forall e | e in counts && e !in top ensures forall i :: 0 <= i < |top| ==> e.1 <= top[i].1 {
      assert e in multiset(counts);
      assert e in multiset(top) + multiset(t[|top|..]);
      assert e in t[|top|..];
      forall i | 0 <= i < |top| ensures e.1 <= top[i].1 {
        assert MoreOrSame(top[i], e);
      }
    }
  }

  function StatusIs(s: T.ClientStatus): T.Client -> bool
  {
    (c: T.Client) => c.status == s
  }

  function StatusIsEither(s: T.ClientStatus, s': T.ClientStatus): T.Client -> bool
  {
    (c: T.Client) => c.status == s || c.status == s'
  }

  function QuotationTotal(q: T.Quotation): int
  {
    q.total
  }

  /** `totalRevenue`: the sum of all quotation totals. */
  function Revenue(quotations: seq<T.Quotation>): (r: int)
    ensures quotations == [] ==> r == 0
    ensures (forall i :: 0 <= i < |quotations| ==> quotations[i].total >= 0) ==> r >= 0
  {
    Sequences.SumNonNegative(Sequences.Map(quotations, QuotationTotal));
    Sequences.Sum(Sequences.Map(quotations, QuotationTotal))
  }

  /** Revenue adds up over lists. */
  lemma RevenueAppend(a: seq<T.Quotation>, b: seq<T.Quotation>)
    ensures Revenue(a + b) == Revenue(a) + Revenue(b)
  {
    Sequences.MapAppend(a, b, QuotationTotal);
    Sequences.SumAppend(Sequences.Map(a, QuotationTotal), Sequences.Map(b, QuotationTotal));
  }

  /** One more quotation adds exactly its total to the revenue. */
  lemma RevenueOneMore(a: seq<T.Quotation>, q: T.Quotation)
    ensures Revenue(a + [q]) == Revenue(a) + q.total
  {
    RevenueAppend(a, [q]);
    assert Sequences.Map([q], QuotationTotal) == [q.total];
    assert Sequences.Sum([q.total]) == q.total;
  }

  datatype Stats = Stats(
    totalClients: nat,
    activeClients: nat,
    potentialClients: nat,
    totalQuotations: nat,
    totalRevenue: int,
    holdings: nat,
    recentQuotations: seq<T.Quotation>,
    statusCounts: seq<(T.ClientStatus, nat)>,
    topRoutes: seq<(string, nat)>)

  /** `stats`, as a value of the two tables. */
  function DashboardStats(clients: seq<T.Client>, quotations: seq<T.Quotation>): (s: Stats)
    ensures s.activeClients + s.potentialClients <= s.totalClients == |clients|
    ensures s.holdings <= s.totalClients
    ensures s.totalQuotations == |quotations| && s.totalRevenue == Revenue(quotations)
    ensures |s.recentQuotations| <= ListLength && |s.topRoutes| <= ListLength
  {
    var active := Sequences.Filter(clients, StatusIs(T.Active));
    var potential := Sequences.Filter(clients, StatusIsEither(T.Potential, T.New));
    Sequences.FilterDisjointBound(clients, StatusIs(T.Active), StatusIsEither(T.Potential, T.New));
    Stats(|clients|, |active|, |potential|, |quotations|, Revenue(quotations),
          Clients.HoldingsCount(clients), RecentQuotations(quotations),
          StatusCounts(clients), TopRoutes(quotations))
  }

  /** Computes the statistics, filling both counters in place. */
  method ComputeStats(clients: seq<T.Client>, quotations: seq<T.Quotation>) returns (s: Stats)
    ensures s == DashboardStats(clients, quotations)
  {
    var statusCounts := Tally(Sequences.Map(clients, Status));
    var routeCounts := Tally(Sequences.Map(quotations, RouteKey));
    var top := Sequences.Take(Sequences.SortBy(routeCounts, MoreOrSame), ListLength);
    var active := Sequences.Filter(clients, StatusIs(T.Active));
    var potential := Sequences.Filter(clients, StatusIsEither(T.Potential, T.New));
    s := Stats(|clients|, |active|, |potential|, |quotations|, Revenue(quotations),
               Clients.HoldingsCount(clients), RecentQuotations(quotations),
               statusCounts, top);
  }

  lemma MapCons<U>(s: seq<T.Client>, f: T.Client -> U)
    requires s != []
    ensures Sequences.Map(s, f) == [f(s[0])] + Sequences.Map(s[1..], f)
  {
  }

  /** The active-client count equals the status chart's bar for Active. */
  lemma {:induction false} CountByStatus(clients: seq<T.Client>, a: T.ClientStatus)
    ensures |Sequences.Filter(clients, StatusIs(a))| == multiset(Sequences.Map(clients, Status))[a]
  {
    if clients != [] {
      var c, rest := clients[0], clients[1..];
      CountByStatus(rest, a);
      MapCons(clients, Status);
      assert multiset(Sequences.Map(clients, Status)) == multiset{c.status} + multiset(Sequences.Map(rest, Status));
      assert |Sequences.Filter(clients, StatusIs(a))| == (if c.status == a then 1 else 0) + |Sequences.Filter(rest, StatusIs(a))|;
    }
  }

  /** The potential-client count equals the chart's Potential and New bars
      together. */
  lemma {:induction false} CountByEitherStatus(clients: seq<T.Client>, a: T.ClientStatus, b: T.ClientStatus)
    requires a != b
    ensures |Sequences.Filter(clients, StatusIsEither(a, b))| == multiset(Sequences.Map(clients, Status))[a] + multiset(Sequences.Map(clients, Status))[b]
  {
    if clients != [] {
      var c, rest := clients[0], clients[1..];
      CountByEitherStatus(rest, a, b);
      MapCons(clients, Status);
      var m, m' := multiset(Sequences.Map(clients, Status)), multiset(Sequences.Map(rest, Status));
      assert m == multiset{c.status} + m';
      assert m[a] == m'[a] + (if c.status == a then 1 else 0);
      assert m[b] == m'[b] + (if c.status == b then 1 else 0);
      assert |Sequences.Filter(clients, StatusIsEither(a, b))| == (if c.status == a || c.status == b then 1 else 0) + |Sequences.Filter(rest, StatusIsEither(a, b))|;
    }
  }

  /** The headline counts agree with the status chart, and the chart's bars
      add up to the number of clients. */
  lemma StatsAgreeWithChart(clients: seq<T.Client>, quotations: seq<T.Quotation>)
    ensures var s := DashboardStats(clients, quotations);
            && s.activeClients == CountOf(s.statusCounts, T.Active)
            && s.potentialClients == CountOf(s.statusCounts, T.Potential) + CountOf(s.statusCounts, T.New)
            && Total(s.statusCounts) == s.totalClients
            && Keys(s.statusCounts) == Sequences.Distinct(Sequences.Map(clients, Status))
  {
    var statuses := Sequences.Map(clients, Status);
    CountByStatus(clients, T.Active);
    CountByEitherStatus(clients, T.Potential, T.New);
    HistogramCountOf(statuses, T.Active);
    HistogramCountOf(statuses, T.Potential);
    HistogramCountOf(statuses, T.New);
    HistogramTotal(statuses);
    HistogramKeys(statuses);
  }

  /** Each route's count is the number of quotations with that route key, and
      the counts add up to the number of quotations. */
  lemma RouteCountsAreCounts(quotations: seq<T.Quotation>, key: string)
    ensures CountOf(RouteCounts(quotations), key) == multiset(Sequences.Map(quotations, RouteKey))[key]
    ensures Total(RouteCounts(quotations)) == |quotations|
    ensures Keys(RouteCounts(quotations)) == Sequences.Distinct(Sequences.Map(quotations, RouteKey))
  {
    var keys := Sequences.Map(quotations, RouteKey);
    HistogramCountOf(keys, key);
    HistogramTotal(keys);
    HistogramKeys(keys);
  }
}
