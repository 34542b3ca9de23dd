/** The array operations the front end leans on (`filter`, `findIndex`, an
    indexed write on a copy, `Set` construction, `slice`, `reverse` and the
    stable `sort`) as functions on sequences, with what each one promises. */
module Sequences {

  function Min(a: int, b: int): (m: int)
    ensures m <= a && m <= b && (m == a || m == b)
  {
    if a <= b then a else b
  }

  /** `xs.reduce((a, b) => a + b, 0)`. */
  function Sum(s: seq<int>): int
  {
    if s == [] then 0 else s[0] + Sum(s[1..])
  }

  lemma {:induction false} SumAppend(a: seq<int>, b: seq<int>)
    ensures Sum(a + b) == Sum(a) + Sum(b)
  {
    if a == [] {
      assert a + b == b;
    } else {
      assert (a + b)[1..] == a[1..] + b;
      SumAppend(a[1..], b);
    }
  }

  /** A sum of values none of which is negative is not negative. */
  lemma {:induction false} SumNonNegative(s: seq<int>)
    ensures (forall i :: 0 <= i < |s| ==> s[i] >= 0) ==> Sum(s) >= 0
  {
    if s != [] {
      SumNonNegative(s[1..]);
      assert forall i :: 0 <= i < |s| - 1 ==> s[1..][i] == s[i + 1];
    }
  }

  /** Every element of a non-empty sequence bounded below by `lo` and above by
      `hi` gives a sum between `|s| * lo` and `|s| * hi`. */
  lemma {:induction false} SumBounds(s: seq<int>, lo: int, hi: int)
    requires forall x :: x in s ==> lo <= x <= hi
    ensures |s| * lo <= Sum(s) <= |s| * hi
  {
    if s != [] {
      assert s[0] in s;
      assert forall x :: x in s[1..] ==> x in s;
      SumBounds(s[1..], lo, hi);
      MulStep(|s|, lo);
      MulStep(|s|, hi);
    }
  }

  lemma MulStep(n: int, v: int)
    ensures n * v == (n - 1) * v + v
  {
  }

  /** `xs.map(f)`. */
  function Map<T, U>(s: seq<T>, f: T -> U): (r: seq<U>)
    ensures |r| == |s|
    ensures forall i :: 0 <= i < |s| ==> r[i] == f(s[i])
  {
    seq(|s|, i requires 0 <= i < |s| => f(s[i]))
  }

  lemma MapAppend<T, U>(a: seq<T>, b: seq<T>, f: T -> U)
    ensures Map(a + b, f) == Map(a, f) + Map(b, f)
  {
  }

  /** `xs.filter(p)`: the elements satisfying `p`, in their original order. */
  function Filter<T>(s: seq<T>, p: T -> bool): (r: seq<T>)
    ensures |r| <= |s|
    ensures forall i :: 0 <= i < |r| ==> r[i] in s && p(r[i])
    ensures forall i :: 0 <= i < |s| && p(s[i]) ==> s[i] in r
  {
    if s == [] then [] else (if p(s[0]) then [s[0]] else []) + Filter(s[1..], p)
  }

  /** Filtering distributes over concatenation: what is kept keeps its order. */
  lemma {:induction false} FilterAppend<T>(a: seq<T>, b: seq<T>, p: T -> bool)
    ensures Filter(a + b, p) == Filter(a, p) + Filter(b, p)
  {
    if a == [] {
      assert a + b == b;
    } else {
      assert (a + b)[1..] == a[1..] + b;
      FilterAppend(a[1..], b, p);
    }
  }

  /** A filter that rejects nothing returns its input unchanged. */
  lemma {:induction false} FilterKeepsAll<T>(s: seq<T>, p: T -> bool)
    requires forall i :: 0 <= i < |s| ==> p(s[i])
    ensures Filter(s, p) == s
  {
    if s != [] {
      FilterKeepsAll(s[1..], p);
    }
  }

  /** Two filters with disjoint predicates keep no more than the input holds. */
  lemma {:induction false} FilterDisjointBound<T>(s: seq<T>, p: T -> bool, q: T -> bool)
    requires forall i :: 0 <= i < |s| ==> !(p(s[i]) && q(s[i]))
    ensures |Filter(s, p)| + |Filter(s, q)| <= |s|
  {
    if s != [] {
      FilterDisjointBound(s[1..], p, q);
    }
  }

  /** A filter keeps every copy of a value that passes and no copy of one
      that does not. */
  lemma {:induction false} FilterCount<T>(s: seq<T>, p: T -> bool, x: T)
    ensures multiset(Filter(s, p))[x] == if p(x) then multiset(s)[x] else 0
  {
    if s != [] {
      FilterCount(s[1..], p, x);
      assert s == [s[0]] + s[1..];
      assert multiset(s)[x] == multiset([s[0]])[x] + multiset(s[1..])[x];
      var head := if p(s[0]) then [s[0]] else [];
      assert Filter(s, p) == head + Filter(s[1..], p);
      assert multiset(Filter(s, p))[x] == multiset(head)[x] + multiset(Filter(s[1..], p))[x];
    }
  }

  /** Some record of `s` carries `id`. */
  predicate HasId<T>(s: seq<T>, idOf: T -> string, id: string)
  {
    exists j :: 0 <= j < |s| && idOf(s[j]) == id
  }

  /** `i` is the first index of `s` whose record carries `id`. */
  predicate FirstWithId<T>(s: seq<T>, idOf: T -> string, id: string, i: int)
  {
    0 <= i < |s| && idOf(s[i]) == id && forall j :: 0 <= j < i ==> idOf(s[j]) != id
  }

  /** `xs.findIndex(x => idOf(x) === id)`: the first index carrying `id`, or -1. */
  function IndexOfId<T>(s: seq<T>, idOf: T -> string, id: string): (i: int)
    ensures -1 <= i < |s|
    ensures i >= 0 <==> HasId(s, idOf, id)
    ensures i >= 0 ==> FirstWithId(s, idOf, id, i)
  {
    if s == [] then -1
    else if idOf(s[0]) == id then 0
    else
      var k := IndexOfId(s[1..], idOf, id);
      assert HasId(s, idOf, id) ==> HasId(s[1..], idOf, id) by {
        if HasId(s, idOf, id) {
          var j :| 0 <= j < |s| && idOf(s[j]) == id;
          assert s[1..][j - 1] == s[j];
        }
      }
      if k < 0 then -1 else k + 1
  }

  /** The first index carrying an id is unique. */
  lemma FirstWithIdUnique<T>(s: seq<T>, idOf: T -> string, id: string, i: int, k: int)
    requires FirstWithId(s, idOf, id, i) && FirstWithId(s, idOf, id, k)
    ensures i == k
  {
  }

  /** Save-by-id: replace the record at the first index with the same id, or
      append the record when no record has its id. */
  function Upsert<T>(s: seq<T>, idOf: T -> string, x: T): (r: seq<T>)
    ensures !HasId(s, idOf, idOf(x)) ==> r == s + [x]
    ensures forall i :: FirstWithId(s, idOf, idOf(x), i) ==> r == s[i := x]
  {
    var i := IndexOfId(s, idOf, idOf(x));
    if i >= 0 then s[i := x] else s + [x]
  }

  predicate UniqueIds<T>(s: seq<T>, idOf: T -> string)
  {
    forall i, j :: 0 <= i < j < |s| ==> idOf(s[i]) != idOf(s[j])
  }

  /** Saving keeps ids unique and leaves exactly one record with the saved id:
      the saved record itself. */
  lemma UpsertKeepsIdsUnique<T>(s: seq<T>, idOf: T -> string, x: T)
    requires UniqueIds(s, idOf)
    ensures UniqueIds(Upsert(s, idOf, x), idOf)
    ensures x in Upsert(s, idOf, x)
    ensures forall y :: y in Upsert(s, idOf, x) && idOf(y) == idOf(x) ==> y == x
  {
    var r := Upsert(s, idOf, x);
    var i := IndexOfId(s, idOf, idOf(x));
    if i >= 0 {
      assert r == s[i := x];
      forall a, b | 0 <= a < b < |r| ensures idOf(r[a]) != idOf(r[b]) {
        if a != i && b != i {
          assert r[a] == s[a] && r[b] == s[b];
        } else if a == i {
          assert idOf(r[b]) == idOf(s[b]) && idOf(s[i]) == idOf(x);
        } else {
          assert idOf(r[a]) == idOf(s[a]) && idOf(s[i]) == idOf(x);
        }
      }
      assert r[i] == x;
    } else {
      assert r == s + [x];
      assert r[|s|] == x;
    }
  }

  /** Saving the same record twice is the same as saving it once. */
  lemma UpsertIdempotent<T>(s: seq<T>, idOf: T -> string, x: T)
    ensures Upsert(Upsert(s, idOf, x), idOf, x) == Upsert(s, idOf, x)
  {
    var r := Upsert(s, idOf, x);
    var i := IndexOfId(s, idOf, idOf(x));
    if i >= 0 {
      assert r == s[i := x];
      assert FirstWithId(r, idOf, idOf(x), i);
      assert r[i := x] == r;
    } else {
      assert r == s + [x];
      assert FirstWithId(r, idOf, idOf(x), |s|) by {
        forall j | 0 <= j < |s| ensures idOf(r[j]) != idOf(x) {
          assert r[j] == s[j];
        }
      }
      assert r[|s| := x] == r;
    }
  }

  predicate NoDuplicates<T(==)>(s: seq<T>)
  {
    forall i, j :: 0 <= i < j < |s| ==> s[i] != s[j]
  }

  /** `Array.from(new Set(xs))`: each value once, in order of first appearance. */
  function Distinct<T(==)>(s: seq<T>): (r: seq<T>)
    ensures forall i :: 0 <= i < |r| ==> r[i] in s
    ensures forall i :: 0 <= i < |s| ==> s[i] in r
    ensures NoDuplicates(r)
    ensures |r| <= |s|
  {
    if s == [] then []
    else
      var d := Distinct(s[..|s| - 1]);
      assert forall i :: 0 <= i < |s| - 1 ==> s[i] == s[..|s| - 1][i];
      if s[|s| - 1] in d then d else d + [s[|s| - 1]]
  }

  /** The position of the first occurrence of `x` in `s`. */
  function FirstIndex<T(==)>(s: seq<T>, x: T): (i: nat)
    requires x in s
    ensures i < |s| && s[i] == x && x !in s[..i]
  {
    if s[0] == x then 0
    else
      var k := FirstIndex(s[1..], x);
      assert s[..k + 1] == [s[0]] + s[1..][..k];
      k + 1
  }

  /** An occurrence with no earlier one is the first occurrence. */
  lemma FirstIndexUnique<T>(s: seq<T>, x: T, k: int)
    requires 0 <= k < |s| && s[k] == x && x !in s[..k]
    ensures FirstIndex(s, x) == k
  {
    var f := FirstIndex(s, x);
    forall m | 0 <= m < k ensures s[m] != x {
      assert s[..k][m] == s[m];
    }
    forall m | 0 <= m < f ensures s[m] != x {
      assert s[..f][m] == s[m];
    }
  }

  /** Appending an element leaves the first occurrence of an earlier value
      where it was. */
  lemma FirstIndexExtend<T>(s: seq<T>, y: T, x: T)
    requires x in s
    ensures FirstIndex(s + [y], x) == FirstIndex(s, x)
  {
    var k := FirstIndex(s, x);
    assert (s + [y])[..k] == s[..k];
    FirstIndexUnique(s + [y], x, k);
  }

  /** A value new to `s` first occurs where it is appended. */
  lemma FirstIndexNew<T>(s: seq<T>, y: T)
    requires y !in s
    ensures FirstIndex(s + [y], y) == |s|
  {
    assert (s + [y])[..|s|] == s;
    FirstIndexUnique(s + [y], y, |s|);
  }

  /** One step of `Distinct`: appending a value keeps a first-appearance
      listing in first-appearance order. */
  lemma DistinctStep<T>(init: seq<T>, y: T, d: seq<T>, r: seq<T>)
    requires forall i :: 0 <= i < |d| ==> d[i] in init
    requires forall i, j :: 0 <= i < j < |d| ==> FirstIndex(init, d[i]) < FirstIndex(init, d[j])
    requires y in init ==> y in d
    requires r == if y in d then d else d + [y]
    ensures forall i :: 0 <= i < |r| ==> r[i] in init + [y]
    ensures forall i, j :: 0 <= i < j < |r| ==> FirstIndex(init + [y], r[i]) < FirstIndex(init + [y], r[j])
  {
    forall i, j | 0 <= i < j < |r| ensures FirstIndex(init + [y], r[i]) < FirstIndex(init + [y], r[j]) {
      FirstIndexExtend(init, y, d[i]);
      if j < |d| {
        FirstIndexExtend(init, y, d[j]);
      } else {
        FirstIndexNew(init, y);
      }
    }
  }

  /** `Distinct` lists the values in the order of their first appearance. */
  lemma {:induction false} DistinctInOrder<T>(s: seq<T>)
    ensures forall i, j :: 0 <= i < j < |Distinct(s)| ==> FirstIndex(s, Distinct(s)[i]) < FirstIndex(s, Distinct(s)[j])
  {
    if s != [] {
      var init, y := s[..|s| - 1], s[|s| - 1];
      assert s == init + [y];
      DistinctInOrder(init);
      DistinctStep(init, y, Distinct(init), Distinct(s));
    }
  }

  /** A set built from a sequence has no more members than the sequence has
      elements. */
  lemma {:induction false} SetOfSeqBound<T>(s: seq<T>)
    ensures |set x | x in s| <= |s|
  {
    if s != [] {
      SetOfSeqBound(s[1..]);
      assert (set x | x in s) == (set x | x in s[1..]) + {s[0]};
    }
  }

  /** A sequence without duplicates has as many distinct members as elements. */
  lemma {:induction false} NoDuplicatesCard<T>(s: seq<T>)
    requires NoDuplicates(s)
    ensures |set x | x in s| == |s|
  {
    if s != [] {
      var t := s[1..];
      assert NoDuplicates(t) by {
        forall i, j | 0 <= i < j < |t| ensures t[i] != t[j] {
          assert t[i] == s[i + 1] && t[j] == s[j + 1];
        }
      }
      NoDuplicatesCard(t);
      assert s[0] !in t by {
        forall k | 0 <= k < |t| ensures t[k] != s[0] {
          assert t[k] == s[k + 1];
        }
      }
      assert (set x | x in s) == (set x | x in t) + {s[0]};
    }
  }

  /** `new Set(xs).size`: the number of distinct values of `xs`. */
  lemma DistinctCard<T>(s: seq<T>)
    ensures |Distinct(s)| == |set x | x in s|
  {
    var d := Distinct(s);
    NoDuplicatesCard(d);
    assert (set x | x in d) == (set x | x in s) by {
      forall x | x in s ensures x in d {
        var i :| 0 <= i < |s| && s[i] == x;
      }
      forall x | x in d ensures x in s {
        var i :| 0 <= i < |d| && d[i] == x;
      }
    }
  }

  lemma {:induction false} NoDuplicatesCount<T>(s: seq<T>, x: T)
    requires NoDuplicates(s)
    ensures multiset(s)[x] <= 1
  {
    if s != [] {
      var t := s[1..];
      assert s == [s[0]] + t;
      assert NoDuplicates(t) by {
        forall i, j | 0 <= i < j < |t| ensures t[i] != t[j] {
          assert t[i] == s[i + 1] && t[j] == s[j + 1];
        }
      }
      NoDuplicatesCount(t, x);
      if s[0] == x {
        assert x !in t by {
          forall k | 0 <= k < |t| ensures t[k] != x {
            assert t[k] == s[k + 1];
          }
        }
      }
    }
  }

  /** Rearranging a sequence without duplicates gives one without duplicates. */
  lemma PermutationNoDuplicates<T>(a: seq<T>, b: seq<T>)
    requires multiset(a) == multiset(b)
    requires NoDuplicates(a)
    ensures NoDuplicates(b)
  {
    forall i, j | 0 <= i < j < |b| ensures b[i] != b[j] {
      if b[i] == b[j] {
        var x := b[i];
        assert b == b[..i] + [x] + b[i + 1..j] + [x] + b[j + 1..];
        assert multiset(b)[x] >= 2;
        NoDuplicatesCount(a, x);
      }
    }
  }

  /** `xs.slice(0, k)`. */
  function Take<T>(s: seq<T>, k: nat): (r: seq<T>)
    ensures |r| == Min(k, |s|)
    ensures r == s[..|r|]
  {
    s[..Min(k, |s|)]
  }

  /** `xs.reverse()` on a fresh array. */
  function Reverse<T>(s: seq<T>): (r: seq<T>)
    ensures |r| == |s|
    ensures forall i :: 0 <= i < |s| ==> r[i] == s[|s| - 1 - i]
  {
    if s == [] then [] else Reverse(s[1..]) + [s[0]]
  }

  /** `leq(a, b)` reads "a may be placed before b": it is total and
      transitive, as a comparator must be for `sort` to be well defined. */
  ghost predicate TotalPreorder<T(!new)>(leq: (T, T) -> bool)
  {
    && (forall a, b :: leq(a, b) || leq(b, a))
    && (forall a, b, c :: leq(a, b) && leq(b, c) ==> leq(a, c))
  }

  predicate SortedBy<T>(s: seq<T>, leq: (T, T) -> bool)
  {
    forall i, j :: 0 <= i < j < |s| ==> leq(s[i], s[j])
  }

  /** Place `x` in front of the first element it may precede. */
  function Insert<T>(x: T, s: seq<T>, leq: (T, T) -> bool): (r: seq<T>)
    ensures |r| == |s| + 1
    ensures multiset(r) == multiset(s) + multiset{x}
  {
    if s == [] then [x]
    else if leq(x, s[0]) then [x] + s
    else
      assert s == [s[0]] + s[1..];
      [s[0]] + Insert(x, s[1..], leq)
  }

  /** The stable sort of `Array.prototype.sort`: elements that compare equal
      keep their original relative order, because an earlier element is
      inserted in front of every equal element sorted after it. */
  function SortBy<T>(s: seq<T>, leq: (T, T) -> bool): (r: seq<T>)
    ensures |r| == |s|
    ensures multiset(r) == multiset(s)
  {
    if s == [] then []
    else
      var t := SortBy(s[1..], leq);
      assert s == [s[0]] + s[1..];
      Insert(s[0], t, leq)
  }

  /** Whatever may precede `x` and every element of `s` may precede every
      element of the result of inserting `x` into `s`. */
  lemma InsertBound<T>(a: T, x: T, s: seq<T>, leq: (T, T) -> bool)
    requires leq(a, x)
    requires forall i :: 0 <= i < |s| ==> leq(a, s[i])
    ensures forall i :: 0 <= i < |s| + 1 ==> leq(a, Insert(x, s, leq)[i])
  {
    var r := Insert(x, s, leq);
    forall i | 0 <= i < |r| ensures leq(a, r[i]) {
      assert r[i] in multiset(r);
      if r[i] != x {
        assert r[i] in multiset(s);
        var k :| 0 <= k < |s| && s[k] == r[i];
      }
    }
  }

  lemma SortedCons<T>(a: T, t: seq<T>, leq: (T, T) -> bool)
    requires forall i :: 0 <= i < |t| ==> leq(a, t[i])
    requires SortedBy(t, leq)
    ensures SortedBy([a] + t, leq)
  {
    var r := [a] + t;
    forall i, j | 0 <= i < j < |r| ensures leq(r[i], r[j]) {
      assert r[j] == t[j - 1];
      if i > 0 {
        assert r[i] == t[i - 1];
      }
    }
  }

  lemma {:induction false} InsertSorted<T(!new)>(x: T, s: seq<T>, leq: (T, T) -> bool)
    requires TotalPreorder(leq)
    requires SortedBy(s, leq)
    ensures SortedBy(Insert(x, s, leq), leq)
  {
    if s != [] {
      if leq(x, s[0]) {
        forall i | 0 <= i < |s| ensures leq(x, s[i]) {
          if i > 0 {
            assert leq(s[0], s[i]);
          }
        }
        SortedCons(x, s, leq);
      } else {
        assert leq(s[0], x);
        var tail := s[1..];
        assert SortedBy(tail, leq) by {
          forall i, j | 0 <= i < j < |tail| ensures leq(tail[i], tail[j]) {
            assert tail[i] == s[i + 1] && tail[j] == s[j + 1];
          }
        }
        assert forall i :: 0 <= i < |tail| ==> tail[i] == s[i + 1];
        InsertSorted(x, tail, leq);
        InsertBound(s[0], x, tail, leq);
        SortedCons(s[0], Insert(x, tail, leq), leq);
      }
    }
  }

  lemma {:induction false} SortBySorted<T(!new)>(s: seq<T>, leq: (T, T) -> bool)
    requires TotalPreorder(leq)
    ensures SortedBy(SortBy(s, leq), leq)
  {
    if s != [] {
      SortBySorted(s[1..], leq);
      InsertSorted(s[0], SortBy(s[1..], leq), leq);
    }
  }

  /** Cutting a sorted sequence after its first `k` elements: the kept part is
      sorted, kept and omitted parts together are the input, and every kept
      element may precede every omitted one. */
  lemma TakeSorted<T(!new)>(s: seq<T>, leq: (T, T) -> bool, k: nat)
    requires TotalPreorder(leq)
    ensures var t := SortBy(s, leq);
            var top := Take(t, k);
            && SortedBy(top, leq)
            && multiset(top) + multiset(t[|top|..]) == multiset(s)
            && forall x, y :: x in top && y in t[|top|..] ==> leq(x, y)
  {
    var t := SortBy(s, leq);
    SortBySorted(s, leq);
    var top := Take(t, k);
    assert t == top + t[|top|..];
    forall x, y | x in top && y in t[|top|..] ensures leq(x, y) {
      var a :| 0 <= a < |top| && top[a] == x;
      var b :| 0 <= b < |t| - |top| && t[|top|..][b] == y;
      assert t[a] == x && t[|top| + b] == y;
    }
  }
}
