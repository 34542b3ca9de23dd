/** The order on strings used by the sorts. `Array.prototype.sort()` without a
    comparator orders strings by character code; `localeCompare` is modelled
    by the same character-code lexicographic order (locale collation is not
    part of this model). The sorting lemmas only use that it is a total order. */
module Collation {
  import Sequences

  /** Strict lexicographic order by character code: a proper prefix comes
      first, otherwise the first differing character decides. */
  predicate Less(a: string, b: string)
  {
    if a == [] then b != []
    else if b == [] then false
    else if a[0] != b[0] then a[0] < b[0]
    else Less(a[1..], b[1..])
  }

  /** `a.localeCompare(b) <= 0`. */
  predicate AtMost(a: string, b: string)
  {
    a == b || Less(a, b)
  }

  lemma {:induction false} LessIrreflexive(a: string)
    ensures !Less(a, a)
  {
    if a != [] {
      LessIrreflexive(a[1..]);
    }
  }

  lemma {:induction false} LessTransitive(a: string, b: string, c: string)
    requires Less(a, b) && Less(b, c)
    ensures Less(a, c)
  {
    if a != [] && b != [] && c != [] && a[0] == b[0] && b[0] == c[0] {
      LessTransitive(a[1..], b[1..], c[1..]);
    }
  }

  /** Any two different strings are ordered one way or the other. */
  lemma {:induction false} LessTotal(a: string, b: string)
    ensures a == b || Less(a, b) || Less(b, a)
  {
    if a != [] && b != [] && a[0] == b[0] {
      LessTotal(a[1..], b[1..]);
      if a[1..] == b[1..] {
        assert a == [a[0]] + a[1..] && b == [b[0]] + b[1..];
      }
    }
  }

  lemma LessAsymmetric(a: string, b: string)
    requires Less(a, b)
    ensures !Less(b, a)
  {
    if Less(b, a) {
      LessTransitive(a, b, a);
      LessIrreflexive(a);
    }
  }

  /** `AtMost` is a comparator `sort` can use: total and transitive. */
  lemma AtMostTotalPreorder()
    ensures Sequences.TotalPreorder(AtMost)
  {
    forall a, b ensures AtMost(a, b) || AtMost(b, a) {
      LessTotal(a, b);
    }
    forall a, b, c | AtMost(a, b) && AtMost(b, c) ensures AtMost(a, c) {
      if a != b && b != c {
        LessTransitive(a, b, c);
      }
    }
  }

  /** On strings, `AtMost` is antisymmetric: sorting distinct strings orders
      them strictly. */
  lemma AtMostAntisymmetric(a: string, b: string)
    requires AtMost(a, b) && AtMost(b, a)
    ensures a == b
  {
    if a != b {
      LessAsymmetric(a, b);
    }
  }
}
