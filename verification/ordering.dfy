/** The orders the modelled code sorts and deduplicates by: Rust's `Ord` on strings,
    integers and pairs, and what it means for such an order to be strict and total. */
module Ordering {

  /** `lt` is a strict total order: irreflexive, transitive, and relating any two distinct values. */
  ghost predicate StrictTotal<K(!new)>(lt: (K, K) -> bool) {
    && (forall a :: !lt(a, a))
    && (forall a, b, c :: lt(a, b) && lt(b, c) ==> lt(a, c))
    && (forall a, b :: a == b || lt(a, b) || lt(b, a))
  }

  /** Rust's `Ord` on `String`/`str`: lexicographic by character (UTF-8 byte order is code point order). */
  predicate StrLt(a: string, b: string) {
    if |a| == 0 then |b| > 0
    else if |b| == 0 then false
    else a[0] < b[0] || (a[0] == b[0] && StrLt(a[1..], b[1..]))
  }

  /** Rust's `Ord` on integers (`i64` milliseconds, `u128` byte counts, `usize` sequence numbers). */
  predicate IntLt(a: int, b: int) {
    a < b
  }

  /** Rust's derived `Ord` on the pair `(int, String)`: first component, then second. */
  predicate PairLt(a: (int, string), b: (int, string)) {
    a.0 < b.0 || (a.0 == b.0 && StrLt(a.1, b.1))
  }

  lemma {:induction false} StrLtIrreflexive(a: string)
    ensures !StrLt(a, a)
    decreases |a|
  {
    if |a| > 0 {
      StrLtIrreflexive(a[1..]);
    }
  }

  lemma {:induction false} StrLtTransitive(a: string, b: string, c: string)
    requires StrLt(a, b) && StrLt(b, c)
    ensures StrLt(a, c)
    decreases |a|
  {
    if |a| > 0 && |b| > 0 && |c| > 0 && a[0] == b[0] && b[0] == c[0] {
      StrLtTransitive(a[1..], b[1..], c[1..]);
    }
  }

  lemma {:induction false} StrLtTrichotomy(a: string, b: string)
    ensures a == b || StrLt(a, b) || StrLt(b, a)
    decreases |a|
  {
    if |a| > 0 && |b| > 0 && a[0] == b[0] {
      StrLtTrichotomy(a[1..], b[1..]);
      if a[1..] == b[1..] {
        assert a == [a[0]] + a[1..] && b == [b[0]] + b[1..];
      }
    }
  }

  /** The string order is a strict total order, so a store keyed by strings is a well-defined set. */
  lemma StrLtStrictTotal()
    ensures StrictTotal(StrLt)
  {
    forall a: string ensures !StrLt(a, a) {
      StrLtIrreflexive(a);
    }
    forall a: string, b: string, c: string | StrLt(a, b) && StrLt(b, c) ensures StrLt(a, c) {
      StrLtTransitive(a, b, c);
    }
    forall a: string, b: string ensures a == b || StrLt(a, b) || StrLt(b, a) {
      StrLtTrichotomy(a, b);
    }
  }

  lemma IntLtStrictTotal()
    ensures StrictTotal(IntLt)
  {
  }

  /** The pair order is a strict total order because both components are ordered strictly and totally. */
  lemma PairLtStrictTotal()
    ensures StrictTotal(PairLt)
  {
    StrLtStrictTotal();
  }
}
