/** `Store<T>` of collection/store.rs: a `BTreeSet` of items that are unique under the order of their
    primary key, iterated in ascending key order, and re-projected into derived orders. */
module Store {
  import opened Ordering

  /** How items are compared: by `key`, under the order `lt` on keys. The item's `Ord` in the source
      compares exactly this key (an ARN, an event id, a sequence number and name). */
  datatype Order<!T, !K> = Order(key: T -> K, lt: (K, K) -> bool)

  /** The items of a store, in iteration (ascending key) order. */
  datatype Store<T> = Store(items: seq<T>)

  /** The key order is a strict total order, as a Rust `Ord` must be. */
  ghost predicate Lawful<T, K(!new)>(o: Order<T, K>) {
    StrictTotal(o.lt)
  }

  /** Keys strictly ascending along `s`: what a `BTreeSet` iterates. */
  predicate Sorted<T, K>(s: seq<T>, o: Order<T, K>) {
    forall i, j :: 0 <= i < j < |s| ==> o.lt(o.key(s[i]), o.key(s[j]))
  }

  /** The primary keys present in `s`. */
  ghost function Keys<T, K>(s: seq<T>, o: Order<T, K>): set<K> {
    set x | x in s :: o.key(x)
  }

  /** No two positions of `s` hold items under the same key. */
  ghost predicate DistinctKeys<T, K>(s: seq<T>, o: Order<T, K>) {
    forall i, j :: 0 <= i < |s| && 0 <= j < |s| && i != j ==> o.key(s[i]) != o.key(s[j])
  }

  lemma KeysCons<T, K>(x: T, s: seq<T>, o: Order<T, K>)
    ensures Keys([x] + s, o) == {o.key(x)} + Keys(s, o)
  {
    assert forall y :: y in [x] + s <==> y == x || y in s;
  }

  lemma KeysTail<T, K>(s: seq<T>, o: Order<T, K>)
    requires |s| > 0
    ensures Keys(s, o) == {o.key(s[0])} + Keys(s[1..], o)
  {
    assert s == [s[0]] + s[1..];
    KeysCons(s[0], s[1..], o);
  }

  /** In a sorted sequence the first key is below every later key. */
  lemma SortedHead<T, K>(s: seq<T>, o: Order<T, K>)
    requires Sorted(s, o) && |s| > 0
    ensures forall y :: y in s[1..] ==> o.lt(o.key(s[0]), o.key(y))
  {
    forall y | y in s[1..] ensures o.lt(o.key(s[0]), o.key(y)) {
      var j :| 0 <= j < |s[1..]| && s[1..][j] == y;
      assert s[j + 1] == y;
    }
  }

  /** Prepending a key below every key of a sorted sequence keeps it sorted. */
  lemma SortedCons<T, K>(x: T, s: seq<T>, o: Order<T, K>)
    requires Sorted(s, o)
    requires forall y :: y in s ==> o.lt(o.key(x), o.key(y))
    ensures Sorted([x] + s, o)
  {
    var r := [x] + s;
    forall i, j | 0 <= i < j < |r| ensures o.lt(o.key(r[i]), o.key(r[j])) {
      assert r[j] == s[j - 1];
      if i > 0 {
        assert r[i] == s[i - 1];
      }
    }
  }

  /** A sorted sequence never holds two items under one key, so it holds no item twice. */
  lemma SortedDistinct<T, K(!new)>(s: seq<T>, o: Order<T, K>)
    requires Lawful(o) && Sorted(s, o)
    ensures DistinctKeys(s, o)
  {
    forall i, j | 0 <= i < |s| && 0 <= j < |s| && i != j ensures o.key(s[i]) != o.key(s[j]) {
      if i < j {
        assert o.lt(o.key(s[i]), o.key(s[j]));
      } else {
        assert o.lt(o.key(s[j]), o.key(s[i]));
      }
    }
  }

  /** `Store::new`/`Default`: the empty store. */
  function Empty<T>(): Store<T> {
    Store([])
  }

  /** `Store::clear`. */
  function Clear<T>(st: Store<T>): (r: Store<T>)
    ensures Len(r) == 0
  {
    Store([])
  }

  /** `Length::len`: the number of items held. */
  function Len<T>(st: Store<T>): nat {
    |st.items|
  }

  /** `Store::iter`: the items in ascending key order. */
  function Iter<T>(st: Store<T>): seq<T> {
    st.items
  }

  /** `BTreeSet::insert`: an item whose key is already present is dropped, keeping the item already
      stored; any other item is placed in key order. */
  function InsertItem<T, K(==)>(s: seq<T>, o: Order<T, K>, x: T): seq<T>
    decreases |s|
  {
    if |s| == 0 then [x]
    else if o.key(x) == o.key(s[0]) then s
    else if o.lt(o.key(x), o.key(s[0])) then [x] + s
    else [s[0]] + InsertItem(s[1..], o, x)
  }

  /** `Store::insert`. */
  function Insert<T, K(==)>(st: Store<T>, o: Order<T, K>, x: T): Store<T> {
    Store(InsertItem(st.items, o, x))
  }

  /** Insertion adds a key to the key set: an item under a present key leaves the store unchanged, and a
      new key adds exactly that item. */
  /** A key below the head of a sorted sequence is not among its keys. */
  lemma InsertBelowHead<T, K(!new)>(s: seq<T>, o: Order<T, K>, x: T)
    requires Lawful(o) && Sorted(s, o) && |s| > 0 && o.lt(o.key(x), o.key(s[0]))
    ensures o.key(x) !in Keys(s, o)
    ensures Keys([x] + s, o) == Keys(s, o) + {o.key(x)}
  {
    KeysTail(s, o);
    SortedHead(s, o);
    KeysCons(x, s, o);
    forall y | y in s[1..] ensures o.key(y) != o.key(x) {
      assert o.lt(o.key(s[0]), o.key(y));
    }
  }

  /** Putting the head back in front of the tail's insertion result keeps the set-insert properties. */
  lemma InsertAboveHead<T, K(!new)>(s: seq<T>, o: Order<T, K>, x: T, r: seq<T>)
    requires |s| > 0 && o.key(x) != o.key(s[0])
    requires Keys(r, o) == Keys(s[1..], o) + {o.key(x)}
    requires o.key(x) in Keys(s[1..], o) ==> r == s[1..]
    requires o.key(x) !in Keys(s[1..], o) ==> multiset(r) == multiset(s[1..]) + multiset{x}
    ensures Keys([s[0]] + r, o) == Keys(s, o) + {o.key(x)}
    ensures o.key(x) in Keys(s, o) ==> [s[0]] + r == s
    ensures o.key(x) !in Keys(s, o) ==> multiset([s[0]] + r) == multiset(s) + multiset{x}
  {
    KeysTail(s, o);
    KeysCons(s[0], r, o);
    assert s == [s[0]] + s[1..];
  }

  lemma {:induction false} InsertIsSetInsert<T, K(!new)>(s: seq<T>, o: Order<T, K>, x: T)
    requires Lawful(o) && Sorted(s, o)
    ensures Keys(InsertItem(s, o, x), o) == Keys(s, o) + {o.key(x)}
    ensures o.key(x) in Keys(s, o) ==> InsertItem(s, o, x) == s
    ensures o.key(x) !in Keys(s, o) ==> multiset(InsertItem(s, o, x)) == multiset(s) + multiset{x}
    decreases |s|
  {
    if |s| == 0 {
      KeysCons(x, [], o);
      assert [x] + [] == [x];
    } else if o.key(x) == o.key(s[0]) {
      KeysTail(s, o);
    } else if o.lt(o.key(x), o.key(s[0])) {
      InsertBelowHead(s, o, x);
    } else {
      assert Sorted(s[1..], o);
      InsertIsSetInsert(s[1..], o, x);
      InsertAboveHead(s, o, x, InsertItem(s[1..], o, x));
    }
  }

  /** Insertion keeps the keys strictly ascending. */
  lemma {:induction false} InsertKeepsSorted<T, K(!new)>(s: seq<T>, o: Order<T, K>, x: T)
    requires Lawful(o) && Sorted(s, o)
    ensures Sorted(InsertItem(s, o, x), o)
    decreases |s|
  {
    if |s| == 0 {
    } else if o.key(x) == o.key(s[0]) {
    } else if o.lt(o.key(x), o.key(s[0])) {
      SortedHead(s, o);
      forall y | y in s ensures o.lt(o.key(x), o.key(y)) {
        if y != s[0] {
          assert s == [s[0]] + s[1..];
          assert y in s[1..];
        }
      }
      SortedCons(x, s, o);
    } else {
      SortedHead(s, o);
      assert Sorted(s[1..], o);
      var rest := InsertItem(s[1..], o, x);
      InsertKeepsSorted(s[1..], o, x);
      InsertIsSetInsert(s[1..], o, x);
      assert o.lt(o.key(s[0]), o.key(x));
      forall y | y in rest ensures o.lt(o.key(s[0]), o.key(y)) {
        if o.key(x) !in Keys(s[1..], o) {
          assert y in multiset(s[1..]) + multiset{x};
        }
      }
      SortedCons(s[0], rest, o);
    }
  }

  /** `Store::insert` has set semantics: the store stays a set in key order, an item whose key is present
      changes nothing, and an item under a new key is added. */
  lemma InsertSetSemantics<T, K(!new)>(st: Store<T>, o: Order<T, K>, x: T)
    requires Lawful(o) && Sorted(st.items, o)
    ensures Sorted(Insert(st, o, x).items, o)
    ensures Keys(Insert(st, o, x).items, o) == Keys(st.items, o) + {o.key(x)}
    ensures o.key(x) in Keys(st.items, o) ==> Insert(st, o, x) == st
    ensures o.key(x) !in Keys(st.items, o) ==>
              multiset(Insert(st, o, x).items) == multiset(st.items) + multiset{x}
  {
    InsertIsSetInsert(st.items, o, x);
    InsertKeepsSorted(st.items, o, x);
  }

  /** Inserting a key above every present key appends the item. */
  lemma {:induction false} InsertAboveAll<T, K(!new)>(s: seq<T>, o: Order<T, K>, x: T)
    requires Lawful(o)
    requires forall y :: y in s ==> o.lt(o.key(y), o.key(x))
    ensures InsertItem(s, o, x) == s + [x]
    decreases |s|
  {
    if |s| > 0 {
      assert o.lt(o.key(s[0]), o.key(x));
      assert forall y :: y in s[1..] ==> y in s;
      InsertAboveAll(s[1..], o, x);
      assert s == [s[0]] + s[1..];
    }
  }

  /** Position `i` of `xs` is the first position holding its key. */
  ghost predicate FirstOfKey<T, K>(xs: seq<T>, o: Order<T, K>, i: int)
    requires 0 <= i < |xs|
  {
    forall j :: 0 <= j < i ==> o.key(xs[j]) != o.key(xs[i])
  }

  /** `Store::extend` (`BTreeSet::extend`): the items inserted one by one, in iteration order. */
  function ExtendItems<T, K(==)>(s: seq<T>, o: Order<T, K>, xs: seq<T>): seq<T>
    decreases |xs|
  {
    if |xs| == 0 then s else ExtendItems(InsertItem(s, o, xs[0]), o, xs[1..])
  }

  /** `Store::extend`. */
  function Extend<T, K(==)>(st: Store<T>, o: Order<T, K>, xs: seq<T>): Store<T> {
    Store(ExtendItems(st.items, o, xs))
  }

  /** Extending yields the union of the old contents and the new items with duplicates collapsed: the key
      set is the union, every old item stays, every item comes from the store or from `xs`, and the first
      item of `xs` under a key the store lacks is the one kept. */
  lemma {:induction false} ExtendIsUnion<T, K(!new)>(s: seq<T>, o: Order<T, K>, xs: seq<T>)
    requires Lawful(o) && Sorted(s, o)
    ensures Sorted(ExtendItems(s, o, xs), o)
    ensures Keys(ExtendItems(s, o, xs), o) == Keys(s, o) + Keys(xs, o)
    ensures forall y :: y in s ==> y in ExtendItems(s, o, xs)
    ensures forall y :: y in ExtendItems(s, o, xs) ==> y in s || y in xs
    ensures forall i :: 0 <= i < |xs| && o.key(xs[i]) !in Keys(s, o) && FirstOfKey(xs, o, i) ==>
              xs[i] in ExtendItems(s, o, xs)
    decreases |xs|
  {
    if |xs| == 0 {
      assert Keys(xs, o) == {};
    } else {
      var s' := InsertItem(s, o, xs[0]);
      InsertIsSetInsert(s, o, xs[0]);
      InsertKeepsSorted(s, o, xs[0]);
      ExtendIsUnion(s', o, xs[1..]);
      KeysTail(xs, o);
      var r := ExtendItems(s, o, xs);
      assert r == ExtendItems(s', o, xs[1..]);
      forall y | y in s ensures y in s' {
        if o.key(xs[0]) !in Keys(s, o) {
          assert y in multiset(s');
        }
      }
      forall y | y in s' ensures y in s || y == xs[0] {
        if o.key(xs[0]) !in Keys(s, o) {
          assert y in multiset(s) + multiset{xs[0]};
        }
      }
      assert forall y :: y in xs[1..] ==> y in xs;
      forall i | 0 <= i < |xs| && o.key(xs[i]) !in Keys(s, o) && FirstOfKey(xs, o, i) ensures xs[i] in r {
        if i == 0 {
          assert xs[0] in multiset(s');
        } else {
          assert xs[1..][i - 1] == xs[i];
          assert FirstOfKey(xs[1..], o, i - 1) by {
            forall j | 0 <= j < i - 1 ensures o.key(xs[1..][j]) != o.key(xs[1..][i - 1]) {
              assert xs[1..][j] == xs[j + 1];
            }
          }
          assert o.key(xs[0]) != o.key(xs[i]);
        }
      }
    }
  }

  /** `FromIterator for Store`: the items of `xs` collected into a set. */
  function FromSeq<T, K(==)>(o: Order<T, K>, xs: seq<T>): Store<T> {
    Extend(Empty(), o, xs)
  }

  /** The number of items in a sorted sequence is the number of distinct keys in it. */
  lemma {:induction false} LenIsKeyCount<T, K(!new)>(s: seq<T>, o: Order<T, K>)
    requires Lawful(o) && Sorted(s, o)
    ensures |s| == |Keys(s, o)|
    decreases |s|
  {
    if |s| > 0 {
      KeysTail(s, o);
      SortedHead(s, o);
      assert Sorted(s[1..], o);
      LenIsKeyCount(s[1..], o);
      forall y | y in s[1..] ensures o.key(y) != o.key(s[0]) {
        assert o.lt(o.key(s[0]), o.key(y));
      }
      assert o.key(s[0]) !in Keys(s[1..], o);
    }
  }

  /** `FromIterator` deduplicates: the store holds one item per distinct key of the input, and its `len`
      is the number of distinct keys. */
  lemma FromSeqDeduplicates<T, K(!new)>(o: Order<T, K>, xs: seq<T>)
    requires Lawful(o)
    ensures Sorted(FromSeq(o, xs).items, o)
    ensures Keys(FromSeq(o, xs).items, o) == Keys(xs, o)
    ensures Len(FromSeq(o, xs)) == |Keys(xs, o)|
    ensures forall y :: y in Iter(FromSeq(o, xs)) ==> y in xs
  {
    var s: seq<T> := [];
    assert Keys(s, o) == {};
    ExtendIsUnion(s, o, xs);
    LenIsKeyCount(FromSeq(o, xs).items, o);
  }

  /** A derived order for a view of the store: items are compared by the derived key `rank` under `lt`,
      and items with equal derived keys by their own order, as the tuple `(f(x), x)` sorts. */
  datatype View<!T, !U> = View(rank: T -> U, lt: (U, U) -> bool)

  /** `a` sorts strictly before `b` in the view. */
  predicate Before<T, K, U(==)>(o: Order<T, K>, v: View<T, U>, a: T, b: T) {
    v.lt(v.rank(a), v.rank(b)) || (v.rank(a) == v.rank(b) && o.lt(o.key(a), o.key(b)))
  }

  /** Strictly ascending in the view. */
  predicate Ascending<T, K, U(==)>(s: seq<T>, o: Order<T, K>, v: View<T, U>) {
    forall i, j :: 0 <= i < j < |s| ==> Before(o, v, s[i], s[j])
  }

  /** Strictly descending in the view. */
  predicate Descending<T, K, U(==)>(s: seq<T>, o: Order<T, K>, v: View<T, U>) {
    forall i, j :: 0 <= i < j < |s| ==> Before(o, v, s[j], s[i])
  }

  lemma BeforeIrreflexive<T, K(!new), U(!new)>(o: Order<T, K>, v: View<T, U>, a: T)
    requires Lawful(o) && StrictTotal(v.lt)
    ensures !Before(o, v, a, a)
  {
  }

  lemma BeforeTransitive<T, K(!new), U(!new)>(o: Order<T, K>, v: View<T, U>, a: T, b: T, c: T)
    requires Lawful(o) && StrictTotal(v.lt)
    requires Before(o, v, a, b) && Before(o, v, b, c)
    ensures Before(o, v, a, c)
  {
  }

  lemma BeforeAsymmetric<T, K(!new), U(!new)>(o: Order<T, K>, v: View<T, U>, a: T, b: T)
    requires Lawful(o) && StrictTotal(v.lt)
    requires Before(o, v, a, b)
    ensures !Before(o, v, b, a)
  {
    if Before(o, v, b, a) {
      BeforeTransitive(o, v, a, b, a);
    }
  }

  /** Items under different primary keys are always comparable in the view. */
  lemma BeforeTotal<T, K(!new), U(!new)>(o: Order<T, K>, v: View<T, U>, a: T, b: T)
    requires Lawful(o) && StrictTotal(v.lt)
    requires o.key(a) != o.key(b)
    ensures Before(o, v, a, b) || Before(o, v, b, a)
  {
  }

  lemma AscendingCons<T, K, U>(x: T, s: seq<T>, o: Order<T, K>, v: View<T, U>)
    requires Ascending(s, o, v)
    requires forall y :: y in s ==> Before(o, v, x, y)
    ensures Ascending([x] + s, o, v)
  {
    var r := [x] + s;
    forall i, j | 0 <= i < j < |r| ensures Before(o, v, r[i], r[j]) {
      assert r[j] == s[j - 1];
      if i > 0 {
        assert r[i] == s[i - 1];
      }
    }
  }

  /** Insertion step of the ascending view: `x` goes before the first item it precedes. */
  function InsertBy<T, K, U(==)>(s: seq<T>, o: Order<T, K>, v: View<T, U>, x: T): seq<T>
    decreases |s|
  {
    if |s| == 0 then [x]
    else if Before(o, v, x, s[0]) then [x] + s
    else [s[0]] + InsertBy(s[1..], o, v, x)
  }

  /** The items of `s` arranged in ascending view order. */
  function SortBy<T, K, U(==)>(s: seq<T>, o: Order<T, K>, v: View<T, U>): seq<T>
    decreases |s|
  {
    if |s| == 0 then [] else InsertBy(SortBy(s[1..], o, v), o, v, s[0])
  }

  lemma {:induction false} InsertByAdds<T, K, U>(s: seq<T>, o: Order<T, K>, v: View<T, U>, x: T)
    ensures multiset(InsertBy(s, o, v, x)) == multiset(s) + multiset{x}
    decreases |s|
  {
    if |s| > 0 && !Before(o, v, x, s[0]) {
      InsertByAdds(s[1..], o, v, x);
      assert s == [s[0]] + s[1..];
    }
  }

  lemma {:induction false} InsertByAscending<T, K(!new), U(!new)>(s: seq<T>, o: Order<T, K>, v: View<T, U>, x: T)
    requires Lawful(o) && StrictTotal(v.lt)
    requires Ascending(s, o, v)
    requires forall y :: y in s ==> o.key(y) != o.key(x)
    ensures Ascending(InsertBy(s, o, v, x), o, v)
    decreases |s|
  {
    if |s| == 0 {
    } else if Before(o, v, x, s[0]) {
      forall y | y in s ensures Before(o, v, x, y) {
        var j :| 0 <= j < |s| && s[j] == y;
        if j > 0 {
          BeforeTransitive(o, v, x, s[0], y);
        }
      }
      AscendingCons(x, s, o, v);
    } else {
      BeforeTotal(o, v, x, s[0]);
      var rest := InsertBy(s[1..], o, v, x);
      assert Ascending(s[1..], o, v);
      InsertByAscending(s[1..], o, v, x);
      InsertByAdds(s[1..], o, v, x);
      forall y | y in rest ensures Before(o, v, s[0], y) {
        assert y in multiset(s[1..]) + multiset{x};
        if y != x {
          var j :| 0 <= j < |s[1..]| && s[1..][j] == y;
          assert s[j + 1] == y;
        }
      }
      AscendingCons(s[0], rest, o, v);
    }
  }

  /** The ascending view is a permutation of its input. */
  lemma {:induction false} SortByPermutes<T, K, U>(s: seq<T>, o: Order<T, K>, v: View<T, U>)
    ensures multiset(SortBy(s, o, v)) == multiset(s)
    decreases |s|
  {
    if |s| > 0 {
      SortByPermutes(s[1..], o, v);
      InsertByAdds(SortBy(s[1..], o, v), o, v, s[0]);
      assert s == [s[0]] + s[1..];
    }
  }

  /** Over items with distinct primary keys the ascending view is strictly ascending. */
  lemma {:induction false} SortByAscending<T, K(!new), U(!new)>(s: seq<T>, o: Order<T, K>, v: View<T, U>)
    requires Lawful(o) && StrictTotal(v.lt) && DistinctKeys(s, o)
    ensures Ascending(SortBy(s, o, v), o, v)
    decreases |s|
  {
    if |s| > 0 {
      var t := SortBy(s[1..], o, v);
      assert DistinctKeys(s[1..], o) by {
        forall i, j | 0 <= i < |s[1..]| && 0 <= j < |s[1..]| && i != j
          ensures o.key(s[1..][i]) != o.key(s[1..][j])
        {
          assert s[1..][i] == s[i + 1] && s[1..][j] == s[j + 1];
        }
      }
      SortByAscending(s[1..], o, v);
      SortByPermutes(s[1..], o, v);
      forall y | y in t ensures o.key(y) != o.key(s[0]) {
        assert y in multiset(s[1..]);
        var j :| 0 <= j < |s[1..]| && s[1..][j] == y;
        assert s[j + 1] == y;
      }
      InsertByAscending(t, o, v, s[0]);
    }
  }

  /** Index of the greatest item of `s` in the view: the element a max-heap pops first. */
  function MaxIndex<T, K, U(==)>(s: seq<T>, o: Order<T, K>, v: View<T, U>): (m: nat)
    requires |s| > 0
    ensures m < |s|
    decreases |s|
  {
    if |s| == 1 then 0
    else
      var m := MaxIndex(s[1..], o, v) + 1;
      if Before(o, v, s[0], s[m]) then m else 0
  }

  /** The items of `s` in descending view order, by popping the greatest item repeatedly. */
  function SortDescBy<T, K, U(==)>(s: seq<T>, o: Order<T, K>, v: View<T, U>): seq<T>
    decreases |s|
  {
    if |s| == 0 then []
    else
      var m := MaxIndex(s, o, v);
      [s[m]] + SortDescBy(s[..m] + s[m + 1..], o, v)
  }

  /** Over distinct primary keys, the item at `MaxIndex` is after every other item. */
  lemma {:induction false} MaxIndexIsGreatest<T, K(!new), U(!new)>(s: seq<T>, o: Order<T, K>, v: View<T, U>)
    requires Lawful(o) && StrictTotal(v.lt) && DistinctKeys(s, o) && |s| > 0
    ensures forall j :: 0 <= j < |s| && j != MaxIndex(s, o, v) ==> Before(o, v, s[j], s[MaxIndex(s, o, v)])
    decreases |s|
  {
    if |s| > 1 {
      var t := s[1..];
      assert DistinctKeys(t, o) by {
        forall i, j | 0 <= i < |t| && 0 <= j < |t| && i != j ensures o.key(t[i]) != o.key(t[j]) {
          assert t[i] == s[i + 1] && t[j] == s[j + 1];
        }
      }
      MaxIndexIsGreatest(t, o, v);
      var mt := MaxIndex(t, o, v);
      var m := mt + 1;
      assert t[mt] == s[m];
      BeforeTotal(o, v, s[0], s[m]);
      forall j | 0 <= j < |s| && j != MaxIndex(s, o, v) ensures Before(o, v, s[j], s[MaxIndex(s, o, v)]) {
        if j > 0 && j != m {
          assert t[j - 1] == s[j];
          if !Before(o, v, s[0], s[m]) {
            BeforeTransitive(o, v, s[j], s[m], s[0]);
          }
        }
      }
    }
  }

  lemma RemoveAt<T>(s: seq<T>, m: nat)
    requires m < |s|
    ensures multiset(s) == multiset(s[..m] + s[m + 1..]) + multiset{s[m]}
    ensures forall y :: y in s[..m] + s[m + 1..] ==> y in s
  {
    assert s == s[..m] + [s[m]] + s[m + 1..];
  }

  /** The descending view is a permutation of its input. */
  lemma {:induction false} SortDescByPermutes<T, K, U>(s: seq<T>, o: Order<T, K>, v: View<T, U>)
    ensures multiset(SortDescBy(s, o, v)) == multiset(s)
    decreases |s|
  {
    if |s| > 0 {
      var m := MaxIndex(s, o, v);
      RemoveAt(s, m);
      SortDescByPermutes(s[..m] + s[m + 1..], o, v);
    }
  }

  /** Removing one position keeps the remaining keys distinct. */
  lemma DistinctKeysRemove<T, K>(s: seq<T>, o: Order<T, K>, m: nat)
    requires DistinctKeys(s, o) && m < |s|
    ensures DistinctKeys(s[..m] + s[m + 1..], o)
  {
    var t := s[..m] + s[m + 1..];
    forall i, j | 0 <= i < |t| && 0 <= j < |t| && i != j ensures o.key(t[i]) != o.key(t[j]) {
      var i' := if i < m then i else i + 1;
      var j' := if j < m then j else j + 1;
      assert t[i] == s[i'] && t[j] == s[j'];
    }
  }

  /** Every item left after removing the greatest one sorts before it. */
  lemma MaxAboveRest<T, K(!new), U(!new)>(s: seq<T>, o: Order<T, K>, v: View<T, U>)
    requires Lawful(o) && StrictTotal(v.lt) && DistinctKeys(s, o) && |s| > 0
    ensures forall y :: y in s[..MaxIndex(s, o, v)] + s[MaxIndex(s, o, v) + 1..] ==> Before(o, v, y, s[MaxIndex(s, o, v)])
  {
    var m := MaxIndex(s, o, v);
    MaxIndexIsGreatest(s, o, v);
    var t := s[..m] + s[m + 1..];
    forall y | y in t ensures Before(o, v, y, s[m]) {
      var k :| 0 <= k < |t| && t[k] == y;
      var k' := if k < m then k else k + 1;
      assert t[k] == s[k'];
    }
  }

  lemma DescendingCons<T, K, U>(x: T, s: seq<T>, o: Order<T, K>, v: View<T, U>)
    requires Descending(s, o, v)
    requires forall y :: y in s ==> Before(o, v, y, x)
    ensures Descending([x] + s, o, v)
  {
    var r := [x] + s;
    forall i, j | 0 <= i < j < |r| ensures Before(o, v, r[j], r[i]) {
      assert r[j] == s[j - 1];
      if i > 0 {
        assert r[i] == s[i - 1];
      }
    }
  }

  /** Over items with distinct primary keys the descending view is strictly descending. */
  lemma {:induction false} SortDescByDescending<T, K(!new), U(!new)>(s: seq<T>, o: Order<T, K>, v: View<T, U>)
    requires Lawful(o) && StrictTotal(v.lt) && DistinctKeys(s, o)
    ensures Descending(SortDescBy(s, o, v), o, v)
    decreases |s|
  {
    if |s| > 0 {
      var m := MaxIndex(s, o, v);
      var t := s[..m] + s[m + 1..];
      DistinctKeysRemove(s, o, m);
      SortDescByDescending(t, o, v);
      SortDescByPermutes(t, o, v);
      MaxAboveRest(s, o, v);
      var rest := SortDescBy(t, o, v);
      forall y | y in rest ensures Before(o, v, y, s[m]) {
        assert y in multiset(t);
      }
      DescendingCons(s[m], rest, o, v);
    }
  }

  /** The items of `s` in reverse order. */
  function Reverse<T>(s: seq<T>): (r: seq<T>)
    ensures |r| == |s|
    ensures forall i :: 0 <= i < |s| ==> r[i] == s[|s| - 1 - i]
    decreases |s|
  {
    if |s| == 0 then [] else Reverse(s[1..]) + [s[0]]
  }

  lemma ReversePermutes<T>(s: seq<T>)
    ensures multiset(Reverse(s)) == multiset(s)
  {
    var r := Reverse(s);
    if |s| > 0 {
      assert s == [s[0]] + s[1..];
      assert r == Reverse(s[1..]) + [s[0]];
      ReversePermutes(s[1..]);
    }
  }

  /** Two strictly ascending arrangements of the same items are the same sequence. */
  /** Two ascending permutations of each other start with the same item. */
  lemma AscendingSameHead<T, K(!new), U(!new)>(a: seq<T>, b: seq<T>, o: Order<T, K>, v: View<T, U>)
    requires Lawful(o) && StrictTotal(v.lt)
    requires Ascending(a, o, v) && Ascending(b, o, v) && multiset(a) == multiset(b) && |a| > 0
    ensures |b| > 0 && a[0] == b[0]
  {
    assert a[0] in multiset(b);
    var i :| 0 <= i < |b| && b[i] == a[0];
    assert b[0] in multiset(a);
    var j :| 0 <= j < |a| && a[j] == b[0];
    if a[0] != b[0] {
      assert i != 0 && j != 0;
      BeforeAsymmetric(o, v, a[0], b[0]);
    }
  }

  lemma AscendingTail<T, K, U>(a: seq<T>, o: Order<T, K>, v: View<T, U>)
    requires Ascending(a, o, v) && |a| > 0
    ensures Ascending(a[1..], o, v)
  {
    forall i, j | 0 <= i < j < |a| - 1 ensures Before(o, v, a[1..][i], a[1..][j]) {
      assert a[1..][i] == a[i + 1] && a[1..][j] == a[j + 1];
    }
  }

  /** Sequences with equal contents and equal heads have tails with equal contents. */
  lemma MultisetTails<T>(a: seq<T>, b: seq<T>)
    requires multiset(a) == multiset(b) && |a| > 0 && |b| > 0 && a[0] == b[0]
    ensures multiset(a[1..]) == multiset(b[1..])
  {
    assert a == [a[0]] + a[1..] && b == [b[0]] + b[1..];
    assert multiset(a[1..]) == multiset(a) - multiset{a[0]};
    assert multiset(b[1..]) == multiset(b) - multiset{b[0]};
  }

  lemma {:induction false} AscendingUnique<T, K(!new), U(!new)>(a: seq<T>, b: seq<T>, o: Order<T, K>, v: View<T, U>)
    requires Lawful(o) && StrictTotal(v.lt)
    requires Ascending(a, o, v) && Ascending(b, o, v) && multiset(a) == multiset(b)
    ensures a == b
    decreases |a|
  {
    if |a| > 0 {
      AscendingSameHead(a, b, o, v);
      MultisetTails(a, b);
      AscendingTail(a, o, v);
      AscendingTail(b, o, v);
      AscendingUnique(a[1..], b[1..], o, v);
      assert a == [a[0]] + a[1..] && b == [b[0]] + b[1..];
    } else {
      assert |multiset(b)| == 0;
    }
  }

  /** Reading a descending sequence backwards gives an ascending one. */
  lemma ReverseOfDescending<T, K, U>(d: seq<T>, o: Order<T, K>, v: View<T, U>)
    requires Descending(d, o, v)
    ensures Ascending(Reverse(d), o, v)
  {
    var rd := Reverse(d);
    forall i, j | 0 <= i < j < |rd| ensures Before(o, v, rd[i], rd[j]) {
      assert rd[i] == d[|d| - 1 - i] && rd[j] == d[|d| - 1 - j];
    }
  }

  lemma ReverseInvolutive<T>(s: seq<T>)
    ensures Reverse(Reverse(s)) == s
  {
    var r := Reverse(Reverse(s));
    forall k | 0 <= k < |s| ensures r[k] == s[k] {
      assert r[k] == Reverse(s)[|s| - 1 - k];
    }
  }

  /** The descending view is exactly the ascending view reversed. */
  lemma DescIsReverseOfAsc<T, K(!new), U(!new)>(s: seq<T>, o: Order<T, K>, v: View<T, U>)
    requires Lawful(o) && StrictTotal(v.lt) && DistinctKeys(s, o)
    ensures SortDescBy(s, o, v) == Reverse(SortBy(s, o, v))
  {
    var d := SortDescBy(s, o, v);
    var a := SortBy(s, o, v);
    SortDescByDescending(s, o, v);
    SortDescByPermutes(s, o, v);
    SortByAscending(s, o, v);
    SortByPermutes(s, o, v);
    ReversePermutes(d);
    ReverseOfDescending(d, o, v);
    AscendingUnique(Reverse(d), a, o, v);
    ReverseInvolutive(d);
  }

  /** `Store::order_by_asc` and `order_by_asc_ref`: the items sorted by `(f(x), x)`. */
  function OrderByAsc<T, K, U(==)>(st: Store<T>, o: Order<T, K>, v: View<T, U>): seq<T> {
    SortBy(st.items, o, v)
  }

  /** `Store::order_by_desc` and `order_by_desc_ref`: the items popped greatest-first from a max-heap
      of `(f(x), x)`. */
  function OrderByDesc<T, K, U(==)>(st: Store<T>, o: Order<T, K>, v: View<T, U>): seq<T> {
    SortDescBy(st.items, o, v)
  }

  /** The ascending view of a store lists every item once, strictly ascending by `(f(x), x)`. */
  lemma OrderByAscIsSortedPermutation<T, K(!new), U(!new)>(st: Store<T>, o: Order<T, K>, v: View<T, U>)
    requires Lawful(o) && StrictTotal(v.lt) && Sorted(st.items, o)
    ensures multiset(OrderByAsc(st, o, v)) == multiset(Iter(st))
    ensures Ascending(OrderByAsc(st, o, v), o, v)
  {
    SortedDistinct(st.items, o);
    SortByPermutes(st.items, o, v);
    SortByAscending(st.items, o, v);
  }

  /** The descending view lists every item once, strictly descending, and is the ascending view reversed. */
  lemma OrderByDescIsReversedAsc<T, K(!new), U(!new)>(st: Store<T>, o: Order<T, K>, v: View<T, U>)
    requires Lawful(o) && StrictTotal(v.lt) && Sorted(st.items, o)
    ensures multiset(OrderByDesc(st, o, v)) == multiset(Iter(st))
    ensures Descending(OrderByDesc(st, o, v), o, v)
    ensures OrderByDesc(st, o, v) == Reverse(OrderByAsc(st, o, v))
  {
    SortedDistinct(st.items, o);
    SortDescByPermutes(st.items, o, v);
    SortDescByDescending(st.items, o, v);
    DescIsReverseOfAsc(st.items, o, v);
  }
}
