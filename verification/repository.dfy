/** The labelled, filterable repository shared by `ProfileStore` (aws/profile.rs) and `PresetStore`
    (preset.rs): a store of `(sequence number, item)` pairs, a query that filters the view, and a label
    that shows the query. */
module Repository {
  import opened Wrappers
  import opened Ordering
  import opened Query
  import Text
  import S = Store

  /** An entry: the sequence number it was inserted under, and the item. */
  type Entry<T> = (nat, T)

  /** `ProfileStore` / `PresetStore`. */
  datatype Repo<T> = Repo(entries: S.Store<Entry<T>>, query: Option<Query>, labelText: string)

  /** The entry order: the derived `Ord` of the tuple `(usize, T)`, where `T` compares by name. */
  function EntryOrder<T>(name: T -> string): S.Order<Entry<T>, (int, string)> {
    S.Order((e: Entry<T>) => (e.0 as int, name(e.1)), PairLt)
  }

  /** The entries are numbered 1, 2, 3, ... in iteration order. */
  predicate WellNumbered<T>(r: Repo<T>) {
    forall i :: 0 <= i < |r.entries.items| ==> r.entries.items[i].0 == i + 1
  }

  /** The items in insertion order, sequence numbers dropped. */
  function Items<T>(es: seq<Entry<T>>): (xs: seq<T>)
    ensures |xs| == |es|
    ensures forall i :: 0 <= i < |es| ==> xs[i] == es[i].1
  {
    seq(|es|, i requires 0 <= i < |es| => es[i].1)
  }

  /** The items of `xs` numbered consecutively from `offset`, as `enumerate().map(|(i, p)| (i + offset, p))`. */
  function Enumerate<T>(xs: seq<T>, offset: nat): (es: seq<Entry<T>>)
    ensures |es| == |xs|
    ensures forall i :: 0 <= i < |xs| ==> es[i] == (i + offset, xs[i])
  {
    seq(|xs|, i requires 0 <= i < |xs| => (i + offset, xs[i]))
  }

  /** The label for a query: the plain label, or the label followed by the quoted word. */
  function LabelFor(defaultLabel: string, q: Option<Query>): string {
    match q
    case None => defaultLabel
    case Some(w) => defaultLabel + " (\"" + Word(w) + "\")"
  }

  /** `*_matches`: with a query, the name must contain its word; without one everything matches. */
  predicate Matches(name: string, q: Option<Query>) {
    match q
    case None => true
    case Some(w) => Text.Contains(name, Word(w))
  }

  /** `Default`: no entries, no query, the plain label. */
  function Default<T>(defaultLabel: string): Repo<T> {
    Repo(S.Empty(), None, defaultLabel)
  }

  /** `insert`: the item is stored under sequence number `len + 1`. */
  function Insert<T>(r: Repo<T>, name: T -> string, x: T): Repo<T> {
    r.(entries := S.Insert(r.entries, EntryOrder(name), (S.Len(r.entries) + 1, x)))
  }

  /** `extend`: the items are stored under consecutive sequence numbers from `len + 1`. */
  function Extend<T>(r: Repo<T>, name: T -> string, xs: seq<T>): Repo<T> {
    r.(entries := S.Extend(r.entries, EntryOrder(name), Enumerate(xs, S.Len(r.entries) + 1)))
  }

  /** `set_query`: the query is replaced and the label recomputed from it. */
  function SetQuery<T>(r: Repo<T>, defaultLabel: string, q: Option<Query>): Repo<T> {
    r.(query := q, labelText := LabelFor(defaultLabel, q))
  }

  /** `label`. */
  function Label<T>(r: Repo<T>): string {
    r.labelText
  }

  /** The items of `xs`, in order, whose names match `q`. */
  function Filter<T>(xs: seq<T>, name: T -> string, q: Option<Query>): seq<T>
    decreases |xs|
  {
    if |xs| == 0 then []
    else (if Matches(name(xs[0]), q) then [xs[0]] else []) + Filter(xs[1..], name, q)
  }

  /** `iter`: the items whose names match the query, in sequence-number order. */
  function Iter<T>(r: Repo<T>, name: T -> string): seq<T> {
    Filter(Items(r.entries.items), name, r.query)
  }

  /** `Length::len`: the size of the filtered view. */
  function Len<T>(r: Repo<T>, name: T -> string): nat {
    |Iter(r, name)|
  }

  /** The entries a well-numbered repository holds are ordered by the entry order. */
  lemma WellNumberedIsSorted<T>(r: Repo<T>, name: T -> string)
    requires WellNumbered(r)
    ensures S.Sorted(r.entries.items, EntryOrder(name))
  {
  }

  /** `insert` appends: the new item comes last, under the next sequence number, even when an entry with
      the same name is already present. */
  lemma InsertAppends<T>(r: Repo<T>, name: T -> string, x: T)
    requires WellNumbered(r)
    ensures Insert(r, name, x).entries.items == r.entries.items + [(|r.entries.items| + 1, x)]
    ensures WellNumbered(Insert(r, name, x))
    ensures Items(Insert(r, name, x).entries.items) == Items(r.entries.items) + [x]
  {
    PairLtStrictTotal();
    var o := EntryOrder(name);
    var s := r.entries.items;
    var e := (|s| + 1, x);
    forall y | y in s ensures o.lt(o.key(y), o.key(e)) {
      var i :| 0 <= i < |s| && s[i] == y;
    }
    S.InsertAboveAll(s, o, e);
  }

  /** Inserting a run of consecutively numbered entries above a well-numbered sequence appends them. */
  lemma {:induction false} ExtendNumberedAppends<T>(s: seq<Entry<T>>, o: S.Order<Entry<T>, (int, string)>,
                                                    name: T -> string, es: seq<Entry<T>>)
    requires o == EntryOrder(name)
    requires forall i :: 0 <= i < |s| ==> s[i].0 == i + 1
    requires forall i :: 0 <= i < |es| ==> es[i].0 == |s| + 1 + i
    ensures S.ExtendItems(s, o, es) == s + es
    decreases |es|
  {
    if |es| > 0 {
      PairLtStrictTotal();
      forall y | y in s ensures o.lt(o.key(y), o.key(es[0])) {
        var i :| 0 <= i < |s| && s[i] == y;
      }
      S.InsertAboveAll(s, o, es[0]);
      var s' := s + [es[0]];
      ExtendNumberedAppends(s', o, name, es[1..]);
      assert s' + es[1..] == s + es;
    }
  }

  /** `extend` appends the new items in their order, numbered on from `len + 1`. */
  lemma ExtendAppends<T>(r: Repo<T>, name: T -> string, xs: seq<T>)
    requires WellNumbered(r)
    ensures Extend(r, name, xs).entries.items == r.entries.items + Enumerate(xs, |r.entries.items| + 1)
    ensures WellNumbered(Extend(r, name, xs))
    ensures Items(Extend(r, name, xs).entries.items) == Items(r.entries.items) + xs
  {
    ExtendNumberedAppends(r.entries.items, EntryOrder(name), name, Enumerate(xs, |r.entries.items| + 1));
  }

  /** `set_query(Some(q))` labels the view `<label> ("<word>")`, and `set_query(None)` restores the plain
      label; the entries are untouched. */
  lemma SetQueryLabel<T>(r: Repo<T>, defaultLabel: string, q: Option<Query>)
    ensures q.None? ==> Label(SetQuery(r, defaultLabel, q)) == defaultLabel
    ensures q.Some? ==> Label(SetQuery(r, defaultLabel, q)) == defaultLabel + " (\"" + q.value.word + "\")"
    ensures SetQuery(r, defaultLabel, q).entries == r.entries
  {
  }

  /** The filtered view holds exactly the items whose names contain the query word, in their order; it is
      never longer than the store. */
  lemma {:induction false} FilterSpec<T>(xs: seq<T>, name: T -> string, q: Option<Query>)
    ensures forall y :: y in Filter(xs, name, q) <==> y in xs && Matches(name(y), q)
    ensures |Filter(xs, name, q)| <= |xs|
    ensures q.None? ==> Filter(xs, name, q) == xs
    decreases |xs|
  {
    if |xs| > 0 {
      FilterSpec(xs[1..], name, q);
      assert xs == [xs[0]] + xs[1..];
    }
  }

  /** Filtering distributes over concatenation, so an item appended to the store shows up at the end of the
      view exactly when it matches. */
  lemma {:induction false} FilterAppend<T>(xs: seq<T>, ys: seq<T>, name: T -> string, q: Option<Query>)
    ensures Filter(xs + ys, name, q) == Filter(xs, name, q) + Filter(ys, name, q)
    decreases |xs|
  {
    if |xs| > 0 {
      assert (xs + ys)[1..] == xs[1..] + ys;
      FilterAppend(xs[1..], ys, name, q);
    } else {
      assert xs + ys == ys;
    }
  }

  /** With a query `iter` yields exactly the items whose names contain its word (case-sensitively), in
      insertion order; without one it yields every item; `len` counts that view. */
  lemma IterSpec<T>(r: Repo<T>, name: T -> string)
    ensures forall y :: y in Iter(r, name) <==> y in Items(r.entries.items) && Matches(name(y), r.query)
    ensures r.query.None? ==> Iter(r, name) == Items(r.entries.items)
    ensures Len(r, name) <= |r.entries.items|
  {
    FilterSpec(Items(r.entries.items), name, r.query);
  }

  /** A substring match is an occurrence of the word in the name. */
  lemma MatchesIffOccurs(n: string, q: Query)
    ensures Matches(n, Some(q)) <==> exists i :: Text.OccursAt(n, q.word, i)
  {
    Text.ContainsIffOccurs(n, q.word);
  }
}
