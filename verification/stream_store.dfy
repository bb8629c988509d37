/** stream/store.rs: the set of log streams, and its creation-time views. */
module StreamStore {
  import opened Ordering
  import opened StreamModel
  import S = Store

  datatype CwlStreamStore = CwlStreamStore(streams: S.Store<CwlStream>)

  /** The streams are held once per ARN, in ARN order. */
  predicate Valid(ss: CwlStreamStore) {
    S.Sorted(ss.streams.items, StreamOrder())
  }

  ghost function Arns(xs: seq<CwlStream>): set<string> {
    set s | s in xs :: s.arn
  }

  /** `Default for CwlStreamStore`. */
  function Default(): CwlStreamStore {
    CwlStreamStore(S.Empty())
  }

  /** `CwlStreamStore::insert`. */
  function Insert(ss: CwlStreamStore, s: CwlStream): CwlStreamStore {
    CwlStreamStore(S.Insert(ss.streams, StreamOrder(), s))
  }

  /** `CwlStreamStore::extend`. */
  function Extend(ss: CwlStreamStore, xs: seq<CwlStream>): CwlStreamStore {
    CwlStreamStore(S.Extend(ss.streams, StreamOrder(), xs))
  }

  function Items(ss: CwlStreamStore): seq<CwlStream> {
    S.Iter(ss.streams)
  }

  /** Insertion deduplicates by ARN alone: a stream whose ARN is held changes nothing, whatever its other
      fields; a new ARN adds exactly that stream. */
  lemma InsertDedupsByArn(ss: CwlStreamStore, s: CwlStream)
    requires Valid(ss)
    ensures Valid(Insert(ss, s))
    ensures (exists t :: t in Items(ss) && t.arn == s.arn) ==> Insert(ss, s) == ss
    ensures (forall t :: t in Items(ss) ==> t.arn != s.arn) ==>
              multiset(Items(Insert(ss, s))) == multiset(Items(ss)) + multiset{s}
  {
    StreamOrderLawful();
    S.InsertSetSemantics(ss.streams, StreamOrder(), s);
  }

  /** Extending keeps every stream held, adds only streams of `xs`, and holds one stream per ARN of either. */
  lemma ExtendDedupsByArn(ss: CwlStreamStore, xs: seq<CwlStream>)
    requires Valid(ss)
    ensures Valid(Extend(ss, xs))
    ensures Arns(Items(Extend(ss, xs))) == Arns(Items(ss)) + Arns(xs)
    ensures forall s :: s in Items(ss) ==> s in Items(Extend(ss, xs))
    ensures forall s :: s in Items(Extend(ss, xs)) ==> s in Items(ss) || s in xs
  {
    StreamOrderLawful();
    S.ExtendIsUnion(ss.streams.items, StreamOrder(), xs);
    assert Arns(Items(Extend(ss, xs))) == S.Keys(Items(Extend(ss, xs)), StreamOrder());
    assert Arns(Items(ss)) == S.Keys(Items(ss), StreamOrder());
    assert Arns(xs) == S.Keys(xs, StreamOrder());
  }

  /** The creation-time view: by creation instant, ties broken by ARN. */
  function ByCreationTime(): S.View<CwlStream, int> {
    S.View((s: CwlStream) => s.creationTime.millis, IntLt)
  }

  /** `order_by_creation_time_asc`. */
  function OrderByCreationTimeAsc(ss: CwlStreamStore): seq<CwlStream> {
    S.OrderByAsc(ss.streams, StreamOrder(), ByCreationTime())
  }

  /** `order_by_creation_time_desc`. */
  function OrderByCreationTimeDesc(ss: CwlStreamStore): seq<CwlStream> {
    S.OrderByDesc(ss.streams, StreamOrder(), ByCreationTime())
  }

  /** Both views hold every stream exactly once; the ascending view is non-decreasing in creation time with
      ARN as tie-break; the descending view is its reverse. */
  lemma OrderByCreationTimeSorted(ss: CwlStreamStore)
    requires Valid(ss)
    ensures multiset(OrderByCreationTimeAsc(ss)) == multiset(Items(ss))
    ensures multiset(OrderByCreationTimeDesc(ss)) == multiset(Items(ss))
    ensures var v := OrderByCreationTimeAsc(ss);
            forall i, j :: 0 <= i < j < |v| ==>
              v[i].creationTime.millis < v[j].creationTime.millis
              || (v[i].creationTime == v[j].creationTime && StrLt(v[i].arn, v[j].arn))
    ensures OrderByCreationTimeDesc(ss) == S.Reverse(OrderByCreationTimeAsc(ss))
  {
    StreamOrderLawful();
    IntLtStrictTotal();
    S.OrderByAscIsSortedPermutation(ss.streams, StreamOrder(), ByCreationTime());
    S.OrderByDescIsReversedAsc(ss.streams, StreamOrder(), ByCreationTime());
  }
}
