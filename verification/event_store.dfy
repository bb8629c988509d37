/** event/store.rs: the set of log events, and its time-ordered views. */
module EventStore {
  import opened Ordering
  import opened EventModel
  import S = Store

  datatype CwlEventStore = CwlEventStore(events: S.Store<CwlEvent>)

  /** The events are held once per event id, in id order. */
  predicate Valid(es: CwlEventStore) {
    S.Sorted(es.events.items, EventOrder())
  }

  ghost function Ids(xs: seq<CwlEvent>): set<string> {
    set e | e in xs :: e.eventId.text
  }

  /** `Default for CwlEventStore`. */
  function Default(): CwlEventStore {
    CwlEventStore(S.Empty())
  }

  /** `CwlEventStore::insert`. */
  function Insert(es: CwlEventStore, e: CwlEvent): CwlEventStore {
    CwlEventStore(S.Insert(es.events, EventOrder(), e))
  }

  /** `CwlEventStore::extend`. */
  function Extend(es: CwlEventStore, xs: seq<CwlEvent>): CwlEventStore {
    CwlEventStore(S.Extend(es.events, EventOrder(), xs))
  }

  function Items(es: CwlEventStore): seq<CwlEvent> {
    S.Iter(es.events)
  }

  /** Insertion deduplicates by event id alone: an event whose id is held changes nothing; a new id adds
      exactly that event. */
  lemma InsertDedupsById(es: CwlEventStore, e: CwlEvent)
    requires Valid(es)
    ensures Valid(Insert(es, e))
    ensures (exists f :: f in Items(es) && f.eventId == e.eventId) ==> Insert(es, e) == es
    ensures (forall f :: f in Items(es) ==> f.eventId != e.eventId) ==>
              multiset(Items(Insert(es, e))) == multiset(Items(es)) + multiset{e}
  {
    EventOrderLawful();
    S.InsertSetSemantics(es.events, EventOrder(), e);
  }

  /** Extending keeps every event held, adds only events of `xs`, and holds one event per id of either. */
  lemma ExtendDedupsById(es: CwlEventStore, xs: seq<CwlEvent>)
    requires Valid(es)
    ensures Valid(Extend(es, xs))
    ensures Ids(Items(Extend(es, xs))) == Ids(Items(es)) + Ids(xs)
    ensures forall e :: e in Items(es) ==> e in Items(Extend(es, xs))
    ensures forall e :: e in Items(Extend(es, xs)) ==> e in Items(es) || e in xs
  {
    EventOrderLawful();
    S.ExtendIsUnion(es.events.items, EventOrder(), xs);
    assert Ids(Items(Extend(es, xs))) == S.Keys(Items(Extend(es, xs)), EventOrder());
    assert Ids(Items(es)) == S.Keys(Items(es), EventOrder());
    assert Ids(xs) == S.Keys(xs, EventOrder());
  }

  /** The time view: by `(event_time, stream_name)`, ties broken by event id. */
  function ByTime(): S.View<CwlEvent, (int, string)> {
    S.View((e: CwlEvent) => (e.eventTime.millis, e.streamName), PairLt)
  }

  /** `CwlEventStore::order_by_asc`. */
  function OrderByAsc(es: CwlEventStore): seq<CwlEvent> {
    S.OrderByAsc(es.events, EventOrder(), ByTime())
  }

  /** `CwlEventStore::order_by_desc`. */
  function OrderByDesc(es: CwlEventStore): seq<CwlEvent> {
    S.OrderByDesc(es.events, EventOrder(), ByTime())
  }

  /** Both views are permutations of the stored events; the ascending one is ordered by event time, then
      stream name, then event id; the descending one is its reverse. */
  lemma OrderByTimeSorted(es: CwlEventStore)
    requires Valid(es)
    ensures multiset(OrderByAsc(es)) == multiset(Items(es))
    ensures multiset(OrderByDesc(es)) == multiset(Items(es))
    ensures var v := OrderByAsc(es);
            forall i, j :: 0 <= i < j < |v| ==>
              v[i].eventTime.millis < v[j].eventTime.millis
              || (v[i].eventTime == v[j].eventTime && StrLt(v[i].streamName, v[j].streamName))
              || (v[i].eventTime == v[j].eventTime && v[i].streamName == v[j].streamName
                  && StrLt(v[i].eventId.text, v[j].eventId.text))
    ensures OrderByDesc(es) == S.Reverse(OrderByAsc(es))
  {
    EventOrderLawful();
    PairLtStrictTotal();
    S.OrderByAscIsSortedPermutation(es.events, EventOrder(), ByTime());
    S.OrderByDescIsReversedAsc(es.events, EventOrder(), ByTime());
  }
}
