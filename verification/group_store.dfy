/** group/store.rs: the set of log groups shown in the shell, and its five sorted views. */
module GroupStore {
  import opened Ordering
  import opened GroupModel
  import S = Store

  datatype CwlGroupStore = CwlGroupStore(groups: S.Store<CwlGroup>)

  /** The groups are held once per ARN, in ARN order. */
  predicate Valid(gs: CwlGroupStore) {
    S.Sorted(gs.groups.items, GroupOrder())
  }

  /** The ARNs held. */
  ghost function Arns(xs: seq<CwlGroup>): set<string> {
    set g | g in xs :: g.arn
  }

  /** `Default for CwlGroupStore`. */
  function Default(): CwlGroupStore {
    CwlGroupStore(S.Empty())
  }

  /** `CwlGroupStore::clear`. */
  function Clear(gs: CwlGroupStore): CwlGroupStore {
    CwlGroupStore(S.Clear(gs.groups))
  }

  /** `CwlGroupStore::insert`. */
  function Insert(gs: CwlGroupStore, g: CwlGroup): CwlGroupStore {
    CwlGroupStore(S.Insert(gs.groups, GroupOrder(), g))
  }

  /** `CwlGroupStore::extend`. */
  function Extend(gs: CwlGroupStore, xs: seq<CwlGroup>): CwlGroupStore {
    CwlGroupStore(S.Extend(gs.groups, GroupOrder(), xs))
  }

  /** `Length for CwlGroupStore`. */
  function Len(gs: CwlGroupStore): nat {
    S.Len(gs.groups)
  }

  function Items(gs: CwlGroupStore): seq<CwlGroup> {
    S.Iter(gs.groups)
  }

  lemma ArnsAreKeys(xs: seq<CwlGroup>)
    ensures Arns(xs) == S.Keys(xs, GroupOrder())
  {
  }

  /** Inserting a group whose ARN is already held changes nothing; a new ARN adds exactly that group. */
  lemma InsertDedupsByArn(gs: CwlGroupStore, g: CwlGroup)
    requires Valid(gs)
    ensures Valid(Insert(gs, g))
    ensures (exists h :: h in Items(gs) && h.arn == g.arn) ==> Insert(gs, g) == gs
    ensures (forall h :: h in Items(gs) ==> h.arn != g.arn) ==>
              multiset(Items(Insert(gs, g))) == multiset(Items(gs)) + multiset{g}
    ensures Arns(Items(Insert(gs, g))) == Arns(Items(gs)) + {g.arn}
  {
    GroupOrderLawful();
    S.InsertSetSemantics(gs.groups, GroupOrder(), g);
    ArnsAreKeys(Items(gs));
    ArnsAreKeys(Items(Insert(gs, g)));
  }

  /** After `clear` then `extend(xs)` the store holds exactly the groups of `xs`, one per ARN (the first one
      met), and `len` is the number of distinct ARNs. */
  lemma ClearThenExtend(gs: CwlGroupStore, xs: seq<CwlGroup>)
    ensures Valid(Extend(Clear(gs), xs))
    ensures Arns(Items(Extend(Clear(gs), xs))) == Arns(xs)
    ensures forall g :: g in Items(Extend(Clear(gs), xs)) ==> g in xs
    ensures forall i :: 0 <= i < |xs| && (forall j :: 0 <= j < i ==> xs[j].arn != xs[i].arn) ==>
              xs[i] in Items(Extend(Clear(gs), xs))
    ensures Len(Extend(Clear(gs), xs)) == |Arns(xs)|
  {
    var o := GroupOrder();
    var e: seq<CwlGroup> := [];
    GroupOrderLawful();
    assert S.Keys(e, o) == {};
    S.ExtendIsUnion(e, o, xs);
    var r := Items(Extend(Clear(gs), xs));
    ArnsAreKeys(r);
    ArnsAreKeys(xs);
    S.LenIsKeyCount(r, o);
    forall i | 0 <= i < |xs| && (forall j :: 0 <= j < i ==> xs[j].arn != xs[i].arn) ensures xs[i] in r {
      assert S.FirstOfKey(xs, o, i);
    }
  }

  /** The name view: by group name, ties broken by ARN. */
  function ByName(): S.View<CwlGroup, string> {
    S.View((g: CwlGroup) => g.groupName, StrLt)
  }

  /** The creation-time view: by creation instant, ties broken by ARN. */
  function ByCreationTime(): S.View<CwlGroup, int> {
    S.View((g: CwlGroup) => g.creationTime.millis, IntLt)
  }

  /** The size view: by stored byte count, ties broken by ARN. */
  function BySize(): S.View<CwlGroup, int> {
    S.View((g: CwlGroup) => g.stored.inBytes as int, IntLt)
  }

  /** `order_by_name_asc`. */
  function OrderByNameAsc(gs: CwlGroupStore): seq<CwlGroup> {
    S.OrderByAsc(gs.groups, GroupOrder(), ByName())
  }

  /** `order_by_creation_time_asc`. */
  function OrderByCreationTimeAsc(gs: CwlGroupStore): seq<CwlGroup> {
    S.OrderByAsc(gs.groups, GroupOrder(), ByCreationTime())
  }

  /** `order_by_creation_time_desc`. */
  function OrderByCreationTimeDesc(gs: CwlGroupStore): seq<CwlGroup> {
    S.OrderByDesc(gs.groups, GroupOrder(), ByCreationTime())
  }

  /** `order_by_size_asc`. */
  function OrderBySizeAsc(gs: CwlGroupStore): seq<CwlGroup> {
    S.OrderByAsc(gs.groups, GroupOrder(), BySize())
  }

  /** `order_by_size_desc`. */
  function OrderBySizeDesc(gs: CwlGroupStore): seq<CwlGroup> {
    S.OrderByDesc(gs.groups, GroupOrder(), BySize())
  }

  /** The name view holds every group once, ordered by name and then by ARN. */
  lemma OrderByNameAscSorted(gs: CwlGroupStore)
    requires Valid(gs)
    ensures multiset(OrderByNameAsc(gs)) == multiset(Items(gs))
    ensures var v := OrderByNameAsc(gs);
            forall i, j :: 0 <= i < j < |v| ==>
              StrLt(v[i].groupName, v[j].groupName) || (v[i].groupName == v[j].groupName && StrLt(v[i].arn, v[j].arn))
  {
    GroupOrderLawful();
    StrLtStrictTotal();
    S.OrderByAscIsSortedPermutation(gs.groups, GroupOrder(), ByName());
  }

  /** The creation-time views hold every group once, ascending by creation time then ARN, and the
      descending view is the ascending one reversed. */
  lemma OrderByCreationTimeSorted(gs: CwlGroupStore)
    requires Valid(gs)
    ensures multiset(OrderByCreationTimeAsc(gs)) == multiset(Items(gs))
    ensures var v := OrderByCreationTimeAsc(gs);
            forall i, j :: 0 <= i < j < |v| ==>
              v[i].creationTime.millis < v[j].creationTime.millis
              || (v[i].creationTime == v[j].creationTime && StrLt(v[i].arn, v[j].arn))
    ensures OrderByCreationTimeDesc(gs) == S.Reverse(OrderByCreationTimeAsc(gs))
  {
    GroupOrderLawful();
    IntLtStrictTotal();
    S.OrderByAscIsSortedPermutation(gs.groups, GroupOrder(), ByCreationTime());
    S.OrderByDescIsReversedAsc(gs.groups, GroupOrder(), ByCreationTime());
  }

  /** The size views hold every group once, ascending by stored bytes then ARN, and the descending view is
      the ascending one reversed. */
  lemma OrderBySizeSorted(gs: CwlGroupStore)
    requires Valid(gs)
    ensures multiset(OrderBySizeAsc(gs)) == multiset(Items(gs))
    ensures var v := OrderBySizeAsc(gs);
            forall i, j :: 0 <= i < j < |v| ==>
              v[i].stored.inBytes < v[j].stored.inBytes
              || (v[i].stored == v[j].stored && StrLt(v[i].arn, v[j].arn))
    ensures multiset(OrderBySizeDesc(gs)) == multiset(Items(gs))
    ensures OrderBySizeDesc(gs) == S.Reverse(OrderBySizeAsc(gs))
  {
    GroupOrderLawful();
    IntLtStrictTotal();
    S.OrderByAscIsSortedPermutation(gs.groups, GroupOrder(), BySize());
    S.OrderByDescIsReversedAsc(gs.groups, GroupOrder(), BySize());
  }
}
