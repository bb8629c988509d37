/** preset.rs: named log-group search presets and their labelled, filterable store. */
module Preset {
  import opened Wrappers
  import opened Ordering
  import opened Query
  import opened Text
  import Store
  import R = Repository
  import GC = GroupCursor
  import Paging

  /** `PresetName`. */
  datatype PresetName = PresetName(text: string)

  /** `Preset`: a name and the group-name prefix it searches for. */
  datatype Preset = Preset(name: PresetName, groupNamePrefix: Option<string>)

  type PresetStore = R.Repo<Preset>

  const DEFAULT_LABEL: string := "Presets"

  /** `Preset::new`. */
  function New(name: PresetName, groupNamePrefix: Option<string>): (p: Preset)
    ensures p.name == name && p.groupNamePrefix == groupNamePrefix
  {
    Preset(name, groupNamePrefix)
  }

  /** `Preset::default`. */
  function Default(): (p: Preset)
    ensures p.name.text == [] && p.groupNamePrefix.None?
  {
    Preset(PresetName(""), None)
  }

  /** `Ord for Preset`: presets compare by name only. */
  function PresetOrder(): Store.Order<Preset, string> {
    Store.Order((p: Preset) => p.name.text, StrLt)
  }

  predicate PresetLt(a: Preset, b: Preset) {
    StrLt(a.name.text, b.name.text)
  }

  /** The preset order is a strict total order on names; presets with the same name are equal under it
      whatever their prefixes, and otherwise exactly one is less than the other. */
  lemma PresetOrderSpec(a: Preset, b: Preset)
    ensures Store.Lawful(PresetOrder())
    ensures a.name == b.name ==> !PresetLt(a, b) && !PresetLt(b, a)
    ensures a.name != b.name ==> PresetLt(a, b) != PresetLt(b, a)
  {
    StrLtStrictTotal();
    StrLtIrreflexive(a.name.text);
    if a.name != b.name {
      StrLtTrichotomy(a.name.text, b.name.text);
      if PresetLt(a, b) && PresetLt(b, a) {
        StrLtTransitive(a.name.text, b.name.text, a.name.text);
      }
    }
  }

  /** `Into<DescribeLogGroupsRequest> for Preset`. */
  function ToRequest(p: Preset): GC.DescribeLogGroupsRequest {
    Paging.Request(GC.DescribeLogGroupsQuery(None, p.groupNamePrefix), None)
  }

  /** The request carries the preset's prefix, and every other field is the default request's. */
  lemma ToRequestSpec(p: Preset)
    ensures ToRequest(p).query.logGroupNamePrefix == p.groupNamePrefix
    ensures ToRequest(p) == GC.DefaultRequest().(query := GC.DefaultRequest().query.(logGroupNamePrefix := p.groupNamePrefix))
    ensures ToRequest(Default()) == GC.DefaultRequest()
  {
  }

  function NameOf(p: Preset): string {
    p.name.text
  }

  /** `PresetStore::default`. */
  function DefaultStore(): PresetStore {
    R.Default(DEFAULT_LABEL)
  }

  /** `PresetStore::insert`. */
  function Insert(s: PresetStore, p: Preset): PresetStore {
    R.Insert(s, NameOf, p)
  }

  /** `PresetStore::extend`. */
  function Extend(s: PresetStore, ps: seq<Preset>): PresetStore {
    R.Extend(s, NameOf, ps)
  }

  /** `PresetStore::set_query`. */
  function SetQuery(s: PresetStore, q: Option<Query>): PresetStore {
    R.SetQuery(s, DEFAULT_LABEL, q)
  }

  /** `PresetStore::label`. */
  function Label(s: PresetStore): string {
    R.Label(s)
  }

  /** `PresetStore::iter`. */
  function Iter(s: PresetStore): seq<Preset> {
    R.Iter(s, NameOf)
  }

  /** `Length for PresetStore`. */
  function Len(s: PresetStore): nat {
    R.Len(s, NameOf)
  }

  /** `preset_matches`. */
  predicate PresetMatches(p: Preset, q: Option<Query>) {
    R.Matches(p.name.text, q)
  }

  /** The default store is empty, unfiltered and labelled `Presets`. */
  lemma DefaultStoreSpec()
    ensures R.WellNumbered(DefaultStore())
    ensures Iter(DefaultStore()) == [] && Len(DefaultStore()) == 0
    ensures Label(DefaultStore()) == "Presets"
  {
  }

  /** `insert` appends the preset under the next sequence number, even when one of the same name is already
      stored, so two same-named presets are both kept. */
  lemma InsertKeepsSameName(s: PresetStore, p: Preset)
    requires R.WellNumbered(s)
    ensures R.WellNumbered(Insert(s, p))
    ensures Insert(s, p).entries.items == s.entries.items + [(|s.entries.items| + 1, p)]
    ensures s.query.None? ==> Iter(Insert(s, p)) == Iter(s) + [p]
  {
    R.InsertAppends(s, NameOf, p);
    R.IterSpec(s, NameOf);
    R.IterSpec(Insert(s, p), NameOf);
  }

  /** `extend` appends the presets in their order under consecutive sequence numbers from `len + 1`. */
  lemma ExtendAppendsInOrder(s: PresetStore, ps: seq<Preset>)
    requires R.WellNumbered(s)
    ensures R.WellNumbered(Extend(s, ps))
    ensures Extend(s, ps).entries.items == s.entries.items + R.Enumerate(ps, |s.entries.items| + 1)
    ensures Iter(Extend(s, ps)) == Iter(s) + R.Filter(ps, NameOf, s.query)
  {
    R.ExtendAppends(s, NameOf, ps);
    R.FilterAppend(R.Items(s.entries.items), ps, NameOf, s.query);
  }

  /** Under a query `iter` yields exactly the presets whose name contains the word, and the label shows the
      word; without one it yields every preset under the plain label. */
  lemma SetQueryFilters(s: PresetStore, q: Query)
    ensures forall p :: p in Iter(SetQuery(s, Some(q))) <==> p in R.Items(s.entries.items) && Contains(p.name.text, q.word)
    ensures Len(SetQuery(s, Some(q))) <= |s.entries.items|
    ensures Label(SetQuery(s, Some(q))) == "Presets (\"" + q.word + "\")"
    ensures Label(SetQuery(s, None)) == "Presets"
    ensures Iter(SetQuery(s, None)) == R.Items(s.entries.items)
  {
    R.IterSpec(SetQuery(s, Some(q)), NameOf);
    R.IterSpec(SetQuery(s, None), NameOf);
  }
}
