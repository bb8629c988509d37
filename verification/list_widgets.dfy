/** ui/widget/presets.rs and ui/widget/profiles.rs: which preset or profile a list selection denotes, and
    the list a store is shown as. */
module ListWidgets {
  import opened Wrappers
  import opened Query
  import opened Text
  import R = Repository
  import Preset
  import Profile

  /** `iter().skip(i).next()`: the `i`-th item, if there is one. */
  function Nth<T>(xs: seq<T>, i: nat): Option<T>
    decreases |xs|
  {
    if |xs| == 0 then None
    else if i == 0 then Some(xs[0])
    else Nth(xs[1..], i - 1)
  }

  /** Skipping `i` items and taking the next is indexing when `i` is in range, and nothing past the end. */
  lemma {:induction false} NthIsIndex<T>(xs: seq<T>, i: nat)
    ensures i < |xs| ==> Nth(xs, i) == Some(xs[i])
    ensures i >= |xs| ==> Nth(xs, i) == None
    decreases |xs|
  {
    if |xs| > 0 && i > 0 {
      NthIsIndex(xs[1..], i - 1);
    }
  }

  /** `PresetsState::selected_preset`. */
  function SelectedPreset(selected: Option<nat>, data: Preset.PresetStore): Option<Preset.Preset> {
    match selected
    case None => None
    case Some(i) => Nth(Preset.Iter(data), i)
  }

  /** `ProfilesState::selected_profile`. */
  function SelectedProfile(selected: Option<nat>, data: Profile.ProfileStore): Option<Profile.ProfileName> {
    match selected
    case None => None
    case Some(i) => Nth(Profile.Iter(data), i)
  }

  /** A selection denotes the `i`-th preset of the filtered view, nothing when it is past the filtered count
      or absent; the preset it denotes always matches the current query. */
  lemma SelectedPresetSpec(selected: Option<nat>, data: Preset.PresetStore)
    ensures selected.None? ==> SelectedPreset(selected, data).None?
    ensures selected.Some? && selected.value < Preset.Len(data) ==>
              SelectedPreset(selected, data) == Some(Preset.Iter(data)[selected.value])
    ensures selected.Some? && selected.value >= Preset.Len(data) ==> SelectedPreset(selected, data).None?
    ensures SelectedPreset(selected, data).Some? ==>
              var p := SelectedPreset(selected, data).value;
              p in R.Items(data.entries.items) && Preset.PresetMatches(p, data.query)
  {
    if selected.Some? {
      NthIsIndex(Preset.Iter(data), selected.value);
    }
    R.IterSpec(data, Preset.NameOf);
  }

  /** A selection denotes the `i`-th profile of the filtered view, nothing when it is past the filtered
      count or absent; the profile it denotes always matches the current query. */
  lemma SelectedProfileSpec(selected: Option<nat>, data: Profile.ProfileStore)
    ensures selected.None? ==> SelectedProfile(selected, data).None?
    ensures selected.Some? && selected.value < Profile.Len(data) ==>
              SelectedProfile(selected, data) == Some(Profile.Iter(data)[selected.value])
    ensures selected.Some? && selected.value >= Profile.Len(data) ==> SelectedProfile(selected, data).None?
    ensures SelectedProfile(selected, data).Some? ==>
              var p := SelectedProfile(selected, data).value;
              p in R.Items(data.entries.items) && Profile.ProfileMatches(p, data.query)
  {
    if selected.Some? {
      NthIsIndex(Profile.Iter(data), selected.value);
    }
    R.IterSpec(data, Profile.NameOf);
  }

  /** The same index can denote different presets under different queries: with presets `a` and `b`, the
      first item is `a` unfiltered and `b` under the query `b`. */
  lemma OnlyBContainsB()
    ensures !Contains("a", "b") && Contains("b", "b")
  {
    assert !Contains("", "b");
    assert "a"[1..] == "";
    assert "a"[..1][0] == 'a' && "b"[0] == 'b';
  }

  lemma SelectionFollowsQuery()
    ensures var a := Preset.New(Preset.PresetName("a"), None);
            var b := Preset.New(Preset.PresetName("b"), None);
            var s := Preset.Extend(Preset.DefaultStore(), [a, b]);
            && SelectedPreset(Some(0), s) == Some(a)
            && SelectedPreset(Some(0), Preset.SetQuery(s, QueryFrom("b"))) == Some(b)
  {
    var a := Preset.New(Preset.PresetName("a"), None);
    var b := Preset.New(Preset.PresetName("b"), None);
    var d := Preset.DefaultStore();
    var s := Preset.Extend(d, [a, b]);
    Preset.DefaultStoreSpec();
    Preset.ExtendAppendsInOrder(d, [a, b]);
    assert R.Items(s.entries.items) == [a, b];
    R.IterSpec(s, Preset.NameOf);
    var t := Preset.SetQuery(s, QueryFrom("b"));
    assert QueryFrom("b").Some? && Word(QueryFrom("b").value) == "b";
    OnlyBContainsB();
    assert R.Filter([b], Preset.NameOf, t.query) == [b];
    assert Preset.Iter(t) == R.Filter([a, b], Preset.NameOf, t.query);
    assert Preset.Iter(t) == [b];
  }

  /** A list as drawn: its item texts and its title. */
  datatype ListView = ListView(items: seq<string>, title: string)

  /** `presets_from`: the names of the filtered presets, in order, under the store's label. */
  function PresetsFrom(data: Preset.PresetStore): (v: ListView)
    ensures |v.items| == Preset.Len(data)
    ensures forall i :: 0 <= i < |v.items| ==> v.items[i] == Preset.Iter(data)[i].name.text
    ensures v.title == Preset.Label(data)
  {
    var ps := Preset.Iter(data);
    ListView(seq(|ps|, i requires 0 <= i < |ps| => ps[i].name.text), Preset.Label(data))
  }

  /** `profiles_from`: the filtered profile names, in order, under the store's label. */
  function ProfilesFrom(data: Profile.ProfileStore): (v: ListView)
    ensures |v.items| == Profile.Len(data)
    ensures forall i :: 0 <= i < |v.items| ==> v.items[i] == Profile.Iter(data)[i].text
    ensures v.title == Profile.Label(data)
  {
    var ps := Profile.Iter(data);
    ListView(seq(|ps|, i requires 0 <= i < |ps| => ps[i].text), Profile.Label(data))
  }

  /** The selected preset is the one shown at the selected row. */
  lemma SelectedPresetIsShown(i: nat, data: Preset.PresetStore)
    requires i < Preset.Len(data)
    ensures SelectedPreset(Some(i), data).Some?
    ensures PresetsFrom(data).items[i] == SelectedPreset(Some(i), data).value.name.text
  {
    SelectedPresetSpec(Some(i), data);
  }

  /** The selected profile is the one shown at the selected row. */
  lemma SelectedProfileIsShown(i: nat, data: Profile.ProfileStore)
    requires i < Profile.Len(data)
    ensures SelectedProfile(Some(i), data).Some?
    ensures ProfilesFrom(data).items[i] == SelectedProfile(Some(i), data).value.text
  {
    SelectedProfileSpec(Some(i), data);
  }
}
