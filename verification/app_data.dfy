/** app/data.rs: everything the screens show, owned by the application. */
module AppData {
  import opened Wrappers
  import opened Ints
  import Preset
  import Profile
  import R = Repository
  import GroupStore
  import Search
  import Session
  import Debug
  import K = Key
  import GroupCursor

  /** `AppData`. */
  datatype AppData = AppData(
    presets: Preset.PresetStore,
    profiles: Profile.ProfileStore,
    groups: GroupStore.CwlGroupStore,
    search: Search.SearchData,
    sessions: Session.SessionSet,
    debug: Option<Debug.DebugData>,
    groupsCursor: Option<GroupCursor.CwlGroupCursor>)

  /** The invariants the parts keep. */
  predicate Valid(d: AppData) {
    && R.WellNumbered(d.presets)
    && R.WellNumbered(d.profiles)
    && GroupStore.Valid(d.groups)
    && Search.Valid(d.search)
    && Session.Valid(d.sessions)
    && (d.debug.Some? ==> Debug.Valid(d.debug.value))
  }

  /** `AppData::new`: no groups cursor yet; the data is valid exactly when every part it is given keeps its
      own invariant. */
  function New(presets: Preset.PresetStore, profiles: Profile.ProfileStore, groups: GroupStore.CwlGroupStore,
               search: Search.SearchData, sessions: Session.SessionSet, debug: Option<Debug.DebugData>): (d: AppData)
    ensures d.groupsCursor.None?
    ensures Valid(d) <==>
              && R.WellNumbered(presets) && R.WellNumbered(profiles) && GroupStore.Valid(groups)
              && Search.Valid(search) && Session.Valid(sessions) && (debug.Some? ==> Debug.Valid(debug.value))
  {
    AppData(presets, profiles, groups, search, sessions, debug, None)
  }

  function Named(name: string): Preset.Preset {
    Preset.New(Preset.PresetName(name), None)
  }

  /** The five presets `Default` and `with_debug` start with, in this order. */
  function BuiltinPresets(): seq<Preset.Preset> {
    [Named("project-prd"), Named("project-stg"), Named("project-dev"), Named("lambda"), Named("glue")]
  }

  /** The preset store `Default` and `with_debug` build, one `insert` at a time. */
  function DefaultPresets(): Preset.PresetStore {
    var s0 := Preset.DefaultStore();
    var s1 := Preset.Insert(s0, Named("project-prd"));
    var s2 := Preset.Insert(s1, Named("project-stg"));
    var s3 := Preset.Insert(s2, Named("project-dev"));
    var s4 := Preset.Insert(s3, Named("lambda"));
    Preset.Insert(s4, Named("glue"))
  }

  /** `AppData::with_debug` (with `debug`) and `Default` (without), given the profiles read from the shared
      file. */
  function WithProfiles(profiles: Profile.ProfileStore, debug: Option<Debug.DebugData>): (d: AppData)
    ensures d.groupsCursor.None? && d.profiles == profiles && d.debug == debug
  {
    New(DefaultPresets(), profiles, GroupStore.Default(), Search.Default(), Session.Default(), debug)
  }

  /** The start-up data lists the five built-in presets in insertion order, numbered 1 to 5, with no
      groups, an empty search buffer and no sessions. */
  lemma WithProfilesSpec(profiles: Profile.ProfileStore, debug: Option<Debug.DebugData>)
    requires R.WellNumbered(profiles) && (debug.Some? ==> Debug.Valid(debug.value))
    ensures Valid(WithProfiles(profiles, debug))
    ensures Preset.Iter(WithProfiles(profiles, debug).presets) == BuiltinPresets()
    ensures Preset.Label(WithProfiles(profiles, debug).presets) == "Presets"
    ensures GroupStore.Len(WithProfiles(profiles, debug).groups) == 0
    ensures WithProfiles(profiles, debug).search.chars == []
  {
    var s0 := Preset.DefaultStore();
    Preset.DefaultStoreSpec();
    assert R.Items(s0.entries.items) == [];
    var s1 := Preset.Insert(s0, Named("project-prd"));
    R.InsertAppends(s0, Preset.NameOf, Named("project-prd"));
    var s2 := Preset.Insert(s1, Named("project-stg"));
    R.InsertAppends(s1, Preset.NameOf, Named("project-stg"));
    var s3 := Preset.Insert(s2, Named("project-dev"));
    R.InsertAppends(s2, Preset.NameOf, Named("project-dev"));
    var s4 := Preset.Insert(s3, Named("lambda"));
    R.InsertAppends(s3, Preset.NameOf, Named("lambda"));
    var s5 := Preset.Insert(s4, Named("glue"));
    R.InsertAppends(s4, Preset.NameOf, Named("glue"));
    assert R.Items(s5.entries.items) == BuiltinPresets();
    R.IterSpec(s5, Preset.NameOf);
    GroupStore.ClearThenExtend(GroupStore.Default(), []);
    assert GroupStore.Extend(GroupStore.Clear(GroupStore.Default()), []) == GroupStore.Default();
  }

  /** `debug_key`: recorded only when the debug pane exists. */
  function DebugKey(d: AppData, key: K.Key): (r: AppData)
    requires Valid(d)
    ensures Valid(r)
    ensures r == d.(debug := r.debug)
    ensures d.debug.None? ==> r.debug.None?
    ensures d.debug.Some? ==> r.debug == Some(Debug.AppendKey(d.debug.value, key))
  {
    match d.debug
    case None => d
    case Some(dbg) => d.(debug := Some(Debug.AppendKey(dbg, key)))
  }

  /** `debug_log`, with the clock reading passed in: recorded only when the debug pane exists. */
  function DebugLog(d: AppData, now: Debug.Time, msg: string): (r: AppData)
    requires Valid(d)
    ensures Valid(r)
    ensures r == d.(debug := r.debug)
    ensures d.debug.None? ==> r.debug.None?
    ensures d.debug.Some? ==> r.debug == Some(Debug.AppendLog(d.debug.value, now, msg))
  {
    match d.debug
    case None => d
    case Some(dbg) => d.(debug := Some(Debug.AppendLog(dbg, now, msg)))
  }

  /** `set_groups_cursor`: the cursor is replaced and nothing else changes, so validity is unaffected. */
  function SetGroupsCursor(d: AppData, c: GroupCursor.CwlGroupCursor): (r: AppData)
    ensures r.groupsCursor == Some(c)
    ensures r == d.(groupsCursor := r.groupsCursor)
    ensures Valid(r) <==> Valid(d)
  {
    d.(groupsCursor := Some(c))
  }

  /** `create_session`. */
  function CreateSession(d: AppData, s: Session.Session): (r: AppData)
    requires Valid(d) && d.sessions.nextSessionId.id + 1 < U64_LIMIT
    ensures Valid(r)
    ensures r == d.(sessions := r.sessions)
    ensures r.sessions.sessions.Keys == d.sessions.sessions.Keys + {d.sessions.nextSessionId.id}
  {
    Session.InsertFresh(d.sessions, s);
    d.(sessions := Session.Insert(d.sessions, s))
  }
}
