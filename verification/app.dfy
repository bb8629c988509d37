/** app.rs and app/config.rs: the application record the handlers work on. */
module AppModel {
  import opened Ints
  import K = Key
  import AppData
  import ShellState
  import AppState
  import Session
  import Profile
  import Preset
  import Debug
  import R = Repository
  import opened Wrappers

  /** `AppFocus`: which part of the screen receives keys. */
  datatype AppFocus = Shell | Header | SessionFocus(id: Session.SessionId)

  /** `AppConfig`. */
  datatype AppConfig = AppConfig(quitKey: K.Key, tickRateMillis: nat)

  /** `AppConfig::default`: `q` quits, and the screen ticks every 100 ms. */
  function DefaultConfig(): (c: AppConfig)
    ensures c.quitKey == K.Char('q') && c.tickRateMillis == 100
  {
    AppConfig(K.Char('q'), 100)
  }

  /** The failure of building a service client for a profile; the client factory is not part of this
      model. */
  datatype ClientFactoryError = ClientFactoryError(message: string)

  /** `AppError`. */
  datatype AppError = ClientFactory(source: ClientFactoryError)

  /** `App`, less the theme, the action sender and the client factory: the configuration, the data, the
      shell's widget state, the focus and the shared running flag. */
  datatype App = App(
    config: AppConfig,
    data: AppData.AppData,
    shell: ShellState.ShellState,
    focus: AppFocus,
    shared: AppState.AppSharedState)

  /** `App::new`: the shell has focus, its widgets start unselected and the flag is not yet running. The new
      application is ready for the handlers exactly when its data is valid and within the `i32` bounds. */
  function New(config: AppConfig, data: AppData.AppData): (a: App)
    ensures a.focus == Shell && !ShellState.HasFocus(a.shell) && !AppState.IsRunning(a.shared)
    ensures a.config == config && a.data == data
    ensures Steady(a) <==> AppData.Valid(data)
    ensures Ready(a) <==> AppData.Valid(data) && ShellState.LengthsFit(data) && |data.search.chars| + 1 < I32_LIMIT
  {
    App(config, data, ShellState.Default(), Shell, AppState.New())
  }

  /** The invariants every handler keeps: valid data, focus tied to a selection, and cursors within the
      source's `i32` stepping. */
  predicate Steady(a: App) {
    && AppData.Valid(a.data)
    && ShellState.FocusInv(a.shell)
    && ShellState.CursorsFit(a.shell)
  }

  /** The lengths and the search buffer fit the source's `i32` arithmetic. */
  predicate Fits(a: App) {
    ShellState.LengthsFit(a.data) && |a.data.search.chars| + 1 < I32_LIMIT
  }

  /** What the handlers need of an application: the kept invariants, with the `i32` bounds on top. */
  predicate Ready(a: App) {
    Steady(a) && Fits(a)
  }

  /** The application `main` builds, over the data `Default` or `with_debug` gives, is ready for the first
      key or action, provided the profile file's names fit the `i32` stepping. */
  lemma StartupReady(config: AppConfig, profiles: Profile.ProfileStore, debug: Option<Debug.DebugData>)
    requires R.WellNumbered(profiles) && Profile.Len(profiles) < I32_LIMIT
    requires debug.Some? ==> Debug.Valid(debug.value)
    ensures Ready(New(config, AppData.WithProfiles(profiles, debug)))
    ensures !AppState.IsRunning(New(config, AppData.WithProfiles(profiles, debug)).shared)
  {
    var d := AppData.WithProfiles(profiles, debug);
    AppData.WithProfilesSpec(profiles, debug);
    assert Preset.Len(d.presets) == |AppData.BuiltinPresets()|;
  }
}
