/** app/shell/state.rs: which of the shell's three panes is selected, whether it has focus, and each
    pane's item cursor. */
module ShellState {
  import opened Wrappers
  import opened Ints
  import Stateful
  import ListWidgets
  import Preset
  import Profile
  import GroupStore
  import AppData
  import Actions

  /** `ShellSelection`. */
  datatype ShellSelection = Presets | Profiles | Groups

  /** `WidgetOrder`: the panes before and after one. */
  datatype WidgetOrder = WidgetOrder(prev: ShellSelection, next: ShellSelection)

  /** `SHELL_WIDGET_ORDER`. */
  function ShellWidgetOrder(s: ShellSelection): WidgetOrder {
    match s
    case Presets => WidgetOrder(Groups, Profiles)
    case Profiles => WidgetOrder(Presets, Groups)
    case Groups => WidgetOrder(Profiles, Presets)
  }

  /** `WidgetOrder::default`, used when nothing is selected. */
  function DefaultWidgetOrder(): WidgetOrder {
    WidgetOrder(Groups, Presets)
  }

  /** The adjacency is one cycle through the three panes: `prev` undoes `next`, and three steps either way
      come back to the start. */
  lemma WidgetOrderCycle(s: ShellSelection)
    ensures ShellWidgetOrder(ShellWidgetOrder(s).next).prev == s
    ensures ShellWidgetOrder(ShellWidgetOrder(s).prev).next == s
    ensures ShellWidgetOrder(ShellWidgetOrder(ShellWidgetOrder(s).next).next).next == s
    ensures ShellWidgetOrder(s).next != s && ShellWidgetOrder(ShellWidgetOrder(s).next).next != s
  {
  }

  /** `ShellState`: the selected pane, the focus flag, the three item cursors and the unused query text. */
  datatype ShellState = ShellState(
    selection: Option<ShellSelection>,
    focus: bool,
    presets: Option<nat>,
    profiles: Option<nat>,
    groups: Option<nat>,
    query: string)

  /** `ShellState::default`: nothing selected or focused, which every handler accepts over data whose
      lengths fit; the first pane step enters at the presets pane. */
  function Default(): (st: ShellState)
    ensures !HasFocus(st) && FocusInv(st) && CursorsFit(st)
    ensures forall data :: Ready(st, data) <==> LengthsFit(data)
    ensures NextWidget(st).selection == Some(Presets) && PreviousWidget(st).selection == Some(Groups)
  {
    ShellState(None, false, None, None, None, "")
  }

  /** Focus is only ever held with a pane selected. */
  predicate FocusInv(st: ShellState) {
    st.focus ==> st.selection.Some?
  }

  /** The cursors fit the source's `i32` stepping. */
  predicate CursorsFit(st: ShellState) {
    && (st.presets.Some? ==> st.presets.value + 1 < I32_LIMIT)
    && (st.profiles.Some? ==> st.profiles.value + 1 < I32_LIMIT)
    && (st.groups.Some? ==> st.groups.value + 1 < I32_LIMIT)
  }

  /** The lengths the cursors step over fit in an `i32`. */
  predicate LengthsFit(data: AppData.AppData) {
    Preset.Len(data.presets) < I32_LIMIT && Profile.Len(data.profiles) < I32_LIMIT && GroupStore.Len(data.groups) < I32_LIMIT
  }

  predicate Ready(st: ShellState, data: AppData.AppData) {
    FocusInv(st) && CursorsFit(st) && LengthsFit(data)
  }

  /** `has_focus`. */
  predicate HasFocus(st: ShellState) {
    st.focus
  }

  /** `set_focus`: takes effect only with a pane selected, so focus stays tied to a selection; only the
      focus flag can change. */
  function SetFocus(st: ShellState): (r: ShellState)
    ensures HasFocus(r) <==> HasFocus(st) || st.selection.Some?
    ensures r == st.(focus := r.focus)
    ensures FocusInv(st) ==> FocusInv(r)
  {
    if st.selection.Some? then st.(focus := true) else st
  }

  /** `clear_focus`: afterwards nothing has focus, which always satisfies the focus invariant; only the
      focus flag changes. */
  function ClearFocus(st: ShellState): (r: ShellState)
    ensures !HasFocus(r) && FocusInv(r)
    ensures r == st.(focus := r.focus)
  {
    st.(focus := false)
  }

  /** Setting and clearing focus undo each other: with a pane selected, clearing after setting gives the
      cleared state and setting after clearing gives the focused one. */
  lemma FocusToggles(st: ShellState)
    ensures ClearFocus(SetFocus(st)) == ClearFocus(st)
    ensures st.selection.Some? ==> SetFocus(ClearFocus(st)) == SetFocus(st) && HasFocus(SetFocus(st))
    ensures st.selection.None? && FocusInv(st) ==> SetFocus(st) == st && !HasFocus(SetFocus(st))
  {
  }

  /** `widget_order`. */
  function WidgetOrderOf(st: ShellState): WidgetOrder {
    match st.selection
    case None => DefaultWidgetOrder()
    case Some(s) => ShellWidgetOrder(s)
  }

  /** `next_widget`. */
  function NextWidget(st: ShellState): ShellState {
    st.(selection := Some(WidgetOrderOf(st).next))
  }

  /** `previous_widget`. */
  function PreviousWidget(st: ShellState): ShellState {
    st.(selection := Some(WidgetOrderOf(st).prev))
  }

  /** From no selection, `next` enters at the presets pane and `previous` at the groups pane; otherwise
      they follow the widget order. */
  lemma WidgetStepsSpec(st: ShellState)
    ensures st.selection.None? ==> NextWidget(st).selection == Some(Presets) && PreviousWidget(st).selection == Some(Groups)
    ensures st.selection.Some? ==> NextWidget(st).selection == Some(ShellWidgetOrder(st.selection.value).next)
    ensures st.selection.Some? ==> PreviousWidget(st).selection == Some(ShellWidgetOrder(st.selection.value).prev)
    ensures PreviousWidget(NextWidget(st)).selection == (if st.selection.None? then Some(Groups) else st.selection)
  {
  }

  /** `next_item` / `previous_item`: the selected pane's cursor steps over that pane's filtered length. */
  function StepItem(st: ShellState, data: AppData.AppData, direction: int): ShellState
    requires CursorsFit(st) && LengthsFit(data)
    requires direction == 1 || direction == -1
  {
    match st.selection
    case Some(Presets) => st.(presets := Stateful.Select(st.presets, Preset.Len(data.presets), direction))
    case Some(Profiles) => st.(profiles := Stateful.Select(st.profiles, Profile.Len(data.profiles), direction))
    case Some(Groups) => st.(groups := Stateful.Select(st.groups, GroupStore.Len(data.groups), direction))
    case None => st
  }

  /** `select_next`: the item cursor when focused, the pane otherwise. */
  function SelectNext(st: ShellState, data: AppData.AppData): (r: ShellState)
    requires Ready(st, data)
    ensures Ready(r, data)
  {
    if st.focus then StepItem(st, data, 1) else NextWidget(st)
  }

  /** `select_previous`: the item cursor when focused, the pane otherwise. */
  function SelectPrevious(st: ShellState, data: AppData.AppData): (r: ShellState)
    requires Ready(st, data)
    ensures Ready(r, data)
  {
    if st.focus then StepItem(st, data, -1) else PreviousWidget(st)
  }

  /** Unfocused, a step changes only the selected pane. Focused, it leaves the pane alone and moves only
      that pane's item cursor, one step over the pane's filtered length. */
  lemma SelectNextSpec(st: ShellState, data: AppData.AppData)
    requires Ready(st, data)
    ensures !st.focus ==> SelectNext(st, data) == st.(selection := Some(WidgetOrderOf(st).next))
    ensures st.focus ==> SelectNext(st, data).selection == st.selection && SelectNext(st, data).focus
    ensures st.focus && st.selection == Some(Presets) ==>
              SelectNext(st, data) == st.(presets := Stateful.SelectNext(st.presets, Preset.Len(data.presets)))
    ensures st.focus && st.selection == Some(Profiles) ==>
              SelectNext(st, data) == st.(profiles := Stateful.SelectNext(st.profiles, Profile.Len(data.profiles)))
    ensures st.focus && st.selection == Some(Groups) ==>
              SelectNext(st, data) == st.(groups := Stateful.SelectNext(st.groups, GroupStore.Len(data.groups)))
  {
  }

  /** The mirror image of `SelectNextSpec` for `select_previous`. */
  lemma SelectPreviousSpec(st: ShellState, data: AppData.AppData)
    requires Ready(st, data)
    ensures !st.focus ==> SelectPrevious(st, data) == st.(selection := Some(WidgetOrderOf(st).prev))
    ensures st.focus ==> SelectPrevious(st, data).selection == st.selection && SelectPrevious(st, data).focus
    ensures st.focus && st.selection == Some(Presets) ==>
              SelectPrevious(st, data) == st.(presets := Stateful.SelectPrevious(st.presets, Preset.Len(data.presets)))
    ensures st.focus && st.selection == Some(Profiles) ==>
              SelectPrevious(st, data) == st.(profiles := Stateful.SelectPrevious(st.profiles, Profile.Len(data.profiles)))
    ensures st.focus && st.selection == Some(Groups) ==>
              SelectPrevious(st, data) == st.(groups := Stateful.SelectPrevious(st.groups, GroupStore.Len(data.groups)))
  {
  }

  /** `selected_profile`. */
  function SelectedProfile(st: ShellState, data: AppData.AppData): Option<Profile.ProfileName> {
    ListWidgets.SelectedProfile(st.profiles, data.profiles)
  }

  /** `selected_preset`. */
  function SelectedPreset(st: ShellState, data: AppData.AppData): Option<Preset.Preset> {
    ListWidgets.SelectedPreset(st.presets, data.presets)
  }

  /** `execute_item`: the next state and the action to send, if any. */
  function ExecuteItem(st: ShellState, data: AppData.AppData): (ShellState, Option<Actions.Action>) {
    match st.selection
    case Some(Presets) => LoadLogGroupsAction(st, data)
    case Some(Profiles) => LoadLogGroupsAction(st, data)
    case Some(Groups) => LoadLogStreamsAction(st, data)
    case None => (st, None)
  }

  /** `load_log_groups_action`. The source wraps the focus flag in `Some` before looking the profile up, so
      the flag never gates the lookup. */
  function LoadLogGroupsAction(st: ShellState, data: AppData.AppData): (ShellState, Option<Actions.Action>) {
    match Some(st.focus)
    case None => (st, None)
    case Some(_) =>
      match SelectedProfile(st, data)
      case None => (st, None)
      case Some(profile) =>
        var st' := st.(selection := Some(Groups));
        var preset := match Some(st'.focus) case None => None case Some(_) => SelectedPreset(st', data);
        (st', Some(Actions.RequestLogGroups(profile, preset)))
  }

  /** `load_log_streams_action`: streams are not loaded yet. */
  function LoadLogStreamsAction(st: ShellState, data: AppData.AppData): (ShellState, Option<Actions.Action>) {
    (st, None)
  }

  /** Executing does nothing with no pane or on the groups pane. On the presets or profiles pane it needs a
      selected profile: then the groups pane is selected and a request for that profile and the selected
      preset (if any) is sent; otherwise nothing changes. The focus flag does not matter. */
  lemma ExecuteItemSpec(st: ShellState, data: AppData.AppData)
    ensures st.selection.None? || st.selection == Some(Groups) ==> ExecuteItem(st, data) == (st, None)
    ensures (st.selection == Some(Presets) || st.selection == Some(Profiles)) && SelectedProfile(st, data).None? ==>
              ExecuteItem(st, data) == (st, None)
    ensures (st.selection == Some(Presets) || st.selection == Some(Profiles)) && SelectedProfile(st, data).Some? ==>
              ExecuteItem(st, data) ==
              (st.(selection := Some(Groups)),
               Some(Actions.RequestLogGroups(SelectedProfile(st, data).value, SelectedPreset(st, data))))
    ensures ExecuteItem(st, data).0 == st.(selection := ExecuteItem(st, data).0.selection)
    ensures ExecuteItem(st.(focus := !st.focus), data).1 == ExecuteItem(st, data).1
  {
  }

  /** Every transition keeps focus tied to a selection. */
  lemma TransitionsKeepFocusInv(st: ShellState, data: AppData.AppData)
    requires FocusInv(st)
    ensures FocusInv(SetFocus(st)) && FocusInv(ClearFocus(st))
    ensures FocusInv(NextWidget(st)) && FocusInv(PreviousWidget(st))
    ensures FocusInv(ExecuteItem(st, data).0)
  {
  }
}
