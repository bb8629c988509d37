/** app/handler.rs, app/shell/handler.rs and app/header/handler.rs: keys and actions as pure reducers. A
    reducer returns the next application, the actions it sends on the channel (in order), the fetch tasks it
    spawns, and the error it returns, if any; changes made before an error are kept, as with the source's
    in-place updates. */
module Handlers {
  import opened Wrappers
  import opened AppModel
  import K = Key
  import Text
  import Query
  import Search
  import Preset
  import Profile
  import GroupModel
  import GroupStore
  import GroupCursor
  import Paging
  import AppData
  import ShellState
  import AppState
  import Actions
  import Debug

  /** A spawned task: fetch the first page of groups with a copy of the new cursor. */
  datatype Task = FetchGroups(cursor: GroupCursor.CwlGroupCursor)

  datatype Reduction = Reduction(app: App, outbox: seq<Actions.Action>, tasks: seq<Task>, error: Option<AppError>)

  /** A reduction that only changes the application. */
  function Quiet(a: App): Reduction {
    Reduction(a, [], [], None)
  }

  // Header keys.

  /** `HeaderHandler::handle_key`: editing keys change the search buffer; `Enter` sends the search and
      hands keys back to the shell. */
  function HeaderHandleKey(a: App, key: K.Key): (r: Reduction)
    requires Ready(a)
    ensures r.tasks == [] && r.error.None?
    ensures AppData.Valid(r.app.data)
    ensures r.app.shell == a.shell && r.app.shared == a.shared && r.app.config == a.config
  {
    var search := a.data.search;
    match key
    case Char(c) => Quiet(a.(data := a.data.(search := Search.AppendChar(search, c))))
    case BackSpace => Quiet(a.(data := a.data.(search := Search.DeleteChar(search))))
    case Enter => HeaderOnEnter(a)
    case Left => Quiet(a.(data := a.data.(search := Search.MovePosition(search, -1))))
    case Right => Quiet(a.(data := a.data.(search := Search.MovePosition(search, 1))))
    case _ => Quiet(a)
  }

  /** The header's `on_enter`. */
  function HeaderOnEnter(a: App): Reduction {
    Reduction(a.(focus := Shell), [Actions.Search(Search.QueryText(a.data.search))], [], None)
  }

  /** Every character is typed into the buffer, `q` included: the header has no quit key. `BackSpace`,
      `Left` and `Right` edit and move; `Enter` sends the current text and returns focus to the shell
      without clearing it; any other key changes nothing. */
  lemma HeaderHandleKeySpec(a: App, key: K.Key)
    requires Ready(a)
    ensures key.Char? ==> HeaderHandleKey(a, key) == Quiet(a.(data := a.data.(search := Search.AppendChar(a.data.search, key.c))))
    ensures key == K.Char('q') ==> HeaderHandleKey(a, key).app.shared == a.shared && HeaderHandleKey(a, key).app.focus == a.focus
    ensures key == K.BackSpace ==> HeaderHandleKey(a, key) == Quiet(a.(data := a.data.(search := Search.DeleteChar(a.data.search))))
    ensures key == K.Left ==> HeaderHandleKey(a, key).app.data.search == Search.MovePosition(a.data.search, -1)
    ensures key == K.Right ==> HeaderHandleKey(a, key).app.data.search == Search.MovePosition(a.data.search, 1)
    ensures key == K.Enter ==>
              HeaderHandleKey(a, key) == Reduction(a.(focus := Shell), [Actions.Search(a.data.search.chars)], [], None)
    ensures !(key.Char? || key == K.BackSpace || key == K.Enter || key == K.Left || key == K.Right) ==>
              HeaderHandleKey(a, key) == Quiet(a)
  {
  }

  // Shell keys.

  /** `ShellHandler::handle_key`. The quit key is tested before every other arm. */
  function ShellHandleKey(a: App, key: K.Key): (r: Reduction)
    requires Ready(a)
    ensures r.tasks == [] && r.error.None?
    ensures Ready(r.app)
  {
    if key == a.config.quitKey then Quiet(a.(shared := AppState.StopRunning(a.shared)))
    else if key == K.Up || key == K.Char('k') then Quiet(a.(shell := ShellState.SelectPrevious(a.shell, a.data)))
    else if key == K.Down || key == K.Char('j') then Quiet(a.(shell := ShellState.SelectNext(a.shell, a.data)))
    else if key == K.Enter then ShellOnEnter(a)
    else if key == K.Esc then Quiet(a.(shell := ShellState.ClearFocus(a.shell)))
    else if key == K.Char('/') then Quiet(a.(focus := Header))
    else Quiet(a)
  }

  /** The shell's `on_enter`: unfocused, it focuses the selected pane; focused, it executes the selected item
      and sends the action that yields, if any. */
  function ShellOnEnter(a: App): (r: Reduction)
    requires Ready(a)
    ensures r.tasks == [] && r.error.None? && |r.outbox| <= 1
    ensures Ready(r.app)
  {
    if ShellState.HasFocus(a.shell) then
      var (st, action) := ShellState.ExecuteItem(a.shell, a.data);
      ShellState.TransitionsKeepFocusInv(a.shell, a.data);
      var a' := a.(shell := st);
      match action
      case Some(act) => Reduction(a', [act], [], None)
      case None => Quiet(a')
    else
      Quiet(a.(shell := ShellState.SetFocus(a.shell)))
  }

  /** The quit key only stops the application, whatever else the key would mean; `Up`/`k` and `Down`/`j`
      step backwards and forwards, `Esc` drops focus and `/` hands keys to the header. */
  lemma ShellHandleKeySpec(a: App, key: K.Key)
    requires Ready(a)
    ensures key == a.config.quitKey ==>
              ShellHandleKey(a, key) == Quiet(a.(shared := a.shared.(running := false)))
    ensures key != a.config.quitKey && (key == K.Up || key == K.Char('k')) ==>
              ShellHandleKey(a, key) == Quiet(a.(shell := ShellState.SelectPrevious(a.shell, a.data)))
    ensures key != a.config.quitKey && (key == K.Down || key == K.Char('j')) ==>
              ShellHandleKey(a, key) == Quiet(a.(shell := ShellState.SelectNext(a.shell, a.data)))
    ensures key != a.config.quitKey && key == K.Esc ==>
              ShellHandleKey(a, key) == Quiet(a.(shell := a.shell.(focus := false)))
    ensures key != a.config.quitKey && key == K.Char('/') ==> ShellHandleKey(a, key) == Quiet(a.(focus := Header))
    ensures key != a.config.quitKey &&
            !(key in {K.Up, K.Down, K.Enter, K.Esc, K.Char('k'), K.Char('j'), K.Char('/')}) ==>
              ShellHandleKey(a, key) == Quiet(a)
  {
    var r := ShellHandleKey(a, key);
    if key == a.config.quitKey {
      assert AppState.StopRunning(a.shared) == a.shared.(running := false);
    } else if key == K.Up || key == K.Char('k') {
      assert r == Quiet(a.(shell := ShellState.SelectPrevious(a.shell, a.data)));
    } else if key == K.Down || key == K.Char('j') {
      assert r == Quiet(a.(shell := ShellState.SelectNext(a.shell, a.data)));
    } else if key == K.Enter {
    } else if key == K.Esc {
      assert r == Quiet(a.(shell := ShellState.ClearFocus(a.shell)));
    } else if key == K.Char('/') {
    } else {
      assert r == Quiet(a);
    }
  }

  /** With the default configuration, `q` in the shell stops the application and nothing else. */
  lemma DefaultQuitKey(a: App)
    requires Ready(a) && a.config == DefaultConfig()
    ensures !AppState.IsRunning(ShellHandleKey(a, K.Char('q')).app.shared)
    ensures ShellHandleKey(a, K.Char('q')).app == a.(shared := a.shared.(running := false))
  {
  }

  /** `Enter` focuses an unfocused shell (when a pane is selected) and sends nothing; on a focused shell it
      sends exactly the action `execute_item` yields. */
  lemma ShellOnEnterSpec(a: App)
    requires Ready(a)
    ensures !a.shell.focus ==> ShellOnEnter(a) == Quiet(a.(shell := ShellState.SetFocus(a.shell)))
    ensures a.shell.focus ==>
              var (st, action) := ShellState.ExecuteItem(a.shell, a.data);
              && ShellOnEnter(a).app == a.(shell := st)
              && ShellOnEnter(a).outbox == (if action.Some? then [action.value] else [])
  {
  }

  // Shell actions.

  /** The `{:?}` text of a string, without escapes. */
  function Quoted(s: string): string {
    "\"" + s + "\""
  }

  /** The `{:?}` text of a preset choice. */
  function PresetDebug(p: Option<Preset.Preset>): string {
    match p
    case None => "None"
    case Some(pr) =>
      var prefix := match pr.groupNamePrefix case None => "None" case Some(g) => "Some(" + Quoted(g) + ")";
      "Some(Preset { name: PresetName(" + Quoted(pr.name.text) + "), group_name_prefix: " + prefix + " })"
  }

  /** The log line `on_request_log_groups` writes. */
  function RequestLogMessage(profile: Profile.ProfileName, preset: Option<Preset.Preset>): string {
    "create new cursor with profile:ProfileName(" + Quoted(profile.text) + "), preset:" + PresetDebug(preset)
  }

  /** The log line `on_receive_log_groups` writes. */
  function ReceiveLogMessage(groups: seq<GroupModel.CwlGroup>): string {
    "receive " + Text.NatToString(|groups|) + " log groups"
  }

  const ANONYMOUS: string := "anonymous"

  /** `on_query`: a search filters the selected presets or profiles pane; on the groups pane it requests
      the groups whose names start with the search text, for the selected profile. */
  function OnQuery(a: App, q: Option<Query.Query>): Reduction {
    match a.shell.selection
    case None => Quiet(a)
    case Some(Presets) => Quiet(a.(data := a.data.(presets := Preset.SetQuery(a.data.presets, q))))
    case Some(Profiles) => Quiet(a.(data := a.data.(profiles := Profile.SetQuery(a.data.profiles, q))))
    case Some(Groups) =>
      match ShellState.SelectedProfile(a.shell, a.data)
      case None => Quiet(a)
      case Some(profile) =>
        var prefix := match q case None => None case Some(w) => Some(Query.Word(w));
        var preset := Preset.New(Preset.PresetName(ANONYMOUS), prefix);
        Reduction(a, [Actions.RequestLogGroups(profile, Some(preset))], [], None)
  }

  /** `on_request_log_groups`, given the client factory's outcome for the profile: the request is logged,
      a missing preset becomes the default one, and a cursor for the preset's request is stored and handed
      to a fetch task. */
  function OnRequestLogGroups(a: App, profile: Profile.ProfileName, preset: Option<Preset.Preset>,
                              now: Debug.Time, newClient: Profile.ProfileName -> Option<ClientFactoryError>): (r: Reduction)
    requires AppData.Valid(a.data)
    ensures AppData.Valid(r.app.data)
  {
    var logged := a.(data := AppData.DebugLog(a.data, now, RequestLogMessage(profile, preset)));
    var p := match preset case None => Preset.Default() case Some(pr) => pr;
    match newClient(profile)
    case Some(e) => Reduction(logged, [], [], Some(ClientFactory(e)))
    case None =>
      var cursor := GroupCursor.New(Preset.ToRequest(p));
      Reduction(logged.(data := AppData.SetGroupsCursor(logged.data, cursor)), [], [FetchGroups(cursor)], None)
  }

  /** `on_receive_log_groups`: the group store's contents are replaced by the received groups. */
  function OnReceiveLogGroups(a: App, groups: seq<GroupModel.CwlGroup>, now: Debug.Time): (r: Reduction)
    requires AppData.Valid(a.data)
    ensures AppData.Valid(r.app.data)
  {
    var logged := AppData.DebugLog(a.data, now, ReceiveLogMessage(groups));
    GroupStore.ClearThenExtend(logged.groups, groups);
    Quiet(a.(data := logged.(groups := GroupStore.Extend(GroupStore.Clear(logged.groups), groups))))
  }

  /** `on_error`: the message is only logged. */
  function OnError(a: App, msg: string, now: Debug.Time): (r: Reduction)
    requires AppData.Valid(a.data)
    ensures AppData.Valid(r.app.data)
  {
    Quiet(a.(data := AppData.DebugLog(a.data, now, msg)))
  }

  /** `ShellHandler::handle_action`. */
  function ShellHandleAction(a: App, action: Actions.Action, now: Debug.Time,
                             newClient: Profile.ProfileName -> Option<ClientFactoryError>): (r: Reduction)
    requires AppData.Valid(a.data)
    ensures AppData.Valid(r.app.data)
    ensures r.app == a.(data := r.app.data)
  {
    match action
    case Search(s) => OnQuery(a, Query.QueryFrom(s))
    case RequestLogGroups(profile, preset) => OnRequestLogGroups(a, profile, preset, now, newClient)
    case ReceiveLogGroups(groups) => OnReceiveLogGroups(a, groups, now)
    case Error(msg) => OnError(a, msg, now)
  }

  /** A search acts on the selected pane only: it sets the presets' or the profiles' query (an empty search
      clears it), and on the groups pane sends a request with an `anonymous` preset whose prefix is the
      search text, provided a profile is selected. Nothing else changes. */
  lemma OnQuerySpec(a: App, s: string)
    ensures a.shell.selection.None? ==> OnQuery(a, Query.QueryFrom(s)) == Quiet(a)
    ensures a.shell.selection == Some(ShellState.Presets) ==>
              OnQuery(a, Query.QueryFrom(s)).app == a.(data := a.data.(presets := Preset.SetQuery(a.data.presets, Query.QueryFrom(s))))
              && OnQuery(a, Query.QueryFrom(s)).outbox == []
    ensures a.shell.selection == Some(ShellState.Profiles) ==>
              OnQuery(a, Query.QueryFrom(s)).app == a.(data := a.data.(profiles := Profile.SetQuery(a.data.profiles, Query.QueryFrom(s))))
              && OnQuery(a, Query.QueryFrom(s)).outbox == []
    ensures a.shell.selection == Some(ShellState.Groups) ==>
              && OnQuery(a, Query.QueryFrom(s)).app == a
              && (ShellState.SelectedProfile(a.shell, a.data).None? ==> OnQuery(a, Query.QueryFrom(s)).outbox == [])
              && (ShellState.SelectedProfile(a.shell, a.data).Some? ==>
                    OnQuery(a, Query.QueryFrom(s)).outbox ==
                    [Actions.RequestLogGroups(ShellState.SelectedProfile(a.shell, a.data).value,
                                              Some(Preset.Preset(Preset.PresetName("anonymous"), if s == [] then None else Some(s))))])
  {
  }

  /** A request logs first; when the client cannot be built the error is returned and no cursor or task is
      made; otherwise the stored cursor is a fresh cursor for the preset's request (the default request
      when no preset was given) and one fetch task is spawned with it. */
  lemma OnRequestLogGroupsSpec(a: App, profile: Profile.ProfileName, preset: Option<Preset.Preset>,
                               now: Debug.Time, newClient: Profile.ProfileName -> Option<ClientFactoryError>)
    requires AppData.Valid(a.data)
    ensures var r := OnRequestLogGroups(a, profile, preset, now, newClient);
            && r.outbox == []
            && r.app.data.debug == AppData.DebugLog(a.data, now, RequestLogMessage(profile, preset)).debug
            && r.app.shell == a.shell && r.app.focus == a.focus
            && (newClient(profile).Some? ==>
                  r.error == Some(ClientFactory(newClient(profile).value)) && r.tasks == []
                  && r.app.data.groupsCursor == a.data.groupsCursor)
            && (newClient(profile).None? ==>
                  var c := r.app.data.groupsCursor;
                  && r.error.None? && c.Some? && r.tasks == [FetchGroups(c.value)]
                  && c.value.hasNext && c.value.nextToken.None?
                  && c.value.request.query.logGroupNamePrefix == (if preset.None? then None else preset.value.groupNamePrefix)
                  && (preset.None? ==> c.value.request == GroupCursor.DefaultRequest()))
  {
    if preset.Some? {
      Preset.ToRequestSpec(preset.value);
    } else {
      Preset.ToRequestSpec(Preset.Default());
    }
  }

  /** Receiving groups replaces the store's contents wholesale: afterwards it holds exactly the received
      groups' ARNs, each kept group was received, and its size is the number of distinct ARNs. */
  lemma OnReceiveLogGroupsSpec(a: App, groups: seq<GroupModel.CwlGroup>, now: Debug.Time)
    requires AppData.Valid(a.data)
    ensures var r := OnReceiveLogGroups(a, groups, now);
            && r.outbox == [] && r.tasks == [] && r.error.None?
            && GroupStore.Arns(GroupStore.Items(r.app.data.groups)) == GroupStore.Arns(groups)
            && (forall g :: g in GroupStore.Items(r.app.data.groups) ==> g in groups)
            && GroupStore.Len(r.app.data.groups) == |GroupStore.Arns(groups)|
            && r.app.data.presets == a.data.presets && r.app.data.profiles == a.data.profiles
            && r.app.shell == a.shell
  {
    GroupStore.ClearThenExtend(a.data.groups, groups);
  }

  /** An error message is logged and nothing else changes. */
  lemma OnErrorSpec(a: App, msg: string, now: Debug.Time)
    requires AppData.Valid(a.data)
    ensures OnError(a, msg, now).app == a.(data := a.data.(debug := OnError(a, msg, now).app.data.debug))
    ensures a.data.debug.Some? ==> OnError(a, msg, now).app.data.debug == Some(Debug.AppendLog(a.data.debug.value, now, msg))
    ensures OnError(a, msg, now).outbox == [] && OnError(a, msg, now).tasks == []
  {
  }

  // The spawned fetch task.

  /** The spawned fetch task: one `next` on the cursor, with the service call as `remote`, turned into the
      action it sends back. */
  function FetchTaskAction(t: Task, remote: GroupCursor.DescribeLogGroupsRequest -> Paging.Reply<GroupModel.LogGroup>)
    : Actions.Action
  {
    match GroupCursor.Next(t.cursor, remote).result
    case Ok(page) => Actions.ReceiveLogGroups(page.GetOr([]))
    case Err(e) => Actions.Error(GroupCursor.ErrorText(e))
  }

  /** A fresh cursor's task sends the first request without a token. A page becomes `ReceiveLogGroups` of
      its groups, a transport failure an `Error` naming the cause, and a malformed page an `Error` saying
      so. */
  lemma FetchTaskActionSpec(t: Task, remote: GroupCursor.DescribeLogGroupsRequest -> Paging.Reply<GroupModel.LogGroup>)
    requires t.cursor.hasNext
    ensures var request := t.cursor.request.(nextToken := t.cursor.nextToken);
            match remote(request)
            case Failed(cause) => FetchTaskAction(t, remote) == Actions.Error("rusoto error. cause:" + cause)
            case Answered(res) =>
              match Paging.ParseAll(res.items, GroupModel.TryFrom)
              case Ok(page) => FetchTaskAction(t, remote) == Actions.ReceiveLogGroups(page)
              case Err(_) => FetchTaskAction(t, remote) == Actions.Error("parse error")
  {
  }

  /** An exhausted cursor's task sends nothing and reports an empty list. */
  lemma FetchTaskExhausted(t: Task, remote: GroupCursor.DescribeLogGroupsRequest -> Paging.Reply<GroupModel.LogGroup>)
    requires !t.cursor.hasNext
    ensures FetchTaskAction(t, remote) == Actions.ReceiveLogGroups([])
  {
  }

  // Routing by focus.

  /** `handle_key_input`: the key is recorded first, then routed by focus; a session view ignores keys. */
  function HandleKeyInput(a: App, key: K.Key): (r: Reduction)
    requires Ready(a)
    ensures r.tasks == [] && r.error.None?
    ensures Steady(r.app)
  {
    var recorded := a.(data := AppData.DebugKey(a.data, key));
    match a.focus
    case Shell => ShellHandleKey(recorded, key)
    case Header => HeaderHandleKey(recorded, key)
    case SessionFocus(_) => Quiet(recorded)
  }

  /** `handle_action`: actions reach the shell only while it has focus; otherwise they are dropped without
      an error. */
  function HandleAction(a: App, action: Actions.Action, now: Debug.Time,
                        newClient: Profile.ProfileName -> Option<ClientFactoryError>): (r: Reduction)
    requires AppData.Valid(a.data)
    ensures AppData.Valid(r.app.data)
    ensures r.app == a.(data := r.app.data)
  {
    match a.focus
    case Shell => ShellHandleAction(a, action, now, newClient)
    case Header => Quiet(a)
    case SessionFocus(_) => Quiet(a)
  }

  /** Every key is recorded in the debug pane before routing, under any focus; then the shell or the header
      handles it, and under a session view nothing else happens. */
  lemma HandleKeyInputSpec(a: App, key: K.Key)
    requires Ready(a)
    ensures var r := HandleKeyInput(a, key);
            var recorded := a.(data := AppData.DebugKey(a.data, key));
            && (a.focus == Shell ==> r == ShellHandleKey(recorded, key))
            && (a.focus == Header ==> r == HeaderHandleKey(recorded, key))
            && (a.focus.SessionFocus? ==> r == Quiet(recorded))
            && (a.data.debug.Some? ==> r.app.data.debug == Some(Debug.AppendKey(a.data.debug.value, key)))
  {
    var recorded := a.(data := AppData.DebugKey(a.data, key));
    match a.focus
    case Shell => ShellKeyKeepsData(recorded, key);
    case Header => HeaderKeyKeepsDebug(recorded, key);
    case SessionFocus(_) =>
  }

  /** The shell's key handling never touches the application data. */
  lemma ShellKeyKeepsData(a: App, key: K.Key)
    requires Ready(a)
    ensures ShellHandleKey(a, key).app.data == a.data
  {
    if key != a.config.quitKey && !(key == K.Up || key == K.Char('k')) && !(key == K.Down || key == K.Char('j')) && key == K.Enter {
      assert ShellHandleKey(a, key) == ShellOnEnter(a);
    }
  }

  /** The header's key handling edits only the search buffer and leaves the debug pane alone. */
  lemma HeaderKeyKeepsDebug(a: App, key: K.Key)
    requires Ready(a)
    ensures HeaderHandleKey(a, key).app.data.debug == a.data.debug
  {
  }

  /** The handlers keep the application's invariants, so from a ready application every key and every
      action leads to one that is ready again as long as the lengths and the search buffer stay within the
      `i32` bounds; with `StartupReady` this covers every run of the main loop. */
  lemma StepsKeepReady(a: App, key: K.Key, action: Actions.Action, now: Debug.Time,
                       newClient: Profile.ProfileName -> Option<ClientFactoryError>)
    requires Ready(a)
    ensures var k := HandleKeyInput(a, key).app; Steady(k) && (Ready(k) <==> Fits(k))
    ensures var b := HandleAction(a, action, now, newClient).app; Steady(b) && (Ready(b) <==> Fits(b))
  {
    var b := HandleAction(a, action, now, newClient).app;
    assert b.shell == a.shell;
  }

  /** Outside the shell, actions change nothing and never fail. */
  lemma HandleActionDropped(a: App, action: Actions.Action, now: Debug.Time,
                            newClient: Profile.ProfileName -> Option<ClientFactoryError>)
    requires AppData.Valid(a.data) && a.focus != Shell
    ensures HandleAction(a, action, now, newClient) == Quiet(a)
  {
  }
}
