/** event/action.rs: the messages the handlers send one another through the action channel. */
module Actions {
  import opened Wrappers
  import Profile
  import Preset
  import GroupModel

  /** `Action`. */
  datatype Action =
    | Search(text: string)
    | RequestLogGroups(profile: Profile.ProfileName, preset: Option<Preset.Preset>)
    | ReceiveLogGroups(groups: seq<GroupModel.CwlGroup>)
    | Error(message: string)
}
