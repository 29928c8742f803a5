/** The application manager's decisions about the start-up task (launch
    at sign-in) and the program language. The start-up task's state is an
    input; enabling and disabling it are reported as actions. */
module AppManager {
  import opened Common
  import opened Models
  import opened Text
  import SettingsService

  /** StartupTaskState; `OtherState` stands for any value outside the five
      named ones. */
  datatype StartupTaskState = Disabled | DisabledByUser | Enabled | DisabledByPolicy | EnabledByPolicy | OtherState

  /** Autostart can be enabled unless policy or the user disabled it. */
  function CanEnableAutostart(state: StartupTaskState): (r: bool)
    ensures !r <==> state == DisabledByPolicy || state == DisabledByUser
  {
    !(state == DisabledByPolicy || state == DisabledByUser)
  }

  /** Startup is enabled iff the start-up task is enabled, by the user or by policy. */
  function IsStartupEnabled(state: StartupTaskState): (r: bool)
    ensures r ==> CanEnableAutostart(state)
    ensures !r <==> state == Disabled || state == DisabledByUser || state == DisabledByPolicy || state == OtherState
  {
    state == Enabled || state == EnabledByPolicy
  }

  /** A start-up task that is enabled is one that can be enabled; one that
      cannot be enabled is not enabled. */
  lemma EnabledTasksCanBeEnabled(state: StartupTaskState)
    ensures IsStartupEnabled(state) ==> CanEnableAutostart(state)
    ensures !CanEnableAutostart(state) ==> !IsStartupEnabled(state)
  {
  }

  /** What ToggleAutostart does. */
  datatype ToggleAction = RequestEnable | Disable | NoAction

  function ToggleAutostart(state: StartupTaskState): (a: ToggleAction)
    ensures a == RequestEnable <==> state == DisabledByPolicy || state == DisabledByUser || state == Disabled
    ensures a == Disable <==> IsStartupEnabled(state)
    ensures a == NoAction <==> state == OtherState
  {
    match state
    case DisabledByPolicy => RequestEnable
    case DisabledByUser => RequestEnable
    case Disabled => RequestEnable
    case EnabledByPolicy => Disable
    case Enabled => Disable
    case OtherState => NoAction
  }

  /** On every named state, toggling flips whether startup is enabled in
      intent: it asks to enable a task that is not enabled and disables one
      that is, even where policy forbids enabling. */
  lemma ToggleOpposesCurrentState(state: StartupTaskState)
    requires state != OtherState
    ensures ToggleAutostart(state) == (if IsStartupEnabled(state) then Disable else RequestEnable)
    ensures !CanEnableAutostart(state) ==> ToggleAutostart(state) == RequestEnable
  {
  }

  /** SetProgramLanguage: the argument, else the language of the settings
      options, else the first user-preferred language. */
  function SetProgramLanguage(langcode: Option<string>, settings: Settings, preferred: seq<string>): (r: Option<string>)
    ensures r == SettingsService.ProgramLanguage(langcode, settings.appLanguage, preferred)
    ensures r.None? <==> IsNullOrEmpty(langcode) && IsNullOrEmpty(settings.appLanguage) && preferred == []
  {
    SettingsService.ProgramLanguage(langcode, settings.appLanguage, preferred)
  }
}
