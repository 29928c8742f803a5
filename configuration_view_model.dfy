/** The configuration view model: the editable copy of the settings, its
    dirty flag, the languages offered, whether the connection
    configuration is usable, and saving. A property setter assigns and
    marks the model dirty only when the value changes (the behaviour of
    the view-model base class, which is not part of this model). */
module ConfigurationViewModel {
  import opened Common
  import opened Text
  import opened Models
  import SS = SettingsService

  /** A language the user can pick: a display name and a culture code
      (null for the system language). */
  datatype Language = Language(name: string, code: Option<string>)

  /** InitializeAppLanguages. */
  function AppLanguages(): (r: seq<Language>)
    ensures |r| == 3
    ensures r[0] == Language("System", None)
    ensures r[1] == Language("English", Some("en-US")) && r[2] == Language("Deutsch", Some("de-DE"))
  {
    [Language("System", None), Language("English", Some("en-US")), Language("Deutsch", Some("de-DE"))]
  }

  /** The first language whose code matches the saved one, if any. */
  function SelectLanguage(languages: seq<Language>, saved: Option<string>): (r: Option<Language>)
    ensures r.Some? ==> r.value in languages && EqualsIgnoreCase(r.value.code, saved)
    ensures r.None? <==> forall i :: 0 <= i < |languages| ==> !EqualsIgnoreCase(languages[i].code, saved)
    ensures r.Some? ==> exists i :: 0 <= i < |languages| && languages[i] == r.value
                          && forall j :: 0 <= j < i ==> !EqualsIgnoreCase(languages[j].code, saved)
  {
    if languages == [] then None
    else if EqualsIgnoreCase(languages[0].code, saved) then Some(languages[0])
    else
      var r := SelectLanguage(languages[1..], saved);
      if r.Some? then
        assert forall j :: 1 <= j < |languages| ==> languages[j] == languages[1..][j - 1];
        r
      else r
  }

  /** Over the offered languages: no saved language selects System, a code
      equal to en-US or de-DE ignoring case selects that language, and any
      other code selects nothing. */
  lemma SavedLanguageSelection(saved: Option<string>)
    ensures saved.None? ==> SelectLanguage(AppLanguages(), saved) == Some(Language("System", None))
    ensures saved.Some? && EqualsIgnoreCase(saved, Some("en-US")) ==>
      SelectLanguage(AppLanguages(), saved) == Some(Language("English", Some("en-US")))
    ensures saved.Some? && !EqualsIgnoreCase(saved, Some("en-US")) && EqualsIgnoreCase(saved, Some("de-DE")) ==>
      SelectLanguage(AppLanguages(), saved) == Some(Language("Deutsch", Some("de-DE")))
    ensures saved.Some? && !EqualsIgnoreCase(saved, Some("en-US")) && !EqualsIgnoreCase(saved, Some("de-DE")) ==>
      SelectLanguage(AppLanguages(), saved).None?
  {
    var langs := AppLanguages();
    assert langs[1..][1..][1..] == [];
  }

  /** The part of a connection dialog the configuration reads: the
      connection it edits, its Url, whether its status is OK and whether
      it is dirty. */
  datatype ConnectionDialog = ConnectionDialog(model: Option<ConnectionSettings>, url: Option<string>, statusOk: bool, isDirty: bool)

  /** The names of the properties whose changes raise no IsDirty
      notification. */
  const Undirtying: set<string> := {"IsDirty", "CanAppAutostartEnabled", "IsAppAutostartEnabled"}

  /** The property-changed notifications raised when `propertyName`
      changes: the change itself and, through the view model's own
      handler, an IsDirty notification, which raises nothing further. */
  function Notifications(propertyName: string): (r: seq<string>)
    ensures |r| >= 1 && r[0] == propertyName
    ensures propertyName in Undirtying ==> r == [propertyName]
    ensures propertyName !in Undirtying ==> r == [propertyName, "IsDirty"]
    decreases if propertyName == "IsDirty" then 0 else 1
  {
    if propertyName !in Undirtying then [propertyName] + Notifications("IsDirty") else [propertyName]
  }

  /** Why checking the configuration throws: the demo-mode flag is null. */
  datatype NullDemoFlag = NullDemoFlag

  class ConfigurationViewModel {
    var settings: Settings
    var isRunningInDemoMode: Option<bool>
    var showDefaultSitemap: bool
    var useSVGIcons: bool
    var startAppMinimized: Option<bool>
    var notificationsEnable: Option<bool>
    var appLanguages: seq<Language>
    var selectedAppLanguage: Option<Language>
    /** The base class's dirty flag. */
    var changed: bool
    var localConnection: ConnectionDialog
    var remoteConnection: ConnectionDialog

    /** The constructor copies the settings' flags and selects the saved
        language among the offered ones. */
    constructor (settings: Settings, localConnection: ConnectionDialog, remoteConnection: ConnectionDialog)
      ensures this.settings == settings && !changed
      ensures isRunningInDemoMode == settings.isRunningInDemoMode && showDefaultSitemap == settings.showDefaultSitemap
      ensures useSVGIcons == settings.useSVGIcons && startAppMinimized == settings.startAppMinimized
      ensures notificationsEnable == settings.notificationsEnable
      ensures appLanguages == AppLanguages() && selectedAppLanguage == SelectLanguage(AppLanguages(), settings.appLanguage)
      ensures this.localConnection == localConnection && this.remoteConnection == remoteConnection
      ensures IsDirty() <==> localConnection.isDirty || remoteConnection.isDirty
    {
      this.settings := settings;
      this.localConnection := localConnection;
      this.remoteConnection := remoteConnection;
      isRunningInDemoMode := settings.isRunningInDemoMode;
      showDefaultSitemap := settings.showDefaultSitemap;
      useSVGIcons := settings.useSVGIcons;
      startAppMinimized := settings.startAppMinimized;
      notificationsEnable := settings.notificationsEnable;
      changed := false;
      appLanguages := AppLanguages();
      selectedAppLanguage := SelectLanguage(AppLanguages(), settings.appLanguage);
    }

    /** IsDirty: the model's own changes or either connection dialog's. */
    function IsDirty(): (r: bool)
      reads this
      ensures r <==> changed || localConnection.isDirty || remoteConnection.isDirty
    {
      changed || localConnection.isDirty || remoteConnection.isDirty
    }

    /** A side has a non-empty Url whose status is OK. */
    predicate HasUsableSide()
      reads this
    {
      (!IsNullOrEmpty(localConnection.url) && localConnection.statusOk)
      || (!IsNullOrEmpty(remoteConnection.url) && remoteConnection.statusOk)
    }

    /** IsConnectionConfigValid: demo mode, or a side with a non-empty Url
        whose status is OK; a null demo flag throws before anything else is
        looked at. */
    function IsConnectionConfigValid(): (r: Result<bool, NullDemoFlag>)
      reads this
      ensures r.Err? <==> isRunningInDemoMode.None?
      ensures r == Ok(true) <==>
        isRunningInDemoMode == Some(true)
        || (isRunningInDemoMode.Some? && !IsNullOrEmpty(localConnection.url) && localConnection.statusOk)
        || (isRunningInDemoMode.Some? && !IsNullOrEmpty(remoteConnection.url) && remoteConnection.statusOk)
    {
      if isRunningInDemoMode.None? then Err(NullDemoFlag)
      else Ok(isRunningInDemoMode.value
              || (!IsNullOrEmpty(localConnection.url) && localConnection.statusOk)
              || (!IsNullOrEmpty(remoteConnection.url) && remoteConnection.statusOk))
    }

    method SetIsRunningInDemoMode(value: Option<bool>) returns (notified: seq<string>)
      modifies this
      ensures value != old(isRunningInDemoMode) ==>
        isRunningInDemoMode == value && settings == old(settings).(isRunningInDemoMode := value)
        && changed && notified == Notifications("IsRunningInDemoMode")
      ensures value == old(isRunningInDemoMode) ==> settings == old(settings) && changed == old(changed) && notified == []
      ensures showDefaultSitemap == old(showDefaultSitemap) && useSVGIcons == old(useSVGIcons)
      ensures startAppMinimized == old(startAppMinimized) && notificationsEnable == old(notificationsEnable)
      ensures selectedAppLanguage == old(selectedAppLanguage)
      ensures localConnection == old(localConnection) && remoteConnection == old(remoteConnection)
      ensures value != old(isRunningInDemoMode) ==> IsDirty()
      ensures value == old(isRunningInDemoMode) ==> IsDirty() == old(IsDirty())
      ensures value == Some(true) ==> IsConnectionConfigValid() == Ok(true)
      ensures value.None? ==> IsConnectionConfigValid() == Err(NullDemoFlag)
      ensures value == Some(false) ==> (IsConnectionConfigValid() == Ok(true) <==> HasUsableSide())
    {
      notified := [];
      if isRunningInDemoMode != value {
        isRunningInDemoMode, changed := value, true;
        notified := Notifications("IsRunningInDemoMode");
        settings := settings.(isRunningInDemoMode := value);
      }
    }

    method SetNotificationsEnable(value: Option<bool>) returns (notified: seq<string>)
      modifies this
      ensures value != old(notificationsEnable) ==>
        notificationsEnable == value && settings == old(settings).(notificationsEnable := value)
        && changed && notified == Notifications("NotificationsEnable")
      ensures value == old(notificationsEnable) ==> settings == old(settings) && changed == old(changed) && notified == []
      ensures isRunningInDemoMode == old(isRunningInDemoMode) && showDefaultSitemap == old(showDefaultSitemap)
      ensures useSVGIcons == old(useSVGIcons) && startAppMinimized == old(startAppMinimized)
      ensures selectedAppLanguage == old(selectedAppLanguage)
      ensures localConnection == old(localConnection) && remoteConnection == old(remoteConnection)
      ensures value != old(notificationsEnable) ==> IsDirty()
      ensures value == old(notificationsEnable) ==> IsDirty() == old(IsDirty())
      ensures IsConnectionConfigValid() == old(IsConnectionConfigValid())
    {
      notified := [];
      if notificationsEnable != value {
        notificationsEnable, changed := value, true;
        notified := Notifications("NotificationsEnable");
        settings := settings.(notificationsEnable := value);
      }
    }

    /** The SelectedAppLanguage setter: a change to null is assigned and
        marks the model dirty, then throws when reading the null's code. */
    method SetSelectedAppLanguage(value: Option<Language>) returns (notified: seq<string>, threw: bool)
      modifies this
      ensures threw <==> value != old(selectedAppLanguage) && value.None?
      ensures value != old(selectedAppLanguage) ==>
        selectedAppLanguage == value && changed && notified == Notifications("SelectedAppLanguage")
        && settings == (if value.Some? then old(settings).(appLanguage := value.value.code) else old(settings))
      ensures value == old(selectedAppLanguage) ==> settings == old(settings) && changed == old(changed) && notified == []
      ensures isRunningInDemoMode == old(isRunningInDemoMode) && showDefaultSitemap == old(showDefaultSitemap)
      ensures useSVGIcons == old(useSVGIcons) && startAppMinimized == old(startAppMinimized)
      ensures notificationsEnable == old(notificationsEnable)
      ensures localConnection == old(localConnection) && remoteConnection == old(remoteConnection)
      ensures value != old(selectedAppLanguage) ==> IsDirty()
      ensures value == old(selectedAppLanguage) ==> IsDirty() == old(IsDirty())
      ensures IsConnectionConfigValid() == old(IsConnectionConfigValid())
    {
      notified, threw := [], false;
      if selectedAppLanguage != value {
        selectedAppLanguage, changed := value, true;
        notified := Notifications("SelectedAppLanguage");
        if value.None? {
          return notified, true;
        }
        settings := settings.(appLanguage := value.value.code);
      }
    }

    method SetShowDefaultSitemap(value: bool) returns (notified: seq<string>)
      modifies this
      ensures value != old(showDefaultSitemap) ==>
        showDefaultSitemap == value && settings == old(settings).(showDefaultSitemap := value)
        && changed && notified == Notifications("ShowDefaultSitemap")
      ensures value == old(showDefaultSitemap) ==> settings == old(settings) && changed == old(changed) && notified == []
      ensures isRunningInDemoMode == old(isRunningInDemoMode) && useSVGIcons == old(useSVGIcons)
      ensures startAppMinimized == old(startAppMinimized) && notificationsEnable == old(notificationsEnable)
      ensures selectedAppLanguage == old(selectedAppLanguage)
      ensures localConnection == old(localConnection) && remoteConnection == old(remoteConnection)
      ensures value != old(showDefaultSitemap) ==> IsDirty()
      ensures value == old(showDefaultSitemap) ==> IsDirty() == old(IsDirty())
      ensures IsConnectionConfigValid() == old(IsConnectionConfigValid())
    {
      notified := [];
      if showDefaultSitemap != value {
        showDefaultSitemap, changed := value, true;
        notified := Notifications("ShowDefaultSitemap");
        settings := settings.(showDefaultSitemap := value);
      }
    }

    method SetStartAppMinimized(value: Option<bool>) returns (notified: seq<string>)
      modifies this
      ensures value != old(startAppMinimized) ==>
        startAppMinimized == value && settings == old(settings).(startAppMinimized := value)
        && changed && notified == Notifications("StartAppMinimized")
      ensures value == old(startAppMinimized) ==> settings == old(settings) && changed == old(changed) && notified == []
      ensures isRunningInDemoMode == old(isRunningInDemoMode) && showDefaultSitemap == old(showDefaultSitemap)
      ensures useSVGIcons == old(useSVGIcons) && notificationsEnable == old(notificationsEnable)
      ensures selectedAppLanguage == old(selectedAppLanguage)
      ensures localConnection == old(localConnection) && remoteConnection == old(remoteConnection)
      ensures value != old(startAppMinimized) ==> IsDirty()
      ensures value == old(startAppMinimized) ==> IsDirty() == old(IsDirty())
      ensures IsConnectionConfigValid() == old(IsConnectionConfigValid())
    {
      notified := [];
      if startAppMinimized != value {
        startAppMinimized, changed := value, true;
        notified := Notifications("StartAppMinimized");
        settings := settings.(startAppMinimized := value);
      }
    }

    method SetUseSVGIcons(value: bool) returns (notified: seq<string>)
      modifies this
      ensures value != old(useSVGIcons) ==>
        useSVGIcons == value && settings == old(settings).(useSVGIcons := value)
        && changed && notified == Notifications("UseSVGIcons")
      ensures value == old(useSVGIcons) ==> settings == old(settings) && changed == old(changed) && notified == []
      ensures isRunningInDemoMode == old(isRunningInDemoMode) && showDefaultSitemap == old(showDefaultSitemap)
      ensures startAppMinimized == old(startAppMinimized) && notificationsEnable == old(notificationsEnable)
      ensures selectedAppLanguage == old(selectedAppLanguage)
      ensures localConnection == old(localConnection) && remoteConnection == old(remoteConnection)
      ensures value != old(useSVGIcons) ==> IsDirty()
      ensures value == old(useSVGIcons) ==> IsDirty() == old(IsDirty())
      ensures IsConnectionConfigValid() == old(IsConnectionConfigValid())
    {
      notified := [];
      if useSVGIcons != value {
        useSVGIcons, changed := value, true;
        notified := Notifications("UseSVGIcons");
        settings := settings.(useSVGIcons := value);
      }
    }

    /** Save: both dialogs' connections are copied into the settings, which
        are then persisted; the result is the persistence result. */
    method Save(service: SS.SettingsService, writeSucceeds: bool) returns (ok: bool)
      modifies this, service
      ensures settings == old(settings).(localConnection := localConnection.model, remoteConnection := remoteConnection.model)
      ensures service.kept == Some(settings) && ok == writeSucceeds
      ensures localConnection == old(localConnection) && remoteConnection == old(remoteConnection)
      ensures changed == old(changed) && isRunningInDemoMode == old(isRunningInDemoMode)
      ensures IsDirty() == old(IsDirty()) && IsConnectionConfigValid() == old(IsConnectionConfigValid())
    {
      settings := settings.(localConnection := localConnection.model, remoteConnection := remoteConnection.model);
      ok := service.Save(settings, writeSucceeds);
    }
  }

  /** Validity depends on the demo flag and the two connection dialogs
      only: two view models that agree on those agree on validity, whatever
      their other preferences, and a usable side makes any non-null demo
      flag valid. */
  lemma ValidityIgnoresPreferences(a: ConfigurationViewModel, b: ConfigurationViewModel)
    requires a.isRunningInDemoMode == b.isRunningInDemoMode
    requires a.localConnection == b.localConnection && a.remoteConnection == b.remoteConnection
    ensures a.IsConnectionConfigValid() == b.IsConnectionConfigValid()
    ensures a.isRunningInDemoMode.Some? && a.HasUsableSide() ==> a.IsConnectionConfigValid() == Ok(true)
  {
  }
}
