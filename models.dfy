/** The records the client passes between its services: server versions,
    items and sitemaps as the REST API delivers them, stream events and the
    messages derived from them, and the persisted settings. */
module Models {
  import opened Common

  /** OpenHABVersion. The probe casts the major component of the runtime
      version straight into this enumeration, so every int is a value the
      program can hold; Two, Three and Four are the named members. */
  type OpenHABVersion = int
  const Two: OpenHABVersion := 2
  const Three: OpenHABVersion := 3
  const Four: OpenHABVersion := 4

  /** Which of the two named HTTP clients a connection uses. The enumeration
      can hold values other than its two members; `OtherClientType` stands
      for all of them. */
  datatype HttpClientType = Local | Remote | OtherClientType

  /** An item as the REST API describes it; every field may be null. */
  datatype Item = Item(
    name: Option<string>,
    labelText: Option<string>,
    state: Option<string>,
    category: Option<string>,
    link: Option<string>,
    itemType: Option<string>)

  datatype Widget = Widget(widgetId: Option<string>, labelText: Option<string>, item: Option<Item>)

  datatype Homepage = Homepage(widgets: Option<seq<Widget>>)

  datatype Sitemap = Sitemap(name: Option<string>, link: Option<string>, homepage: Option<Homepage>)

  datatype OpenHABEventType =
    | ItemStateEvent
    | ThingUpdatedEvent
    | RuleStatusInfoEvent
    | ItemStatePredictedEvent
    | GroupItemStateChangedEvent
    | ItemStateChangedEvent
    | Unknown

  /** What the event parser makes of one `data:` line. */
  datatype OpenHABEvent = OpenHABEvent(
    eventType: OpenHABEventType,
    itemName: Option<string>,
    value: Option<string>,
    oldValue: Option<string>)

  /** The two messages the event stream hands to the messenger. */
  datatype ItemMessage =
    | UpdateItemMessage(itemName: Option<string>, value: Option<string>)
    | ItemStateChangedMessage(itemName: Option<string>, value: Option<string>, oldValue: Option<string>)

  /** The persisted fields of a connection. */
  datatype ConnectionSettings = ConnectionSettings(
    clientType: HttpClientType,
    url: Option<string>,
    username: Option<string>,
    password: Option<string>,
    ignoreCertificate: Option<bool>,
    ignoreHostname: Option<bool>)

  /** The application settings object. */
  datatype Settings = Settings(
    appLanguage: Option<string>,
    isRunningInDemoMode: Option<bool>,
    lastSitemap: Option<string>,
    localConnection: Option<ConnectionSettings>,
    notificationsEnable: Option<bool>,
    remoteConnection: Option<ConnectionSettings>,
    showDefaultSitemap: bool,
    startAppMinimized: Option<bool>,
    useSVGIcons: bool)

  /** `new Settings()`: demo mode, the default sitemap, SVG icons and
      notifications are all switched off; everything else is null. */
  function DefaultSettings(): (s: Settings)
    ensures s.isRunningInDemoMode == Some(false) && s.notificationsEnable == Some(false)
    ensures !s.showDefaultSitemap && !s.useSVGIcons
    ensures s.appLanguage.None? && s.lastSitemap.None? && s.startAppMinimized.None?
    ensures s.localConnection.None? && s.remoteConnection.None?
  {
    Settings(None, Some(false), None, None, Some(false), None, false, None, false)
  }
}
