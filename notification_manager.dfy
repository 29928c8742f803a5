/** The notification rules: when an item's state changes, a toast is shown
    unless notifications are switched off, titled with the item's label and
    illustrated with its icon. Localised message templates are opaque keys;
    the icon lookup is an oracle. */
module NotificationManager {
  import opened Common
  import opened Text
  import opened Models
  import opened Encoding

  /** The icon format notifications ask for, whatever the SVG setting says. */
  function IconFormat(useSVGIcons: bool): (r: string)
    ensures r == "svg"
  {
    if useSVGIcons then "svg" else "svg"
  }

  /** Notifications are off only when explicitly switched off. */
  function NotificationsAllowed(notificationsEnable: Option<bool>): (r: bool)
    ensures r <==> notificationsEnable != Some(false)
  {
    !(notificationsEnable.Some? && !notificationsEnable.value)
  }

  /** A message: a localised template named by its resource key, and the
      format arguments {0} = item name, {1} = old value, {2} = new value. */
  datatype ToastMessage = ToastMessage(templateKey: string, arguments: seq<Option<string>>)

  /** GetMessage: the state-change template when there is an old value,
      the simple one otherwise; the arguments are always name, old, new. */
  function GetMessage(itemName: Option<string>, value: Option<string>, oldValue: Option<string>): (m: ToastMessage)
    ensures m.templateKey == "NotificationToast" <==> !IsNullOrEmpty(oldValue)
    ensures m.templateKey == "NotificationToastSimple" <==> IsNullOrEmpty(oldValue)
    ensures m.arguments == [itemName, oldValue, value]
  {
    if !IsNullOrEmpty(oldValue) then ToastMessage("NotificationToast", [itemName, oldValue, value])
    else ToastMessage("NotificationToastSimple", [itemName, oldValue, value])
  }

  const AppLogo: string := "ms-appx:///Assets/openhab-logo-square.png"

  /** A toast: its launch arguments, its two text lines and its app logo,
      cropped to a circle. */
  datatype Toast = Toast(arguments: seq<(string, Option<string>)>, title: string, message: ToastMessage, appLogo: string)

  /** CreateToastMessage: the arguments are action=show and item=<name>,
      the title is fixed, and an empty image falls back to the app logo. */
  function CreateToastMessage(itemName: Option<string>, message: ToastMessage, image: Option<string>): (t: Toast)
    ensures t.arguments == [("action", Some("show")), ("item", itemName)]
    ensures t.title == "openHAB for Windows" && t.message == message
    ensures t.appLogo == if IsNullOrEmpty(image) then AppLogo else image.value
  {
    var logo := if IsNullOrEmpty(image) then AppLogo else image.value;
    Toast([("action", Some("show")), ("item", itemName)], "openHAB for Windows", message, logo)
  }

  /** What the icon of a known item is resolved from: the lower-cased
      category, and the state ("ON" when null), URL-encoded. */
  datatype IconRequest = IconRequest(icon: Option<string>, state: string)

  function IconRequestFor(item: Option<Item>): (r: IconRequest)
    ensures r.icon.Some? <==> item.Some? && item.value.category.Some?
    ensures r.icon.Some? ==> r.icon.value == ToLowerAscii(item.value.category.value)
    ensures UrlDecodeBytes(r.state) == Some(Utf8(if item.Some? && item.value.state.Some? then item.value.state.value else "ON"))
  {
    var state := if item.Some? && item.value.state.Some? then item.value.state.value else "ON";
    UrlEncodeRoundTrip(state);
    var icon := if item.Some? && item.value.category.Some? then Some(ToLowerAscii(item.value.category.value)) else None;
    IconRequest(icon, UrlEncode(state))
  }

  /** The title a known item is shown under: its label, or "NA". */
  function LabelOf(item: Option<Item>): (r: string)
    ensures item.None? || item.value.labelText.None? ==> r == "NA"
    ensures r == "NA" || (item.Some? && item.value.labelText == Some(r))
  {
    if item.Some? && item.value.labelText.Some? then item.value.labelText.value else "NA"
  }

  /** HandleUpdateItemMessage. `lookup` is what the item manager answered:
      None when it did not find the item, otherwise the (possibly null)
      item; `resolveIcon` stands for the icon cache. No toast when
      notifications are switched off. A known item is shown under its
      label ("NA" when it has none) with its resolved icon; an unknown one
      under the raw name, with the app logo. */
  function HandleUpdateItemMessage(notificationsEnable: Option<bool>, useSVGIcons: bool,
                                   message: ItemMessage, lookup: Option<Option<Item>>,
                                   resolveIcon: (Option<string>, string, string) -> string): (r: Option<Toast>)
    requires message.ItemStateChangedMessage?
    ensures r.None? <==> notificationsEnable == Some(false)
    ensures r.Some? ==> |r.value.arguments| == 2 && r.value.arguments[0] == ("action", Some("show"))
    ensures r.Some? ==> r.value.message == GetMessage(r.value.arguments[1].1, message.value, message.oldValue)
    ensures r.Some? && lookup.None? ==> r.value.arguments[1] == ("item", message.itemName) && r.value.appLogo == AppLogo
    ensures r.Some? && lookup.Some? ==>
      var req := IconRequestFor(lookup.value);
      var image := resolveIcon(req.icon, req.state, "svg");
      r.value.arguments[1] == ("item", Some(LabelOf(lookup.value)))
      && r.value.appLogo == (if image == "" then AppLogo else image)
  {
    if !NotificationsAllowed(notificationsEnable) then None
    else
      var name := if lookup.Some? then Some(LabelOf(lookup.value)) else message.itemName;
      var req := IconRequestFor(if lookup.Some? then lookup.value else None);
      var image := if lookup.Some? then resolveIcon(req.icon, req.state, IconFormat(useSVGIcons)) else "";
      Some(CreateToastMessage(name, GetMessage(name, message.value, message.oldValue), Some(image)))
  }
}
