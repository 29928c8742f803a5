# openHAB Windows client — a verified model of its decision core

This project models, in Dafny, the rules the openHAB Windows client
follows around its network, file and UI calls, and proves properties of
them. The calls themselves are replaced by inputs: what the server
answers, what the settings file holds, what the event parser returns.

- **Connection service.** It chooses the connection the client talks to:
  demo, local or remote. It uses the Url of each connection, the demo
  flag, the metered-network flag and whether each side's server answers.
  It probes a server through the named HTTP client of a connection type,
  and classifies the server version from `rest/`. It rewrites a checked
  connection's Url in place to end with `/`. It remembers the last
  connection it handed out.
- **Clients.** There are two: the current REST client and the earlier SDK
  client.
  - `ResetConnection` resolves a connection and picks the HTTP client.
  - `SendCommand` posts commands.
  - Sitemaps are loaded behind a version gate, with every failure wrapped
    as "Invalid call".
  - Sitemap filters keep a sitemap iff all of them accept it, in order.
  - The item-update loop reads the event stream line by line. It hands
    `data:` lines to the parser and sends a message for item-state and
    item-state-changed events. It stops at cancellation, at the end of the
    stream or at the first exception.
- **HTTP client setup.** The named clients `local` and `remote` are bound
  to their connections. A Basic Authorization header is built as in
  section 2 of RFC 7617, with UTF-8 and the Base64 of section 4 of
  RFC 4648. The certificate callback accepts or rejects SSL policy errors
  according to the two ignore flags.
- **Icon cache.**
  - The icon URL depends on the server version.
  - The icon's name is cut out of the URL with the two regular expressions
    and becomes the cache file name.
  - A cached file is served; otherwise the icon is downloaded and
    written.
- **Small services.**
  - The item cache fetches on a miss and only adds.
  - The settings service keeps what it loaded, rewrites the legacy
    connection namespace, and keeps saved settings even when writing
    fails.
  - The notification rules decide the toast's title, message template and
    logo.
  - The start-up task decisions cover autostart and the program language.
- **View models.**
  - The main view model drives the loading flag and the refresh command,
    and opens the last or the default sitemap.
  - The configuration view model covers configuration validity, the dirty
    flag and its notifications, the offered languages and the saved
    language's selection, and saving.
- **Lookup tables.** The connection-profile registry and the device-family
  mapping.

Library behaviour the code relies on is written out:
- `int.TryParse` and `Version.TryParse`;
- `Regex.Replace` with `[^.0-9]`;
- UTF-8, Base64 and `HttpUtility.UrlEncode`, each with its decoder and a
  round-trip lemma;
- `String.IndexOf` and `Replace`, and `StartsWith` and `EndsWith` with
  ASCII case folding only (see "## Left out");
- `Path.Combine`.

Where the written description of the system and the code differ, the
model follows the code:
- The server probe picks the HTTP client by the connection's type. The
  connection's Url plays no part in the request.
- The metered-network rule tests the remote Url with `IsNullOrEmpty`,
  while the other rules use `IsNullOrWhiteSpace`. On a metered network a
  remote Url made only of white space is therefore handed out
  (`MeteredAcceptsBlankRemote`).
- The major version is cast to the version enumeration unchecked.
  Scrubbing drops the letters of a pre-release tag but keeps its digits.
  A snapshot such as "4.1.0-SNAPSHOT" is classified under its release
  (`PreReleaseKeepsMajor`). A milestone such as "4.1.0.M1" parses as the
  version 4.1.0.1 (`MilestoneNumberBecomesComponent`). In both cases the
  major is kept.
- The item-update loop swallows every exception inside its try block.
  With no HTTP client, however, the log line before the try block throws
  out of the fire-and-forget method.
- `SendCommand` with no HTTP client lets the null dereference escape: it
  is not among the exceptions caught. Only `HttpRequestException` and
  `ArgumentNullException` are caught around the request; any other
  failure, such as the `TaskCanceledException` of a timeout, escapes too.
- The legacy `LoadSiteMaps` counts the deserialised list before filtering,
  so a JSON `null` list ends as "Invalid call". The current client returns
  an empty list instead.
- The icon cache file name contains only the icon's name and format, so
  every state of an icon is served from one file (`CacheKeyIgnoresState`).
- The notification icon format is "svg" whichever way `UseSVGIcons` is set.
- `IsConnectionConfigValid` reads the nullable demo flag's `.Value` first,
  so a null flag throws, whatever the connections say.

## Model

| member | source | states |
|---|---|---|
| ServerVersion.ParseInt32 | src/openHAB.Core.Client/Connection/ConnectionService.cs:144 | `int.TryParse`: a parsed value lies in the 32-bit range; null never parses |
| ServerVersion.ParseFormattedInt32 | src/openHAB.Core.Client/Connection/ConnectionService.cs:144 | every 32-bit integer written in decimal parses back to itself |
| ServerVersion.TryParseVersion | src/openHAB.Core.Client/Connection/ConnectionService.cs:150 | `Version.TryParse` succeeds only with 2 to 4 dot-separated components, each a non-negative 32-bit integer |
| ServerVersion.VersionRoundTrip | src/openHAB.Core.Client/Connection/ConnectionService.cs:150 | every version of 2 to 4 non-negative components, written with dots, parses back to its components |
| ServerVersion.SplitDots | src/openHAB.Core.Client/Connection/ConnectionService.cs:150 | `String.Split('.')` as `Version.TryParse` uses it: at least one piece, and no piece holds a dot |
| ServerVersion.SplitJoin | src/openHAB.Core.Client/Connection/ConnectionService.cs:150 | splitting dot-free pieces joined with dots gives the pieces back |
| ServerVersion.Scrub | src/openHAB.Core.Client/Connection/ConnectionService.cs:149 | the scrubbed runtime version holds only digits and dots and is no longer than the input |
| ServerVersion.ScrubKeepsVersionText | src/openHAB.Core.Client/Connection/ConnectionService.cs:149 | a string of digits and dots passes the scrub unchanged |
| ServerVersion.ScrubIdempotent | src/openHAB.Core.Client/Connection/ConnectionService.cs:149 | scrubbing twice is scrubbing once |
| ServerVersion.ScrubDropsNoise | src/openHAB.Core.Client/Connection/ConnectionService.cs:149 | text without digits and dots scrubs to nothing |
| ServerVersion.IsLegacyApi | src/openHAB.Core.Client/Connection/ConnectionService.cs:144 | an old API version is one that exists and parses |
| ServerVersion.ClassifyServerInfo | src/openHAB.Core.Client/Connection/ConnectionService.cs:144-162 | an API version that parses below 4 gives Two with nothing else. Otherwise the result succeeds iff a runtime version exists and its scrub parses as a version; then the version is the major component, and the runtime version (unscrubbed) and the build are kept |
| ServerVersion.PreReleaseKeepsMajor | src/openHAB.Core.Client/Connection/ConnectionService.cs:149-162 | an API version of 4 or more with a runtime version of a release followed by a letters-only tag classifies under the release's major, keeping the raw runtime string and build |
| ServerVersion.MilestoneNumberBecomesComponent | src/openHAB.Core.Client/Connection/ConnectionService.cs:149-162 | a release followed by "." and a lettered tag with a number parses with that number as one more component, and still classifies under the release's major |
| ConnectionService.GetOpenHABServerInfo | src/openHAB.Core.Client/Connection/ConnectionService.cs:123-174 | server information is returned iff the connection's type names a client whose reply has a success status and a body that deserialises and classifies. The status and information are then those of the reply. A non-success status is returned as that failure; nothing is thrown |
| ConnectionService.EnsureTrailingSlash | src/openHAB.Core.Client/Connection/ConnectionService.cs:49-52 | the result ends with `/`, extends the Url by at most that one character, and is the Url itself when it already ended with `/` |
| ConnectionService.EnsureTrailingSlashIdempotent | src/openHAB.Core.Client/Connection/ConnectionService.cs:49-52 | normalising twice adds nothing |
| ConnectionService.Normalised | src/openHAB.Core.Client/Connection/ConnectionService.cs:44-52 | a blank Url is left alone, and normalising never changes whether a Url is blank |
| ConnectionService.NormalisedIdempotent | src/openHAB.Core.Client/Connection/ConnectionService.cs:44-52 | normalising a normalised Url changes nothing |
| ConnectionService.Decide | src/openHAB.Core.Client/Connection/ConnectionService.cs:61-120 | the decision rules, case by case:<br>- nothing configured and no demo: no connection, nothing checked;<br>- demo wins and checks nothing;<br>- metered: remote unchecked iff its Url is not null or empty, otherwise none;<br>- reachable local: local, remote never checked;<br>- otherwise remote is checked only if its Url is not blank; remote iff reachable, else none with exactly one failure message |
| ConnectionService.ChosenConnectionWasReachable | src/openHAB.Core.Client/Connection/ConnectionService.cs:94-119 | outside the metered case a connection is handed out only after it was checked and found reachable; a remote connection handed out always has a non-empty Url |
| ConnectionService.MeteredAcceptsBlankRemote | src/openHAB.Core.Client/Connection/ConnectionService.cs:84-103 | any non-empty remote Url made only of white space is handed out on a metered network, and never checked off it |
| ConnectionService.FailureMessageOnlyAfterLocalCheck | src/openHAB.Core.Client/Connection/ConnectionService.cs:103-116 | at most one ConnectionTestFailed message is sent, exactly when no connection results after the local check |
| ConnectionService.Connection.constructor | src/openHAB.Core.Client/Connection/ConnectionService.cs:75 | a new connection holds the given fields |
| ConnectionService.ConnectionService.constructor | src/openHAB.Core.Client/Connection/ConnectionService.cs:32-39 | no current connection at first |
| ConnectionService.ConnectionService.CheckUrlReachability | src/openHAB.Core.Client/Connection/ConnectionService.cs:42-58 | the result is `Reachable` of the fields on entry: false without a request for a null connection or blank Url, else whether the probe yields server information. The Url is rewritten to its normalised form and nothing else changes |
| ConnectionService.ConnectionService.DetectAndRetrieveConnection | src/openHAB.Core.Client/Connection/ConnectionService.cs:61-120 | the result object, the messages sent and the Url rewrites are those `Decide` gives on the entry state, aliasing of the two connections included. The demo connection is a fresh object. CurrentConnection changes exactly on a non-null result |
| HttpClientConfig.ClientNameOf | src/openHAB.Core.Client/Connection/ConnectionService.cs:127-132 | a client name exists exactly for the Local and Remote types |
| HttpClientConfig.ClientsMatchConnectionTypes | src/openHAB.Core.Client/Extensions/OpenHabHttpClientExtension.cs:21-25 | exactly two clients are registered under distinct names. The client a connection type selects is configured from that side's connection, and no other name is bound |
| HttpClientConfig.AuthorizationFor | src/openHAB.Core.Client/Extensions/OpenHabHttpClientExtension.cs:46-50 | a header exists iff user name and password are both non-empty. Its scheme is Basic, and its parameter Base64-decodes to the UTF-8 of `user:password`, which decodes to that text |
| HttpClientConfig.BasicCredentialsRecovered | src/openHAB.Core.Client/Extensions/OpenHabHttpClientExtension.cs:48-49 | a server that splits the decoded credentials at the first colon recovers a colon-free user name and any password |
| HttpClientConfig.HttpClient.constructor | src/openHAB.Core.Client/Extensions/OpenHabHttpClientExtension.cs:29 | a new client has no base address and no header |
| HttpClientConfig.ConfigureHttpClient | src/openHAB.Core.Client/Extensions/OpenHabHttpClientExtension.cs:42-53 | a null connection or Url throws and changes nothing. Otherwise the base address is the Url, and the header is set exactly when `AuthorizationFor` gives one; otherwise it is left as it was |
| HttpClientConfig.AcceptCertificate | src/openHAB.Core.Client/Extensions/OpenHabHttpClientExtension.cs:59-83 | no errors accept. Otherwise accepted iff the certificate is available, chain errors come with ignore-certificate true, and a name mismatch comes with ignore-hostname true (null counts as false) |
| HttpClientConfig.AcceptanceMonotone | src/openHAB.Core.Client/Extensions/OpenHabHttpClientExtension.cs:66-80 | fewer errors, or a flag switched on, never turn acceptance into rejection |
| HttpClientConfig.IgnoreBothAcceptsAllButMissing | src/openHAB.Core.Client/Extensions/OpenHabHttpClientExtension.cs:66-80 | with both flags on, only a missing certificate is rejected |
| Encoding.Utf8RoundTrip | src/openHAB.Core.Client/Extensions/OpenHabHttpClientExtension.cs:48 | UTF-8 decoding gives back every encoded string |
| Encoding.Utf8Append | src/openHAB.Core.Client/Extensions/OpenHabHttpClientExtension.cs:48 | the encoding of a concatenation is the concatenation of the encodings |
| Encoding.Base64EncodeLength | src/openHAB.Core.Client/Extensions/OpenHabHttpClientExtension.cs:48 | the encoding is four characters per started group of three bytes |
| Encoding.Base64RoundTrip | src/openHAB.Core.Client/Extensions/OpenHabHttpClientExtension.cs:48 | Base64 decoding gives back every encoded byte sequence |
| Encoding.UrlEncodeRoundTrip | src/openHAB.Core/Notification/NotificationManager.cs:54 | URL-decoding the encoded state gives its UTF-8 bytes |
| Encoding.UrlRoundTripBytes | src/openHAB.Core/Notification/NotificationManager.cs:54 | URL-decoding gives back every encoded byte sequence |
| Encoding.UrlEncodedAlphabet | src/openHAB.Core/Notification/NotificationManager.cs:54 | the encoding uses only the safe characters, `+`, `%` and hexadecimal digits |
| EventStream.MessageFor | src/openHAB.Core.Client/OpenHABClient.cs:330-350 | a message exists iff the event is an item-state or item-state-changed event, and carries the event's name, value (and old value) |
| EventStream.LineMessages | src/openHAB.Core.Client/OpenHABClient.cs:321-350 | a line yields at most one message, and only if it is a data line whose parse gives one of the two item events |
| EventStream.IsDataLine | src/openHAB.Core.Client/OpenHABClient.cs:322 | a data line is a present line at least as long as `data:` |
| EventStream.DataLines | src/openHAB.Core.Client/OpenHABClient.cs:322 | the lines handed to the parser all start with `data:`, ignoring case |
| EventStream.DispatchedAtMostDataLines | src/openHAB.Core.Client/OpenHABClient.cs:321-350 | no more messages than data lines |
| EventStream.Halt | src/openHAB.Core.Client/OpenHABClient.cs:314-362 | the loop stops at the end of the stream only after every line. Cancellation stops it exactly at the first iteration that sees the token set, and no line is read past that point |
| EventStream.PumpEvents | src/openHAB.Core.Client/OpenHABClient.cs:308-362 | the loop reads where `Halt` says and ends as `Halt` says. The messages sent, and the lines handed to the parser, are those of the lines read, in order |
| EventStream.DispatchedAppend | src/openHAB.Core.Client/OpenHABClient.cs:314-352 | messages of consecutive runs of lines come in line order |
| EventStream.DispatchedPrefix | src/openHAB.Core.Client/OpenHABClient.cs:314-352 | reading more lines only appends messages |
| EventStream.SilentLineIgnored | src/openHAB.Core.Client/OpenHABClient.cs:322-328 | a non-data line, a null event or another event kind changes nothing in what is sent |
| EventStream.UndisturbedRunReadsAll | src/openHAB.Core.Client/OpenHABClient.cs:314-352 | without cancellation, read error or parser failure every line is read |
| EventStream.LaterCancellationReadsMore | src/openHAB.Core.Client/OpenHABClient.cs:316-319 | a later cancellation never reads fewer lines |
| OpenHabClient.RequestFailure | src/openHAB.Core.Client/OpenHABClient.cs:112-117 | the cause of a failed request: no client, or the status of an unsuccessful response |
| OpenHabClient.IsSupportedVersion | src/openHAB.Core.Client/OpenHABClient.cs:122 | the versions read are exactly Two to Four |
| OpenHabClient.IsIncluded | src/openHAB.Core.Client/OpenHABClient.cs:221-227 | no filter includes; an included sitemap passes the last filter and the fold over the others |
| OpenHabClient.FilterSitemaps | src/openHAB.Core.Client/OpenHABClient.cs:221-227 | filtering never lengthens the list |
| OpenHabClient.IsIncludedIffAll | src/openHAB.Core.Client/OpenHABClient.cs:221-227 | the `&=` fold over the filters holds iff every filter accepts |
| OpenHabClient.FilterSitemapsMembers | src/openHAB.Core.Client/OpenHABClient.cs:221-227 | a sitemap is kept iff it is in the list and passes all filters |
| OpenHabClient.FilterSitemapsAppend | src/openHAB.Core.Client/OpenHABClient.cs:221-227 | filtering distributes over concatenation, so order is preserved |
| OpenHabClient.NoFiltersKeepAll | src/openHAB.Core.Client/OpenHABClient.cs:221-227 | an empty filter list keeps every sitemap |
| OpenHabClient.WidgetsOf | src/openHAB.Core.Client/OpenHABClient.cs:179 | widgets come only from a sitemap's homepage widget list; otherwise empty |
| OpenHabClient.OpenHABClient.constructor | src/openHAB.Core.Client/OpenHABClient.cs:45-57 | no connection and no HTTP client at first |
| OpenHabClient.OpenHABClient.ResetConnection | src/openHAB.Core.Client/OpenHABClient.cs:242-265 | the service's detection ran on the entry state: the result is true iff `Decide` gives a connection (a null demo flag counts as off), with the detection's Url rewrites, messages and fresh demo connection. A false result keeps the client, the connection and the service's current connection. A true one stores the service's current connection and picks the client named after its type |
| OpenHabClient.OpenHABClient.UseConnection | src/openHAB.Core.Client/OpenHABClient.cs:251-263 | a Local connection selects the `local` client and a Remote one the `remote` client; any other type keeps the client; the connection is stored |
| OpenHabClient.OpenHABClient.SendCommand | src/openHAB.Core.Client/OpenHABClient.cs:268-299 | a request is made iff the item, the command and the client exist. A null item fails without one. A null command is caught as an argument exception, with no status, before the client is used. With no client the exception escapes. Otherwise success iff the reply's status is a success, and that status is returned. A request exception is caught and returned with no status; any other exception escapes |
| OpenHabClient.OpenHABClient.GetItemByName | src/openHAB.Core.Client/OpenHABClient.cs:60-98 | the item is returned iff the request is delivered and the body deserialises; every failure is "Invalid call" wrapping its cause |
| OpenHabClient.OpenHABClient.GetSitemap | src/openHAB.Core.Client/OpenHABClient.cs:106-153 | a sitemap is returned iff it is delivered, the version is Two to Four and the body holds one; an unsupported version also surfaces as "Invalid call" |
| OpenHabClient.OpenHABClient.LoadItemsFromSitemap | src/openHAB.Core.Client/OpenHABClient.cs:156-195 | the same version gate; the widgets of the homepage, or empty for a null sitemap, homepage or widget list |
| OpenHabClient.OpenHABClient.LoadSitemaps | src/openHAB.Core.Client/OpenHABClient.cs:198-239 | a delivered null list gives the empty list. Otherwise the sitemaps all filters accept, in order. A missing filter list fails on a non-empty list. Every kept sitemap came from the server; every failure is "Invalid call" |
| OpenHabClient.OpenHABClient.StartItemUpdates | src/openHAB.Core.Client/OpenHABClient.cs:302-363 | with no client it crashes before the loop; an unavailable stream ends it with nothing sent; otherwise what `PumpEvents` reads and sends |
| LegacyClient.LegacyOpenHABClient.constructor | src/openHAB.Core/SDK/OpenHABClient.cs:43-57 | no connection at first |
| LegacyClient.LegacyOpenHABClient.ResetConnection | src/openHAB.Core/SDK/OpenHABClient.cs:189-203 | no resolved connection: false, nothing stored, no client reset; otherwise stored, the client reset once, true |
| LegacyClient.LegacyOpenHABClient.SendCommand | src/openHAB.Core/SDK/OpenHABClient.cs:206-240 | a request iff item, client and command exist. A null item fails without one; failing to obtain the client escapes; a null command is then caught as an argument exception with no status. Otherwise as the current client: success iff the reply's status is a success, which is returned; a request exception is caught with no status, any other escapes |
| LegacyClient.LegacyOpenHABClient.LoadItemsFromSitemap | src/openHAB.Core/SDK/OpenHABClient.cs:66-109 | widgets only for versions Two and Three and a homepage widget list; everything else is "Invalid call" |
| LegacyClient.LegacyOpenHABClient.GetItemByName | src/openHAB.Core/SDK/OpenHABClient.cs:112-145 | the item is returned iff the request is delivered and the body deserialises |
| LegacyClient.LegacyOpenHABClient.LoadSiteMaps | src/openHAB.Core/SDK/OpenHABClient.cs:148-186 | the sitemaps all filters accept, in order, and only sitemaps from the server. A delivered null list is "Invalid call", and so is a missing filter list with sitemaps |
| LegacyClient.LegacyOpenHABClient.StartItemUpdates | src/openHAB.Core/SDK/OpenHABClient.cs:243-309 | with no client the returned Task faults before the loop; otherwise as `PumpEvents` |
| LegacyClient.IsLegacySupportedVersion | src/openHAB.Core/SDK/OpenHABClient.cs:83 | the legacy client reads the versions the current one reads, except Four |
| LegacyClient.LegacyVersionsNarrower | src/openHAB.Core/SDK/OpenHABClient.cs:83 | every version the legacy client reads the current one reads, and Four only the current one |
| IconCaching.IconUrl | src/openHAB.Core/Services/IconCaching.cs:55-57 | the URL starts with the server URL. For versions Two to Four `icon/` follows it and the URL ends with `&anyFormat=true&iconset=classic`; otherwise `images/` follows and it ends with `.png` |
| IconCaching.AlnumRun | src/openHAB.Core/Services/IconCaching.cs:61 | the greedy `[0-9a-zA-Z]*` match: the longest prefix of letters and digits |
| IconCaching.IconNameMatch | src/openHAB.Core/Services/IconCaching.cs:61 | the name pattern matches iff the URL contains `icon/` |
| IconCaching.CombinePath | src/openHAB.Core/Services/IconCaching.cs:77 | the combined path ends with the file name |
| IconCaching.CachePath | src/openHAB.Core/Services/IconCaching.cs:61-77 | a cache path exists iff both patterns match |
| IconCaching.MatchedNameRecovered | src/openHAB.Core/Services/IconCaching.cs:76 | removing `icon/` from the match leaves the matched name |
| IconCaching.FileNameIsMatchedName | src/openHAB.Core/Services/IconCaching.cs:61-76 | the file name is the letters and digits after the leftmost `icon/`, a dot and the format |
| IconCaching.CacheKeyIgnoresState | src/openHAB.Core/Services/IconCaching.cs:55-77 | for versions Two to Four both patterns always match, and two states of one icon share one cache path |
| IconCaching.OldServersAreNotCached | src/openHAB.Core/Services/IconCaching.cs:57-72 | on an older server, an icon and server URL without `=` never match the state pattern, so the remote URL is used |
| IconCaching.PathWithoutNullKept | src/openHAB.Core/Services/IconCaching.cs:77 | a path without `NULL` is unchanged by the removal |
| IconCaching.WrittenFromStart | src/openHAB.Core/Services/IconCaching.cs:123-126 | writing through `FileMode.OpenOrCreate` without truncation: the body comes first, a longer existing content keeps its tail, and the length is the larger of the two |
| IconCaching.IconCache.constructor | src/openHAB.Core/Services/IconCaching.cs:35-47 | the cache starts from the given directory and files |
| IconCaching.IconCache.EnsureIconCacheFolder | src/openHAB.Core/Services/IconCaching.cs:141-151 | the directory exists afterwards; files are untouched |
| IconCaching.IconCache.DownloadAndSaveIconToCache | src/openHAB.Core/Services/IconCaching.cs:95-129 | false iff no connection resolves. A fetched body is written over the start of the file whatever its status, leaving the tail of a longer existing file; a new file holds just the body; the result is true. A failure on the way throws and writes nothing |
| IconCaching.IconCache.ResolveIconPath | src/openHAB.Core/Services/IconCaching.cs:50-93 | no current connection throws. If a pattern does not match, the URL is returned. A cached file's path is returned without a download. Otherwise the path is returned after a successful download, else the URL |
| IconCaching.IconCache.ClearIconCache | src/openHAB.Core/Services/IconCaching.cs:132-139 | no directory and no files remain |
| ItemManager.ItemManager.constructor | src/openHAB.Core/Services/ItemManager.cs:15-20 | the cache starts empty |
| ItemManager.ItemManager.TryGetItem | src/openHAB.Core/Services/ItemManager.cs:22-31 | a fetch happens iff the name is not cached. A hit answers from the cache and changes nothing. A miss stores the fetched item, null included, under the name. A failed fetch stores nothing. Existing entries are never changed or removed. After a success the name is cached with the returned item, so the next call is a hit |
| NotificationManager.IconFormat | src/openHAB.Core/Notification/NotificationManager.cs:36 | the format is "svg" whatever the setting |
| NotificationManager.NotificationsAllowed | src/openHAB.Core/Notification/NotificationManager.cs:42 | a toast is allowed unless notifications are switched off explicitly; null allows |
| NotificationManager.LabelOf | src/openHAB.Core/Notification/NotificationManager.cs:52 | the item's label, or "NA" exactly when there is no item or no label |
| NotificationManager.GetMessage | src/openHAB.Core/Notification/NotificationManager.cs:92-112 | the state-change template iff the old value is non-empty, otherwise the simple one; the arguments are always name, old value, new value |
| NotificationManager.CreateToastMessage | src/openHAB.Core/Notification/NotificationManager.cs:72-88 | arguments `action=show` and `item=<name>`, the fixed title, and the app logo exactly when the image is empty |
| NotificationManager.IconRequestFor | src/openHAB.Core/Notification/NotificationManager.cs:53-56 | the icon is the lower-cased category when there is one. The state URL-decodes to the UTF-8 of the item's state, or of "ON" |
| NotificationManager.HandleUpdateItemMessage | src/openHAB.Core/Notification/NotificationManager.cs:39-70 | no toast iff notifications are switched off explicitly. A known item shows its label ("NA" when missing) and its resolved icon. An unknown one shows its raw name and the app logo. The message is always `GetMessage` of the shown name |
| SettingsService.MigrateLegacyNamespace | src/openHAB.Core/Services/SettingsService.cs:59-62 | the text changes only if it contains the legacy name, and it never grows, the current name being shorter |
| SettingsService.CurrentFileUnchanged | src/openHAB.Core/Services/SettingsService.cs:59-62 | a file without the legacy name is read as it is |
| SettingsService.LegacyReferenceRewritten | src/openHAB.Core/Services/SettingsService.cs:59-62 | a file that starts with its only legacy name has it replaced by the current one |
| SettingsService.LoadSettings | src/openHAB.Core/Services/SettingsService.cs:36-66 | Load, case by case:<br>- kept settings are returned without reading;<br>- a missing or empty file gives defaults, which are not kept;<br>- otherwise the rewritten text is deserialised: settings are kept and returned, null keeps nothing and returns null, malformed text throws |
| SettingsService.LoadIsStable | src/openHAB.Core/Services/SettingsService.cs:38-65 | once settings are kept, loading again returns them whatever the file now holds |
| SettingsService.ProgramLanguage | src/openHAB.Core/Services/SettingsService.cs:89-106 | the argument if non-empty, else the saved language if non-empty, else the first preferred language |
| SettingsService.SettingsService.constructor | src/openHAB.Core/Services/SettingsService.cs:24-28 | nothing is kept at first |
| SettingsService.SettingsService.Load | src/openHAB.Core/Services/SettingsService.cs:36-66 | result and kept settings are those of `LoadSettings` on the entry state |
| SettingsService.SettingsService.Save | src/openHAB.Core/Services/SettingsService.cs:69-86 | the settings are kept before writing, so every later Load returns them; the result is whether writing succeeded |
| SettingsService.SettingsService.SetProgramLanguage | src/openHAB.Core/Services/SettingsService.cs:89-106 | a non-empty argument is used directly. Otherwise Load runs, and null or unreadable settings throw. Then `ProgramLanguage` decides, and no preferred language throws |
| AppManager.CanEnableAutostart | src/openHAB.Core/Services/AppManager.cs:37-41 | false iff the start-up task is disabled by policy or by the user |
| AppManager.IsStartupEnabled | src/openHAB.Core/Services/AppManager.cs:44-48 | enabled exactly for Enabled and EnabledByPolicy, and an enabled task can be enabled |
| AppManager.EnabledTasksCanBeEnabled | src/openHAB.Core/Services/AppManager.cs:37-48 | an enabled task can be enabled; one that cannot is not enabled |
| AppManager.ToggleAutostart | src/openHAB.Core/Services/AppManager.cs:71-89 | enabling is requested for the three disabled states; the two enabled states are disabled; any other value does nothing |
| AppManager.ToggleOpposesCurrentState | src/openHAB.Core/Services/AppManager.cs:44-89 | toggling disables an enabled task and asks to enable any other, even one policy keeps disabled |
| AppManager.SetProgramLanguage | src/openHAB.Core/Services/AppManager.cs:51-68 | the same fallback as the settings service over the options' language; no language only when all three are missing |
| MainViewModel.CanExecuteRefreshCommand | src/openHAB.Windows/ViewModel/MainViewModel.cs:163-166 | refreshing is possible iff no load is running |
| MainViewModel.LoadingAfter | src/openHAB.Windows/ViewModel/MainViewModel.cs:277-292 | after handling messages the loading flag is that of the last data-operation message, Started meaning loading; without one it is unchanged |
| MainViewModel.LoadMessages | src/openHAB.Windows/ViewModel/MainViewModel.cs:202-249 | Completed is always sent last, also on the early return of an overlapping load. Otherwise Started comes first. A null list sends NotConfigured and an OpenHABException its message, each exactly in its own case |
| MainViewModel.LoadEndsWithRefreshEnabled | src/openHAB.Windows/ViewModel/MainViewModel.cs:244-292 | once a load's messages are handled, refreshing is enabled, whatever path the load took |
| MainViewModel.RefreshDisabledDuringLoad | src/openHAB.Windows/ViewModel/MainViewModel.cs:215-292 | between a load's Started and Completed, refreshing is disabled |
| MainViewModel.FirstNamed | src/openHAB.Windows/ViewModel/MainViewModel.cs:263 | the index of the first sitemap with the name, or none iff none has it |
| MainViewModel.OpenLastOrDefaultSitemap | src/openHAB.Windows/ViewModel/MainViewModel.cs:251-271 | null iff the list is empty, and always a listed sitemap. A blank or absent last name gives the first. Otherwise the result is the first sitemap with that name |
| MainViewModel.Cleared | src/openHAB.Windows/ViewModel/MainViewModel.cs:216 | a list is emptied; no list stays none |
| MainViewModel.MainViewModel.constructor | src/openHAB.Windows/ViewModel/MainViewModel.cs:149-153 | not loading, no sitemaps, nothing selected |
| MainViewModel.MainViewModel.DataOperationState | src/openHAB.Windows/ViewModel/MainViewModel.cs:277-292 | Started sets the loading flag and Completed clears it; nothing else changes |
| MainViewModel.MainViewModel.SetSelectedSitemap | src/openHAB.Windows/ViewModel/MainViewModel.cs:119-143 | a change to a sitemap records its name as the last sitemap and saves the settings; otherwise the settings stay |
| MainViewModel.MainViewModel.LoadData | src/openHAB.Windows/ViewModel/MainViewModel.cs:202-249 | the messages are `LoadMessages`, and the loading flag is untouched. An overlapping load changes nothing. Otherwise the list is cleared. A fetched list replaces it, starts the item updates once and opens `OpenLastOrDefaultSitemap`; when that changes the selection its name is saved as the last sitemap and the settings are kept by the settings service, otherwise settings and kept settings stay. A failed load keeps the settings service's state |
| ConfigurationViewModel.AppLanguages | src/openHAB.Windows/ViewModel/ConfigurationViewModel.cs:281-289 | exactly System (null), English (en-US) and Deutsch (de-DE), in that order |
| ConfigurationViewModel.SelectLanguage | src/openHAB.Windows/ViewModel/ConfigurationViewModel.cs:67 | the first language whose code equals the saved one ignoring case (two nulls are equal), none iff none matches |
| ConfigurationViewModel.SavedLanguageSelection | src/openHAB.Windows/ViewModel/ConfigurationViewModel.cs:67 | no saved language selects System. A code equal to en-US or de-DE, ignoring case, selects that language. Any other code selects nothing |
| ConfigurationViewModel.Notifications | src/openHAB.Windows/ViewModel/ConfigurationViewModel.cs:268-274 | every change raises its own notification and an IsDirty one, except IsDirty and the two autostart flags; IsDirty raises nothing more |
| ConfigurationViewModel.ConfigurationViewModel.constructor | src/openHAB.Windows/ViewModel/ConfigurationViewModel.cs:39-70 | the flags are copied from the settings, and the saved language is selected among the offered ones. The model is dirty only if a connection dialog is |
| ConfigurationViewModel.ConfigurationViewModel.IsDirty | src/openHAB.Windows/ViewModel/ConfigurationViewModel.cs:121 | dirty iff the model or either connection dialog is |
| ConfigurationViewModel.ConfigurationViewModel.IsConnectionConfigValid | src/openHAB.Windows/ViewModel/ConfigurationViewModel.cs:242-251 | throws iff the demo flag is null. Otherwise it is valid iff demo mode is on, or a side has a non-empty Url with status OK |
| ConfigurationViewModel.ValidityIgnoresPreferences | src/openHAB.Windows/ViewModel/ConfigurationViewModel.cs:242-251 | validity depends only on the demo flag and the two connection dialogs; with a non-null flag a usable side always makes it valid |
| ConfigurationViewModel.ConfigurationViewModel.SetIsRunningInDemoMode | src/openHAB.Windows/ViewModel/ConfigurationViewModel.cs:126-136 | a change is stored in the model and the settings and makes IsDirty true; no change does nothing and leaves IsDirty. Demo on makes the configuration valid, null makes validity throw, demo off makes it valid iff a side is usable |
| ConfigurationViewModel.ConfigurationViewModel.SetNotificationsEnable | src/openHAB.Windows/ViewModel/ConfigurationViewModel.cs:151-161 | a change of the notifications flag is stored in the model and the settings and makes IsDirty true; no change does nothing. Validity is unchanged |
| ConfigurationViewModel.ConfigurationViewModel.SetSelectedAppLanguage | src/openHAB.Windows/ViewModel/ConfigurationViewModel.cs:176-186 | a change is stored and makes IsDirty true; no change leaves IsDirty. A change to a language stores its code in the settings. A change to null throws after the selection is stored, and the settings stay as they were. Validity is unchanged |
| ConfigurationViewModel.ConfigurationViewModel.SetShowDefaultSitemap | src/openHAB.Windows/ViewModel/ConfigurationViewModel.cs:192-202 | a change of the default-sitemap flag is stored in the model and the settings and makes IsDirty true; no change does nothing. Validity is unchanged |
| ConfigurationViewModel.ConfigurationViewModel.SetStartAppMinimized | src/openHAB.Windows/ViewModel/ConfigurationViewModel.cs:208-218 | a change of the start-minimised flag is stored in the model and the settings and makes IsDirty true; no change does nothing. Validity is unchanged |
| ConfigurationViewModel.ConfigurationViewModel.SetUseSVGIcons | src/openHAB.Windows/ViewModel/ConfigurationViewModel.cs:225-235 | a change of the SVG flag is stored in the model and the settings and makes IsDirty true; no change does nothing. Validity is unchanged |
| ConfigurationViewModel.ConfigurationViewModel.Save | src/openHAB.Windows/ViewModel/ConfigurationViewModel.cs:257-266 | both dialogs' connections are copied into the settings, which the settings service then keeps; the result is the persistence result. IsDirty and validity are unchanged |
| ConnectionProfiles.GetProfile | src/openHAB.Core.Client/Connection/Models/ConnectionProfiles.cs:11-27 | defined exactly for ids 1 to 4, each mapped to its registered profile; any other id is a missing key |
| ConnectionProfiles.ProfilesDistinct | src/openHAB.Core.Client/Connection/Models/ConnectionProfiles.cs:11-17 | no profile is registered under two ids |
| ConnectionProfiles.GetProfiles | src/openHAB.Core.Client/Connection/Models/ConnectionProfiles.cs:33-36 | a new list of the four profiles in registration order, so changing it leaves the registry alone |
| DeviceType.FamilyName | src/openHAB.Core/Common/DeviceTypeHelper.cs:28-47 | every family but Unidentified has a platform string |
| DeviceType.RecognizeDeviceFamily | src/openHAB.Core/Common/DeviceTypeHelper.cs:24-49 | total. A recognised family is the one whose platform string is the input, exactly and case-sensitively. Unidentified iff no family has it |
| DeviceType.RecognitionRoundTrip | src/openHAB.Core/Common/DeviceTypeHelper.cs:28-44 | every family is recognised from its own platform string |
| Models.DefaultSettings | src/openHAB.Core/Model/Settings.cs:18-24 | new settings: demo mode, notifications, the default sitemap and SVG icons off; everything else null |

## Left out

- The network, the file system, the clock and the UI are not executed.
  - Server answers, stream lines, the settings file and downloads are inputs.
  - The metered-network flag and the start-up task state are inputs.
  - Localised message texts are resource keys.
- Asynchrony and the dispatcher queue are not modelled. Each call runs to
  completion in program order. The loading flag changes only when a
  data-operation message is handled (`DataOperationState`).
- Logging is not modelled.
- Item-update message handlers and the event parser's internals are not
  modelled. The parser is an opaque function of the line, and the stream's
  read failure is the index of the read that throws.
- JSON deserialisation is an oracle (malformed, null or a value). So are
  `Uri` construction and validity: an invalid base address is not
  modelled.
- `ConfigureHttpClient`: a missing Url is modelled as throwing; a Url that
  is not an absolute URI is not modelled.
- `AcceptCertificate` reads the ignore flags of the connection given. A
  null connection, which would throw inside the callback, is not
  modelled.
- `IconCaching.IconCache.DownloadAndSaveIconToCache`: the connection
  resolution inside the download is summarised by its outcome. Its Url
  rewrites and messages are not modelled.
- `IconCaching.IconCache.ResolveIconPath`: the cache directory's own path
  is taken as given. The `NULL` removal is applied to the combined path,
  but only paths without `NULL` are characterised further
  (`PathWithoutNullKept`).
- `OpenHabClient.FilterSitemaps`: filters are opaque, total functions of
  the sitemap. The code evaluates every filter without short-circuiting,
  which only matters for filters with side effects, and those are not
  modelled.
- `SettingsService.MigrateLegacyNamespace`: the rewrite replaces every
  occurrence of the legacy name. Its exact result is characterised only
  for files without the name, and for files that start with their only
  occurrence; in general only that it never grows is proved.
- `SettingsService.SettingsService.SetProgramLanguage` and
  `AppManager.SetProgramLanguage`: setting the culture is reported as the
  chosen code. An unknown culture name is not modelled.
- `NotificationManager.HandleUpdateItemMessage`: the icon resolution is a
  total oracle. A `ResolveIconPath` that throws (no current connection)
  escapes the async handler and is not modelled. The "unknown item" branch
  is modelled, but the item cache never reports a miss: it fetches instead.
- `NotificationManager.IconRequestFor`: `ToLower` is modelled for ASCII
  letters only.
- `Text.EqualsIgnoreCase` is ASCII case-insensitive. Culture-aware case
  folding is not modelled.
- `Text.StartsWithIgnoreCase` and `Text.EndsWith` compare character by
  character, the first with ASCII case folding. The source compares with
  `InvariantCultureIgnoreCase` (src/openHAB.Core.Client/OpenHABClient.cs:322,
  src/openHAB.Core/SDK/OpenHABClient.cs:266 and
  src/openHAB.Core.Client/Connection/ConnectionService.cs:49). Ignorable
  code points such as U+00AD and non-ASCII case folding are therefore not
  modelled; this affects `EventStream.IsDataLine` and the trailing-slash
  test of `ConnectionService.EnsureTrailingSlash`.
- `ItemManager.ItemManager.TryGetItem`: a null item name, which throws in
  the dictionary, is not modelled.
- `MainViewModel.MainViewModel.SetSelectedSitemap`: sitemaps are compared
  as values, not as object references. Messenger registration, breadcrumbs
  and the menu selection are not modelled.
- `MainViewModel.MainViewModel.LoadData`: the cancellation callback
  registered by `LoadData` is not modelled. `StartItemUpdates` is recorded
  only as a count of starts.
- `ConfigurationViewModel`: the view-model base class is not part of this
  model. Its `Set` is taken to assign and mark the model dirty exactly
  when the value changes. The autostart flags, set asynchronously, are
  not modelled. The connection dialogs are reduced to their model, Url,
  status and dirty flag. `Save` does not model the culture change of
  `SetProgramLanguage(null)`.
- `SettingsService.SettingsService.Save`: the settings are kept as a value
  copy. In the source the service keeps the caller's object by reference
  (src/openHAB.Core/Services/SettingsService.cs:74), and that object is the
  application's one shared settings instance. A later in-place change that
  is not saved therefore changes what `Load` returns, and so what
  `SetProgramLanguage(null)` picks; the model does not capture that.
- `MainViewModel.MainViewModel.SetSelectedSitemap` and the
  `ConfigurationViewModel.ConfigurationViewModel` setters and `Save`: each
  view model holds its own settings value. In the source they all update
  the one shared settings object in place
  (src/openHAB.Windows/ViewModel/ConfigurationViewModel.cs:49,
  src/openHAB.Windows/ViewModel/MainViewModel.cs:130-132), so a change made
  through one is seen by the others and by the settings service. That
  sharing and aliasing are not modelled.
- `Encoding.Utf8` and `Encoding.UrlEncode` work on strings of Unicode
  scalar values. A string with a lone surrogate, which the encoders
  replace by the bytes EF BF BD, is not modelled.
- `ConnectionProfiles`: a profile is identified by its kind. The profile
  classes' own properties are not part of this model.
