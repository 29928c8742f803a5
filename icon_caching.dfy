/** The icon cache: an icon is requested from the server through a URL
    that depends on the server version; the icon's name is cut out of that
    URL and becomes the name of a file in the cache directory, which is
    served when it exists and downloaded otherwise. The file system is the
    map of cache files to their contents; the download is an oracle. */
module IconCaching {
  import opened Common
  import opened Text
  import opened Models
  import opened Encoding
  import OpenHabClient

  /** The URL an icon is requested from: the icon service of versions Two
      to Four, otherwise the image folder of older servers. Null parts
      render as empty. */
  function IconUrl(serverUrl: Option<string>, version: OpenHABVersion,
                   icon: Option<string>, state: Option<string>, format: Option<string>): (r: string)
    ensures var base := Interpolate(serverUrl);
      |base| <= |r| && r[..|base|] == base
    ensures var base := Interpolate(serverUrl);
      OpenHabClient.IsSupportedVersion(version) ==>
      |base| + 5 <= |r| && r[|base|..|base| + 5] == "icon/" && EndsWith(r, "&anyFormat=true&iconset=classic")
    ensures var base := Interpolate(serverUrl);
      !OpenHabClient.IsSupportedVersion(version) ==>
      |base| + 7 <= |r| && r[|base|..|base| + 7] == "images/" && EndsWith(r, ".png")
  {
    if OpenHabClient.IsSupportedVersion(version) then
      IconServicePath(serverUrl, icon) + IconServiceQuery(state, format)
    else
      Interpolate(serverUrl) + "images/" + Interpolate(icon) + ".png"
  }

  /** The icon service URL up to its query: `{serverUrl}icon/{icon}?`. */
  function IconServicePath(serverUrl: Option<string>, icon: Option<string>): string {
    Interpolate(serverUrl) + "icon/" + Interpolate(icon) + "?"
  }

  /** The query: `state={state}&format={format}&anyFormat=true&iconset=classic`. */
  function IconServiceQuery(state: Option<string>, format: Option<string>): string {
    "state=" + Interpolate(state) + "&format=" + Interpolate(format) + "&anyFormat=true&iconset=classic"
  }

  /** The longest prefix of `s` made of ASCII letters and digits: what the
      greedy class `[0-9a-zA-Z]*` matches. */
  function AlnumRun(s: string): (r: string)
    ensures |r| <= |s| && r == s[..|r|]
    ensures forall i :: 0 <= i < |r| ==> IsAsciiLetterOrDigit(r[i])
    ensures |r| < |s| ==> !IsAsciiLetterOrDigit(s[|r|])
  {
    if s == [] || !IsAsciiLetterOrDigit(s[0]) then ""
    else [s[0]] + AlnumRun(s[1..])
  }

  /** The value of the match of `icon/[0-9a-zA-Z]*`: at the leftmost `icon/`. */
  function IconNameMatch(url: string): (r: Option<string>)
    ensures r.Some? <==> Contains(url, "icon/")
  {
    match IndexOf(url, "icon/")
    case None => None
    case Some(i) => Some("icon/" + AlnumRun(url[i + 5..]))
  }

  /** `state=[0-9a-zA-Z=]*` matches iff `state=` occurs. */
  predicate StateMatches(url: string) {
    Contains(url, "state=")
  }

  /** The cache file name: the match without `icon/`, a dot and the format. */
  function IconFileName(nameMatch: string, format: Option<string>): string {
    ReplaceAll(nameMatch, "icon/", "") + "." + Interpolate(format)
  }

  /** Path.Combine of a directory and a relative file name: a backslash is
      put between them unless the directory is empty or already ends with
      a separator. */
  function CombinePath(directory: string, fileName: string): (r: string)
    ensures EndsWith(r, fileName)
  {
    if directory == [] then fileName
    else if directory[|directory| - 1] == '\\' || directory[|directory| - 1] == '/' then directory + fileName
    else directory + "\\" + fileName
  }

  /** The cache path of an icon URL, when both patterns match: the
      combined path with every `NULL` removed. */
  function CachePath(directory: string, url: string, format: Option<string>): (r: Option<string>)
    ensures r.Some? <==> Contains(url, "icon/") && StateMatches(url)
  {
    if IconNameMatch(url).None? || !StateMatches(url) then None
    else Some(ReplaceAll(CombinePath(directory, IconFileName(IconNameMatch(url).value, format)), "NULL", ""))
  }

  /** Removing the `icon/` prefix from a match leaves the matched name. */
  lemma MatchedNameRecovered(run: string)
    requires forall i :: 0 <= i < |run| ==> IsAsciiLetterOrDigit(run[i])
    ensures ReplaceAll("icon/" + run, "icon/", "") == run
  {
    var s := "icon/" + run;
    assert s[..5] == "icon/";
    assert s[5..] == run;
    assert '/' !in run;
    AbsentCharacter(run, "icon/", '/');
    ReplaceAbsent(run, "icon/", "");
  }

  /** The cache file name is the run of letters and digits after the
      leftmost `icon/`, a dot and the format. */
  lemma FileNameIsMatchedName(url: string, format: Option<string>)
    requires Contains(url, "icon/")
    ensures IconFileName(IconNameMatch(url).value, format)
         == AlnumRun(url[IndexOf(url, "icon/").value + 5..]) + "." + Interpolate(format)
  {
    MatchedNameRecovered(AlnumRun(url[IndexOf(url, "icon/").value + 5..]));
  }

  /** The leftmost occurrence in a string is still the leftmost once more
      text is appended. */
  lemma IndexOfExtend(a: string, b: string, p: string)
    requires |p| > 0 && IndexOf(a, p).Some?
    ensures IndexOf(a + b, p) == IndexOf(a, p)
  {
    var i := IndexOf(a, p).value;
    assert OccursAt(a + b, p, i) by {
      assert (a + b)[i..i + |p|] == a[i..i + |p|];
    }
    assert Contains(a + b, p);
    var r := IndexOf(a + b, p);
    forall j | 0 <= j < i ensures !OccursAt(a + b, p, j) {
      assert !OccursAt(a, p, j);
      assert (a + b)[j..j + |p|] == a[j..j + |p|];
    }
    assert r.value <= i;
    assert r.value == i;
  }

  /** Text after a character outside the class does not change the run. */
  lemma {:induction false} AlnumRunStops(a: string, b: string, k: nat)
    requires k < |a| && !IsAsciiLetterOrDigit(a[k])
    ensures AlnumRun(a + b) == AlnumRun(a)
    decreases k
  {
    if IsAsciiLetterOrDigit(a[0]) {
      assert (a + b)[1..] == a[1..] + b;
      AlnumRunStops(a[1..], b, k - 1);
    }
  }

  /** Text after the first `icon/` and a later non-alphanumeric
      character plays no part in the name match. */
  lemma NameMatchIgnoresTail(head: string, tail: string, at: nat)
    requires OccursAt(head, "icon/", at) && at + 5 < |head|
    requires !IsAsciiLetterOrDigit(head[|head| - 1])
    ensures IconNameMatch(head + tail) == IconNameMatch(head)
  {
    assert Contains(head, "icon/");
    var i := IndexOf(head, "icon/").value;
    assert i <= at;
    IndexOfExtend(head, tail, "icon/");
    NameMatchAt(head, i);
    NameMatchAt(head + tail, i);
    RunIgnoresTail(head, tail, i + 5);
  }

  /** The run starting at n ends before text appended after a character
      outside the class. */
  lemma RunIgnoresTail(head: string, tail: string, n: nat)
    requires n < |head| && !IsAsciiLetterOrDigit(head[|head| - 1])
    ensures AlnumRun((head + tail)[n..]) == AlnumRun(head[n..])
  {
    var rest := head[n..];
    assert rest[|rest| - 1] == head[|head| - 1];
    assert (head + tail)[n..] == rest + tail;
    AlnumRunStops(rest, tail, |rest| - 1);
  }

  /** The name match is taken at the leftmost `icon/`. */
  lemma NameMatchAt(url: string, i: nat)
    requires IndexOf(url, "icon/") == Some(i)
    ensures IconNameMatch(url) == Some("icon/" + AlnumRun(url[i + 5..]))
  {
  }

  /** The icon service path holds `icon/` right after the server URL,
      followed by at least `?`, and ends with `?`. */
  lemma ServicePathShape(serverUrl: Option<string>, icon: Option<string>)
    ensures var head := IconServicePath(serverUrl, icon);
      var at := |Interpolate(serverUrl)|;
      OccursAt(head, "icon/", at) && at + 5 < |head| && head[|head| - 1] == '?'
  {
    var head := IconServicePath(serverUrl, icon);
    var at := |Interpolate(serverUrl)|;
    assert head == Interpolate(serverUrl) + ("icon/" + Interpolate(icon) + "?");
    assert head[at..at + 5] == "icon/";
  }

  /** The query starts with `state=`. */
  lemma QueryShape(state: Option<string>, format: Option<string>)
    ensures var query := IconServiceQuery(state, format);
      |query| >= 6 && query[..6] == "state="
  {
    var query := IconServiceQuery(state, format);
    assert query == "state=" + (Interpolate(state) + "&format=" + Interpolate(format) + "&anyFormat=true&iconset=classic");
  }

  /** For the versions with an icon service both patterns always match,
      and the cache path does not depend on the state: every state of an
      icon is served from one cache file. */
  lemma CacheKeyIgnoresState(directory: string, serverUrl: Option<string>, version: OpenHABVersion,
                             icon: Option<string>, state1: Option<string>, state2: Option<string>,
                             format: Option<string>)
    requires OpenHabClient.IsSupportedVersion(version)
    ensures CachePath(directory, IconUrl(serverUrl, version, icon, state1, format), format).Some?
    ensures CachePath(directory, IconUrl(serverUrl, version, icon, state1, format), format)
         == CachePath(directory, IconUrl(serverUrl, version, icon, state2, format), format)
  {
    var head := IconServicePath(serverUrl, icon);
    ServicePathShape(serverUrl, icon);
    QueryShape(state1, format);
    QueryShape(state2, format);
    StateIgnored(head, IconServiceQuery(state1, format), |Interpolate(serverUrl)|);
    StateIgnored(head, IconServiceQuery(state2, format), |Interpolate(serverUrl)|);
  }

  /** The URL of one state: its name match is that of the part before the
      query, and the state pattern matches. */
  lemma StateIgnored(head: string, query: string, at: nat)
    requires OccursAt(head, "icon/", at) && at + 5 < |head| && head[|head| - 1] == '?'
    requires |query| >= 6 && query[..6] == "state="
    ensures IconNameMatch(head + query) == IconNameMatch(head)
    ensures StateMatches(head + query)
  {
    NameMatchIgnoresTail(head, query, at);
    assert (head + query)[|head|..|head| + 6] == query[..6];
    assert OccursAt(head + query, "state=", |head|);
  }

  /** On a server without the icon service, an icon whose name and server
      URL hold no `=` is never cached: the state pattern cannot match. */
  lemma OldServersAreNotCached(directory: string, serverUrl: string, version: OpenHABVersion,
                               icon: string, state: Option<string>, format: Option<string>)
    requires !OpenHabClient.IsSupportedVersion(version)
    requires '=' !in serverUrl && '=' !in icon
    ensures CachePath(directory, IconUrl(Some(serverUrl), version, Some(icon), state, format), format).None?
  {
    var u := IconUrl(Some(serverUrl), version, Some(icon), state, format);
    assert '=' !in u;
    AbsentCharacter(u, "state=", '=');
  }

  /** A path without `NULL` is left as it is. */
  lemma PathWithoutNullKept(directory: string, fileName: string)
    requires !Contains(CombinePath(directory, fileName), "NULL")
    ensures ReplaceAll(CombinePath(directory, fileName), "NULL", "") == CombinePath(directory, fileName)
  {
    ReplaceAbsent(CombinePath(directory, fileName), "NULL", "");
  }

  /** What the download step finds: no connection resolves, something on
      the way throws (an unknown connection type, a URL that is not
      absolute, a failed request), or the server answers with a status
      and a body. */
  datatype DownloadOutcome = NoConnection | DownloadThrows | Fetched(status: int, body: seq<byte>)

  /** The content of a file opened with FileMode.OpenOrCreate after the body
      is written from its start: the file is not truncated, so the tail of a
      longer existing content stays behind the body. A new file is written
      with no existing content. */
  function WrittenFromStart(existing: seq<byte>, body: seq<byte>): (r: seq<byte>)
    ensures |r| == if |existing| > |body| then |existing| else |body|
    ensures r[..|body|] == body
    ensures forall i :: |body| <= i < |r| ==> r[i] == existing[i]
  {
    if |existing| > |body| then body + existing[|body|..] else body
  }

  /** ResolveIconPath either returns a path or URL, or lets the null
      dereference of a missing current connection escape. */
  datatype IconResolution = Thrown | Resolved(path: string)

  class IconCache {
    /** The full name of the icon cache directory. */
    const iconCacheDirectory: string
    var directoryExists: bool
    /** The cached icon files and their contents. */
    var files: map<string, seq<byte>>

    constructor (iconCacheDirectory: string, directoryExists: bool, files: map<string, seq<byte>>)
      ensures this.iconCacheDirectory == iconCacheDirectory
      ensures this.directoryExists == directoryExists && this.files == files
    {
      this.iconCacheDirectory := iconCacheDirectory;
      this.directoryExists := directoryExists;
      this.files := files;
    }

    /** EnsureIconCacheFolder. */
    method EnsureIconCacheFolder()
      modifies this
      ensures directoryExists && files == old(files)
    {
      directoryExists := true;
    }

    /** DownloadAndSaveIconToCache: false when no connection resolves; a
        throw (None) when the request cannot be made; otherwise the body is
        written over the start of the file at the path, whatever the
        status, and the result is true. A new file holds just the body. */
    method DownloadAndSaveIconToCache(iconUrl: string, iconFilePath: string, download: DownloadOutcome)
      returns (result: Option<bool>)
      modifies this
      ensures result == Some(true) <==> download.Fetched?
      ensures result == Some(false) <==> download.NoConnection?
      ensures download.Fetched? ==>
        files == old(files)[iconFilePath := WrittenFromStart(if iconFilePath in old(files) then old(files)[iconFilePath] else [], download.body)]
      ensures download.Fetched? && iconFilePath !in old(files) ==> files == old(files)[iconFilePath := download.body]
      ensures !download.Fetched? ==> files == old(files)
      ensures directoryExists == old(directoryExists)
    {
      match download {
        case NoConnection => result := Some(false);
        case DownloadThrows => result := None;
        case Fetched(status, body) =>
          var existing := if iconFilePath in files then files[iconFilePath] else [];
          files := files[iconFilePath := WrittenFromStart(existing, body)];
          result := Some(true);
      }
    }

    /** ResolveIconPath: the cached file's path when it exists; otherwise
        the path after a download that reports success; the icon URL when
        a pattern does not match, the download fails or anything throws. */
    method ResolveIconPath(currentConnection: Option<ConnectionSettings>, serverVersion: OpenHABVersion,
                           icon: Option<string>, state: Option<string>, iconFormat: Option<string>,
                           download: DownloadOutcome)
      returns (r: IconResolution)
      modifies this
      ensures currentConnection.None? ==> r == Thrown && files == old(files) && directoryExists == old(directoryExists)
      ensures currentConnection.Some? ==>
        var url := IconUrl(currentConnection.value.url, serverVersion, icon, state, iconFormat);
        var path := CachePath(iconCacheDirectory, url, iconFormat);
        && (path.None? ==> r == Resolved(url) && files == old(files) && directoryExists == old(directoryExists))
        && (path.Some? ==> directoryExists)
        && (path.Some? && path.value in old(files) ==> r == Resolved(path.value) && files == old(files))
        && (path.Some? && path.value !in old(files) ==>
              r == Resolved(if download.Fetched? then path.value else url)
              && files == (if download.Fetched? then old(files)[path.value := download.body] else old(files)))
    {
      if currentConnection.None? {
        return Thrown;
      }
      var url := IconUrl(currentConnection.value.url, serverVersion, icon, state, iconFormat);
      var nameMatch := IconNameMatch(url);
      if nameMatch.None? || !StateMatches(url) {
        return Resolved(url);
      }
      EnsureIconCacheFolder();
      var fileName := IconFileName(nameMatch.value, iconFormat);
      var path := ReplaceAll(CombinePath(iconCacheDirectory, fileName), "NULL", "");
      if path in files {
        return Resolved(path);
      }
      var ok := DownloadAndSaveIconToCache(url, path, download);
      if ok == Some(true) {
        r := Resolved(path);
      } else {
        r := Resolved(url);
      }
    }

    /** ClearIconCache: the directory and every cached file are gone. */
    method ClearIconCache()
      modifies this
      ensures !directoryExists && files == map[]
    {
      EnsureIconCacheFolder();
      directoryExists := false;
      files := map[];
    }
  }
}
