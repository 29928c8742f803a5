/** The openHAB REST client: it holds the connection resolved last and the
    named HTTP client that serves it, loads items and sitemaps, sends
    commands and runs the item-update loop. Every request is answered by
    an oracle `Reply`. Every failure of a loading call surfaces as the
    same exception, "Invalid call", wrapping its cause. */
module OpenHabClient {
  import opened Common
  import opened Models
  import opened EventStream
  import HC = HttpClientConfig
  import CS = ConnectionService

  /** What a request through the HTTP client gets back: no answer (the
      request threw), or a status code and the outcome of deserialising
      the body. */
  datatype Reply<+T> = NoReply | Reply(status: int, body: JsonRead<T>)

  /** The cause an "Invalid call" exception wraps. */
  datatype FailureCause =
    | NullClient
    | TransportError
    | UnsuccessfulStatus(status: int)
    | UnsupportedVersion
    | MalformedJson
    | NullSitemap
    | MissingWidgets
    | NullSitemapList
    | NullFilters

  /** OpenHABException("Invalid call", cause): the only exception the
      loading calls throw. */
  datatype ClientError = InvalidCall(cause: FailureCause)

  /** The versions whose sitemaps the client can read. */
  function IsSupportedVersion(v: OpenHABVersion): (r: bool)
    ensures r <==> Two <= v <= Four
  {
    v == Two || v == Three || v == Four
  }

  /** The request went through and came back with a success status. */
  predicate Delivered<T>(hasClient: bool, reply: Reply<T>) {
    hasClient && reply.Reply? && IsSuccessStatus(reply.status)
  }

  /** Why a request that was not Delivered failed. */
  function RequestFailure<T>(hasClient: bool, reply: Reply<T>): (cause: FailureCause)
    requires !Delivered(hasClient, reply)
    ensures cause == NullClient <==> !hasClient
    ensures hasClient && reply.Reply? ==> cause == UnsuccessfulStatus(reply.status)
  {
    if !hasClient then NullClient
    else if reply.NoReply? then TransportError
    else UnsuccessfulStatus(reply.status)
  }

  /** The result of a command: whether it succeeded, the status code if
      there was a response, and whether an exception was caught. */
  datatype CommandResult = CommandResult(content: bool, statusCode: Option<int>, caughtException: bool)

  /** SendCommand either returns a result or lets an exception escape. */
  datatype CommandOutcome = Returned(result: CommandResult) | Thrown

  /** How the POST of a command ends: a response with its status, an
      exception SendCommand catches (HttpRequestException or
      ArgumentNullException), or any other exception, such as the
      TaskCanceledException of a timeout, which it does not catch. */
  datatype PostReply = Answered(status: int) | RequestFailed | OtherFailure

  /** How StartItemUpdates ends: an exception before its try block escapes
      the fire-and-forget method, otherwise the loop ends as it ends. */
  datatype UpdatesEnd = Crashed | Ended(how: StreamEnd)

  /** The event stream as the server serves it: not at all, or as lines
      with the index of the read that throws, if one does. */
  datatype StreamReply = StreamUnavailable | StreamLines(lines: seq<Option<string>>, failAt: Option<nat>)

  /** A sitemap passes the filters iff each of them accepts it; this is
      the fold `isIncluded &= filter(sitemap)` over the filter list. */
  function IsIncluded(s: Sitemap, filters: seq<Sitemap -> bool>): (r: bool)
    ensures filters == [] ==> r
    ensures r && |filters| > 0 ==> filters[|filters| - 1](s) && IsIncluded(s, filters[..|filters| - 1])
  {
    if filters == [] then true
    else IsIncluded(s, filters[..|filters| - 1]) && filters[|filters| - 1](s)
  }

  lemma {:induction false} IsIncludedIffAll(s: Sitemap, filters: seq<Sitemap -> bool>)
    ensures IsIncluded(s, filters) <==> forall i :: 0 <= i < |filters| ==> filters[i](s)
    decreases |filters|
  {
    if filters != [] {
      var init := filters[..|filters| - 1];
      IsIncludedIffAll(s, init);
      assert forall i :: 0 <= i < |init| ==> init[i] == filters[i];
    }
  }

  /** `sitemaps.Where(IsIncluded).ToList()`: the sitemaps every filter
      accepts, in their order. */
  function FilterSitemaps(sitemaps: seq<Sitemap>, filters: seq<Sitemap -> bool>): (r: seq<Sitemap>)
    ensures |r| <= |sitemaps|
  {
    if sitemaps == [] then []
    else
      var init := sitemaps[..|sitemaps| - 1];
      var last := sitemaps[|sitemaps| - 1];
      FilterSitemaps(init, filters) + (if IsIncluded(last, filters) then [last] else [])
  }

  /** A sitemap is kept iff it is listed and every filter accepts it. */
  lemma {:induction false} FilterSitemapsMembers(sitemaps: seq<Sitemap>, filters: seq<Sitemap -> bool>)
    ensures forall s :: s in FilterSitemaps(sitemaps, filters) <==> s in sitemaps && IsIncluded(s, filters)
    decreases |sitemaps|
  {
    if sitemaps != [] {
      var init, last := sitemaps[..|sitemaps| - 1], sitemaps[|sitemaps| - 1];
      FilterSitemapsMembers(init, filters);
      assert sitemaps == init + [last];
    }
  }

  /** Filtering preserves order: it distributes over concatenation. */
  lemma {:induction false} FilterSitemapsAppend(a: seq<Sitemap>, b: seq<Sitemap>, filters: seq<Sitemap -> bool>)
    ensures FilterSitemaps(a + b, filters) == FilterSitemaps(a, filters) + FilterSitemaps(b, filters)
    decreases |b|
  {
    if b == [] {
      assert a + b == a;
    } else {
      var b', last := b[..|b| - 1], b[|b| - 1];
      var kept := if IsIncluded(last, filters) then [last] else [];
      assert (a + b)[..|a + b| - 1] == a + b' && (a + b)[|a + b| - 1] == last;
      FilterSitemapsAppend(a, b', filters);
      assert FilterSitemaps(a + b, filters) == FilterSitemaps(a + b', filters) + kept;
      assert FilterSitemaps(b, filters) == FilterSitemaps(b', filters) + kept;
      assert FilterSitemaps(a, filters) + FilterSitemaps(b', filters) + kept
          == FilterSitemaps(a, filters) + (FilterSitemaps(b', filters) + kept);
    }
  }

  /** An empty filter list keeps every sitemap. */
  lemma {:induction false} NoFiltersKeepAll(sitemaps: seq<Sitemap>)
    ensures FilterSitemaps(sitemaps, []) == sitemaps
    decreases |sitemaps|
  {
    if sitemaps != [] {
      NoFiltersKeepAll(sitemaps[..|sitemaps| - 1]);
    }
  }

  /** The widgets `sitemap?.Homepage?.Widgets ?? []`. */
  function WidgetsOf(s: Option<Sitemap>): (r: seq<Widget>)
    ensures r != [] ==> s.Some? && s.value.homepage.Some? && s.value.homepage.value.widgets == Some(r)
  {
    if s.Some? && s.value.homepage.Some? && s.value.homepage.value.widgets.Some? then
      s.value.homepage.value.widgets.value
    else []
  }

  class OpenHABClient {
    /** The resolved connection (`_connection`). */
    var connection: CS.Connection?
    /** The name of the named HTTP client in use (`_httpClient`); None
        until a connection of a known type has been resolved. */
    var httpClient: Option<string>

    constructor ()
      ensures connection == null && httpClient.None?
    {
      connection := null;
      httpClient := None;
    }

    /** ResetConnection: resolves a connection through the service (a
        null demo flag counts as off). No connection: false, and the
        client and connection stay as they were. Otherwise the client
        named after the connection's type is taken (an unknown type keeps
        the old client), the connection is stored and the result is true. */
    method ResetConnection(service: CS.ConnectionService, local: CS.Connection?, remote: CS.Connection?,
                           isRunningInDemoMode: Option<bool>, metered: bool, server: CS.Server)
      returns (ok: bool, sent: seq<CS.ConnectionErrorMessage>)
      modifies this, service, local, remote
      ensures service.Retrieved(local, remote, isRunningInDemoMode == Some(true), metered, server,
                                if ok then connection else null, sent)
      ensures !ok ==> connection == old(connection) && httpClient == old(httpClient) && service.current == old(service.current)
      ensures ok ==> connection != null && connection == service.current
      ensures ok ==> httpClient == (if HC.ClientNameOf(connection.clientType).Some?
                                    then HC.ClientNameOf(connection.clientType) else old(httpClient))
    {
      var isDemoMode := isRunningInDemoMode.Some? && isRunningInDemoMode.value;
      var resolved;
      resolved, sent := service.DetectAndRetrieveConnection(local, remote, isDemoMode, metered, server);
      if resolved == null {
        return false, sent;
      }
      UseConnection(resolved);
      return true, sent;
    }

    /** The tail of ResetConnection once a connection is resolved: the
        client named after its type is taken (an unknown type keeps the
        old client) and the connection is stored. */
    method UseConnection(resolved: CS.Connection)
      modifies this
      ensures connection == resolved
      ensures httpClient == (if HC.ClientNameOf(resolved.clientType).Some?
                             then HC.ClientNameOf(resolved.clientType) else old(httpClient))
    {
      match resolved.clientType {
        case Local => httpClient := Some("local");
        case Remote => httpClient := Some("remote");
        case OtherClientType =>
      }
      connection := resolved;
    }

    /** SendCommand: a null item returns a failed result without a
        request. A null command makes the request content throw an
        ArgumentNullException, which is caught before the client is
        touched. Otherwise the command is posted: with no client the null
        dereference escapes; a request exception is caught and returns a
        failed result; any other exception escapes; a response returns
        whether its status is a success. */
    method SendCommand(item: Option<Item>, command: Option<string>, post: PostReply)
      returns (outcome: CommandOutcome, requested: bool)
      ensures requested <==> item.Some? && command.Some? && httpClient.Some?
      ensures item.None? ==> outcome == Returned(CommandResult(false, None, false))
      ensures item.Some? && command.None? ==> outcome == Returned(CommandResult(false, None, true))
      ensures item.Some? && command.Some? && httpClient.None? ==> outcome == Thrown
      ensures requested ==> (outcome.Thrown? <==> post.OtherFailure?)
      ensures requested && outcome.Returned? ==>
        && (outcome.result.content <==> post.Answered? && IsSuccessStatus(post.status))
        && (outcome.result.caughtException <==> post.RequestFailed?)
        && outcome.result.statusCode == (if post.Answered? then Some(post.status) else None)
    {
      if item.None? {
        return Returned(CommandResult(false, None, false)), false;
      }
      if command.None? {
        return Returned(CommandResult(false, None, true)), false;
      }
      if httpClient.None? {
        return Thrown, false;
      }
      match post {
        case Answered(status) => outcome := Returned(CommandResult(IsSuccessStatus(status), Some(status), false));
        case RequestFailed => outcome := Returned(CommandResult(false, None, true));
        case OtherFailure => outcome := Thrown;
      }
      requested := true;
    }

    /** GetItemByName: the item the server returns; any failure is an
        "Invalid call". */
    method GetItemByName(itemName: string, reply: Reply<Item>) returns (r: Result<Option<Item>, ClientError>)
      ensures r.Ok? <==> Delivered(httpClient.Some?, reply) && !reply.body.Malformed?
      ensures r.Ok? ==> r.value == (if reply.body.Parsed? then Some(reply.body.value) else None)
      ensures !Delivered(httpClient.Some?, reply) ==> r == Err(InvalidCall(RequestFailure(httpClient.Some?, reply)))
    {
      if !Delivered(httpClient.Some?, reply) {
        return Err(InvalidCall(RequestFailure(httpClient.Some?, reply)));
      }
      match reply.body {
        case Malformed => r := Err(InvalidCall(MalformedJson));
        case JsonNull => r := Ok(None);
        case Parsed(item) => r := Ok(Some(item));
      }
    }

    /** GetSitemap: only versions Two, Three and Four are read; a null
        sitemap fails when its name is logged; every failure, the version
        rejection included, is an "Invalid call". */
    method GetSitemap(sitemapLink: string, version: OpenHABVersion, reply: Reply<Sitemap>)
      returns (r: Result<Sitemap, ClientError>)
      ensures r.Ok? <==> Delivered(httpClient.Some?, reply) && IsSupportedVersion(version) && reply.body.Parsed?
      ensures r.Ok? ==> r.value == reply.body.value
      ensures Delivered(httpClient.Some?, reply) && !IsSupportedVersion(version) ==> r == Err(InvalidCall(UnsupportedVersion))
    {
      if !Delivered(httpClient.Some?, reply) {
        return Err(InvalidCall(RequestFailure(httpClient.Some?, reply)));
      }
      if !(version == Two || version == Three || version == Four) {
        return Err(InvalidCall(UnsupportedVersion));
      }
      match reply.body {
        case Malformed => r := Err(InvalidCall(MalformedJson));
        case JsonNull => r := Err(InvalidCall(NullSitemap));
        case Parsed(sitemap) => r := Ok(sitemap);
      }
    }

    /** LoadItemsFromSitemap: the same version gate; a null sitemap, a
        missing homepage or missing widgets give the empty collection. */
    method LoadItemsFromSitemap(sitemapLink: string, version: OpenHABVersion, reply: Reply<Sitemap>)
      returns (r: Result<seq<Widget>, ClientError>)
      ensures r.Ok? <==> Delivered(httpClient.Some?, reply) && IsSupportedVersion(version) && !reply.body.Malformed?
      ensures r.Ok? ==> r.value == WidgetsOf(if reply.body.Parsed? then Some(reply.body.value) else None)
      ensures Delivered(httpClient.Some?, reply) && !IsSupportedVersion(version) ==> r == Err(InvalidCall(UnsupportedVersion))
    {
      if !Delivered(httpClient.Some?, reply) {
        return Err(InvalidCall(RequestFailure(httpClient.Some?, reply)));
      }
      if version != Two && version != Three && version != Four {
        return Err(InvalidCall(UnsupportedVersion));
      }
      match reply.body {
        case Malformed => r := Err(InvalidCall(MalformedJson));
        case JsonNull => r := Ok(WidgetsOf(None));
        case Parsed(sitemap) => r := Ok(WidgetsOf(Some(sitemap)));
      }
    }

    /** LoadSitemaps: a null list gives the empty list; otherwise the
        sitemaps all filters accept, in order. A null filter list fails
        as soon as there is a sitemap to test. */
    method LoadSitemaps(version: OpenHABVersion, filters: Option<seq<Sitemap -> bool>>, reply: Reply<seq<Sitemap>>)
      returns (r: Result<seq<Sitemap>, ClientError>)
      ensures r.Ok? <==> Delivered(httpClient.Some?, reply) && !reply.body.Malformed?
                         && !(reply.body.Parsed? && reply.body.value != [] && filters.None?)
      ensures r.Ok? && reply.body.JsonNull? ==> r.value == []
      ensures r.Ok? && reply.body.Parsed? && filters.Some? ==> r.value == FilterSitemaps(reply.body.value, filters.value)
      ensures r.Ok? ==> forall s :: s in r.value ==> reply.body.Parsed? && s in reply.body.value
    {
      if !Delivered(httpClient.Some?, reply) {
        return Err(InvalidCall(RequestFailure(httpClient.Some?, reply)));
      }
      match reply.body {
        case Malformed => r := Err(InvalidCall(MalformedJson));
        case JsonNull => r := Ok([]);
        case Parsed(sitemaps) =>
          if sitemaps == [] {
            r := Ok([]);
          } else if filters.None? {
            r := Err(InvalidCall(NullFilters));
          } else {
            FilterSitemapsMembers(sitemaps, filters.value);
            r := Ok(FilterSitemaps(sitemaps, filters.value));
          }
      }
    }

    /** StartItemUpdates: with no HTTP client the log line before the try
        block throws out of the fire-and-forget method; a stream that
        cannot be opened ends the run with nothing sent; otherwise the
        event loop runs over its lines. */
    method StartItemUpdates(cancelAt: Option<nat>, stream: StreamReply, parse: string -> ParseOutcome)
      returns (sent: seq<ItemMessage>, ended: UpdatesEnd)
      ensures httpClient.None? ==> ended == Crashed && sent == []
      ensures httpClient.Some? && stream.StreamUnavailable? ==> ended == Ended(Failed) && sent == []
      ensures httpClient.Some? && stream.StreamLines? ==>
        var h := Halt(stream.lines, 0, cancelAt, stream.failAt, parse);
        ended == Ended(h.1) && sent == Dispatched(stream.lines[..h.0], parse)
    {
      if httpClient.None? {
        return [], Crashed;
      }
      if stream.StreamUnavailable? {
        return [], Ended(Failed);
      }
      var parserInputs, consumed, how;
      sent, parserInputs, consumed, how := PumpEvents(stream.lines, cancelAt, stream.failAt, parse);
      ended := Ended(how);
    }
  }
}
