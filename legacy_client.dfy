/** The earlier openHAB client of the SDK layer. It asks an HTTP client
    factory for a client on every call (`hasClient` says whether that
    yields one), reads versions Two and Three only, and takes the resolved
    connection as given. */
module LegacyClient {
  import opened Common
  import opened Models
  import opened EventStream
  import opened OpenHabClient

  /** The versions whose sitemap items this client can read. */
  function IsLegacySupportedVersion(v: OpenHABVersion): (r: bool)
    ensures r <==> IsSupportedVersion(v) && v != Four
  {
    v == Two || v == Three
  }

  class LegacyOpenHABClient {
    /** The resolved connection (`_connection`). */
    var connection: Option<ConnectionSettings>
    /** How many times the HTTP client factory has been reset. */
    var clientResets: nat

    constructor ()
      ensures connection.None? && clientResets == 0
    {
      connection := None;
      clientResets := 0;
    }

    /** ResetConnection: no resolved connection gives false and changes
        nothing; otherwise the connection is stored, the HTTP client is
        reset and the result is true. */
    method ResetConnection(resolved: Option<ConnectionSettings>) returns (ok: bool)
      modifies this
      ensures ok <==> resolved.Some?
      ensures !ok ==> connection == old(connection) && clientResets == old(clientResets)
      ensures ok ==> connection == resolved && clientResets == old(clientResets) + 1
    {
      if resolved.None? {
        return false;
      }
      connection := resolved;
      clientResets := clientResets + 1;
      return true;
    }

    /** SendCommand: a null item returns a failed result without a request.
        Here the client is obtained first, and a failure to obtain it
        escapes. A null command then makes the request content throw an
        ArgumentNullException, which is caught. Otherwise as in the current
        client: any exception other than a request exception escapes. */
    method SendCommand(item: Option<Item>, command: Option<string>, hasClient: bool, post: PostReply)
      returns (outcome: CommandOutcome, requested: bool)
      ensures requested <==> item.Some? && hasClient && command.Some?
      ensures item.None? ==> outcome == Returned(CommandResult(false, None, false))
      ensures item.Some? && !hasClient ==> outcome == Thrown
      ensures item.Some? && hasClient && command.None? ==> outcome == Returned(CommandResult(false, None, true))
      ensures requested ==> (outcome.Thrown? <==> post.OtherFailure?)
      ensures requested && outcome.Returned? ==>
        && (outcome.result.content <==> post.Answered? && IsSuccessStatus(post.status))
        && (outcome.result.caughtException <==> post.RequestFailed?)
        && outcome.result.statusCode == (if post.Answered? then Some(post.status) else None)
    {
      if item.None? {
        return Returned(CommandResult(false, None, false)), false;
      }
      if !hasClient {
        return Thrown, false;
      }
      if command.None? {
        return Returned(CommandResult(false, None, true)), false;
      }
      match post {
        case Answered(status) => outcome := Returned(CommandResult(IsSuccessStatus(status), Some(status), false));
        case RequestFailed => outcome := Returned(CommandResult(false, None, true));
        case OtherFailure => outcome := Thrown;
      }
      requested := true;
    }

    /** LoadItemsFromSitemap: a null sitemap fails when its name is logged;
        only versions Two and Three are read, and the homepage must carry a
        widget list; every failure is an "Invalid call". */
    method LoadItemsFromSitemap(sitemap: Option<Sitemap>, version: OpenHABVersion, hasClient: bool, reply: Reply<Sitemap>)
      returns (r: Result<seq<Widget>, ClientError>)
      ensures r.Ok? <==>
        sitemap.Some? && Delivered(hasClient, reply) && IsLegacySupportedVersion(version)
        && reply.body.Parsed? && reply.body.value.homepage.Some? && reply.body.value.homepage.value.widgets.Some?
      ensures r.Ok? ==> r.value == reply.body.value.homepage.value.widgets.value
      ensures sitemap.Some? && Delivered(hasClient, reply) && !IsLegacySupportedVersion(version)
              ==> r == Err(InvalidCall(UnsupportedVersion))
    {
      if sitemap.None? {
        return Err(InvalidCall(NullSitemap));
      }
      if !Delivered(hasClient, reply) {
        return Err(InvalidCall(RequestFailure(hasClient, reply)));
      }
      if !(version == Two || version == Three) {
        return Err(InvalidCall(UnsupportedVersion));
      }
      match reply.body {
        case Malformed => r := Err(InvalidCall(MalformedJson));
        case JsonNull => r := Err(InvalidCall(MalformedJson));
        case Parsed(s) =>
          if s.homepage.None? || s.homepage.value.widgets.None? {
            r := Err(InvalidCall(MissingWidgets));
          } else {
            r := Ok(s.homepage.value.widgets.value);
          }
      }
    }

    /** GetItemByName: the item the server returns; any failure is an
        "Invalid call". */
    method GetItemByName(itemName: string, hasClient: bool, reply: Reply<Item>) returns (r: Result<Option<Item>, ClientError>)
      ensures r.Ok? <==> Delivered(hasClient, reply) && !reply.body.Malformed?
      ensures r.Ok? ==> r.value == (if reply.body.Parsed? then Some(reply.body.value) else None)
    {
      if !Delivered(hasClient, reply) {
        return Err(InvalidCall(RequestFailure(hasClient, reply)));
      }
      match reply.body {
        case Malformed => r := Err(InvalidCall(MalformedJson));
        case JsonNull => r := Ok(None);
        case Parsed(item) => r := Ok(Some(item));
      }
    }

    /** LoadSiteMaps: the sitemaps all filters accept, in order; a null
        list fails when it is counted, and a null filter list fails as soon
        as there is a sitemap to test. */
    method LoadSiteMaps(version: OpenHABVersion, filters: Option<seq<Sitemap -> bool>>, hasClient: bool, reply: Reply<seq<Sitemap>>)
      returns (r: Result<seq<Sitemap>, ClientError>)
      ensures r.Ok? <==> Delivered(hasClient, reply) && reply.body.Parsed?
                         && !(reply.body.value != [] && filters.None?)
      ensures r.Ok? && filters.Some? ==> r.value == FilterSitemaps(reply.body.value, filters.value)
      ensures r.Ok? ==> forall s :: s in r.value ==> s in reply.body.value
      ensures Delivered(hasClient, reply) && reply.body.JsonNull? ==> r == Err(InvalidCall(NullSitemapList))
    {
      if !Delivered(hasClient, reply) {
        return Err(InvalidCall(RequestFailure(hasClient, reply)));
      }
      match reply.body {
        case Malformed => r := Err(InvalidCall(MalformedJson));
        case JsonNull => r := Err(InvalidCall(NullSitemapList));
        case Parsed(sitemaps) =>
          if sitemaps == [] {
            r := Ok([]);
          } else if filters.None? {
            r := Err(InvalidCall(NullFilters));
          } else {
            FilterSitemapsMembers(sitemaps, filters.value);
            r := Ok(FilterSitemaps(sitemaps, filters.value));
          }
      }
    }

    /** StartItemUpdates: with no client the log line before the try block
        faults the background task, which escapes; otherwise as the
        current client's loop. */
    method StartItemUpdates(cancelAt: Option<nat>, hasClient: bool, stream: StreamReply, parse: string -> ParseOutcome)
      returns (sent: seq<ItemMessage>, ended: UpdatesEnd)
      ensures !hasClient ==> ended == Crashed && sent == []
      ensures hasClient && stream.StreamUnavailable? ==> ended == Ended(Failed) && sent == []
      ensures hasClient && stream.StreamLines? ==>
        var h := Halt(stream.lines, 0, cancelAt, stream.failAt, parse);
        ended == Ended(h.1) && sent == Dispatched(stream.lines[..h.0], parse)
    {
      if !hasClient {
        return [], Crashed;
      }
      if stream.StreamUnavailable? {
        return [], Ended(Failed);
      }
      var parserInputs, consumed, how;
      sent, parserInputs, consumed, how := PumpEvents(stream.lines, cancelAt, stream.failAt, parse);
      ended := Ended(how);
    }
  }

  /** The legacy client reads strictly fewer versions than the current
      one: Four is read by the current client only. */
  lemma LegacyVersionsNarrower(v: OpenHABVersion)
    ensures IsLegacySupportedVersion(v) ==> IsSupportedVersion(v)
    ensures IsSupportedVersion(Four) && !IsLegacySupportedVersion(Four)
  {
  }
}
