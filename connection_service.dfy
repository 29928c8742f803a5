/** The connection service: it decides which configured connection the
    client talks to (demo, local or remote), probes a server through the
    named HTTP client of a connection, and remembers the last connection it
    handed out. The network is an oracle: `Server` says what GET rest/
    answers through the "local" and through the "remote" client. The
    metered-network flag is a parameter. */
module ConnectionService {
  import opened Common
  import opened Text
  import opened Models
  import opened ServerVersion

  /** A connection object; the service rewrites its Url in place. */
  class Connection {
    var clientType: HttpClientType
    var url: Option<string>
    var username: Option<string>
    var password: Option<string>
    var ignoreCertificate: Option<bool>
    var ignoreHostname: Option<bool>

    constructor (s: ConnectionSettings)
      ensures Snapshot() == s
    {
      clientType := s.clientType;
      url := s.url;
      username := s.username;
      password := s.password;
      ignoreCertificate := s.ignoreCertificate;
      ignoreHostname := s.ignoreHostname;
    }

    /** The fields of the connection as a value. */
    function Snapshot(): ConnectionSettings
      reads this
    {
      ConnectionSettings(clientType, url, username, password, ignoreCertificate, ignoreHostname)
    }
  }

  /** `connection?.Url`. */
  function UrlOf(c: Option<ConnectionSettings>): Option<string> {
    if c.None? then None else c.value.url
  }

  function SnapshotOf(c: Connection?): Option<ConnectionSettings>
    reads c
  {
    if c == null then None else Some(c.Snapshot())
  }

  // ------------------------------------------------------------ probing

  /** What GET rest/ gives through one named client: no answer at all, or a
      status code and the outcome of deserialising the body. */
  datatype ProbeResponse = TransportFailure | Response(status: int, body: JsonRead<ApiInfo>)

  /** The server as seen through the "local" and the "remote" client. */
  datatype Server = Server(local: ProbeResponse, remote: ProbeResponse)

  /** HttpResponseResult<ServerInfo>: content and status, or the exception. */
  datatype ProbeResult = Probed(info: ServerInfo, status: int) | ProbeFailed(error: ProbeError)

  /** The named client a connection type selects; other types have none. */
  function ResponseFor(t: HttpClientType, server: Server): Option<ProbeResponse> {
    match t
    case Local => Some(server.local)
    case Remote => Some(server.remote)
    case OtherClientType => None
  }

  /** GetOpenHABServerInfo(connection). The request goes through the client
      named after the connection's Type; the connection's Url plays no part.
      Every failure is returned, none is thrown. A null connection is
      `clientType == None`. */
  function GetOpenHABServerInfo(clientType: Option<HttpClientType>, server: Server): (r: ProbeResult)
    ensures r.Probed? <==>
      clientType.Some? && ResponseFor(clientType.value, server).Some?
      && var resp := ResponseFor(clientType.value, server).value;
         resp.Response? && IsSuccessStatus(resp.status) && resp.body.Parsed?
         && ClassifyServerInfo(resp.body.value).Ok?
    ensures r.Probed? ==>
      var resp := ResponseFor(clientType.value, server).value;
      r.status == resp.status && r.info == ClassifyServerInfo(resp.body.value).value
    ensures clientType.Some? && ResponseFor(clientType.value, server).Some?
            && ResponseFor(clientType.value, server).value.Response?
            && !IsSuccessStatus(ResponseFor(clientType.value, server).value.status)
            ==> r == ProbeFailed(UnsuccessfulStatus(ResponseFor(clientType.value, server).value.status))
  {
    if clientType.None? then ProbeFailed(NullResponse)
    else match ResponseFor(clientType.value, server)
      case None => ProbeFailed(InvalidConnectionType)
      case Some(TransportFailure) => ProbeFailed(TransportError)
      case Some(Response(status, body)) =>
        if !IsSuccessStatus(status) then ProbeFailed(UnsuccessfulStatus(status))
        else match body
          case Malformed => ProbeFailed(MalformedResponse)
          case JsonNull => ProbeFailed(NullResponse)
          case Parsed(info) =>
            match ClassifyServerInfo(info)
            case Ok(si) => Probed(si, status)
            case Err(e) => ProbeFailed(e)
  }

  /** A connection of the given type reaches the server. */
  predicate Answers(t: HttpClientType, server: Server) {
    GetOpenHABServerInfo(Some(t), server).Probed?
  }

  /** The Url rewrite CheckUrlReachability performs: a `/` is appended
      unless the Url already ends with one. */
  function EnsureTrailingSlash(u: string): (r: string)
    ensures EndsWith(r, "/")
    ensures |u| <= |r| <= |u| + 1 && r[..|u|] == u
    ensures EndsWith(u, "/") ==> r == u
  {
    if EndsWith(u, "/") then u else u + "/"
  }

  lemma EnsureTrailingSlashIdempotent(u: string)
    ensures EnsureTrailingSlash(EnsureTrailingSlash(u)) == EnsureTrailingSlash(u)
  {
  }

  /** The Url after a reachability check: a blank Url is left alone. */
  function Normalised(u: Option<string>): (r: Option<string>)
    ensures IsNullOrWhiteSpace(r) <==> IsNullOrWhiteSpace(u)
    ensures IsNullOrWhiteSpace(u) ==> r == u
  {
    if IsNullOrWhiteSpace(u) then u
    else
      var r := EnsureTrailingSlash(u.value);
      assert !IsWhiteSpace(r[|r| - 1]);
      Some(r)
  }

  lemma NormalisedIdempotent(u: Option<string>)
    ensures Normalised(Normalised(u)) == Normalised(u)
  {
  }

  /** The outcome of CheckUrlReachability on a connection with these fields:
      a missing or blank Url is unreachable without a request, otherwise
      the connection is reachable iff the probe yields server information. */
  predicate Reachable(c: Option<ConnectionSettings>, server: Server) {
    c.Some? && !IsNullOrWhiteSpace(c.value.url) && Answers(c.value.clientType, server)
  }

  // ---------------------------------------------------------- resolution

  datatype Side = LocalSide | RemoteSide

  datatype Choice = NoConnection | DemoConnection | LocalConnection | RemoteConnection

  /** The connection DetectAndRetrieveConnection hands out, the
      connections it checked for reachability, in order, and the number of
      ConnectionTestFailed error messages it sent. */
  datatype Resolution = Resolution(choice: Choice, checked: seq<Side>, failureMessages: nat)

  /** The decision procedure of DetectAndRetrieveConnection, on the fields
      of the two connections as they are on entry. */
  function Decide(local: Option<ConnectionSettings>, remote: Option<ConnectionSettings>,
                  demo: bool, metered: bool, server: Server): (r: Resolution)
    // nothing configured and no demo: no connection, nothing checked
    ensures IsNullOrWhiteSpace(UrlOf(local)) && IsNullOrWhiteSpace(UrlOf(remote)) && !demo
            ==> r == Resolution(NoConnection, [], 0)
    // demo mode wins over everything and checks nothing
    ensures demo ==> r == Resolution(DemoConnection, [], 0)
    // metered: the remote connection unchecked, if its Url is non-null and non-empty
    ensures !demo && metered && !(IsNullOrWhiteSpace(UrlOf(local)) && IsNullOrWhiteSpace(UrlOf(remote)))
            ==> r.checked == [] && r.failureMessages == 0
                && r.choice == (if IsNullOrEmpty(UrlOf(remote)) then NoConnection else RemoteConnection)
    // otherwise local first: a reachable local connection is taken and remote is never checked
    ensures !demo && !metered && Reachable(local, server) ==> r == Resolution(LocalConnection, [LocalSide], 0)
    // then remote, checked only when its Url is not blank; failure sends one message
    ensures !demo && !metered && !Reachable(local, server)
            && !(IsNullOrWhiteSpace(UrlOf(local)) && IsNullOrWhiteSpace(UrlOf(remote)))
            ==> r.checked == (if IsNullOrWhiteSpace(UrlOf(remote)) then [LocalSide] else [LocalSide, RemoteSide])
                && (r.choice == RemoteConnection <==> Reachable(remote, server))
                && (r.choice == NoConnection <==> !Reachable(remote, server))
                && r.failureMessages == (if Reachable(remote, server) then 0 else 1)
  {
    if IsNullOrWhiteSpace(UrlOf(local)) && IsNullOrWhiteSpace(UrlOf(remote)) && !demo then
      Resolution(NoConnection, [], 0)
    else if demo then
      Resolution(DemoConnection, [], 0)
    else if metered then
      Resolution(if IsNullOrEmpty(UrlOf(remote)) then NoConnection else RemoteConnection, [], 0)
    else if Reachable(local, server) then
      Resolution(LocalConnection, [LocalSide], 0)
    else if IsNullOrWhiteSpace(UrlOf(remote)) then
      Resolution(NoConnection, [LocalSide], 1)
    else if !Reachable(remote, server) then
      Resolution(NoConnection, [LocalSide, RemoteSide], 1)
    else
      Resolution(RemoteConnection, [LocalSide, RemoteSide], 0)
  }

  /** Apart from the metered case, a connection is only handed out after it
      was checked and found reachable. */
  lemma ChosenConnectionWasReachable(local: Option<ConnectionSettings>, remote: Option<ConnectionSettings>,
                                     demo: bool, metered: bool, server: Server)
    ensures var r := Decide(local, remote, demo, metered, server);
      (r.choice == LocalConnection ==> LocalSide in r.checked && Reachable(local, server))
      && (r.choice == RemoteConnection && !metered ==> RemoteSide in r.checked && Reachable(remote, server))
      && (r.choice == RemoteConnection ==> !IsNullOrEmpty(UrlOf(remote)))
  {
  }

  /** The metered rule tests the remote Url with IsNullOrEmpty, the others
      with IsNullOrWhiteSpace: on a metered network a non-empty remote Url
      made only of white space is handed out, while off it the same Url is
      never checked. */
  lemma MeteredAcceptsBlankRemote(local: ConnectionSettings, remote: ConnectionSettings, server: Server)
    requires !IsNullOrWhiteSpace(local.url)
    requires !IsNullOrEmpty(remote.url) && IsNullOrWhiteSpace(remote.url)
    ensures Decide(Some(local), Some(remote), false, true, server).choice == RemoteConnection
    ensures RemoteSide !in Decide(Some(local), Some(remote), false, false, server).checked
  {
  }

  /** At most one error message is sent, and only when no connection is
      handed out after the local check failed. */
  lemma FailureMessageOnlyAfterLocalCheck(local: Option<ConnectionSettings>, remote: Option<ConnectionSettings>,
                                          demo: bool, metered: bool, server: Server)
    ensures var r := Decide(local, remote, demo, metered, server);
      r.failureMessages <= 1
      && (r.failureMessages == 1 <==> r.choice == NoConnection && LocalSide in r.checked)
  {
  }

  /** The message the messenger receives when no connection could be
      reached; its text is the ConnectionTestFailed resource. */
  datatype ConnectionErrorMessage = ConnectionErrorMessage(resourceKey: string)

  const ConnectionTestFailed: ConnectionErrorMessage := ConnectionErrorMessage("ConnectionTestFailed")

  /** The Url of a connection after DetectAndRetrieveConnection: it was
      normalised iff the connection object was checked, under either name. */
  function UrlAfter(u: Option<string>, checkedAs: bool): Option<string> {
    if checkedAs then Normalised(u) else u
  }

  class ConnectionService {
    /** CurrentConnection. */
    var current: Connection?
    /** The connection settings of the demo profile. */
    const demoProfile: ConnectionSettings

    constructor (demoProfile: ConnectionSettings)
      ensures this.demoProfile == demoProfile && current == null
    {
      this.demoProfile := demoProfile;
      current := null;
    }

    /** CheckUrlReachability: a null connection or a blank Url gives false
        and changes nothing; otherwise the Url gains a trailing `/` if it
        lacks one, and the result is whether the probe yields server
        information. */
    method CheckUrlReachability(connection: Connection?, server: Server) returns (reachable: bool)
      modifies connection
      ensures reachable == Reachable(old(SnapshotOf(connection)), server)
      ensures connection != null ==>
        connection.Snapshot() == old(connection.Snapshot()).(url := Normalised(old(connection.url)))
    {
      if connection == null || IsNullOrWhiteSpace(connection.url) {
        return false;
      }
      if !EndsWith(connection.url.value, "/") {
        connection.url := Some(connection.url.value + "/");
      }
      var probe := GetOpenHABServerInfo(Some(connection.clientType), server);
      reachable := probe.Probed?;
    }

    /** What DetectAndRetrieveConnection promises about its result, its
        messages and the two connections, between the heap on entry and
        the heap on return. */
    twostate predicate Retrieved(local: Connection?, remote: Connection?, demo: bool, metered: bool, server: Server,
                                 new result: Connection?, sent: seq<ConnectionErrorMessage>)
      reads local, remote, result
    {
      var d := Decide(old(SnapshotOf(local)), old(SnapshotOf(remote)), demo, metered, server);
      (result == null <==> d.choice == NoConnection)
      && (d.choice == LocalConnection ==> result == local)
      && (d.choice == RemoteConnection ==> result == remote)
      && (d.choice == DemoConnection ==> result != null && fresh(result) && result.Snapshot() == demoProfile)
      && sent == seq(d.failureMessages, _ => ConnectionTestFailed)
      && (local != null ==> local.Snapshot() == old(local.Snapshot()).(url :=
            UrlAfter(old(local.url), LocalSide in d.checked || (local == remote && RemoteSide in d.checked))))
      && (remote != null ==> remote.Snapshot() == old(remote.Snapshot()).(url :=
            UrlAfter(old(remote.url), RemoteSide in d.checked || (local == remote && LocalSide in d.checked))))
    }

    /** DetectAndRetrieveConnection, proved against Decide: the result, the
        checks made and the messages sent are those Decide gives for the
        connections as they were on entry; CurrentConnection changes only
        when a connection is handed out; only checked connections have
        their Url rewritten. */
    method DetectAndRetrieveConnection(local: Connection?, remote: Connection?, demo: bool, metered: bool, server: Server)
      returns (result: Connection?, sent: seq<ConnectionErrorMessage>)
      modifies this, local, remote
      ensures Retrieved(local, remote, demo, metered, server, result, sent)
      ensures result != null ==> current == result
      ensures result == null ==> current == old(current)
    {
      ghost var localBefore, remoteBefore := SnapshotOf(local), SnapshotOf(remote);
      ghost var d := Decide(localBefore, remoteBefore, demo, metered, server);
      sent := [];
      if IsNullOrWhiteSpace(UrlOf(SnapshotOf(local))) && IsNullOrWhiteSpace(UrlOf(SnapshotOf(remote))) && !demo {
        return null, sent;
      }
      if demo {
        var c := new Connection(demoProfile);
        current := c;
        return c, sent;
      }
      if metered {
        if IsNullOrEmpty(UrlOf(SnapshotOf(remote))) {
          return null, sent;
        }
        current := remote;
        return remote, sent;
      }
      var ok := CheckUrlReachability(local, server);
      if ok {
        current := local;
        return local, sent;
      }
      // the remote Url is read after the local check, which rewrites it when
      // both names denote one object; blankness is unaffected
      assert IsNullOrWhiteSpace(UrlOf(SnapshotOf(remote))) == IsNullOrWhiteSpace(UrlOf(remoteBefore));
      if IsNullOrWhiteSpace(UrlOf(SnapshotOf(remote))) {
        sent := [ConnectionTestFailed];
        return null, sent;
      }
      ok := CheckUrlReachability(remote, server);
      if !ok {
        sent := [ConnectionTestFailed];
        return null, sent;
      }
      current := remote;
      return remote, sent;
    }
  }
}
