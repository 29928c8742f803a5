/** How the two named HTTP clients are set up: which connection each one
    is bound to, its base address and Basic authentication header
    (section 2 of RFC 7617, Base64 as in section 4 of RFC 4648), and the
    rule that decides whether a server certificate with errors is
    accepted. */
module HttpClientConfig {
  import opened Common
  import opened Text
  import opened Models
  import opened Encoding

  /** The connection options the registrations read. */
  datatype ConnectionOptions = ConnectionOptions(
    isRunningInDemoMode: Option<bool>,
    localConnection: Option<ConnectionSettings>,
    remoteConnection: Option<ConnectionSettings>)

  /** One named client registration and the connection it is configured from. */
  datatype ClientRegistration = ClientRegistration(name: string, connection: Option<ConnectionSettings>)

  /** The name of the client a connection of the given type is served by;
      other types have none. */
  function ClientNameOf(t: HttpClientType): (r: Option<string>)
    ensures r.Some? <==> t != OtherClientType
  {
    match t
    case Local => Some("local")
    case Remote => Some("remote")
    case OtherClientType => None
  }

  /** AddOpenHabHttpClients: the registrations, in order. */
  function RegisteredClients(options: ConnectionOptions): seq<ClientRegistration> {
    [ClientRegistration("local", options.localConnection),
     ClientRegistration("remote", options.remoteConnection)]
  }

  /** The connection the client with the given name is configured from,
      if a client of that name is registered. */
  function BoundConnection(regs: seq<ClientRegistration>, name: string): Option<Option<ConnectionSettings>> {
    if |regs| == 0 then None
    else if regs[0].name == name then Some(regs[0].connection)
    else BoundConnection(regs[1..], name)
  }

  /** Exactly two clients are registered, under distinct names, and the
      client a connection type selects is configured from the connection
      of that side. */
  lemma ClientsMatchConnectionTypes(options: ConnectionOptions)
    ensures var regs := RegisteredClients(options);
      |regs| == 2 && regs[0].name != regs[1].name
      && BoundConnection(regs, ClientNameOf(Local).value) == Some(options.localConnection)
      && BoundConnection(regs, ClientNameOf(Remote).value) == Some(options.remoteConnection)
      && forall name :: name != "local" && name != "remote" ==> BoundConnection(regs, name).None?
  {
    var regs := RegisteredClients(options);
    assert regs[1..][1..] == [];
    forall name | name != "local" && name != "remote"
      ensures BoundConnection(regs, name).None?
    {
      assert BoundConnection(regs[1..][1..], name).None?;
    }
  }

  // ------------------------------------------------- Basic authentication

  /** An Authorization header value: a scheme and its parameter. */
  datatype AuthenticationHeaderValue = AuthenticationHeaderValue(scheme: string, parameter: string)

  /** The credentials parameter: Base64 of the UTF-8 bytes of `user:password`. */
  function BasicCredentials(user: string, password: string): string {
    Base64Encode(Utf8(user + ":" + password))
  }

  /** The header ConfigureHttpClient sets for a connection, if any: only
      when both the user name and the password are non-null and
      non-empty, and then scheme Basic over credentials that decode back
      to `user:password`. */
  function AuthorizationFor(c: ConnectionSettings): (r: Option<AuthenticationHeaderValue>)
    ensures r.Some? <==> !IsNullOrEmpty(c.username) && !IsNullOrEmpty(c.password)
    ensures r.Some? ==> r.value.scheme == "Basic"
    ensures r.Some? ==>
      && Base64Decode(r.value.parameter) == Some(Utf8(c.username.value + ":" + c.password.value))
      && Utf8Decode(Base64Decode(r.value.parameter).value) == Some(c.username.value + ":" + c.password.value)
  {
    if !IsNullOrEmpty(c.username) && !IsNullOrEmpty(c.password) then
      var text := c.username.value + ":" + c.password.value;
      Base64RoundTrip(Utf8(text));
      Utf8RoundTrip(text);
      Some(AuthenticationHeaderValue("Basic", BasicCredentials(c.username.value, c.password.value)))
    else
      None
  }

  /** How a server splits decoded credentials: at the first colon. */
  function SplitCredentials(s: string): Option<(string, string)> {
    match IndexOf(s, ":")
    case None => None
    case Some(i) => Some((s[..i], s[i + 1..]))
  }

  /** A user name without a colon, as section 2 of RFC 7617 demands, and any
      password are recovered from the header the client sends. */
  lemma BasicCredentialsRecovered(user: string, password: string)
    requires user != "" && password != ""
    requires ':' !in user
    ensures var h := AuthorizationFor(ConnectionSettings(Local, None, Some(user), Some(password), None, None));
      h.Some? && SplitCredentials(Utf8Decode(Base64Decode(h.value.parameter).value).value) == Some((user, password))
  {
    var s := user + ":" + password;
    assert OccursAt(s, ":", |user|) by { assert s[|user|..|user| + 1] == [':']; }
    forall j | 0 <= j < |user| ensures !OccursAt(s, ":", j) {
      assert s[j..j + 1] == [user[j]];
      assert user[j] in user;
    }
    var i := IndexOf(s, ":");
    assert i == Some(|user|);
    assert s[..|user|] == user && s[|user| + 1..] == password;
  }

  /** The HTTP client's settable defaults. */
  class HttpClient {
    var baseAddress: Option<string>
    var authorization: Option<AuthenticationHeaderValue>

    constructor ()
      ensures baseAddress.None? && authorization.None?
    {
      baseAddress := None;
      authorization := None;
    }
  }

  /** Why configuring a client throws: no connection, or no Url to build
      the base address from. */
  datatype ConfigureError = NullConnection | NullUrl

  /** ConfigureHttpClient: the base address becomes the connection's Url
      and the Basic header is set exactly when AuthorizationFor gives one;
      otherwise the header is left as it was. */
  method ConfigureHttpClient(client: HttpClient, connection: Option<ConnectionSettings>)
    returns (error: Option<ConfigureError>)
    modifies client
    ensures connection.None? ==> error == Some(NullConnection) && unchanged(client)
    ensures connection.Some? && connection.value.url.None? ==> error == Some(NullUrl) && unchanged(client)
    ensures connection.Some? && connection.value.url.Some? ==>
      error.None? && client.baseAddress == connection.value.url
      && client.authorization == (if AuthorizationFor(connection.value).Some? then AuthorizationFor(connection.value)
                                  else old(client.authorization))
  {
    if connection.None? {
      return Some(NullConnection);
    }
    if connection.value.url.None? {
      return Some(NullUrl);
    }
    client.baseAddress := connection.value.url;
    var c := connection.value;
    if !IsNullOrEmpty(c.username) && !IsNullOrEmpty(c.password) {
      client.authorization := Some(AuthenticationHeaderValue("Basic", BasicCredentials(c.username.value, c.password.value)));
    }
    return None;
  }

  // ------------------------------------------------ certificate callback

  /** The flags of SslPolicyErrors; a set of them is one flags value, and
      the empty set is None. */
  datatype SslPolicyError = RemoteCertificateNotAvailable | RemoteCertificateNameMismatch | RemoteCertificateChainErrors

  /** The certificate validation callback: no errors accept; chain errors
      need the ignore-certificate flag, a name mismatch the ignore-hostname
      flag (null counts as false); a missing certificate always rejects. */
  function AcceptCertificate(errors: set<SslPolicyError>, ignoreCertificate: Option<bool>, ignoreHostname: Option<bool>): (accepted: bool)
    ensures errors == {} ==> accepted
    ensures accepted <==>
      RemoteCertificateNotAvailable !in errors
      && (RemoteCertificateChainErrors in errors ==> ignoreCertificate == Some(true))
      && (RemoteCertificateNameMismatch in errors ==> ignoreHostname == Some(true))
  {
    if errors == {} then true
    else
      var afterChain := if RemoteCertificateChainErrors in errors then ignoreCertificate.GetOr(false) else true;
      var afterName := if RemoteCertificateNameMismatch in errors then afterChain && ignoreHostname.GetOr(false) else afterChain;
      if RemoteCertificateNotAvailable in errors then false else afterName
  }

  /** Removing an error never turns acceptance into rejection, and neither
      does switching an ignore flag on. */
  lemma AcceptanceMonotone(errors: set<SslPolicyError>, fewer: set<SslPolicyError>,
                           ignoreCertificate: Option<bool>, ignoreHostname: Option<bool>)
    requires fewer <= errors
    requires AcceptCertificate(errors, ignoreCertificate, ignoreHostname)
    ensures AcceptCertificate(fewer, ignoreCertificate, ignoreHostname)
    ensures AcceptCertificate(errors, Some(true), ignoreHostname)
    ensures AcceptCertificate(errors, ignoreCertificate, Some(true))
  {
  }

  /** With both ignore flags on, the only certificate rejected is a missing one. */
  lemma IgnoreBothAcceptsAllButMissing(errors: set<SslPolicyError>)
    ensures AcceptCertificate(errors, Some(true), Some(true)) <==> RemoteCertificateNotAvailable !in errors
  {
  }
}
