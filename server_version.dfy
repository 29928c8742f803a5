/** How the connection service classifies the server it probes: the body of
    GET rest/ names an API version and a runtime version; an API version
    below 4 means an openHAB 2 server, otherwise the runtime version is
    scrubbed of everything but digits and dots and its major component is
    the server version. The .NET parsers involved (int.TryParse with
    NumberStyles.Integer, Version.TryParse) are modelled here. */
module ServerVersion {
  import opened Common
  import opened Text
  import opened Models

  const Int32Min: int := -0x8000_0000
  const Int32Max: int := 0x7FFF_FFFF

  // ------------------------------------------------------- int.TryParse

  predicate AllDigits(s: string) {
    forall i :: 0 <= i < |s| ==> IsDigit(s[i])
  }

  function DigitValue(c: char): (v: int)
    requires IsDigit(c)
    ensures 0 <= v < 10
  {
    c as int - '0' as int
  }

  function DigitChar(v: int): (c: char)
    requires 0 <= v < 10
    ensures IsDigit(c) && DigitValue(c) == v
  {
    ('0' as int + v) as char
  }

  /** The value of a string of decimal digits, most significant first. */
  function DigitsValue(s: string): nat
    requires AllDigits(s)
    decreases |s|
  {
    if s == [] then 0 else DigitsValue(s[..|s| - 1]) * 10 + DigitValue(s[|s| - 1])
  }

  /** The decimal digits of a natural number, without leading zeros. */
  function NatToDigits(n: nat): (s: string)
    ensures |s| > 0 && AllDigits(s)
    decreases n
  {
    if n < 10 then [DigitChar(n)] else NatToDigits(n / 10) + [DigitChar(n % 10)]
  }

  lemma {:induction false} DigitsRoundTrip(n: nat)
    ensures DigitsValue(NatToDigits(n)) == n
    decreases n
  {
    if n >= 10 {
      var s := NatToDigits(n);
      assert s[..|s| - 1] == NatToDigits(n / 10);
      DigitsRoundTrip(n / 10);
    }
  }

  /** The white space NumberStyles.AllowLeadingWhite and AllowTrailingWhite
      accept: U+0009..U+000D and U+0020. */
  predicate IsIntegerWhite(c: char) {
    (0x09 <= c as int <= 0x0D) || c == ' '
  }

  function TrimStart(s: string): (r: string)
    ensures |r| <= |s| && r == s[|s| - |r|..]
    ensures r == [] || !IsIntegerWhite(r[0])
    decreases |s|
  {
    if s != [] && IsIntegerWhite(s[0]) then TrimStart(s[1..]) else s
  }

  function TrimEnd(s: string): (r: string)
    ensures |r| <= |s| && r == s[..|r|]
    ensures r == [] || !IsIntegerWhite(r[|r| - 1])
    decreases |s|
  {
    if s != [] && IsIntegerWhite(s[|s| - 1]) then TrimEnd(s[..|s| - 1]) else s
  }

  /** int.TryParse(s, out v) with NumberStyles.Integer: optional white space
      around an optional sign and at least one decimal digit, and the value
      must fit in 32 bits. A null string does not parse. */
  function ParseInt32(s: Option<string>): (r: Option<int>)
    ensures r.Some? ==> Int32Min <= r.value <= Int32Max
    ensures s.None? ==> r.None?
  {
    if s.None? then None else ParseSigned(TrimEnd(TrimStart(s.value)))
  }

  /** The trimmed text: an optional sign, then only digits. */
  function ParseSigned(t: string): (r: Option<int>)
    ensures r.Some? ==> Int32Min <= r.value <= Int32Max
  {
    var negative := |t| > 0 && t[0] == '-';
    var digits := if |t| > 0 && (t[0] == '-' || t[0] == '+') then t[1..] else t;
    if |digits| == 0 || !AllDigits(digits) then None
    else
      var v: int := if negative then -(DigitsValue(digits) as int) else DigitsValue(digits);
      if Int32Min <= v <= Int32Max then Some(v) else None
  }

  /** Int32.ToString(): a minus sign for negative values, then the digits. */
  function FormatInt32(n: int): string {
    if n < 0 then "-" + NatToDigits(-n) else NatToDigits(n)
  }

  lemma TrimDigitsUnchanged(s: string)
    requires |s| > 0 && !IsIntegerWhite(s[0]) && !IsIntegerWhite(s[|s| - 1])
    ensures TrimEnd(TrimStart(s)) == s
  {
  }

  lemma ParseSignedFormatted(n: int)
    requires Int32Min <= n <= Int32Max
    ensures ParseSigned(FormatInt32(n)) == Some(n)
  {
    var d := NatToDigits(if n < 0 then -n else n);
    DigitsRoundTrip(if n < 0 then -n else n);
    ParseSignedDigits(FormatInt32(n), n < 0, d);
  }

  /** An optional minus sign followed by digits reads as their value,
      negated after the sign, when that lies in the 32-bit range. */
  lemma ParseSignedDigits(t: string, negative: bool, d: string)
    requires |d| > 0 && AllDigits(d)
    requires t == if negative then "-" + d else d
    ensures var v := if negative then -(DigitsValue(d) as int) else DigitsValue(d);
      ParseSigned(t) == if Int32Min <= v <= Int32Max then Some(v) else None
  {
    assert IsDigit(d[0]);
    if negative {
      assert t[1..] == d;
    }
  }

  /** int.TryParse reads back every 32-bit value Int32.ToString writes. */
  lemma ParseFormattedInt32(n: int)
    requires Int32Min <= n <= Int32Max
    ensures ParseInt32(Some(FormatInt32(n))) == Some(n)
  {
    TrimDigitsUnchanged(FormatInt32(n));
    ParseSignedFormatted(n);
  }

  // ---------------------------------------------------- Version.TryParse

  /** String.Split('.'): the pieces between the dots, empty ones included. */
  function SplitDots(s: string): (r: seq<string>)
    ensures |r| >= 1
    ensures forall i :: 0 <= i < |r| ==> '.' !in r[i]
    decreases |s|
  {
    if s == [] then [""]
    else
      var rest := SplitDots(s[1..]);
      if s[0] == '.' then [""] + rest
      else [[s[0]] + rest[0]] + rest[1..]
  }

  /** The partner of SplitDots: the pieces joined with dots. */
  function JoinDots(parts: seq<string>): string
    requires |parts| >= 1
    decreases |parts|
  {
    if |parts| == 1 then parts[0] else parts[0] + "." + JoinDots(parts[1..])
  }

  lemma {:induction false} SplitDotFreePrefix(p: string, t: string)
    requires '.' !in p
    ensures SplitDots(p + t) == [p + SplitDots(t)[0]] + SplitDots(t)[1..]
    decreases |p|
  {
    if p != [] {
      assert (p + t)[1..] == p[1..] + t;
      SplitDotFreePrefix(p[1..], t);
      assert [p[0]] + (p[1..] + SplitDots(t)[0]) == p + SplitDots(t)[0];
    } else {
      assert p + t == t;
      assert p + SplitDots(t)[0] == SplitDots(t)[0];
    }
  }

  /** Splitting dot-free pieces joined with dots gives the pieces back. */
  lemma {:induction false} SplitJoin(parts: seq<string>)
    requires |parts| >= 1
    requires forall i :: 0 <= i < |parts| ==> '.' !in parts[i]
    ensures SplitDots(JoinDots(parts)) == parts
    decreases |parts|
  {
    if |parts| == 1 {
      SplitDotFreePrefix(parts[0], "");
      assert parts[0] + "" == parts[0];
    } else {
      var rest := JoinDots(parts[1..]);
      SplitJoin(parts[1..]);
      assert ("." + rest)[1..] == rest;
      assert SplitDots("." + rest) == [""] + parts[1..];
      assert parts[0] + "." + rest == parts[0] + ("." + rest);
      SplitDotFreePrefix(parts[0], "." + rest);
      assert parts[0] + "" == parts[0];
      assert [parts[0]] + parts[1..] == parts;
    }
  }

  /** Each component parsed as by int.TryParse and required to be at least 0. */
  function ParseComponents(parts: seq<string>): (r: Option<seq<int>>)
    ensures r.Some? ==> |r.value| == |parts|
    ensures r.Some? ==> forall i :: 0 <= i < |r.value| ==> 0 <= r.value[i] <= Int32Max
    decreases |parts|
  {
    if parts == [] then Some([])
    else match ParseInt32(Some(parts[0]))
      case None => None
      case Some(v) =>
        if v < 0 then None
        else match ParseComponents(parts[1..])
          case None => None
          case Some(rest) => Some([v] + rest)
  }

  /** Version.TryParse: two to four dot-separated components, each a
      non-negative 32-bit integer. The result is the list of components,
      major first. */
  function TryParseVersion(s: string): (r: Option<seq<int>>)
    ensures r.Some? ==> 2 <= |r.value| <= 4
    ensures r.Some? ==> forall i :: 0 <= i < |r.value| ==> 0 <= r.value[i] <= Int32Max
    ensures r.Some? ==> |r.value| == |SplitDots(s)|
  {
    var parts := SplitDots(s);
    if |parts| < 2 || |parts| > 4 then None else ParseComponents(parts)
  }

  /** Each component written in decimal. */
  function DecimalParts(cs: seq<int>): (parts: seq<string>)
    requires forall i :: 0 <= i < |cs| ==> 0 <= cs[i]
    ensures |parts| == |cs|
    ensures forall i :: 0 <= i < |parts| ==> AllDigits(parts[i]) && |parts[i]| > 0
    decreases |cs|
  {
    if cs == [] then [] else [NatToDigits(cs[0])] + DecimalParts(cs[1..])
  }

  /** Version.ToString(): the components joined with dots. */
  function FormatVersion(cs: seq<int>): string
    requires |cs| >= 1
    requires forall i :: 0 <= i < |cs| ==> 0 <= cs[i]
  {
    JoinDots(DecimalParts(cs))
  }

  lemma {:induction false} ParseFormattedComponents(cs: seq<int>)
    requires forall i :: 0 <= i < |cs| ==> 0 <= cs[i] <= Int32Max
    ensures ParseComponents(DecimalParts(cs)) == Some(cs)
    decreases |cs|
  {
    if cs != [] {
      var parts := DecimalParts(cs);
      assert parts[0] == FormatInt32(cs[0]);
      assert parts[1..] == DecimalParts(cs[1..]);
      ParseFormattedInt32(cs[0]);
      ParseFormattedComponents(cs[1..]);
      assert [cs[0]] + cs[1..] == cs;
    }
  }

  /** Version.TryParse reads back every version Version.ToString writes. */
  lemma VersionRoundTrip(cs: seq<int>)
    requires 2 <= |cs| <= 4
    requires forall i :: 0 <= i < |cs| ==> 0 <= cs[i] <= Int32Max
    ensures TryParseVersion(FormatVersion(cs)) == Some(cs)
  {
    var parts := DecimalParts(cs);
    forall i | 0 <= i < |parts| ensures '.' !in parts[i] {
      assert AllDigits(parts[i]);
    }
    SplitJoin(parts);
    ParseFormattedComponents(cs);
  }

  // ------------------------------------------------------ the scrub

  predicate IsVersionChar(c: char) {
    IsDigit(c) || c == '.'
  }

  /** Regex.Replace(s, "[^.0-9]", ""): keep only ASCII digits and dots. */
  function Scrub(s: string): (r: string)
    ensures |r| <= |s|
    ensures forall i :: 0 <= i < |r| ==> IsVersionChar(r[i])
    decreases |s|
  {
    if s == [] then []
    else if IsVersionChar(s[0]) then [s[0]] + Scrub(s[1..])
    else Scrub(s[1..])
  }

  lemma {:induction false} ScrubAppend(a: string, b: string)
    ensures Scrub(a + b) == Scrub(a) + Scrub(b)
    decreases |a|
  {
    if a == [] {
      assert a + b == b;
    } else {
      assert (a + b)[1..] == a[1..] + b;
      ScrubAppend(a[1..], b);
    }
  }

  /** A string of digits and dots passes the scrub unchanged; in particular
      scrubbing twice is scrubbing once. */
  lemma {:induction false} ScrubKeepsVersionText(s: string)
    requires forall i :: 0 <= i < |s| ==> IsVersionChar(s[i])
    ensures Scrub(s) == s
    decreases |s|
  {
    if s != [] {
      ScrubKeepsVersionText(s[1..]);
    }
  }

  lemma ScrubIdempotent(s: string)
    ensures Scrub(Scrub(s)) == Scrub(s)
  {
    ScrubKeepsVersionText(Scrub(s));
  }

  // ------------------------------------------------ the classification

  datatype RuntimeInfo = RuntimeInfo(version: Option<string>, buildString: Option<string>)

  /** The body of GET rest/. */
  datatype ApiInfo = ApiInfo(version: Option<string>, runtimeInfo: Option<RuntimeInfo>)

  datatype ServerInfo = ServerInfo(version: OpenHABVersion, runtimeVersion: Option<string>, build: Option<string>)

  /** Why a probe produced no server information; each stands for the
      exception the probe catches. */
  datatype ProbeError =
    | InvalidConnectionType
    | TransportError
    | UnsuccessfulStatus(status: int)
    | MalformedResponse
    | NullResponse
    | MissingRuntimeInfo
    | MissingRuntimeVersion
    | UnparsableRuntimeVersion

  /** The API version counts as old when it parses as an integer below 4. */
  function IsLegacyApi(info: ApiInfo): (r: bool)
    ensures r ==> info.version.Some?
  {
    var v := ParseInt32(info.version);
    v.Some? && v.value < 4
  }

  /** The part of GetOpenHABServerInfo that follows a successful
      deserialisation of the body. */
  function ClassifyServerInfo(info: ApiInfo): (r: Result<ServerInfo, ProbeError>)
    ensures IsLegacyApi(info) ==> r == Ok(ServerInfo(Two, None, None))
    ensures !IsLegacyApi(info) ==>
      (r.Ok? <==> info.runtimeInfo.Some? && info.runtimeInfo.value.version.Some?
                  && TryParseVersion(Scrub(info.runtimeInfo.value.version.value)).Some?)
    ensures !IsLegacyApi(info) && r.Ok? ==>
      r.value.runtimeVersion == info.runtimeInfo.value.version
      && r.value.build == info.runtimeInfo.value.buildString
      && r.value.version == TryParseVersion(Scrub(info.runtimeInfo.value.version.value)).value[0]
  {
    if IsLegacyApi(info) then Ok(ServerInfo(Two, None, None))
    else if info.runtimeInfo.None? then Err(MissingRuntimeInfo)
    else if info.runtimeInfo.value.version.None? then Err(MissingRuntimeVersion)
    else
      var raw := info.runtimeInfo.value.version.value;
      match TryParseVersion(Scrub(raw))
      case None => Err(UnparsableRuntimeVersion)
      case Some(cs) => Ok(ServerInfo(cs[0], Some(raw), info.runtimeInfo.value.buildString))
  }

  lemma {:induction false} ScrubDropsNoise(s: string)
    requires forall c | c in s :: !IsVersionChar(c)
    ensures Scrub(s) == []
    decreases |s|
  {
    if s != [] {
      assert s[0] in s;
      ScrubDropsNoise(s[1..]);
    }
  }

  lemma ScrubThree(a: string, b: string, c: string)
    requires Scrub(a) == a && Scrub(b) == [] && Scrub(c) == c
    ensures Scrub(a + b + c) == a + c
  {
    ScrubAppend(a, b);
    assert a + [] == a;
    ScrubAppend(a + b, c);
  }

  lemma ParseSingleDigit(d: char)
    requires IsDigit(d)
    ensures ParseInt32(Some([d])) == Some(DigitValue(d))
  {
    assert TrimEnd(TrimStart([d])) == [d];
    assert [d][..0] == [];
    assert DigitsValue([d]) == DigitValue(d);
  }

  /** Digit strings joined with dots hold only digits and dots. */
  lemma {:induction false} JoinDotsIsVersionText(parts: seq<string>)
    requires |parts| >= 1
    requires forall i :: 0 <= i < |parts| ==> AllDigits(parts[i])
    ensures forall k :: 0 <= k < |JoinDots(parts)| ==> IsVersionChar(JoinDots(parts)[k])
    decreases |parts|
  {
    if |parts| > 1 {
      JoinDotsIsVersionText(parts[1..]);
      var head, rest := parts[0] + ".", JoinDots(parts[1..]);
      assert JoinDots(parts) == head + rest;
      forall k | 0 <= k < |head + rest| ensures IsVersionChar((head + rest)[k]) {
        if k < |head| {
          assert k == |parts[0]| || IsDigit(parts[0][k]);
        } else {
          assert (head + rest)[k] == rest[k - |head|];
        }
      }
    }
  }

  /** Appending a piece appends a dot and that piece. */
  lemma {:induction false} JoinDotsSnoc(parts: seq<string>, p: string)
    requires |parts| >= 1
    ensures JoinDots(parts + [p]) == JoinDots(parts) + "." + p
    decreases |parts|
  {
    if |parts| == 1 {
      assert (parts + [p])[1..] == [p];
    } else {
      assert (parts + [p])[1..] == parts[1..] + [p];
      JoinDotsSnoc(parts[1..], p);
      assert parts[0] + "." + (JoinDots(parts[1..]) + "." + p)
          == parts[0] + "." + JoinDots(parts[1..]) + "." + p;
    }
  }

  lemma {:induction false} DecimalPartsSnoc(cs: seq<int>, m: nat)
    requires forall i :: 0 <= i < |cs| ==> 0 <= cs[i]
    ensures DecimalParts(cs + [m]) == DecimalParts(cs) + [NatToDigits(m)]
    decreases |cs|
  {
    if cs == [] {
      assert cs + [m] == [m];
    } else {
      assert (cs + [m])[1..] == cs[1..] + [m];
      DecimalPartsSnoc(cs[1..], m);
    }
  }

  /** A written version followed by a dot passes the scrub unchanged. */
  lemma ReleaseDotKept(release: seq<int>)
    requires |release| >= 1
    requires forall i :: 0 <= i < |release| ==> 0 <= release[i]
    ensures Scrub(FormatVersion(release) + ".") == FormatVersion(release) + "."
  {
    var v := FormatVersion(release);
    JoinDotsIsVersionText(DecimalParts(release));
    forall k | 0 <= k < |v + "."| ensures IsVersionChar((v + ".")[k]) {
      if k < |v| {
        assert (v + ".")[k] == v[k];
      }
    }
    ScrubKeepsVersionText(v + ".");
  }

  /** One more component is written after one more dot. */
  lemma FormatVersionSnoc(cs: seq<int>, m: nat)
    requires |cs| >= 1
    requires forall i :: 0 <= i < |cs| ==> 0 <= cs[i]
    ensures FormatVersion(cs + [m]) == FormatVersion(cs) + "." + NatToDigits(m)
  {
    DecimalPartsSnoc(cs, m);
    JoinDotsSnoc(DecimalParts(cs), NatToDigits(m));
  }

  /** A release followed by a tag without digits or dots, such as
      "4.1.0-SNAPSHOT", is classified under the release's major version on
      any server whose API version is 4 or later; the raw runtime version is
      kept. */
  lemma PreReleaseKeepsMajor(api: int, release: seq<int>, tag: string, build: Option<string>)
    requires 4 <= api <= Int32Max
    requires 2 <= |release| <= 4
    requires forall i :: 0 <= i < |release| ==> 0 <= release[i] <= Int32Max
    requires forall c | c in tag :: !IsVersionChar(c)
    ensures var raw := FormatVersion(release) + tag;
      ClassifyServerInfo(ApiInfo(Some(FormatInt32(api)), Some(RuntimeInfo(Some(raw), build))))
      == Ok(ServerInfo(release[0], Some(raw), build))
  {
    var text := FormatVersion(release);
    ParseFormattedInt32(api);
    JoinDotsIsVersionText(DecimalParts(release));
    ScrubKeepsVersionText(text);
    ScrubDropsNoise(tag);
    ScrubAppend(text, tag);
    assert text + [] == text;
    VersionRoundTrip(release);
  }

  /** The scrub keeps the number of a milestone tag, which becomes one
      more version component: "4.1.0.M1" reads as 4.1.0.1. The major
      version is still that of the release. */
  lemma MilestoneNumberBecomesComponent(api: int, release: seq<int>, tag: string, m: nat, build: Option<string>)
    requires 4 <= api <= Int32Max
    requires 2 <= |release| <= 3
    requires forall i :: 0 <= i < |release| ==> 0 <= release[i] <= Int32Max
    requires m <= Int32Max
    requires forall c | c in tag :: !IsVersionChar(c)
    ensures var raw := FormatVersion(release) + "." + tag + NatToDigits(m);
      TryParseVersion(Scrub(raw)) == Some(release + [m])
      && ClassifyServerInfo(ApiInfo(Some(FormatInt32(api)), Some(RuntimeInfo(Some(raw), build))))
         == Ok(ServerInfo(release[0], Some(raw), build))
  {
    var raw := FormatVersion(release) + "." + tag + NatToDigits(m);
    MilestoneScrub(release, tag, m);
    VersionRoundTrip(release + [m]);
    ClassifiesUnder(api, raw, build, release + [m]);
  }

  /** On a server with API version 4 or later, a runtime version whose
      scrub parses is classified under its first component. */
  lemma ClassifiesUnder(api: int, raw: string, build: Option<string>, cs: seq<int>)
    requires 4 <= api <= Int32Max
    requires |cs| >= 1 && TryParseVersion(Scrub(raw)) == Some(cs)
    ensures ClassifyServerInfo(ApiInfo(Some(FormatInt32(api)), Some(RuntimeInfo(Some(raw), build))))
      == Ok(ServerInfo(cs[0], Some(raw), build))
  {
    ParseFormattedInt32(api);
  }

  /** The scrub of a release, a dot, a lettered tag and a number is the
      release with the number as one more component. */
  lemma MilestoneScrub(release: seq<int>, tag: string, m: nat)
    requires 1 <= |release|
    requires forall i :: 0 <= i < |release| ==> 0 <= release[i]
    requires forall c | c in tag :: !IsVersionChar(c)
    ensures Scrub(FormatVersion(release) + "." + tag + NatToDigits(m)) == FormatVersion(release + [m])
  {
    var text := FormatVersion(release) + ".";
    var digits := NatToDigits(m);
    ReleaseDotKept(release);
    ScrubKeepsVersionText(digits);
    ScrubDropsNoise(tag);
    ScrubThree(text, tag, digits);
    FormatVersionSnoc(release, m);
  }
}
