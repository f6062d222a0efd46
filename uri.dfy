/**
 * `parse_uri`: splitting an absolute `http://` URL into the host name, the
 * port string and the path, written into three caller-owned buffers.
 *
 * `ParseUriSpec` says what the call computes, `Apply` what it leaves in the
 * buffers, and the method `ParseUri` walks the URL as the C code does.
 */
module Uri {
  import opened CType

  /** The scheme, compared case-insensitively on its 7 bytes. */
  const Scheme: string := "http://"

  /**
   * The bytes that end the host name. The C literal is `" :/\r\n\0"`, whose
   * embedded NUL ends the string, so the end of the URL is not among them.
   */
  const HostDelimiters: string := " :/\r\n"

  /** The port used when the host is not followed by `:`. */
  const DefaultPort: string := "80"

  /** The contents of the three output buffers. */
  datatype Target = Target(hostname: string, port: string, pathname: string)

  /** The outcome of `parse_uri`. */
  datatype ParseResult =
    | BadScheme          // no `http://` prefix: -1, host name cleared
    | NoHostEnd          // no host delimiter after the prefix: -1, buffers untouched
    | Parsed(target: Target)

  /** The value `parse_uri` returns. */
  function ReturnCode(r: ParseResult): int
  {
    if r.Parsed? then 0 else -1
  }

  /** What the output buffers hold after the call, given what they held before. */
  function Apply(r: ParseResult, before: Target): Target
  {
    match r
    case BadScheme => before.(hostname := "")
    case NoHostEnd => before
    case Parsed(t) => t
  }

  /** Where `strpbrk` finds the end of the host name, if anywhere. */
  function HostEnd(uri: string): Option<nat>
    requires |Scheme| <= |uri|
  {
    FirstOf(uri, |Scheme|, HostDelimiters)
  }

  /** The port string, given the index `k` of the host delimiter. */
  function PortAt(uri: string, k: nat): string
    requires k < |uri|
  {
    if uri[k] == ':' then Digits(uri[k + 1..]) else DefaultPort
  }

  /** The path: what follows the first `/` at or after the host. */
  function PathOf(uri: string): string
    requires |Scheme| <= |uri|
  {
    match FirstOf(uri, |Scheme|, "/")
    case None => ""
    case Some(j) => uri[j + 1..]
  }

  /** What `parse_uri(uri, ...)` computes. */
  function ParseUriSpec(uri: string): ParseResult
  {
    if !PrefixCI(uri, Scheme) then BadScheme
    else
      match HostEnd(uri)
      case None => NoHostEnd
      case Some(k) => Parsed(Target(uri[|Scheme|..k], PortAt(uri, k), PathOf(uri)))
  }

  /** The three caller-owned buffers `parse_uri` writes into. */
  class UriBuffers {
    var hostname: string
    var port: string
    var pathname: string

    function Contents(): Target
      reads this
    {
      Target(hostname, port, pathname)
    }

    constructor (initial: Target)
      ensures Contents() == initial
    {
      hostname, port, pathname := initial.hostname, initial.port, initial.pathname;
    }
  }

  /**
   * `parse_uri(uri, hostname, pathname, port)`.
   * The URL is a C string, so it holds no NUL.
   */
  method ParseUri(uri: string, out: UriBuffers) returns (rc: int)
    requires '\0' !in uri
    modifies out
    ensures out.Contents() == Apply(ParseUriSpec(uri), old(out.Contents()))
    ensures rc == ReturnCode(ParseUriSpec(uri))
  {
    if !PrefixCI(uri, Scheme) {
      out.hostname := "";
      return -1;
    }

    // The host name runs from the end of the scheme to the first delimiter.
    var hostbegin := |Scheme|;
    var hostend := FirstOf(uri, hostbegin, HostDelimiters);
    if hostend.None? {
      return -1;
    }
    out.hostname := uri[hostbegin..hostend.value];

    // After a ':' copy the digits that follow; otherwise the default port.
    if uri[hostend.value] == ':' {
      var p := hostend.value + 1;
      out.port := "";
      while p < |uri| && IsDigit(uri[p])
        invariant hostend.value + 1 <= p <= |uri|
        invariant out.port == uri[hostend.value + 1..p]
        invariant AllDigits(out.port)
        invariant out.hostname == uri[hostbegin..hostend.value]
      {
        out.port := out.port + [uri[p]];
        p := p + 1;
      }
      DigitsUnique(uri[hostend.value + 1..], out.port);
    } else {
      out.port := DefaultPort;
    }

    // The path follows the first '/' at or after the end of the scheme.
    var pathbegin := FirstOf(uri, hostbegin, "/");
    if pathbegin.None? {
      out.pathname := "";
    } else {
      out.pathname := uri[pathbegin.value + 1..];
    }
    return 0;
  }

  // ---------------------------------------------------------------------
  // Properties of the parse

  /**
   * A URL without the case-insensitive `http://` prefix fails, clears the
   * host name and leaves the port and path buffers as they were; with the
   * prefix, the case of its letters makes no difference.
   */
  lemma {:induction false} SchemeGate(uri: string, before: Target)
    ensures !PrefixCI(uri, Scheme) ==>
      ReturnCode(ParseUriSpec(uri)) == -1 &&
      Apply(ParseUriSpec(uri), before) == Target("", before.port, before.pathname)
    ensures PrefixCI(uri, Scheme) ==>
      ParseUriSpec(uri) == ParseUriSpec(Scheme + uri[|Scheme|..])
  {
    if PrefixCI(uri, Scheme) {
      var canon := Scheme + uri[|Scheme|..];
      assert canon[|Scheme|..] == uri[|Scheme|..];
      assert PrefixCI(canon, Scheme);
      FirstOfSuffix(uri, canon, |Scheme|, HostDelimiters);
      FirstOfSuffix(uri, canon, |Scheme|, "/");
      assert PathOf(uri) == PathOf(canon);
      var e := HostEnd(uri);
      if e.Some? {
        var k := e.value;
        assert uri[k] == canon[|Scheme|..][k - |Scheme|] == canon[k];
        assert uri[k + 1..] == canon[k + 1..];
        assert uri[|Scheme|..k] == canon[|Scheme|..k];
      }
    }
  }

  /**
   * Past the prefix, the parse fails exactly when no space, `:`, `/`, CR or
   * LF follows; the end of the string does not end the host name.
   */
  lemma {:induction false} NoHostDelimiterFails(uri: string)
    requires PrefixCI(uri, Scheme)
    ensures ParseUriSpec(uri) == NoHostEnd <==>
      forall i :: |Scheme| <= i < |uri| ==> uri[i] !in HostDelimiters
  {
    var r := FirstOf(uri, |Scheme|, HostDelimiters);
    if r.Some? {
      assert uri[r.value] in HostDelimiters;
    }
  }

  /** The consequence the C literal's embedded NUL has: a bare host is rejected. */
  lemma {:induction false} BareHostRejected()
    ensures ParseUriSpec("http://example.com") == NoHostEnd
    ensures ReturnCode(ParseUriSpec("http://example.com")) == -1
  {
    var uri := "http://example.com";
    assert PrefixCI(uri, Scheme);
    forall i | |Scheme| <= i < |uri|
      ensures uri[i] !in HostDelimiters
    {
      assert uri[i] in "example.com";
    }
    NoHostDelimiterFails(uri);
  }

  /**
   * On success the host name is the bytes from index 7 up to, not including,
   * the first host delimiter, and it contains none of them.
   */
  lemma {:induction false} HostnameUpToFirstDelimiter(uri: string)
    requires ParseUriSpec(uri).Parsed?
    ensures var h := ParseUriSpec(uri).target.hostname;
      |Scheme| + |h| < |uri| &&
      uri[|Scheme|..|Scheme| + |h|] == h &&
      uri[|Scheme| + |h|] in HostDelimiters &&
      forall i :: 0 <= i < |h| ==> h[i] !in HostDelimiters
  {
    var k := FirstOf(uri, |Scheme|, HostDelimiters).value;
    var h := ParseUriSpec(uri).target.hostname;
    assert h == uri[|Scheme|..k];
    assert forall i :: 0 <= i < |h| ==> h[i] == uri[|Scheme| + i];
  }

  /**
   * After a `:` the port is the longest run of decimal digits that follows it,
   * possibly empty; after any other delimiter it is "80".
   */
  lemma {:induction false} PortRule(uri: string)
    requires ParseUriSpec(uri).Parsed?
    ensures var t := ParseUriSpec(uri).target;
      var k := |Scheme| + |t.hostname|;
      k < |uri| &&
      (uri[k] == ':' ==>
        AllDigits(t.port) && k + 1 + |t.port| <= |uri| &&
        uri[k + 1..k + 1 + |t.port|] == t.port &&
        (k + 1 + |t.port| < |uri| ==> !IsDigit(uri[k + 1 + |t.port|]))) &&
      (uri[k] != ':' ==> t.port == DefaultPort)
  {
    var k := FirstOf(uri, |Scheme|, HostDelimiters).value;
    var t := ParseUriSpec(uri).target;
    assert |t.hostname| == k - |Scheme|;
    if uri[k] == ':' {
      var d := Digits(uri[k + 1..]);
      assert t.port == d;
      assert uri[k + 1..][..|d|] == d;
      assert uri[k + 1..k + 1 + |d|] == uri[k + 1..][..|d|];
      if k + 1 + |d| < |uri| {
        assert uri[k + 1 + |d|] == uri[k + 1..][|d|];
      }
    }
  }

  /**
   * The path is everything after the first `/` at or after index 7 (the
   * search starts at the host, not after the port), copied verbatim with any
   * query string; without such a `/` it is empty.
   */
  lemma {:induction false} PathRule(uri: string)
    requires ParseUriSpec(uri).Parsed?
    ensures var path := ParseUriSpec(uri).target.pathname;
      var j := |uri| - |path| - 1;
      if '/' in uri[|Scheme|..] then
        |Scheme| <= j && uri[j] == '/' && uri[j + 1..] == path &&
        '/' !in uri[|Scheme|..j]
      else
        path == ""
  {
    var f := FirstOf(uri, |Scheme|, "/");
    if f.Some? {
      assert uri[f.value] == '/';
      assert uri[|Scheme|..][f.value - |Scheme|] == '/';
      forall i | 0 <= i < f.value - |Scheme|
        ensures uri[|Scheme|..f.value][i] != '/'
      {
        assert uri[|Scheme|..f.value][i] == uri[|Scheme| + i];
      }
    } else {
      forall i | 0 <= i < |uri| - |Scheme|
        ensures uri[|Scheme|..][i] != '/'
      {
        assert uri[|Scheme|..][i] == uri[|Scheme| + i];
      }
    }
  }

  /**
   * Building a URL from a host without delimiters, a digit port and a path
   * and parsing it gives the three parts back.
   */
  lemma {:induction false} ParseBuiltUrl(host: string, port: string, path: string)
    requires forall i :: 0 <= i < |host| ==> host[i] !in HostDelimiters
    requires AllDigits(port)
    ensures ParseUriSpec(Scheme + host + ":" + port + "/" + path) ==
      Parsed(Target(host, port, path))
  {
    var uri := Scheme + host + ":" + port + "/" + path;
    var k := |Scheme| + |host|;
    assert PrefixCI(uri, Scheme);
    FirstAfter(uri, |Scheme|, k, HostDelimiters);
    assert uri[|Scheme|..k] == host;
    assert uri[k + 1..] == port + "/" + path;
    DigitsUnique(uri[k + 1..], port);
    FirstAfter(uri, |Scheme|, k + 1 + |port|, "/");
    assert uri[k + 1 + |port| + 1..] == path;
  }

  /** Without a port the parse gives the default port "80". */
  lemma {:induction false} ParseBuiltUrlDefaultPort(host: string, path: string)
    requires forall i :: 0 <= i < |host| ==> host[i] !in HostDelimiters
    ensures ParseUriSpec(Scheme + host + "/" + path) ==
      Parsed(Target(host, DefaultPort, path))
  {
    var uri := Scheme + host + "/" + path;
    var k := |Scheme| + |host|;
    assert PrefixCI(uri, Scheme);
    FirstAfter(uri, |Scheme|, k, HostDelimiters);
    FirstAfter(uri, |Scheme|, k, "/");
    assert uri[|Scheme|..k] == host;
    assert uri[k + 1..] == path;
  }

  /** With a port and no path the path is empty. */
  lemma {:induction false} ParseBuiltUrlNoPath(host: string, port: string)
    requires forall i :: 0 <= i < |host| ==> host[i] !in HostDelimiters
    requires AllDigits(port)
    ensures ParseUriSpec(Scheme + host + ":" + port) == Parsed(Target(host, port, ""))
  {
    var uri := Scheme + host + ":" + port;
    var k := |Scheme| + |host|;
    assert PrefixCI(uri, Scheme);
    FirstAfter(uri, |Scheme|, k, HostDelimiters);
    assert uri[|Scheme|..k] == host;
    assert uri[k + 1..] == port;
    DigitsUnique(uri[k + 1..], port);
  }
}
