/** Request-header helpers: the client address behind proxies and a coarse
    classification of the user agent. Both only read the request. */
module IpHelper {
  import opened Js
  import opened Strings

  /** The parts of an incoming request the helpers read. Header names are lower
      case, as Node presents them; the three addresses are those of the socket
      and of the framework's `req.ip`, each possibly missing. */
  datatype Request = Request(
    headers: map<string, string>,
    connectionRemoteAddress: Option<string>,
    socketRemoteAddress: Option<string>,
    ip: Option<string>)

  function Header(req: Request, name: string): Option<string> {
    if name in req.headers then Some(req.headers[name]) else None
  }

  /** `a || b` for an optional string and a fallback. */
  function OrElse(a: Option<string>, b: string): string {
    if Present(a) then a.value else b
  }

  /** The first comma-separated entry of an X-Forwarded-For value, trimmed: a
      piece of the header without commas and without surrounding white space. */
  function FirstForwarded(forwarded: string): (r: string)
    ensures Trimmed(r) && ',' !in r
    ensures exists i :: OccursAt(forwarded, r, i)
  {
    var first := UpTo(forwarded, ',');
    var r := Trim(first);
    var k := |first| - |TrimStart(first)|;
    OccurrenceInPrefix(forwarded, first, r, k);
    r
  }

  /** A piece of a prefix of `s` is a piece of `s`, and holds no character the prefix lacks. */
  lemma OccurrenceInPrefix(s: string, prefix: string, piece: string, k: int)
    requires |prefix| <= |s| && prefix == s[..|prefix|]
    requires OccursAt(prefix, piece, k)
    ensures OccursAt(s, piece, k)
    ensures forall c :: c in piece ==> c in prefix
  {
    assert forall m :: 0 <= m < |piece| ==> piece[m] == prefix[k + m] == s[k + m];
    assert s[k..k + |piece|] == piece;
  }

  /** None of the three proxy headers is present (each absent or empty). */
  predicate NoProxyHeader(req: Request) {
    && !Present(Header(req, "x-forwarded-for"))
    && !Present(Header(req, "x-real-ip"))
    && !Present(Header(req, "cf-connecting-ip"))
  }

  /** `getClientIp`: a non-empty X-Forwarded-For header wins and gives its first
      comma-separated entry, trimmed; then X-Real-IP, then CF-Connecting-IP; then
      the connection's, the socket's and the framework's address; then "unknown". */
  function GetClientIp(req: Request): (ip: string)
    ensures Present(Header(req, "x-forwarded-for")) ==>
      (Trimmed(ip) && ',' !in ip && exists i :: OccursAt(Header(req, "x-forwarded-for").value, ip, i))
    ensures (!Present(Header(req, "x-forwarded-for")) && Present(Header(req, "x-real-ip"))) ==>
      ip == Header(req, "x-real-ip").value
    ensures (!Present(Header(req, "x-forwarded-for")) && !Present(Header(req, "x-real-ip"))
      && Present(Header(req, "cf-connecting-ip"))) ==>
      ip == Header(req, "cf-connecting-ip").value
    ensures !Present(Header(req, "x-forwarded-for")) ==> ip != ""
    ensures NoProxyHeader(req) && Present(req.connectionRemoteAddress) ==>
      ip == req.connectionRemoteAddress.value
    ensures NoProxyHeader(req) && !Present(req.connectionRemoteAddress) && Present(req.socketRemoteAddress) ==>
      ip == req.socketRemoteAddress.value
    ensures (NoProxyHeader(req) && !Present(req.connectionRemoteAddress) && !Present(req.socketRemoteAddress)
      && Present(req.ip)) ==>
      ip == req.ip.value
    ensures (NoProxyHeader(req) && !Present(req.connectionRemoteAddress)
      && !Present(req.socketRemoteAddress) && !Present(req.ip)) ==>
      ip == "unknown"
  {
    var forwarded := Header(req, "x-forwarded-for");
    var realIp := Header(req, "x-real-ip");
    var cfConnectingIp := Header(req, "cf-connecting-ip");
    if Present(forwarded) then FirstForwarded(forwarded.value)
    else if Present(realIp) then realIp.value
    else if Present(cfConnectingIp) then cfConnectingIp.value
    else OrElse(req.connectionRemoteAddress, OrElse(req.socketRemoteAddress, OrElse(req.ip, "unknown")))
  }

  /** The address is exactly the first X-Forwarded-For entry without the white
      space around it, whatever the other headers say. */
  lemma ForwardedFirstEntry(req: Request, pre: string, entry: string, post: string, tail: string)
    requires AllSpace(pre) && AllSpace(post) && Trimmed(entry) && ',' !in entry
    requires tail == [] || tail[0] == ','
    requires pre + entry + post + tail != []
    requires Header(req, "x-forwarded-for") == Some(pre + entry + post + tail)
    ensures GetClientIp(req) == entry
  {
    assert ',' !in pre + entry + post by {
      forall m | 0 <= m < |pre + entry + post| ensures (pre + entry + post)[m] != ',' {
        if m < |pre| { assert IsSpace(pre[m]); }
        else if m < |pre| + |entry| { assert (pre + entry + post)[m] == entry[m - |pre|]; }
        else { assert IsSpace(post[m - |pre| - |entry|]); }
      }
    }
    UpToStops(pre + entry + post, ',', tail);
    TrimRemovesPadding(pre, entry, post);
  }

  /** What `getDeviceInfo` reports: the user agent as received, a platform and a browser. */
  datatype DeviceInfo = DeviceInfo(userAgent: string, platform: string, browser: string)

  /** `getDeviceInfo`: "Mobile" is tested before "Tablet", and the browsers in the
      order Chrome, Firefox, Safari, Edge; the first match wins. */
  function GetDeviceInfo(req: Request): (info: DeviceInfo)
    ensures info.userAgent == Header(req, "user-agent").GetOr("")
    ensures info.platform in {"mobile", "tablet", "desktop"}
    ensures info.platform == "mobile" <==> Contains(info.userAgent, "Mobile")
    ensures info.platform == "tablet" <==>
      !Contains(info.userAgent, "Mobile") && Contains(info.userAgent, "Tablet")
    ensures info.browser in {"Chrome", "Firefox", "Safari", "Edge", "unknown"}
    ensures info.browser == "unknown" <==>
      && !Contains(info.userAgent, "Chrome") && !Contains(info.userAgent, "Firefox")
      && !Contains(info.userAgent, "Safari") && !Contains(info.userAgent, "Edge")
    ensures info.browser == "Chrome" <==> Contains(info.userAgent, "Chrome")
    ensures info.browser == "Firefox" <==>
      !Contains(info.userAgent, "Chrome") && Contains(info.userAgent, "Firefox")
    ensures info.browser == "Safari" <==>
      (!Contains(info.userAgent, "Chrome") && !Contains(info.userAgent, "Firefox")
       && Contains(info.userAgent, "Safari"))
    ensures info.browser == "Edge" <==>
      (!Contains(info.userAgent, "Chrome") && !Contains(info.userAgent, "Firefox")
       && !Contains(info.userAgent, "Safari") && Contains(info.userAgent, "Edge"))
  {
    var userAgent := OrElse(Header(req, "user-agent"), "");
    var platform :=
      if Contains(userAgent, "Mobile") then "mobile"
      else if Contains(userAgent, "Tablet") then "tablet"
      else "desktop";
    var browser :=
      if Contains(userAgent, "Chrome") then "Chrome"
      else if Contains(userAgent, "Firefox") then "Firefox"
      else if Contains(userAgent, "Safari") then "Safari"
      else if Contains(userAgent, "Edge") then "Edge"
      else "unknown";
    DeviceInfo(userAgent, platform, browser)
  }
}
