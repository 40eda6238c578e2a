/**
 Choosing how a request reaches its server (`_prepare_connection` of
 `HttpClient` and of `ProxiedHttpClient`) and which request target is
 written on the request line (`_get_access_url`).

 The connection objects of `httplib` are not modelled; a `Route` records
 the choice the client makes and the endpoint it hands to the library.
 */
module Connection {
  import opened PyStr
  import opened HttpTypes
  import opened ProxyAuth
  import opened Tunnel

  /** `HttpClient` connects directly; `ProxiedHttpClient` consults the
      proxy variables of the environment. */
  datatype ClientKind = Plain | Proxied

  const HttpsProxyVariable: string := "https_proxy"
  const HttpProxyVariable: string := "http_proxy"
  const HttpsPort: string := "443"
  const HttpPort: string := "80"

  /** How the request travels. */
  datatype Route =
    | Origin(secure: bool, host: string, port: string)  // HTTPSConnection or HTTPConnection to the URL's host
    | ForwardProxy(host: string, port: string)          // HTTPConnection to the plain-HTTP proxy
    | Tunnelled(tunnel: TunnelSetup)                    // CONNECT tunnel through the HTTPS proxy, then TLS

  /** What `_prepare_connection` leaves behind: the route, the URL (whose
      port the direct path fills in, as the source assigns `url.port`), and
      the header dictionary (to which the forward-proxy path adds
      Proxy-Authorization). */
  datatype Prepared = Prepared(route: Route, url: Url, headers: Headers)

  /** The environment variable that names the proxy for this URL's scheme. */
  function ProxyVariable(url: Url): string {
    if url.protocol == "https" then HttpsProxyVariable else HttpProxyVariable
  }

  /** `HttpClient._prepare_connection`: straight to the URL's host, over TLS
      exactly for https, on the URL's port or else 443 (https) or 80. */
  function PrepareDirect(url: Url, headers: Headers): (p: Prepared)
    ensures p.route.Origin?
    ensures p.route.secure <==> url.protocol == "https"
    ensures p.route.host == url.host
    ensures url.port != "" ==> p.route.port == url.port
    ensures url.port == "" ==> p.route.port == (if url.protocol == "https" then "443" else "80")
    ensures p.url == url.(port := p.route.port)
    ensures p.headers == headers
  {
    var port :=
      if url.port != "" then url.port
      else if url.protocol == "https" then HttpsPort
      else HttpPort;
    Prepared(Origin(url.protocol == "https", url.host, port), url.(port := port), headers)
  }

  /** http.py:225-226: when there are credentials, their stripped value is
      stored as Proxy-Authorization, replacing any caller-supplied value; no
      other header changes. */
  function WithProxyAuthorization(headers: Headers, auth: string): (h: Headers)
    ensures h.Keys == headers.Keys + (if auth == "" then {} else {ProxyAuthorization})
    ensures forall k :: k in headers && k != ProxyAuthorization ==> h[k] == headers[k]
    ensures auth == "" ==> h == headers
    ensures auth != "" ==> h[ProxyAuthorization] == Text(Strip(auth))
  {
    if auth != "" then headers[ProxyAuthorization := Text(Strip(auth))] else headers
  }

  /** `ProxiedHttpClient._prepare_connection`. `reply` is what the HTTPS
      proxy sends back on the CONNECT tunnel, chunk by chunk. */
  function PrepareProxied(ops: Collaborators, env: Env, url: Url, headers: Headers,
                          reply: seq<string>): (r: Result<Prepared>)
    ensures !IsSet(env, ProxyVariable(url)) ==> r == Success(PrepareDirect(url, headers))
    ensures IsSet(env, ProxyVariable(url)) && url.protocol == "https" ==>
      var h := Handshake(ops, env[HttpsProxyVariable], url, headers,
                         GetProxyAuth(env, ops.encodeBase64), reply);
      && (r.Success? <==> h.Success?)
      && (h.Failure? ==> r.error == h.error)
      && (h.Success? ==> r.value == Prepared(Tunnelled(h.value), url, headers))
    ensures IsSet(env, ProxyVariable(url)) && url.protocol != "https" ==>
      && r.Success?
      && r.value.route == ForwardProxy(ProxyAddress(ops, env[HttpProxyVariable]).host,
                                       ProxyAddress(ops, env[HttpProxyVariable]).port)
      && r.value.url == url
      && r.value.headers == WithProxyAuthorization(headers, GetProxyAuth(env, ops.encodeBase64))
  {
    var auth := GetProxyAuth(env, ops.encodeBase64);
    if url.protocol == "https" then
      if IsSet(env, HttpsProxyVariable) then
        match Handshake(ops, env[HttpsProxyVariable], url, headers, auth, reply)
        case Failure(e) => Failure(e)
        case Success(t) => Success(Prepared(Tunnelled(t), url, headers))
      else Success(PrepareDirect(url, headers))
    else if IsSet(env, HttpProxyVariable) then
      var proxy := ProxyAddress(ops, env[HttpProxyVariable]);
      Success(Prepared(ForwardProxy(proxy.host, proxy.port), url, WithProxyAuthorization(headers, auth)))
    else Success(PrepareDirect(url, headers))
  }

  /** `self._prepare_connection(url, all_headers)` for either client. */
  function PrepareConnection(kind: ClientKind, ops: Collaborators, env: Env, url: Url,
                             headers: Headers, reply: seq<string>): (r: Result<Prepared>)
    ensures kind == Plain ==> r == Success(PrepareDirect(url, headers))
    ensures r.Success? ==>
      (r.value.route.Origin? <==> kind == Plain || !IsSet(env, ProxyVariable(url)))
    ensures r.Success? && r.value.route.Tunnelled? ==> url.protocol == "https"
    ensures r.Success? && r.value.route.ForwardProxy? ==> url.protocol != "https"
    ensures r.Success? && !r.value.route.ForwardProxy? ==> r.value.headers == headers
    ensures r.Failure? ==>
      kind == Proxied && url.protocol == "https" && IsSet(env, HttpsProxyVariable)
  {
    match kind
    case Plain => Success(PrepareDirect(url, headers))
    case Proxied => PrepareProxied(ops, env, url, headers, reply)
  }

  /** `_get_access_url`: the absolute URL for a plain-HTTP proxy, the
      request URI otherwise. The proxied client tests the protocol against
      'http', while the route was chosen by testing it against 'https'. */
  function AccessUrl(kind: ClientKind, ops: Collaborators, env: Env, url: Url): (target: string)
    ensures kind == Proxied && url.protocol == "http" && IsSet(env, HttpProxyVariable) ==>
      target == ops.urlToString(url)
    ensures !(kind == Proxied && url.protocol == "http" && IsSet(env, HttpProxyVariable)) ==>
      target == ops.requestUri(url)
  {
    match kind
    case Plain => ops.requestUri(url)
    case Proxied =>
      if url.protocol == "http" && IsSet(env, HttpProxyVariable) then ops.urlToString(url)
      else ops.requestUri(url)
  }

  // ---------------------------------------------------------------------
  // Properties of the choice

  /** An https URL goes through the proxy exactly when `https_proxy` is
      non-empty, an http URL exactly when `http_proxy` is; otherwise the
      connection is direct. */
  lemma ProxyUsedExactlyWhenConfigured(ops: Collaborators, env: Env, url: Url,
                                       headers: Headers, reply: seq<string>)
    requires url.protocol == "https" || url.protocol == "http"
    ensures var r := PrepareConnection(Proxied, ops, env, url, headers, reply);
            r.Success? ==>
              && (url.protocol == "https" ==> (r.value.route.Tunnelled? <==> IsSet(env, "https_proxy")))
              && (url.protocol == "http" ==> (r.value.route.ForwardProxy? <==> IsSet(env, "http_proxy")))
  {
  }

  /** For http and https URLs, the request target is the absolute URL
      exactly when the request goes to a forward proxy. */
  lemma AbsoluteTargetExactlyForForwardProxy(kind: ClientKind, ops: Collaborators, env: Env,
                                             url: Url, headers: Headers, reply: seq<string>)
    requires url.protocol == "https" || url.protocol == "http"
    requires PrepareConnection(kind, ops, env, url, headers, reply).Success?
    ensures var p := PrepareConnection(kind, ops, env, url, headers, reply).value;
            && (p.route.ForwardProxy? ==> AccessUrl(kind, ops, env, p.url) == ops.urlToString(p.url))
            && (!p.route.ForwardProxy? ==> AccessUrl(kind, ops, env, p.url) == ops.requestUri(p.url))
  {
    var p := PrepareConnection(kind, ops, env, url, headers, reply).value;
    if p.route.Origin? {
      assert p.url.protocol == url.protocol;
    }
  }

  /** Any other scheme is sent to the `http_proxy` proxy, yet with the
      path-only target. */
  lemma OtherSchemeThroughProxyKeepsPath(ops: Collaborators, env: Env, url: Url,
                                         headers: Headers, reply: seq<string>)
    requires url.protocol != "https" && url.protocol != "http"
    requires IsSet(env, HttpProxyVariable)
    ensures var r := PrepareConnection(Proxied, ops, env, url, headers, reply);
            && r.Success? && r.value.route.ForwardProxy?
            && AccessUrl(Proxied, ops, env, r.value.url) == ops.requestUri(url)
  {
  }

  /** An https URL with no https proxy set connects directly over TLS and
      makes no tunnel, whatever `http_proxy` says. */
  lemma HttpsWithoutProxyIsDirect(ops: Collaborators, env: Env, url: Url,
                                  headers: Headers, reply: seq<string>)
    requires url.protocol == "https" && !IsSet(env, HttpsProxyVariable)
    ensures var r := PrepareConnection(Proxied, ops, env, url, headers, reply);
            && r.Success?
            && r.value.route == Origin(true, url.host, if url.port != "" then url.port else "443")
  {
  }

  /** The Proxy-Authorization header a plain-HTTP proxy receives: "Basic "
      and the stripped encoding of `user:password`. */
  lemma ForwardProxyAuthorization(ops: Collaborators, env: Env, url: Url,
                                  headers: Headers, reply: seq<string>)
    requires url.protocol != "https" && IsSet(env, HttpProxyVariable)
    requires IsSet(env, UserPrimary) || IsSet(env, UserFallback)
    ensures var r := PrepareConnection(Proxied, ops, env, url, headers, reply);
            var e := Strip(ops.encodeBase64(Credentials(env).value));
            && r.Success?
            && r.value.headers[ProxyAuthorization] == Text(if e == "" then "Basic" else "Basic " + e)
  {
    StrippedProxyAuth(env, ops.encodeBase64);
  }
}
