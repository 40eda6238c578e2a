/**
 `HttpClient.request`: the header dictionary it builds, the route and
 request target it picks, and the body it sends, composed in the order the
 method runs them. The response (`getresponse`) is left to `httplib`.
 */
module Client {
  import opened PyStr
  import opened HttpTypes
  import opened Tunnel
  import opened Connection
  import opened Body
  import opened ProxyAuth

  /** A client object: which class it is and its instance `headers`. */
  datatype HttpClient = HttpClient(kind: ClientKind, headers: Headers)

  /** The `url` argument: an `atom.url.Url`, a string, or anything else. */
  datatype UrlArg = UrlObject(url: Url) | UrlText(text: string) | NotAUrl

  /** Everything `request` hands to `httplib` before reading the response:
      the route, `putrequest(operation, target)`, the headers passed to
      `putheader`, and the send events of the body. */
  datatype Exchange = Exchange(
    route: Route,
    operation: string,
    target: string,
    headers: Headers,
    body: seq<string>)

  /** The `isinstance` tests at the top of `request`. */
  function ResolveUrl(ops: Collaborators, arg: UrlArg): (r: Result<Url>)
    ensures r.Failure? <==> arg.NotAUrl?
    ensures r.Failure? ==> r.error == UnparsableUrlObject
    ensures arg.UrlText? ==> r == Success(ops.parseUrl(arg.text))
    ensures arg.UrlObject? ==> r == Success(arg.url)
  {
    match arg
    case UrlObject(u) => Success(u)
    case UrlText(t) => Success(ops.parseUrl(t))
    case NotAUrl => Failure(UnparsableUrlObject)
  }

  /** http.py:88-90: a copy of the instance headers updated with the
      per-call ones, a new dictionary in which every per-call header wins and every other
      instance header stays; the instance's own dictionary is a value here
      and cannot change. */
  function MergeHeaders(defaults: Headers, call: Headers): (all: Headers)
    ensures all.Keys == defaults.Keys + call.Keys
    ensures forall k :: k in call ==> all[k] == call[k]
    ensures forall k :: k in defaults && k !in call ==> all[k] == defaults[k]
  {
    defaults + call
  }

  /** The body is a single `str`, whose length can be computed. */
  predicate IsStrData(data: Data) {
    data.Single? && data.part.Str?
  }

  /** The Content-Length and Content-Type rules of `request`. */
  function FinalizeHeaders(headers: Headers, data: Data): (r: Result<Headers>)
    ensures r.Failure? <==> Truthy(data) && ContentLength !in headers && !IsStrData(data)
    ensures r.Failure? ==> r.error == ContentLengthRequired
    ensures r.Success? ==>
      && r.value.Keys == headers.Keys + {ContentType}
                         + (if Truthy(data) then {ContentLength} else {})
      && (forall k :: k in headers ==> r.value[k] == headers[k])
      && (ContentType !in headers ==> r.value[ContentType] == Text(DefaultContentType))
      && (ContentLength !in headers && Truthy(data) ==>
            r.value[ContentLength] == Length(|data.part.s|))
      && (ContentLength !in headers && !Truthy(data) ==> ContentLength !in r.value)
  {
    if Truthy(data) && ContentLength !in headers && !IsStrData(data) then
      Failure(ContentLengthRequired)
    else
      var sized :=
        if Truthy(data) && ContentLength !in headers then headers[ContentLength := Length(|data.part.s|)]
        else headers;
      var typed :=
        if ContentType !in sized then sized[ContentType := Text(DefaultContentType)]
        else sized;
      Success(typed)
  }

  /** `client.request(operation, url, data, headers)` up to
      `getresponse()`. `reply` is what an HTTPS proxy sends back on a
      CONNECT tunnel. */
  function Request(client: HttpClient, ops: Collaborators, env: Env, operation: string,
                   url: UrlArg, data: Data, headers: Headers, reply: seq<string>): (r: Result<Exchange>)
    ensures r == Failure(UnparsableUrlObject) <==> url.NotAUrl?
    ensures r.Failure? && r.error == ContentLengthRequired ==>
      && Truthy(data) && !IsStrData(data)
      && PrepareConnection(client.kind, ops, env, ResolveUrl(ops, url).value,
                           MergeHeaders(client.headers, headers), reply).Success?
    ensures r.Success? ==>
      && r.value.operation == operation
      && r.value.body == BodyTrace(data)
      && Concat(r.value.body) == DataBytes(data)
      && ContentType in r.value.headers
      && (Truthy(data) ==> ContentLength in r.value.headers)
  {
    match ResolveUrl(ops, url)
    case Failure(e) => Failure(e)
    case Success(u) =>
      var all := MergeHeaders(client.headers, headers);
      match PrepareConnection(client.kind, ops, env, u, all, reply)
      case Failure(e) => Failure(e)
      case Success(p) =>
        var target := AccessUrl(client.kind, ops, env, p.url);
        match FinalizeHeaders(p.headers, data)
        case Failure(e) => Failure(e)
        case Success(h) =>
          Success(Exchange(p.route, operation, target, h, BodyTrace(data)))
  }

  // ---------------------------------------------------------------------
  // Properties of a whole request

  /** Per-call headers win over the instance's; instance headers the call
      does not mention survive; only Proxy-Authorization may be replaced,
      by the forward-proxy path. */
  lemma RequestHeaderPrecedence(client: HttpClient, ops: Collaborators, env: Env, operation: string,
                                url: UrlArg, data: Data, headers: Headers, reply: seq<string>)
    requires Request(client, ops, env, operation, url, data, headers, reply).Success?
    ensures var x := Request(client, ops, env, operation, url, data, headers, reply).value;
            && (forall k :: k in headers && (k != ProxyAuthorization || !x.route.ForwardProxy?) ==>
                  k in x.headers && x.headers[k] == headers[k])
            && (forall k :: k in client.headers && k !in headers
                            && (k != ProxyAuthorization || !x.route.ForwardProxy?) ==>
                  k in x.headers && x.headers[k] == client.headers[k])
  {
    var u := ResolveUrl(ops, url).value;
    var all := MergeHeaders(client.headers, headers);
    var p := PrepareConnection(client.kind, ops, env, u, all, reply).value;
    assert forall k :: k in all && (k != ProxyAuthorization || !p.route.ForwardProxy?) ==>
      k in p.headers && p.headers[k] == all[k];
  }

  /** Where the request goes, end to end: an https URL without
      `https_proxy` is sent straight to its host over TLS with the
      path-only target. */
  lemma HttpsWithoutProxyGoesDirect(ops: Collaborators, env: Env, operation: string, url: Url,
                                    data: Data, defaults: Headers, headers: Headers, reply: seq<string>)
    requires url.protocol == "https" && !IsSet(env, HttpsProxyVariable)
    requires Truthy(data) && !IsStrData(data) ==> ContentLength in defaults || ContentLength in headers
    ensures var r := Request(HttpClient(Proxied, defaults), ops, env, operation, UrlObject(url), data, headers, reply);
            var x := r.value;
            && r.Success?
            && x.route == Origin(true, url.host, if url.port != "" then url.port else "443")
            && x.target == ops.requestUri(url.(port := x.route.port))
  {
  }

  /** An http URL with `http_proxy` set goes to the proxy with the
      absolute URL as its target. */
  lemma HttpThroughProxyUsesAbsoluteUrl(ops: Collaborators, env: Env, operation: string, url: Url,
                                        data: Data, defaults: Headers, headers: Headers, reply: seq<string>)
    requires url.protocol == "http" && IsSet(env, HttpProxyVariable)
    requires Truthy(data) && !IsStrData(data) ==> ContentLength in defaults || ContentLength in headers
    ensures var r := Request(HttpClient(Proxied, defaults), ops, env, operation, UrlObject(url), data, headers, reply);
            var x := r.value;
            && r.Success?
            && x.route.ForwardProxy?
            && x.target == ops.urlToString(url)
  {
  }

  /** A body whose length cannot be computed and no Content-Length: the
      request fails with ContentLengthRequired, and nothing of it is sent,
      when no CONNECT handshake comes first. */
  lemma UnsizedBodyRejected(client: HttpClient, ops: Collaborators, env: Env, operation: string,
                            url: Url, data: Data, headers: Headers, reply: seq<string>)
    requires Truthy(data) && !IsStrData(data)
    requires ContentLength !in client.headers && ContentLength !in headers
    requires client.kind == Plain || url.protocol != "https" || !IsSet(env, HttpsProxyVariable)
    ensures Request(client, ops, env, operation, UrlObject(url), data, headers, reply)
            == Failure(ContentLengthRequired)
  {
    var all := MergeHeaders(client.headers, headers);
    var p := PrepareConnection(client.kind, ops, env, url, all, reply);
    assert p.Success?;
    assert ContentLength !in p.value.headers;
  }

  /** The CONNECT handshake runs before the Content-Length check: a proxy
      that refuses the tunnel with a status line decides the error, even
      for a body that would have been refused too. */
  lemma TunnelFailurePrecedesContentLength(ops: Collaborators, env: Env, operation: string, url: Url,
                                           data: Data, defaults: Headers, headers: Headers,
                                           version: string, code: string, reason: string, extra: string)
    requires url.protocol == "https" && IsSet(env, HttpsProxyVariable)
    requires Truthy(data) && !IsStrData(data)
    requires IsWord(version) && IsWord(code) && code != "200"
    requires '\r' !in version + " " + code + " " + reason
    ensures Request(HttpClient(Proxied, defaults), ops, env, operation, UrlObject(url), data, headers,
                    [version + " " + code + " " + reason + Terminator + extra])
            == Failure(ProxyError(code))
  {
    var all := MergeHeaders(defaults, headers);
    StatusLineReply(ops, env[HttpsProxyVariable], url, all, GetProxyAuth(env, ops.encodeBase64),
                    version, code, reason, extra);
  }

  /** A string body with a Content-Length equal to its length goes out
      unmodified and whole, and the header is left as given. */
  lemma StringBodySentWhole(client: HttpClient, ops: Collaborators, env: Env, operation: string,
                            url: UrlArg, s: string, headers: Headers, reply: seq<string>)
    requires |s| > 0 && ContentLength in headers && headers[ContentLength] == Length(|s|)
    requires Request(client, ops, env, operation, url, Single(Str(s)), headers, reply).Success?
    ensures var x := Request(client, ops, env, operation, url, Single(Str(s)), headers, reply).value;
            && x.body == [s]
            && Concat(x.body) == s
            && x.headers[ContentLength] == Length(|s|)
  {
    RequestHeaderPrecedence(client, ops, env, operation, url, Single(Str(s)), headers, reply);
  }
}
