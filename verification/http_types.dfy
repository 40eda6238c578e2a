/**
 The values the HTTP client works with: the process environment, header
 dictionaries, URL records, request bodies, the library calls the client
 makes but does not define, and the errors it raises.
 */
module HttpTypes {
  import opened PyStr

  /** `os.environ`: variable name to value. */
  type Env = map<string, string>

  /** `os.environ.get(name)` tested for truth: present and non-empty. */
  predicate IsSet(env: Env, name: string) {
    name in env && env[name] != ""
  }

  /** A header value. Callers supply strings; the client itself stores the
      integer `len(data)` under Content-Length. */
  datatype HeaderValue = Text(text: string) | Length(n: nat)

  /** `'%s' % value`. */
  function Render(v: HeaderValue): string {
    match v
    case Text(s) => s
    case Length(n) => NatToString(n)
  }

  /** A header dictionary (header names are compared as written). */
  type Headers = map<string, HeaderValue>

  const ContentLength: string := "Content-Length"
  const ContentType: string := "Content-Type"
  const UserAgent: string := "User-Agent"
  const ProxyAuthorization: string := "Proxy-Authorization"

  /** `DEFAULT_CONTENT_TYPE`. */
  const DefaultContentType: string := "application/atom+xml"

  /** The fields of an `atom.url.Url` the client reads. `port` is the text
      of the port, with "" standing for an unset port (None and '' are both
      false in the tests the client makes). `rest` stands for everything
      else the URL carries (path, query), which only the URL library looks
      at. */
  datatype Url = Url(protocol: string, host: string, port: string, rest: string)

  /** The library calls the client makes without defining them:
      `atom.url.parse_url`, `Url.get_request_uri`, `Url.to_string` and
      `base64.encodestring`. They are taken as given total functions. */
  datatype Collaborators = Collaborators(
    parseUrl: string -> Url,
    requestUri: Url -> string,
    urlToString: Url -> string,
    encodeBase64: string -> string)

  /** Port used for a proxy whose URL names none. */
  const DefaultProxyPort: string := "80"

  /** The proxy's address (http.py:188-190 and 221-223): the proxy
      variable parsed as a URL, given port 80 when it names none. */
  function ProxyAddress(ops: Collaborators, proxy: string): (u: Url)
    ensures u.port != ""
    ensures ops.parseUrl(proxy).port != "" ==> u == ops.parseUrl(proxy)
    ensures ops.parseUrl(proxy).port == "" ==> u == ops.parseUrl(proxy).(port := DefaultProxyPort)
  {
    var parsed := ops.parseUrl(proxy);
    if parsed.port != "" then parsed else parsed.(port := DefaultProxyPort)
  }

  /** The errors the modelled code can end in. */
  datatype Error =
    | UnparsableUrlObject        // url argument neither str nor Url
    | ContentLengthRequired      // non-str body without a Content-Length
    | ProxyError(status: string) // the proxy answered CONNECT with this status token
    | NoStatusToken              // the reply has fewer than two tokens: `split()[1]` raises IndexError
    | ProxyReplyIncomplete       // the reply never contained "\r\n\r\n": the source keeps calling recv

  datatype Option<T> = None | Some(value: T)

  datatype Result<T> = Success(value: T) | Failure(error: Error)
}
