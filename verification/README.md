# atom.http — a Dafny model of the HTTP client's decision logic

`src/atom/http.py` holds two clients. `HttpClient` sends a request straight to the server. `ProxiedHttpClient` routes the request through a proxy named by the `http_proxy` or `https_proxy` environment variable. For HTTPS through a proxy it opens a CONNECT tunnel (section 4.3.6 of RFC 7231).

Most of the file calls `httplib` and sockets. This project models the decisions and the text the client produces around those calls:

- **`PyStr`** (`pystr.dfy`): the Python `str` operations the client relies on. These are `find`, `split()`, `strip()`, `''.join` and `str(n)`, with Python 2's six ASCII whitespace characters.
- **`HttpTypes`** (`http_types.dfy`): the data the client works with.
  - The environment is a `map<string, string>`.
  - Header dictionaries are maps to string or integer values.
  - A URL is a record.
  - The library functions the client calls but does not define are passed in as a `Collaborators` record of total functions: `parse_url`, `get_request_uri`, `to_string` and `base64.encodestring`.
  - The errors are `UnparsableUrlObject`, `ContentLengthRequired` and `ProxyError`. Two more stand for the source's `IndexError` and its endless `recv` loop.
  - `ProxyAddress` gives a proxy URL the default port `'80'`.
- **`ProxyAuth`** (`proxy_auth.dfy`): `_get_proxy_auth`. The user name and password are each looked up under the hyphenated name first, then the underscored one. The result is the `Basic …\r\n` value.
- **`Tunnel`** (`tunnel.dfy`): the CONNECT handshake.
  - It builds the request text.
  - It runs the receive loop over a given finite sequence of received chunks. `AwaitTerminator` is the functional form. `ReceiveUntilTerminator` is the `while` loop, proved equal to it.
  - It checks the status token.
  - It records the bytes read past the header terminator, which the source drops.
- **`Connection`** (`connection.dfy`): both `_prepare_connection` methods (direct, forward proxy or tunnel; port defaults) and both `_get_access_url` methods.
- **`Body`** (`body.dfy`): `_send_data_part` and the body loop of `request`. The output is a trace of `send` events.
  - A string is sent whole.
  - A list is sent part by part.
  - A stream is sent in reads of at most 100000 bytes.
  - Any other object is sent as its string form.
- **`Client`** (`client.dfy`): `HttpClient.request`, composed in the order the method runs its steps.
  - Resolve the URL.
  - Merge the headers.
  - Prepare the connection (for a tunnel, this includes the handshake).
  - Choose the request target.
  - Apply the Content-Length and Content-Type rules.
  - Send the body.

## Behaviour as written

In these places the code does something a reader might not expect, and the model follows the code:

- **Order of checks.** `_prepare_connection` runs before the Content-Length check. Through an HTTPS proxy, the CONNECT handshake (connect, send, receive) has already happened when `ContentLengthRequired` is raised. A refusing proxy decides the error (`TunnelFailurePrecedesContentLength`). `ContentLengthRequired` is raised before any socket I/O only when no tunnel is built (`UnsizedBodyRejected`).
- **Dropped reply bytes.** Bytes the receive loop reads past `\r\n\r\n` stay in the accumulated reply. They are lost when the socket is wrapped for TLS (`BytesPastTerminatorDropped`). They are not replayed.
- **Missing password.** When a user name is set but no password is, the encoded text is `user:None`. Python formats `None` as the text "None" (`HyphenatedUserWins`).
- **Header name.** The CONNECT request spells the credentials header `Proxy-authorization`. The forward-proxy path stores it as `Proxy-Authorization`.
- **Short reply.** A proxy reply with fewer than two whitespace tokens makes `split()[1]` raise `IndexError`, not `ProxyError`. This is modelled as `NoStatusToken`.
- **Other schemes.** The route test compares the protocol with `'https'`. The request-target test compares it with `'http'`. So a URL with another scheme goes to the `http_proxy` proxy with a path-only target (`OtherSchemeThroughProxyKeepsPath`).

## Model

| member | source | states |
|---|---|---|
| `ProxyAuth.Credentials` | src/atom/http.py:242-250 | no credentials exactly when neither user variable is non-empty; otherwise `user:password`, with the hyphenated user name preferred and the password taken hyphenated-first, then underscored, else the text "None" |
| `ProxyAuth.LookupWithFallback` | src/atom/http.py:242-247 | the primary variable is used exactly when its value is non-empty; otherwise the fallback variable's value, empty or not, and None only when the fallback is missing too |
| `ProxyAuth.GetProxyAuth` | src/atom/http.py:241-253 | the value is `''` exactly when no user name is set; otherwise it starts with `Basic `, ends with `\r\n` and has the stripped encoding of the credentials in between |
| `ProxyAuth.StrippedProxyAuth` | src/atom/http.py:225-226 | `proxy_auth.strip()` is `Basic ` followed by the stripped encoding, or just `Basic` when the encoding strips to nothing |
| `ProxyAuth.StripBasicLine` | src/atom/http.py:251 | stripping `'Basic ' + e + '\r\n'` for an already stripped `e` removes only the line break, and the space too when `e` is empty |
| `ProxyAuth.PasswordAloneGivesNothing` | src/atom/http.py:248-253 | with no user variable under either name, the result is `''` whatever password variables are set |
| `ProxyAuth.HyphenatedUserWins` | src/atom/http.py:242-251 | with both user variables set, the credentials start with the hyphenated user name and a colon, whatever the passwords; when no password variable exists either, the value is `Basic `, the stripped encoding of `user:None` and a line break |
| `HttpTypes.ProxyAddress` | src/atom/http.py:188-190 | the proxy URL always ends up with a port: its own when it has one, otherwise `'80'`; nothing else changes |
| `Tunnel.ConnectRequest` | src/atom/http.py:170-185 | the text starts with the request line `CONNECT host:port HTTP/1.0\r\n` and ends with `\r\n`; without credentials or User-Agent it is exactly that line plus the blank line; its length is the sum of the optional lines |
| `Tunnel.ConnectRequestEndsHeaderBlock` | src/atom/http.py:174-185 | with credentials that are empty or end in a line break, as `_get_proxy_auth` makes them, the request ends in `\r\n\r\n` |
| `Tunnel.ConnectRequestTokens` | src/atom/http.py:174-177 | read back with `split()`, the request's first three tokens are `CONNECT`, the authority `host:port` (port defaulting to `443`) and `HTTP/1.0` |
| `Tunnel.AwaitFrom` | src/atom/http.py:196-200 | from any loop state, the loop ends on the shortest prefix of the chunks whose join contains the terminator, or consumes all of them |
| `Tunnel.AwaitTerminator` | src/atom/http.py:196-200 | the accumulated reply is the join of the shortest prefix of the chunks that contains `\r\n\r\n`, including bytes past it; if no prefix does, every chunk is consumed and no prefix contains the terminator |
| `Tunnel.ReceiveUntilTerminator` | src/atom/http.py:196-200 | the `while` loop ends in the same shortest-prefix outcome and equals the functional form |
| `Tunnel.StatusToken` | src/atom/http.py:202 | the status token, when present, is a non-empty whitespace-free word |
| `Tunnel.StatusLineToken` | src/atom/http.py:202 | a reply starting `version code<space>…` yields `code` as its second token |
| `Tunnel.CheckStatus` | src/atom/http.py:202-204 | the check passes exactly when the second token is `200`; fewer than two tokens give the IndexError case exactly; any other second token gives a `ProxyError` carrying exactly that token, and every `ProxyError` carries the reply's token |
| `Tunnel.Handshake` | src/atom/http.py:165-213 | a tunnel is produced exactly when the reply completes and its token is `200`; an exhausted reply gives the incomplete error exactly; a complete reply with fewer than two tokens gives the IndexError case, one with another token a `ProxyError` carrying it; on success the sent text is the CONNECT request, the proxy endpoint is the parsed proxy URL with its port defaulted, and the dropped bytes are those after the first terminator |
| `Tunnel.Conclude` | src/atom/http.py:199-213 | after the loop: an incomplete reply is the incomplete error; a complete one succeeds exactly with token `200`, and otherwise fails with the IndexError case or a `ProxyError` carrying the token |
| `Tunnel.Accept` | src/atom/http.py:207-213 | the accepted tunnel keeps the proxy endpoint, the request and the reply; the bytes it leaves behind are exactly those after the first terminator in the reply |
| `Tunnel.SingleChunkReply` | src/atom/http.py:196-200 | a first chunk holding a header with no carriage returns and then the terminator ends the loop after one `recv` |
| `Tunnel.FragmentedReply` | src/atom/http.py:196-200 | a reply whose terminator completes only in the third of three chunks is read through all three, and the three are joined |
| `Tunnel.StatusLineReply` | src/atom/http.py:196-204 | a one-chunk reply of a status line, the terminator and further bytes fails with `ProxyError` carrying the code unless the code is `200`; with `200` the tunnel is set up and exactly the further bytes are dropped |
| `Tunnel.ProxyRejects407` | src/atom/http.py:199-204 | the single-chunk reply `HTTP/1.0 407 Proxy Authentication Required\r\n\r\n` gives `ProxyError("407")`, so no tunnel is set up |
| `Tunnel.BytesPastTerminatorDropped` | src/atom/http.py:196-213 | a `200` reply followed by further bytes in the same chunk succeeds, and exactly those bytes are dropped |
| `Connection.PrepareDirect` | src/atom/http.py:136-143 | direct to the URL's host, over TLS exactly for `https`, on the URL's port or else 443 for https and 80 otherwise; the URL's port is filled in and the headers are unchanged |
| `Connection.WithProxyAuthorization` | src/atom/http.py:225-226 | the credentials header is added (replacing a caller's value) exactly when credentials exist, holding the stripped value; no other header changes |
| `Connection.PrepareProxied` | src/atom/http.py:163-231 | direct exactly when the scheme's proxy variable is unset or empty; https through a proxy gives the handshake's outcome as a tunnel or its error; anything else goes to the `http_proxy` endpoint with port default `'80'`, the URL unchanged and the credentials header added |
| `Connection.PrepareConnection` | src/atom/http.py:92 | the plain client is always direct; the route is direct exactly when the client is plain or no proxy is configured for the scheme; tunnels are only for https, forward proxying only for other schemes; failure only when a tunnel was attempted |
| `Connection.AccessUrl` | src/atom/http.py:233-238 | the absolute URL exactly for the proxied client with protocol `http` and `http_proxy` set, the request URI otherwise |
| `Connection.ProxyUsedExactlyWhenConfigured` | src/atom/http.py:165-168 | an https URL is tunnelled exactly when `https_proxy` is non-empty, an http URL goes to a proxy exactly when `http_proxy` is |
| `Connection.AbsoluteTargetExactlyForForwardProxy` | src/atom/http.py:233-238 | for http and https URLs, with either client, the target is the absolute URL exactly when the route is a forward proxy |
| `Connection.OtherSchemeThroughProxyKeepsPath` | src/atom/http.py:217-238 | a scheme other than http or https with `http_proxy` set is routed to the proxy but keeps the path-only target |
| `Connection.HttpsWithoutProxyIsDirect` | src/atom/http.py:214-216 | https without `https_proxy` connects directly over TLS on the URL's port or 443, with no tunnel |
| `Connection.ForwardProxyAuthorization` | src/atom/http.py:217-228 | through a plain-HTTP proxy with a user name set, the Proxy-Authorization header is `Basic` plus the stripped encoded credentials |
| `Body.StreamChunks` | src/atom/http.py:261-267 | the reads before the first empty one join to the stream's whole content; each is non-empty and at most 100000 bytes; all but the last are exactly 100000 |
| `Body.SendPart` | src/atom/http.py:256-272 | the bytes sent for one part are its bytes: a string itself, a stream's content, anything else its string form |
| `Body.SendParts` | src/atom/http.py:120-122 | sending a list puts the parts' bytes on the wire in list order |
| `Body.BodyTrace` | src/atom/http.py:118-124 | the bytes sent for the body are the bytes it stands for; nothing is sent when `data` is false; a true string goes out as one unmodified `send` |
| `Body.Truthy` | src/atom/http.py:101 | `if data:` is false exactly for None, the empty list, the empty string and an object whose own truth value is false; a stream is always true |
| `Body.ChunkCount` | src/atom/http.py:263-266 | the number of non-empty reads is the content length divided by 100000, rounded up |
| `Body.StreamSentInChunks` | src/atom/http.py:263-266 | a stream body goes out in that many reads of at most 100000 bytes that join to its content; an empty stream sends nothing |
| `Client.ResolveUrl` | src/atom/http.py:81-86 | `UnparsableUrlObject` exactly when the argument is neither a Url nor a string; a string is parsed, a Url is used as is |
| `Client.MergeHeaders` | src/atom/http.py:88-90 | the merged keys are the union; every per-call header wins; instance headers the call does not mention are kept |
| `Client.FinalizeHeaders` | src/atom/http.py:99-111 | `ContentLengthRequired` exactly for true non-`str` data without Content-Length; otherwise every existing header is kept unchanged, a missing Content-Length becomes `len(data)` for true data and stays absent otherwise, and a missing Content-Type becomes `application/atom+xml` |
| `Client.Request` | src/atom/http.py:58-127 | `UnparsableUrlObject` exactly for a non-URL argument; `ContentLengthRequired` only after the connection was prepared successfully; on success the body trace's bytes are the data's bytes and Content-Type (and Content-Length, for true data) are sent |
| `Client.RequestHeaderPrecedence` | src/atom/http.py:88-92 | in the headers sent, every per-call header and every instance header the call does not override keeps its value; only on the forward-proxy route may Proxy-Authorization be replaced |
| `Client.HttpsWithoutProxyGoesDirect` | src/atom/http.py:214-216 | end to end, https without `https_proxy` and with a body that is false, a string or accompanied by a Content-Length succeeds, going straight to the host over TLS with the request-URI target |
| `Client.HttpThroughProxyUsesAbsoluteUrl` | src/atom/http.py:233-236 | end to end, http with `http_proxy` set and with a body that is false, a string or accompanied by a Content-Length succeeds, going to the forward proxy with the absolute URL as target |
| `Client.UnsizedBodyRejected` | src/atom/http.py:101-107 | true non-`str` data without any Content-Length fails with `ContentLengthRequired` whenever no CONNECT handshake precedes the check |
| `Client.TunnelFailurePrecedesContentLength` | src/atom/http.py:92-107 | through an HTTPS proxy that answers the CONNECT with a non-200 status line, the request fails with `ProxyError` carrying that code even for true non-`str` data, which the Content-Length check would also refuse |
| `Client.StringBodySentWhole` | src/atom/http.py:101-124 | a string body with Content-Length equal to its length is sent as one unmodified `send`, and the header keeps its value |

## Left out

- Sockets (`connect`, `sendall`, `recv`), `socket.ssl`, `httplib.FakeSocket` and the `httplib` connection objects (`putrequest`, `putheader`, `endheaders`, `getresponse`) are foreign I/O. A route records the endpoint handed to the library, and the body is a trace of `send` events.
- `recv` is a given finite sequence of chunks. When the chunks run out before `\r\n\r\n`, the model returns `ProxyReplyIncomplete`, where the source would loop forever on a closed socket. The 8192-byte size of each `recv` is not constrained.
- `atom.url.parse_url`, `Url.get_request_uri`, `Url.to_string` and `base64.encodestring` are not part of this model. They are taken as given total functions, so their own failures are not modelled.
- `int(proxy_url.port)` in the tunnel's `connect` can raise `ValueError` for a non-numeric port. That belongs to the socket connect, which is not modelled.
- An unset port (`None`) and an empty port string are both represented as `""`, since both are false in every test the client makes. The direct path assigns the integers 443 and 80; they appear here as the strings `"443"` and `"80"`.
- The `debug` flag only sets `httplib`'s debug level. It is left out.
- `str(data)` of arbitrary objects is not computed. Such a body is `Other(form, truthy)`, with its string form and Python truth value given. Unicode bodies fall in this case, because they are not `types.StringType`.
- A stream is a file-like object whose `read(n)` returns the next `n` bytes (fewer at the end) and then `''`. Streams that return short reads before their end are not modelled.
- The order in which `putheader` walks the header dictionary is Python's dict order. It is not modelled; the headers are a map.
- `HttpClient._prepare_connection` assigns the default port to the caller's own `Url` object (http.py:138 and 142). The model does not mutate the argument: the filled-in port appears only in the prepared URL.
- The `isinstance` re-check inside `HttpClient._prepare_connection` cannot fail when it is called from `request`, which has already resolved the URL. It is not modelled separately.
- TLS certificate verification, timeouts and replaying the dropped reply bytes are not in the code, so they are not in the model.
