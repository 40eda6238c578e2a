/**
 The CONNECT handshake that opens a tunnel through an HTTPS proxy
 (the CONNECT method of section 4.3.6 of RFC 7231): the request text, the
 loop that reads the proxy's reply until the blank line ending its header
 block, and the check of the reply's status token.

 The socket is not modelled. What the proxy sends back is a given finite
 sequence of chunks, the successive results of `recv(8192)`; when they run
 out before the header block is complete the model says so, where the
 source would go on calling `recv`.
 */
module Tunnel {
  import opened PyStr
  import opened HttpTypes

  /** The end of an HTTP header block. */
  const Terminator: string := "\r\n\r\n"

  /** Port put in the CONNECT line when the URL has none. */
  const DefaultTunnelPort: string := "443"

  /** `response.find("\r\n\r\n") != -1`. */
  predicate HasTerminator(s: string) {
    Find(s, Terminator) != -1
  }

  // ---------------------------------------------------------------------
  // The CONNECT request

  /** The `host:port` the tunnel is asked to reach. */
  function Authority(url: Url): string {
    url.host + ":" + (if url.port != "" then url.port else DefaultTunnelPort)
  }

  /** `'CONNECT %s:%s HTTP/1.0\r\n'`. */
  function ConnectLine(url: Url): string {
    "CONNECT " + Authority(url) + " HTTP/1.0\r\n"
  }

  /** The optional credentials line; `auth` already ends in "\r\n". */
  function AuthLine(auth: string): string {
    if auth != "" then "Proxy-authorization: " + auth else ""
  }

  /** The optional User-Agent line, copied from the request's headers. */
  function UserAgentLine(headers: Headers): string {
    if UserAgent in headers then "User-Agent: " + Render(headers[UserAgent]) + "\r\n" else ""
  }

  /** `proxy_pieces`: the text sent to the proxy before anything else. */
  function ConnectRequest(url: Url, auth: string, headers: Headers): (r: string)
    ensures |ConnectLine(url)| <= |r| && r[..|ConnectLine(url)|] == ConnectLine(url)
    ensures r[|r| - 2..] == "\r\n"
    ensures auth == "" && UserAgent !in headers ==> r == ConnectLine(url) + "\r\n"
    ensures |r| == |ConnectLine(url)| + |AuthLine(auth)| + |UserAgentLine(headers)| + 2
  {
    ConnectLine(url) + AuthLine(auth) + UserAgentLine(headers) + "\r\n"
  }

  /** Ends in a line break. */
  predicate EndsWithCrlf(s: string) {
    |s| >= 2 && s[|s| - 2..] == "\r\n"
  }

  lemma AppendKeepsCrlf(a: string, b: string)
    requires EndsWithCrlf(b)
    ensures EndsWithCrlf(a + b)
  {
    assert (a + b)[|a + b| - 2..] == b[|b| - 2..];
  }

  /** Every line of the request ends in a line break. */
  lemma HeadEndsWithCrlf(url: Url, auth: string)
    requires auth == "" || EndsWithCrlf(auth)
    ensures EndsWithCrlf(ConnectLine(url) + AuthLine(auth))
  {
    var line := ConnectLine(url);
    AppendKeepsCrlf("CONNECT " + Authority(url) + " HTTP/1.0", "\r\n");
    if auth != "" {
      AppendKeepsCrlf("Proxy-authorization: ", auth);
      AppendKeepsCrlf(line, AuthLine(auth));
    } else {
      assert line + AuthLine(auth) == line;
    }
  }

  lemma LinesEndWithCrlf(head: string, headers: Headers)
    requires EndsWithCrlf(head)
    ensures EndsWithCrlf(head + UserAgentLine(headers))
  {
    if UserAgent in headers {
      AppendKeepsCrlf("User-Agent: " + Render(headers[UserAgent]), "\r\n");
      AppendKeepsCrlf(head, UserAgentLine(headers));
    } else {
      assert head + UserAgentLine(headers) == head;
    }
  }

  /** When the credentials are empty or end in "\r\n" (as `_get_proxy_auth`
      makes them), the request is a complete header block: it ends in a
      blank line. */
  lemma ConnectRequestEndsHeaderBlock(url: Url, auth: string, headers: Headers)
    requires auth == "" || EndsWithCrlf(auth)
    ensures var r := ConnectRequest(url, auth, headers);
            |r| >= 4 && r[|r| - 4..] == Terminator
  {
    var head := ConnectLine(url) + AuthLine(auth);
    HeadEndsWithCrlf(url, auth);
    LinesEndWithCrlf(head, headers);
    var body := head + UserAgentLine(headers);
    var r := body + "\r\n";
    assert r == ConnectRequest(url, auth, headers);
    assert r[|r| - 4..] == body[|body| - 2..] + "\r\n";
  }

  /** The request line split at its spaces and its final line break. */
  lemma ConnectLineShape(url: Url)
    ensures ConnectLine(url) == "CONNECT" + [' '] + Authority(url) + [' '] + "HTTP/1.0" + ['\r'] + "\n"
    ensures IsWord("CONNECT") && IsWord("HTTP/1.0")
  {
    assert "CONNECT " == "CONNECT" + [' '];
    assert " HTTP/1.0\r\n" == [' '] + "HTTP/1.0" + ['\r'] + "\n";
  }

  /** The tokens of a request line `CONNECT a HTTP/1.0\r...`. */
  lemma RequestLineTokens(a: string, rest: string, line: string)
    requires IsWord(a)
    requires line == "CONNECT" + [' '] + (a + [' '] + ("HTTP/1.0" + ['\r'] + rest))
    ensures var t := Split(line);
            |t| >= 3 && t[0] == "CONNECT" && t[1] == a && t[2] == "HTTP/1.0"
  {
    var verb, version := "CONNECT", "HTTP/1.0";
    assert IsWord(verb) && IsWord(version);
    var afterVersion := version + ['\r'] + rest;
    var afterVerb := a + [' '] + afterVersion;
    SplitLeadingWord(verb, ' ', afterVerb);
    SplitLeadingWord(a, ' ', afterVersion);
    SplitLeadingWord(version, '\r', rest);
  }

  /** The request line keeps its three tokens whatever follows it. */
  lemma ConnectLineTokens(url: Url, tail: string)
    requires IsWord(Authority(url))
    ensures var t := Split(ConnectLine(url) + tail);
            |t| >= 3 && t[0] == "CONNECT" && t[1] == Authority(url) && t[2] == "HTTP/1.0"
  {
    var a := Authority(url);
    ConnectLineShape(url);
    var line := ConnectLine(url) + tail;
    assert line == "CONNECT" + [' '] + (a + [' '] + ("HTTP/1.0" + ['\r'] + ("\n" + tail)));
    RequestLineTokens(a, "\n" + tail, line);
  }

  /** Read back by `split()`, the CONNECT request names the method, the
      authority and the protocol version, in that order. */
  lemma ConnectRequestTokens(url: Url, auth: string, headers: Headers)
    requires IsWord(Authority(url))
    ensures var t := Split(ConnectRequest(url, auth, headers));
            |t| >= 3 && t[0] == "CONNECT" && t[1] == Authority(url) && t[2] == "HTTP/1.0"
  {
    var line, a, u := ConnectLine(url), AuthLine(auth), UserAgentLine(headers);
    var tail := a + u + "\r\n";
    assert line + a + u + "\r\n" == line + tail;
    ConnectLineTokens(url, tail);
  }

  // ---------------------------------------------------------------------
  // Reading the reply

  /** What the receive loop ends with: the accumulated reply and the number
      of `recv` calls made, or everything received when the chunks ran out
      before a terminator appeared. */
  datatype Received = Complete(response: string, calls: nat) | Exhausted(response: string)

  /** None of the first `k` joins, for `k < n`, contains the terminator. */
  ghost predicate NoTerminatorBefore(reply: seq<string>, n: nat)
    requires n <= |reply| + 1
  {
    forall k :: 0 <= k < n ==> !HasTerminator(Concat(reply[..k]))
  }

  /** The loop's outcome described without the loop: the shortest prefix of
      the chunks whose join holds the terminator, joined whole (bytes past
      the terminator included); or, when there is none, all of them. */
  ghost predicate ShortestTerminatedPrefix(reply: seq<string>, r: Received) {
    match r
    case Complete(response, n) =>
      && n <= |reply|
      && response == Concat(reply[..n])
      && HasTerminator(response)
      && NoTerminatorBefore(reply, n)
    case Exhausted(response) =>
      && response == Concat(reply)
      && NoTerminatorBefore(reply, |reply| + 1)
  }

  /** The receive loop from the state after `i` calls of `recv`. */
  function AwaitFrom(reply: seq<string>, i: nat, acc: string): (r: Received)
    requires i <= |reply|
    requires acc == Concat(reply[..i]) && NoTerminatorBefore(reply, i)
    ensures ShortestTerminatedPrefix(reply, r)
    decreases |reply| - i
  {
    if HasTerminator(acc) then Complete(acc, i)
    else if i == |reply| then
      assert reply[..i] == reply;
      Exhausted(acc)
    else
      ConcatPrefixStep(reply, i);
      AwaitFrom(reply, i + 1, acc + reply[i])
  }

  /** The receive loop of http.py:196-200, starting from the empty
      response: read and append until the reply holds the terminator. */
  function AwaitTerminator(reply: seq<string>): (r: Received)
    ensures ShortestTerminatedPrefix(reply, r)
  {
    AwaitFrom(reply, 0, "")
  }

  /** The receive loop as the source writes it. */
  method ReceiveUntilTerminator(reply: seq<string>) returns (r: Received)
    ensures ShortestTerminatedPrefix(reply, r)
    ensures r == AwaitTerminator(reply)
  {
    var response := "";
    var calls := 0;
    while Find(response, Terminator) == -1
      invariant calls <= |reply|
      invariant response == Concat(reply[..calls])
      invariant NoTerminatorBefore(reply, calls)
      decreases |reply| - calls
    {
      if calls == |reply| {
        assert reply[..calls] == reply;
        r := Exhausted(response);
        ShortestPrefixUnique(reply, r, AwaitTerminator(reply));
        return;
      }
      ConcatPrefixStep(reply, calls);
      response := response + reply[calls];
      calls := calls + 1;
    }
    r := Complete(response, calls);
    ShortestPrefixUnique(reply, r, AwaitTerminator(reply));
  }

  /** The description pins the outcome down: at most one outcome fits it. */
  lemma ShortestPrefixUnique(reply: seq<string>, r1: Received, r2: Received)
    requires ShortestTerminatedPrefix(reply, r1) && ShortestTerminatedPrefix(reply, r2)
    ensures r1 == r2
  {
  }

  // ---------------------------------------------------------------------
  // The status check

  /** `response.split()[1]`, or None where that raises IndexError. */
  function StatusToken(response: string): (r: Option<string>)
    ensures r.Some? ==> IsWord(r.value)
  {
    var tokens := Split(response);
    if |tokens| < 2 then None else Some(tokens[1])
  }

  /** A status line `version code<sep>...` yields `code` as its token. */
  lemma StatusLineToken(version: string, code: string, sep: char, rest: string)
    requires IsWord(version) && IsWord(code) && IsSpace(sep)
    ensures StatusToken(version + " " + code + [sep] + rest) == Some(code)
  {
    assert version + " " + code + [sep] + rest == version + [' '] + (code + [sep] + rest);
    SplitLeadingWord(version, ' ', code + [sep] + rest);
    SplitLeadingWord(code, sep, rest);
  }

  /** The check after the loop (http.py:202-204): any second token other
      than 200 is a ProxyError carrying that token. */
  function CheckStatus(response: string): (r: Option<Error>)
    ensures r.None? <==> StatusToken(response) == Some("200")
    ensures r.Some? ==> r.value == NoStatusToken || r.value.ProxyError?
    ensures r == Some(NoStatusToken) <==> |Split(response)| < 2
    ensures r.Some? && r.value.ProxyError? ==> StatusToken(response) == Some(r.value.status)
    ensures StatusToken(response).Some? && StatusToken(response).value != "200" ==>
      r == Some(ProxyError(StatusToken(response).value))
  {
    match StatusToken(response)
    case None => Some(NoStatusToken)
    case Some(status) => if status == "200" then None else Some(ProxyError(status))
  }

  // ---------------------------------------------------------------------
  // The handshake

  /** A tunnel that the proxy accepted: the proxy endpoint, the bytes sent
      to it, the reply accumulated by the loop and the part of that reply
      past the terminator, which the source discards before the TLS
      handshake begins. */
  datatype TunnelSetup = TunnelSetup(
    proxyHost: string,
    proxyPort: string,
    request: string,
    reply: string,
    dropped: string)

  /** The branch of `ProxiedHttpClient._prepare_connection` for an https
      URL with `https_proxy` set: build the CONNECT text, connect to the
      proxy, send, read the reply, check its status. */
  function Handshake(ops: Collaborators, proxy: string, url: Url, headers: Headers,
                     auth: string, reply: seq<string>): (r: Result<TunnelSetup>)
    ensures AwaitTerminator(reply).Exhausted? <==> r == Failure(ProxyReplyIncomplete)
    ensures r.Success? <==>
      AwaitTerminator(reply).Complete? && StatusToken(AwaitTerminator(reply).response) == Some("200")
    ensures r.Failure? && r.error.ProxyError? ==>
      && AwaitTerminator(reply).Complete?
      && StatusToken(AwaitTerminator(reply).response) == Some(r.error.status)
      && r.error.status != "200"
    ensures AwaitTerminator(reply).Complete? && StatusToken(AwaitTerminator(reply).response).None? ==>
      r == Failure(NoStatusToken)
    ensures AwaitTerminator(reply).Complete? && StatusToken(AwaitTerminator(reply).response).Some?
            && StatusToken(AwaitTerminator(reply).response).value != "200" ==>
      r == Failure(ProxyError(StatusToken(AwaitTerminator(reply).response).value))
    ensures r.Success? ==>
      && r.value.request == ConnectRequest(url, auth, headers)
      && r.value.reply == AwaitTerminator(reply).response
      && r.value.proxyHost == ops.parseUrl(proxy).host
      && r.value.proxyPort == ProxyAddress(ops, proxy).port
      && 0 <= Find(r.value.reply, Terminator) <= |r.value.reply| - |Terminator|
      && r.value.dropped == r.value.reply[Find(r.value.reply, Terminator) + |Terminator|..]
  {
    Conclude(ProxyAddress(ops, proxy), ConnectRequest(url, auth, headers), AwaitTerminator(reply))
  }

  /** What follows the receive loop: an incomplete reply is an error, a
      complete one passes through the status check. */
  function Conclude(address: Url, request: string, received: Received): (r: Result<TunnelSetup>)
    requires received.Complete? ==> HasTerminator(received.response)
    ensures received.Exhausted? <==> r == Failure(ProxyReplyIncomplete)
    ensures received.Complete? ==>
      && (r.Success? <==> StatusToken(received.response) == Some("200"))
      && (StatusToken(received.response).None? ==> r == Failure(NoStatusToken))
      && (StatusToken(received.response).Some? && StatusToken(received.response).value != "200" ==>
            r == Failure(ProxyError(StatusToken(received.response).value)))
    ensures r.Success? ==> r.value == Accept(address, request, received.response)
  {
    match received
    case Exhausted(_) => Failure(ProxyReplyIncomplete)
    case Complete(response, _) =>
      match CheckStatus(response)
      case Some(e) => Failure(e)
      case None => Success(Accept(address, request, response))
  }

  /** The tunnel set up once the proxy has accepted: everything after the
      first terminator in the accumulated reply is left behind. */
  function Accept(address: Url, request: string, response: string): (t: TunnelSetup)
    requires HasTerminator(response)
    ensures t.proxyHost == address.host && t.proxyPort == address.port
    ensures t.request == request && t.reply == response
    ensures 0 <= Find(response, Terminator) <= |response| - |Terminator|
    ensures t.dropped == response[Find(response, Terminator) + |Terminator|..]
  {
    var at := Find(response, Terminator);
    assert OccursAt(response, Terminator, at);
    TunnelSetup(address.host, address.port, request, response, response[at + |Terminator|..])
  }

  // ---------------------------------------------------------------------
  // Replies as a proxy sends them

  /** Text without a carriage return followed by the terminator: the
      terminator is found right after the text. */
  lemma TerminatorAfterPlainText(x: string, rest: string)
    requires '\r' !in x
    ensures Find(x + Terminator + rest, Terminator) == |x|
  {
    var s := x + Terminator + rest;
    assert s[|x|..|x| + 4] == Terminator;
    assert OccursAt(s, Terminator, |x|);
    forall j | 0 <= j < |x|
      ensures !OccursAt(s, Terminator, j)
    {
      assert s[j] == x[j] && x[j] in x;
    }
  }

  /** The empty reply holds no terminator. */
  lemma EmptyHasNoTerminator()
    ensures !HasTerminator("")
  {
    assert forall j :: !OccursAt("", Terminator, j);
  }

  /** A first chunk made of a header text without carriage returns, the
      terminator and possibly more bytes ends the loop after one read. */
  lemma SingleChunkReply(head: string, extra: string)
    requires '\r' !in head
    ensures AwaitTerminator([head + Terminator + extra]) == Complete(head + Terminator + extra, 1)
  {
    var s := head + Terminator + extra;
    var reply := [s];
    TerminatorAfterPlainText(head, extra);
    EmptyHasNoTerminator();
    assert reply[..0] == [] && reply[..1] == reply;
    assert Concat(reply) == s + Concat([]);
    assert ShortestTerminatedPrefix(reply, Complete(s, 1));
    ShortestPrefixUnique(reply, AwaitTerminator(reply), Complete(s, 1));
  }

  /** The status check on a reply that starts with a status line. */
  lemma StatusOfStatusLine(version: string, code: string, reason: string, extra: string)
    requires IsWord(version) && IsWord(code)
    ensures CheckStatus(version + " " + code + " " + reason + Terminator + extra)
            == if code == "200" then None else Some(ProxyError(code))
  {
    var s := version + " " + code + " " + reason + Terminator + extra;
    assert s == version + " " + code + [' '] + (reason + Terminator + extra);
    StatusLineToken(version, code, ' ', reason + Terminator + extra);
  }

  /** A single-chunk reply made of a status line, the terminator and
      possibly more bytes: the handshake fails with ProxyError carrying the
      code unless the code is 200, in which case exactly the extra bytes
      are dropped. */
  lemma StatusLineReply(ops: Collaborators, proxy: string, url: Url, headers: Headers, auth: string,
                        version: string, code: string, reason: string, extra: string)
    requires IsWord(version) && IsWord(code) && '\r' !in version + " " + code + " " + reason
    ensures var r := Handshake(ops, proxy, url, headers, auth,
                               [version + " " + code + " " + reason + Terminator + extra]);
            && (code != "200" ==> r == Failure(ProxyError(code)))
            && (code == "200" ==> r.Success? && r.value.dropped == extra)
  {
    var head := version + " " + code + " " + reason;
    assert head + Terminator + extra == version + " " + code + " " + reason + Terminator + extra;
    SingleChunkReply(head, extra);
    StatusOfStatusLine(version, code, reason, extra);
    TerminatorAfterPlainText(head, extra);
    assert (head + Terminator + extra)[|head| + 4..] == extra;
  }

  /** The words of a status line with no carriage return in it. */
  lemma PlainStatusLine(version: string, code: string, reason: string)
    requires version == "HTTP/1.0" && (code == "200" || code == "407")
    requires reason == "OK" || reason == "Proxy Authentication Required"
    ensures IsWord(version) && IsWord(code) && '\r' !in version + " " + code + " " + reason
  {
    var head := version + " " + code + " " + reason;
    forall c | c in head
      ensures c != '\r'
    {
      var i :| 0 <= i < |head| && head[i] == c;
    }
  }

  /** The 407 reply line taken apart into its status-line words. */
  lemma Reply407Words()
    ensures "HTTP/1.0 407 Proxy Authentication Required\r\n\r\n"
            == "HTTP/1.0" + " " + "407" + " " + "Proxy Authentication Required" + Terminator + ""
  {
    var reason := "Proxy Authentication Required";
    assert "HTTP/1.0 407 " == "HTTP/1.0" + " " + "407" + " ";
    assert "HTTP/1.0 407 Proxy Authentication Required" == "HTTP/1.0 407 " + reason;
    assert "HTTP/1.0 407 Proxy Authentication Required\r\n\r\n"
        == "HTTP/1.0 407 Proxy Authentication Required" + Terminator;
  }

  /** A proxy refusing the tunnel with 407 in one chunk: the handshake fails
      with ProxyError carrying "407", so no TLS setup happens. */
  lemma ProxyRejects407(ops: Collaborators, proxy: string, url: Url, headers: Headers, auth: string)
    ensures Handshake(ops, proxy, url, headers, auth,
                      ["HTTP/1.0 407 Proxy Authentication Required\r\n\r\n"])
            == Failure(ProxyError("407"))
  {
    PlainStatusLine("HTTP/1.0", "407", "Proxy Authentication Required");
    Reply407Words();
    StatusLineReply(ops, proxy, url, headers, auth, "HTTP/1.0", "407", "Proxy Authentication Required", "");
  }

  /** A reply split over three reads whose terminator only completes in the
      third is still read to the end: three reads, all three joined. */
  lemma FragmentedReply(a: string, b: string, c: string)
    requires !HasTerminator(a) && !HasTerminator(a + b) && HasTerminator(a + b + c)
    ensures AwaitTerminator([a, b, c]) == Complete(a + b + c, 3)
  {
    var reply := [a, b, c];
    EmptyHasNoTerminator();
    assert reply[..0] == [];
    ConcatPrefixStep(reply, 0);
    ConcatPrefixStep(reply, 1);
    ConcatPrefixStep(reply, 2);
    assert reply[..3] == reply;
    assert Concat(reply[..0]) == "";
    assert Concat(reply[..1]) == a;
    assert Concat(reply[..2]) == a + b;
    assert Concat(reply[..3]) == a + b + c;
    forall k | 0 <= k < 3
      ensures !HasTerminator(Concat(reply[..k]))
    {
      if k == 0 {
      } else if k == 1 {
      } else {
      }
    }
    assert NoTerminatorBefore(reply, 3);
    var done := Complete(a + b + c, 3);
    assert ShortestTerminatedPrefix(reply, done);
    ShortestPrefixUnique(reply, AwaitTerminator(reply), done);
  }

  /** Bytes that arrive after the terminator in the same chunk end up in
      the accumulated reply and are dropped, not handed on to TLS. */
  lemma BytesPastTerminatorDropped(ops: Collaborators, proxy: string, url: Url, headers: Headers,
                                   auth: string, extra: string)
    ensures var r := Handshake(ops, proxy, url, headers, auth, ["HTTP/1.0 200 OK\r\n\r\n" + extra]);
            r.Success? && r.value.dropped == extra
  {
    PlainStatusLine("HTTP/1.0", "200", "OK");
    assert "HTTP/1.0 200 OK\r\n\r\n" == "HTTP/1.0" + " " + "200" + " " + "OK" + Terminator;
    StatusLineReply(ops, proxy, url, headers, auth, "HTTP/1.0", "200", "OK", extra);
  }
}
