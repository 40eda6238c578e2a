/**
 Proxy credentials (`_get_proxy_auth`): the user name and password are read
 from the environment, each under a hyphenated name first and an
 underscored name second, and turned into a Basic authorization value.
 */
module ProxyAuth {
  import opened PyStr
  import opened HttpTypes

  const UserPrimary: string := "proxy-username"
  const UserFallback: string := "proxy_username"
  const PasswordPrimary: string := "proxy-password"
  const PasswordFallback: string := "proxy_password"

  /** The outcome of an environment lookup; a missing variable (None) is
      `Absent`. */
  datatype Lookup = Absent | Found(text: string)

  /** A lookup under two names (http.py:242-247): the primary name when its
      value is non-empty, otherwise whatever the fallback name holds, which
      may be empty or missing. */
  function LookupWithFallback(env: Env, primary: string, fallback: string): (r: Lookup)
    ensures IsSet(env, primary) ==> r == Found(env[primary])
    ensures !IsSet(env, primary) && fallback in env ==> r == Found(env[fallback])
    ensures !IsSet(env, primary) && fallback !in env ==> r == Absent
  {
    if IsSet(env, primary) then Found(env[primary])
    else if fallback in env then Found(env[fallback])
    else Absent
  }

  /** `'%s' % v`: Python renders None as the text "None". */
  function Format(v: Lookup): string {
    match v
    case Absent => "None"
    case Found(s) => s
  }

  /** The `user:password` text that gets encoded, or None when no user name
      is set under either name. */
  function Credentials(env: Env): (r: Option<string>)
    ensures r.None? <==> !IsSet(env, UserPrimary) && !IsSet(env, UserFallback)
    ensures IsSet(env, UserPrimary) ==>
      r == Some(env[UserPrimary] + ":" + Format(LookupWithFallback(env, PasswordPrimary, PasswordFallback)))
    ensures !IsSet(env, UserPrimary) && IsSet(env, UserFallback) ==>
      r == Some(env[UserFallback] + ":" + Format(LookupWithFallback(env, PasswordPrimary, PasswordFallback)))
  {
    var user := LookupWithFallback(env, UserPrimary, UserFallback);
    if user.Found? && user.text != "" then
      Some(user.text + ":" + Format(LookupWithFallback(env, PasswordPrimary, PasswordFallback)))
    else None
  }

  /** `_get_proxy_auth` (http.py:241-253): empty without a user name,
      otherwise the Basic scheme name, the stripped base64 encoding of the
      credentials and a line break. */
  function GetProxyAuth(env: Env, encode: string -> string): (r: string)
    ensures r == "" <==> !IsSet(env, UserPrimary) && !IsSet(env, UserFallback)
    ensures r != "" ==>
      && |r| >= 8
      && r[..6] == "Basic "
      && r[|r| - 2..] == "\r\n"
      && r[6..|r| - 2] == Strip(encode(Credentials(env).value))
  {
    match Credentials(env)
    case None => ""
    case Some(c) => "Basic " + Strip(encode(c)) + "\r\n"
  }

  /** The value stored as the Proxy-Authorization header for a plain-HTTP
      proxy, `proxy_auth.strip()`: the encoded credentials after "Basic ",
      or just "Basic" when the encoding strips to nothing. */
  lemma StrippedProxyAuth(env: Env, encode: string -> string)
    requires IsSet(env, UserPrimary) || IsSet(env, UserFallback)
    ensures var e := Strip(encode(Credentials(env).value));
            Strip(GetProxyAuth(env, encode)) == if e == "" then "Basic" else "Basic " + e
  {
    var e := Strip(encode(Credentials(env).value));
    assert GetProxyAuth(env, encode) == "Basic " + e + "\r\n";
    StripBasicLine(e);
  }

  /** `('Basic ' + e + '\r\n').strip()` for an already stripped `e`. */
  lemma StripBasicLine(e: string)
    requires Trimmed(e)
    ensures Strip("Basic " + e + "\r\n") == if e == "" then "Basic" else "Basic " + e
  {
    var basic := "Basic";
    assert IsWord(basic);
    assert basic + " " == "Basic ";
    StripWordSpaceTrimmed(basic, e, "\r\n");
  }

  /** A password without a user name gives no credentials, whichever of
      the two names carry it. */
  lemma PasswordAloneGivesNothing(env: Env, encode: string -> string)
    requires UserPrimary !in env && UserFallback !in env
    ensures GetProxyAuth(env, encode) == ""
  {
  }

  /** With both user names set, the hyphenated one is used; a missing
      password is encoded as the text "None". */
  lemma HyphenatedUserWins(env: Env, encode: string -> string)
    requires IsSet(env, UserPrimary) && IsSet(env, UserFallback)
    ensures Credentials(env).Some?
    ensures |env[UserPrimary]| < |Credentials(env).value|
    ensures Credentials(env).value[..|env[UserPrimary]| + 1] == env[UserPrimary] + ":"
    ensures PasswordPrimary !in env && PasswordFallback !in env ==>
      GetProxyAuth(env, encode) == "Basic " + Strip(encode(env[UserPrimary] + ":None")) + "\r\n"
  {
    var c := Credentials(env).value;
    var rest := ":" + Format(LookupWithFallback(env, PasswordPrimary, PasswordFallback));
    assert c == env[UserPrimary] + rest;
    assert c[..|env[UserPrimary]| + 1] == env[UserPrimary] + ":";
    if PasswordPrimary !in env && PasswordFallback !in env {
      var pw := LookupWithFallback(env, PasswordPrimary, PasswordFallback);
      assert pw == Absent && Format(pw) == "None";
      assert env[UserPrimary] + ":" + "None" == env[UserPrimary] + ":None";
      assert Credentials(env) == Some(env[UserPrimary] + ":None");
    }
  }
}
