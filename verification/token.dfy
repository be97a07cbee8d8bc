/** The cached access token and its lazy refresh
    (sellsyapi/client.py, `_request_new_token` and `_get_access_token`).
    The token grant is the OAuth 2.0 client-credentials grant of section 4.4
    of RFC 6749; `expires_in` is the lifetime in seconds of section 5.1. */
module TokenCache {
  import opened Wrappers
  import opened Errors

  datatype Credentials = Credentials(clientId: string, clientSecret: string)

  /** The `(access_token, token_expiry)` pair the client keeps. Times are
      seconds since the epoch, as returned by `time()`. */
  datatype Token = Token(accessToken: string, expiry: real)

  /** What the authorization server's reply amounts to once the HTTP call,
      `raise_for_status` and `response.json()` have run: a token with its
      lifetime, a `RequestException`, or a JSON body lacking a field. */
  datatype TokenReply =
    | Granted(accessToken: string, expiresIn: int)
    | Rejected(detail: string)
    | Incomplete(key: string)

  /** The form posted to the authorization endpoint. */
  function GrantForm(creds: Credentials): (form: map<string, string>)
    ensures form.Keys == {"grant_type", "client_id", "client_secret"}
    ensures form["grant_type"] == "client_credentials"
    ensures form["client_id"] == creds.clientId && form["client_secret"] == creds.clientSecret
  {
    map["grant_type" := "client_credentials",
        "client_id" := creds.clientId,
        "client_secret" := creds.clientSecret]
  }

  /** A fresh token fetched at time `now`: it expires `expires_in` seconds
      after `now`; a failed request raises instead of yielding a token. */
  function RequestNewToken(reply: TokenReply, now: real): (r: Result<Token, Error>)
    ensures r.Ok? <==> reply.Granted?
    ensures r.Ok? ==> r.value.accessToken == reply.accessToken
    ensures r.Ok? ==> r.value.expiry - now == reply.expiresIn as real
    ensures reply.Rejected? ==> r == Err(TokenRequestFailed(reply.detail))
    ensures reply.Incomplete? ==> r == Err(TokenFieldMissing(reply.key))
  {
    match reply
    case Granted(t, e) => Ok(Token(t, now + e as real))
    case Rejected(d) => Err(TokenRequestFailed(d))
    case Incomplete(k) => Err(TokenFieldMissing(k))
  }

  /** The cached token must be replaced at `now`. */
  predicate Expired(cache: Token, now: real) {
    now >= cache.expiry
  }

  /** `_get_access_token` at time `now`: the new cache, whose access token
      is the one returned. `reply` is consulted only when the cache has
      expired; if that request fails the cache is left as it was. */
  function GetAccessToken(cache: Token, now: real, reply: TokenReply): (r: Result<Token, Error>)
    ensures !Expired(cache, now) ==> r == Ok(cache)
    ensures Expired(cache, now) ==> (r.Ok? <==> reply.Granted?)
    ensures Expired(cache, now) && r.Ok? ==>
      r.value == Token(reply.accessToken, now + reply.expiresIn as real)
    ensures r.Err? ==> Expired(cache, now) && !reply.Granted?
  {
    if Expired(cache, now) then RequestNewToken(reply, now) else Ok(cache)
  }

  /** A token is reused exactly while it has not expired; once expired it is
      replaced by the server's new pair, whatever the old one was. */
  lemma RefreshExactlyWhenExpired(cache: Token, now: real, token: string, expiresIn: int)
    ensures GetAccessToken(cache, now, Granted(token, expiresIn)) ==
      if now < cache.expiry then Ok(cache)
      else Ok(Token(token, now + expiresIn as real))
  {
  }

  /** The token handed out is unexpired at `now` exactly when it came from
      the cache or the server granted it a positive lifetime. */
  lemma ReturnedTokenFreshness(cache: Token, now: real, reply: TokenReply)
    requires GetAccessToken(cache, now, reply).Ok?
    ensures var t := GetAccessToken(cache, now, reply).value;
      !Expired(t, now) <==> (!Expired(cache, now) || reply.expiresIn > 0)
  {
  }

  /** A token granted with a lifetime of zero (or less) is never reused:
      the very next lookup asks the server again. */
  lemma ZeroLifetimeForcesNextRefresh(cache: Token, now: real, later: real, token: string,
                                      expiresIn: int, next: TokenReply)
    requires Expired(cache, now) && expiresIn <= 0 && now <= later
    ensures var t := GetAccessToken(cache, now, Granted(token, expiresIn)).value;
      GetAccessToken(t, later, next) == RequestNewToken(next, later)
  {
  }

  /** Two lookups before the token expires contact the server at most once:
      the second returns the first's token unchanged, whatever the server
      would have said. */
  lemma SecondLookupReusesToken(cache: Token, now: real, later: real, reply: TokenReply, next: TokenReply)
    requires GetAccessToken(cache, now, reply).Ok?
    requires now <= later < GetAccessToken(cache, now, reply).value.expiry
    ensures GetAccessToken(GetAccessToken(cache, now, reply).value, later, next) ==
      GetAccessToken(cache, now, reply)
  {
  }
}
