/** The `SellsyAPI` client (sellsyapi/client.py): construction with an eager
    token fetch, request preparation in `_request`, and the public `get` and
    `post`, each preceded by the token check of `_check_access_token`. */
module SellsyClient {
  import opened Wrappers
  import opened JsonValues
  import opened Errors
  import opened ContentTypes
  import opened QueryParams
  import opened TokenCache
  import opened Retries

  const ApiBaseUrl: string := "https://api.sellsy.com/v2/"
  const BearerPrefix: string := "Bearer "

  datatype Client = Client(credentials: Credentials, token: Token)

  datatype HttpMethod = Get | Post

  /** Everything one HTTP attempt of `_request` sends; it is the same on
      every attempt of a call. */
  datatype Request = Request(verb: HttpMethod, url: string, headers: map<string, string>,
                             params: Object, body: Body)

  /** What a public call leaves behind: the client (with its possibly
      refreshed token), the form posted to the authorization endpoint if the
      token was refreshed, the result, the request sent if one was built,
      the number of HTTP attempts and the backoff sleeps. */
  datatype Exchange = Exchange(client: Client, grant: Option<map<string, string>>,
                               result: Result<Json, Error>, sent: Option<Request>,
                               attempts: nat, sleeps: seq<nat>)

  /** The constructor fetches a token at once; if that fails no client
      exists, since the exception escapes `__init__`. */
  function Connect(credentials: Credentials, reply: TokenReply, now: real): (r: Result<Client, Error>)
    ensures r.Ok? <==> reply.Granted?
    ensures r.Ok? ==>
      && r.value.credentials == credentials
      && r.value.token == Token(reply.accessToken, now + reply.expiresIn as real)
    ensures r.Err? ==> r.error == RequestNewToken(reply, now).error
  {
    match RequestNewToken(reply, now)
    case Ok(t) => Ok(Client(credentials, t))
    case Err(e) => Err(e)
  }

  /** A freshly connected client granted a positive lifetime needs no
      refresh for a call at the connection time: no form is posted and the
      request carries the token fetched by the constructor. */
  lemma ConnectedClientSendsItsToken(credentials: Credentials, token: string, expiresIn: int, now: real,
                                     reply: TokenReply, verb: HttpMethod, endpoint: string,
                                     params: Option<Object>, data: Option<Object>,
                                     dumps: Object -> string, respond: nat -> Outcome)
    requires expiresIn > 0
    ensures Connect(credentials, Granted(token, expiresIn), now).Ok?
    ensures var c := Connect(credentials, Granted(token, expiresIn), now).value;
      var r := Call(c, now, reply, verb, endpoint, params, data, dumps, respond);
      && r.grant.None? && r.client == c && r.sent.Some?
      && r.sent.value.headers["Authorization"] == Bearer(token)
  {
  }

  /** The Authorization header value of section 2.1 of RFC 6750. */
  function Bearer(token: string): (h: string)
    ensures |h| == |BearerPrefix| + |token|
    ensures h[..|BearerPrefix|] == BearerPrefix && h[|BearerPrefix|..] == token
  {
    BearerPrefix + token
  }

  /** Distinct tokens give distinct headers: the header identifies the token. */
  lemma BearerInjective(a: string, b: string)
    requires Bearer(a) == Bearer(b)
    ensures a == b
  {
    assert a == Bearer(a)[|BearerPrefix|..];
  }

  /** The request `_request` prepares for `endpoint` with the current token. */
  function BuildRequest(accessToken: string, verb: HttpMethod, endpoint: string,
                        params: Option<Object>, data: Option<Object>, dumps: Object -> string): (r: Request)
    ensures r.verb == verb
    ensures r.url == ApiBaseUrl + endpoint
    ensures r.headers.Keys == {"Authorization", "Content-Type"}
    ensures r.headers["Authorization"] == Bearer(accessToken)
    ensures r.headers["Content-Type"] == ContentTypeFor(endpoint)
    ensures r.params == WithDefaults(params)
    ensures LimitKey in r.params
    ensures r.body == EncodeBody(ContentTypeFor(endpoint), data, dumps)
    ensures r.body.Encoded? <==> endpoint != "batch"
  {
    var contentType := ContentTypeFor(endpoint);
    Request(verb, ApiBaseUrl + endpoint,
            map["Authorization" := Bearer(accessToken), "Content-Type" := contentType],
            WithDefaults(params), EncodeBody(contentType, data, dumps))
  }

  /** A public call: the token check first (`_check_access_token`), then
      `_request` with the token it leaves in place. A failed refresh raises
      before any request is built and leaves the client as it was. */
  function Call(client: Client, now: real, reply: TokenReply, verb: HttpMethod, endpoint: string,
                params: Option<Object>, data: Option<Object>, dumps: Object -> string,
                respond: nat -> Outcome): (r: Exchange)
    ensures r.client.credentials == client.credentials
    ensures r.result.Err? && r.sent.None? ==> r.client == client
    ensures !Expired(client.token, now) ==> r.client == client && r.sent.Some?
    ensures Expired(client.token, now) && reply.Granted? ==>
      r.client.token == Token(reply.accessToken, now + reply.expiresIn as real)
    ensures r.sent.None? <==> (Expired(client.token, now) && !reply.Granted?)
    ensures r.grant.Some? <==> Expired(client.token, now)
    ensures r.grant.Some? ==> r.grant.value == GrantForm(client.credentials)
    ensures r.sent.None? ==> r.attempts == 0 && r.sleeps == [] && r.result.Err?
    ensures r.sent.Some? ==>
      && r.sent.value == BuildRequest(r.client.token.accessToken, verb, endpoint, params, data, dumps)
      && "Authorization" in r.sent.value.headers
      && r.sent.value.headers["Authorization"] == Bearer(r.client.token.accessToken)
      && Describes(endpoint, respond, Run(r.result, r.attempts, r.sleeps))
  {
    var grant := if Expired(client.token, now) then Some(GrantForm(client.credentials)) else None;
    match GetAccessToken(client.token, now, reply)
    case Err(e) => Exchange(client, grant, Err(e), None, 0, [])
    case Ok(token) =>
      var request := BuildRequest(token.accessToken, verb, endpoint, params, data, dumps);
      var run := Retry(endpoint, respond);
      Exchange(client.(token := token), grant, run.result, Some(request), run.attempts, run.sleeps)
  }

  /** `get`: a call without a body; the body therefore defaults to `{}`. */
  function GetResource(client: Client, now: real, reply: TokenReply, endpoint: string,
                       params: Option<Object>, dumps: Object -> string,
                       respond: nat -> Outcome): (r: Exchange)
    ensures r.sent.Some? ==>
      && r.sent.value.verb == Get
      && r.sent.value.params == WithDefaults(params)
      && (endpoint == "batch" ==> r.sent.value.body == Raw(map[]))
      && (endpoint != "batch" ==> r.sent.value.body == Encoded(dumps(map[])))
  {
    Call(client, now, reply, Get, endpoint, params, None, dumps, respond)
  }

  /** `post`: a call carrying `data` as its body. */
  function PostResource(client: Client, now: real, reply: TokenReply, endpoint: string,
                        params: Option<Object>, data: Option<Object>, dumps: Object -> string,
                        respond: nat -> Outcome): (r: Exchange)
    ensures r.sent.Some? ==>
      && r.sent.value.verb == Post
      && r.sent.value.url == ApiBaseUrl + endpoint
      && "Content-Type" in r.sent.value.headers
      && r.sent.value.headers["Content-Type"] == ContentTypeFor(endpoint)
      && r.sent.value.params == WithDefaults(params)
      && r.sent.value.body == EncodeBody(ContentTypeFor(endpoint), data, dumps)
  {
    Call(client, now, reply, Post, endpoint, params, data, dumps, respond)
  }

  /** With an expired token and a granted refresh, the request carries the
      new token, never the stale one. */
  lemma RefreshedTokenIsSent(client: Client, now: real, token: string, expiresIn: int,
                             verb: HttpMethod, endpoint: string, params: Option<Object>,
                             data: Option<Object>, dumps: Object -> string, respond: nat -> Outcome)
    requires Expired(client.token, now)
    ensures var r := Call(client, now, Granted(token, expiresIn), verb, endpoint, params, data, dumps, respond);
      && r.sent.Some?
      && r.sent.value.headers["Authorization"] == Bearer(token)
      && (token != client.token.accessToken ==>
            r.sent.value.headers["Authorization"] != Bearer(client.token.accessToken))
  {
    var r := Call(client, now, Granted(token, expiresIn), verb, endpoint, params, data, dumps, respond);
    if token != client.token.accessToken && r.sent.value.headers["Authorization"] == Bearer(client.token.accessToken) {
      BearerInjective(token, client.token.accessToken);
    }
  }

  /** A failed refresh is fatal for the call: no HTTP attempt is made, the
      token error is raised, and the stale token stays cached. */
  lemma FailedRefreshSendsNothing(client: Client, now: real, reply: TokenReply, verb: HttpMethod,
                                  endpoint: string, params: Option<Object>, data: Option<Object>,
                                  dumps: Object -> string, respond: nat -> Outcome)
    requires Expired(client.token, now) && !reply.Granted?
    ensures var r := Call(client, now, reply, verb, endpoint, params, data, dumps, respond);
      r == Exchange(client, Some(GrantForm(client.credentials)), Err(RequestNewToken(reply, now).error),
                    None, 0, [])
  {
  }

  /** The query parameters of a GET: the caller's, with `limit = 100` unless
      the caller chose a limit. */
  lemma GetSendsDefaultLimit(client: Client, now: real, reply: TokenReply, endpoint: string,
                             params: Option<Object>, dumps: Object -> string, respond: nat -> Outcome)
    requires GetResource(client, now, reply, endpoint, params, dumps, respond).sent.Some?
    ensures var sent := GetResource(client, now, reply, endpoint, params, dumps, respond).sent.value;
      var given := params.GetOr(map[]);
      && sent.params[LimitKey] == (if LimitKey in given then given[LimitKey] else JInt(DefaultLimit))
      && forall k :: k in given ==> k in sent.params && (k != LimitKey ==> sent.params[k] == given[k])
  {
  }
}
