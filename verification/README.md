# SellsyAPI client core, modelled in Dafny

This project models the request-preparation and token-lifecycle logic of the
`SellsyAPI` Python client (`sellsyapi/client.py`): a client for the Sellsy v2
REST API that obtains a bearer token with the OAuth 2.0 client-credentials
grant (section 4.4 of RFC 6749), keeps the `(access_token, token_expiry)` pair
and refreshes it lazily when it has expired, and sends GET/POST requests whose
content type depends on the endpoint, whose query parameters get a default
`limit` of 100, and which are retried with exponential backoff.

The HTTP transport, the clock, `sleep` and JSON encoding are inputs of the
model rather than effects:

- the authorization server's answer is a `TokenReply` value (`Granted`,
  `Rejected` for a `RequestException`, `Incomplete` for a reply lacking a key);
- the API's answers are an oracle `respond: nat -> Outcome` from attempt index
  to `Success(body)` or `Transient(detail)`;
- the current time is a `real` parameter `now` (seconds, as `time()` returns);
- each `sleep(d)` is recorded as `d` in an output sequence `sleeps`;
- `json.dumps` is a function parameter `dumps: Object -> string`.

Files and modules:

| file | module | models |
|---|---|---|
| wrappers.dfy | `Wrappers` | `Option` (Python `None`) and `Result` (value or raised exception) |
| json.dfy | `JsonValues` | JSON values and `dict`s of them |
| errors.dfy | `Errors` | the three exceptions the client raises and their messages |
| content_type.dfy | `ContentTypes` | the endpoint content-type table and the body encoding choice |
| params.dfy | `QueryParams` | `params or {}` and `setdefault('limit', 100)` |
| token.dfy | `TokenCache` | `_request_new_token` and `_get_access_token` |
| retry.dfy | `Retries` | the retry loop of `_request` |
| client.dfy | `SellsyClient` | `__init__`, request building, `_check_access_token`, `get`, `post` |

The retry block of `_request` (lines 99-110) does not parse as committed: a
`while retries < MAX_RETRIES` line without a colon precedes
`for attempt in range(MAX_RETRIES)`, and the handler calls `time.sleep` on the
imported `time` function (line 2 binds `time` to `time.time`, so the lookup
raises `AttributeError`) and names the undefined `max_retries` and `e`. The
model follows the evident intent: the `for` loop over `MAX_RETRIES = 5`
attempts with the `retries` counter, `sleep(2 ** retries)`, and an exception
naming the endpoint and the caught error. The comment on module `Retries`
records this.

The model follows the code on these points:

- a token reply without `expires_in` or `access_token` raises `KeyError`
  (lines 60-61), which is not a `RequestException` and so is not turned into
  the "Failed to obtain access token" `RuntimeError`; the model keeps the two
  apart (`TokenFieldMissing` and `TokenRequestFailed`);
- the returned token is not always unexpired: after a refresh it is unexpired
  only when the server granted a positive `expires_in`
  (`TokenCache.ReturnedTokenFreshness`).

Two places depart from the code on purpose: the extra sleep after the last
retry (see "## Findings") and the duplicate request in `get` (see
"## Left out").

## Model

| member | source | states |
|---|---|---|
| Errors.Message | sellsyapi/client.py:63 | the token error reads "Failed to obtain access token: " then the underlying error; the exhaustion error starts "All retries failed for " then the endpoint |
| Errors.ExhaustedMessageNamesEndpoint | sellsyapi/client.py:110 | the exhaustion message contains the endpoint right after its prefix and ends with the last failure's text |
| ContentTypes.ContentTypeFor | sellsyapi/client.py:94 | a listed endpoint gets its table entry, any other endpoint `application/json`; the result is `text/plain` exactly for `batch`, otherwise `application/json` |
| ContentTypes.ListedEndpointsAreBatchOrSearch | sellsyapi/client.py:19-29 | every endpoint in the table is `batch` or ends in `/search` |
| ContentTypes.EncodeBody | sellsyapi/client.py:91-97 | a missing body becomes `{}`; the body is serialised with `dumps` exactly when the content type is `application/json`, otherwise passed through unchanged |
| ContentTypes.BodyEncodedUnlessBatch | sellsyapi/client.py:94-97 | the body of a call is serialised exactly when the endpoint is not `batch`; a `batch` body is the caller's dict as given |
| QueryParams.WithDefaults | sellsyapi/client.py:89-90 | the sent keys are the caller's keys plus `limit`; a caller-supplied `limit` is kept, a missing one becomes 100; every other key keeps its value |
| QueryParams.EmptyParamsGetDefaultLimit | sellsyapi/client.py:89-90 | absent or empty parameters become exactly `{limit: 100}` |
| QueryParams.WithDefaultsIdempotent | sellsyapi/client.py:89-90 | applying the defaulting to its own output changes nothing |
| QueryParams.WithDefaultsExtendsCallerParams | sellsyapi/client.py:89-90 | the sent parameters are the caller's dict, or that dict with only `limit = 100` added |
| TokenCache.GrantForm | sellsyapi/client.py:53-57 | the token request form has exactly the keys `grant_type`, `client_id`, `client_secret`, with `grant_type = client_credentials` and the client's own id and secret |
| TokenCache.RequestNewToken | sellsyapi/client.py:52-63 | a token is produced exactly when the server granted one; its expiry is the fetch time plus `expires_in`; a request failure raises the token error and a missing key raises `KeyError` |
| TokenCache.GetAccessToken | sellsyapi/client.py:34-40 | before expiry the cached pair is returned untouched; at or after expiry the result is the fresh fetch at `now`, and a failed fetch leaves no new pair |
| TokenCache.RefreshExactlyWhenExpired | sellsyapi/client.py:38-40 | with a granting server, the cache is kept when `now < expiry` and both fields are replaced by the new pair otherwise |
| TokenCache.ReturnedTokenFreshness | sellsyapi/client.py:38-61 | the token handed out is unexpired at `now` exactly when it came from the cache or was granted a positive lifetime |
| TokenCache.ZeroLifetimeForcesNextRefresh | sellsyapi/client.py:38-61 | a token granted with `expires_in <= 0` is never reused: any later lookup fetches again |
| TokenCache.SecondLookupReusesToken | sellsyapi/client.py:38-40 | a second lookup before expiry returns the first lookup's pair without consulting the server |
| Retries.BackoffsStrictlyIncreasing | sellsyapi/client.py:108 | the backoff delays 2, 4, 8, ... strictly increase from one retry to the next |
| Retries.DescribesUnique | sellsyapi/client.py:99-110 | the description of a retried call (attempt count, first success, exhaustion error, delays) fixes the run completely |
| Retries.RunFrom | sellsyapi/client.py:101-110 | from `retries` failures on, the loop stops by attempt 5, returns the first success, raises naming the endpoint and the last failure only after the fifth failure, and sleeps 2^(k) after the k-th failure when another attempt follows |
| Retries.Retry | sellsyapi/client.py:99-110 | a call makes between 1 and 5 attempts, all but the last failed, returns the first success's body or raises the exhaustion error after 5 failures, with delays 2, 4, ..., 2^(attempts-1) |
| Retries.SucceedsOnAttempt | sellsyapi/client.py:101-105 | an upstream failing n-1 times then succeeding (n <= 5) is called exactly n times and its body is returned after delays 2, ..., 2^(n-1) |
| Retries.AlwaysFailingExhausts | sellsyapi/client.py:106-110 | an always-failing upstream is called exactly 5 times, then the error names the endpoint and the last failure, with delays 2, 4, 8, 16 |
| Retries.Execute | sellsyapi/client.py:99-110 | the loop over the oracle makes the attempts, returns the result and sleeps of the description, and agrees with `Retry` |
| Retries.RunAsWrittenFrom | sellsyapi/client.py:106-110 | the handler in source order: the same attempts and result as the intended loop, but a sleep of 2^(k) after every k-th failure, including the fifth |
| Retries.AsWrittenFromDiffersOnExhaustion | sellsyapi/client.py:106-110 | the handler in source order agrees with the corrected loop on result and attempts and differs only by one more sleep of 2^5 after the last failure |
| Retries.AsWrittenDiffersOnExhaustion | sellsyapi/client.py:106-110 | the same, for a whole call |
| Retries.AsWrittenSleepsAfterFinalFailure | sellsyapi/client.py:107-110 | with an always-timing-out upstream the handler as written sleeps 2, 4, 8, 16, 32 while the intended delays are 2, 4, 8, 16 |
| SellsyClient.Connect | sellsyapi/client.py:30-32 | a client exists exactly when the eager token fetch succeeds; it keeps the credentials and the fetched pair; otherwise the fetch error is raised |
| SellsyClient.ConnectedClientSendsItsToken | sellsyapi/client.py:32-40 | a client just constructed with a positive lifetime posts no token form on a call at that instant and sends the constructor's token |
| SellsyClient.Bearer | sellsyapi/client.py:92 | the Authorization header is `Bearer ` followed by exactly the token |
| SellsyClient.BearerInjective | sellsyapi/client.py:92 | different tokens give different Authorization headers |
| SellsyClient.BuildRequest | sellsyapi/client.py:89-97 | the request goes to the API base URL plus the endpoint, with exactly the Authorization and Content-Type headers, the defaulted query parameters, and the body chosen by the endpoint's content type (serialised unless the endpoint is `batch`) |
| SellsyClient.Call | sellsyapi/client.py:65-70 | the token check runs first; the client's credentials are posted exactly when the token has expired; a valid token leaves the client unchanged; an expired one is replaced by the granted pair; a failed refresh sends nothing and raises; otherwise the request sent is the one `_request` builds with the post-check token and the retry description holds |
| SellsyClient.GetResource | sellsyapi/client.py:112-132 | `get` sends a GET with the defaulted parameters and an empty body: `dumps({})` for JSON endpoints, the empty dict as given for `batch` |
| SellsyClient.PostResource | sellsyapi/client.py:134-152 | `post` sends a POST to the endpoint's URL with the endpoint's content type, the defaulted query parameters and the encoding of the caller's data |
| SellsyClient.RefreshedTokenIsSent | sellsyapi/client.py:92 | with an expired token and a granted refresh, the request carries the new token and never the stale one |
| SellsyClient.FailedRefreshSendsNothing | sellsyapi/client.py:62-63 | an expired token whose refresh fails makes no HTTP attempt, raises the token error and keeps the old client |
| SellsyClient.GetSendsDefaultLimit | sellsyapi/client.py:113-124 | a GET sends the caller's parameters with `limit = 100` added unless the caller set a limit |

## Findings

| source | as written | input that shows it | evidently intended | confidence | as-written member | corrected member |
|---|---|---|---|---|---|---|
| sellsyapi/client.py:107-110 | after each failure the handler increments `retries`, then sleeps `2 ** retries`, then tests `retries == max_retries`, so after the fifth failure it sleeps 32 more time units before raising | an upstream that fails every attempt: sleeps 2, 4, 8, 16, 32 | backoff only between attempts: 2, 4, 8, 16, then raise | medium, not executed | Retries.AsWrittenSleepsAfterFinalFailure | Retries.Retry |

The rest of the model (`Retries.Execute`, `SellsyClient.Call`) uses the
corrected loop.

## Left out

- HTTP transport (`requests.post`, `requests.request`), `raise_for_status` and `response.json()`: replaced by the `TokenReply` value and the `respond` oracle.
- Exceptions other than `RequestException` raised inside the retry loop (they would escape at once, without retry): the oracle only reports successes and `RequestException` failures.
- A token reply whose `access_token` is not a string or whose `expires_in` is not a number (a `TypeError` in the expiry sum): the oracle's `Granted` carries a string and an integer.
- The wall clock: `now` is a parameter, and the two `time()` reads of one refresh (lines 38 and 60) are taken as the same instant; `float` time is modelled as exact `real` arithmetic.
- `sleep`: durations are recorded in `sleeps` instead of waiting.
- `json.dumps`: a function parameter; only whether it is applied is modelled.
- The unparseable `while retries < MAX_RETRIES` line and the names `time.sleep`, `max_retries` and `e`: modelled as their evident intent (see above).
- The first request in `get` (lines 124-127), whose `data` and `pagination` values are never used, and the duplicate network round-trip it causes: `get` is modelled as one `_request` call.
- Python's shared mutable default arguments (lines 113, 135) and `setdefault` mutating the caller's dict: parameters are immutable maps.
- The URL of the authorization endpoint and the posting itself: `GrantForm` gives the form, and `SellsyClient.Call` reports it whenever a refresh happens; the server's answer is the `TokenReply` input.
- SellsyClient.Connect: does not report the form posted by the constructor's fetch; it is always `GrantForm` of the given credentials.
- JSON numbers are integers only: decimal values in requests or responses are not represented, as no logic of the client depends on them.
- Concurrency, locking and cancellation: none exist in the code.
- `setup.py`: packaging metadata without logic.
