/** The exceptions the client raises, and the messages they carry. */
module Errors {

  datatype Error =
    /** `RuntimeError` raised when the token request fails with a
        `RequestException` (HTTP error status, network failure, bad JSON). */
    | TokenRequestFailed(detail: string)
    /** `KeyError` escaping from a token reply without `expires_in` or
        `access_token`; it is not a `RequestException`, so it is not wrapped. */
    | TokenFieldMissing(key: string)
    /** The exception raised once every attempt of a request has failed. */
    | RetriesExhausted(endpoint: string, detail: string)

  const TokenFailurePrefix: string := "Failed to obtain access token: "
  const RetryFailurePrefix: string := "All retries failed for "

  /** The text of the exception, as the f-strings of the source format it. */
  function Message(e: Error): (m: string)
    ensures e.TokenRequestFailed? ==>
      |m| == |TokenFailurePrefix| + |e.detail| &&
      m[..|TokenFailurePrefix|] == TokenFailurePrefix && m[|TokenFailurePrefix|..] == e.detail
    ensures e.RetriesExhausted? ==>
      && |m| == |RetryFailurePrefix| + |e.endpoint| + 2 + |e.detail|
      && m[..|RetryFailurePrefix|] == RetryFailurePrefix
      && m[|RetryFailurePrefix|..|RetryFailurePrefix| + |e.endpoint|] == e.endpoint
  {
    match e
    case TokenRequestFailed(d) => TokenFailurePrefix + d
    case TokenFieldMissing(k) => "'" + k + "'"
    case RetriesExhausted(ep, d) => RetryFailurePrefix + ep + ": " + d
  }

  /** The retry-exhaustion message names the endpoint and the last failure. */
  lemma ExhaustedMessageNamesEndpoint(endpoint: string, detail: string)
    ensures var m := Message(RetriesExhausted(endpoint, detail));
      && |m| == |RetryFailurePrefix| + |endpoint| + 2 + |detail|
      && m[|RetryFailurePrefix|..|RetryFailurePrefix| + |endpoint|] == endpoint
      && m[|m| - |detail|..] == detail
  {
    var m := Message(RetriesExhausted(endpoint, detail));
    assert m == RetryFailurePrefix + endpoint + ": " + detail;
    assert m[|m| - |detail|..] == detail;
  }
}
