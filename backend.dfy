/**
 * The authentication endpoint as the forms see it.  The network is not
 * modelled: the outcome of awaiting `fetch(...)` and `response.json()` is
 * given to a submit handler as a value.
 */
module Backend {
  import opened Wrappers

  /**
   * The parsed JSON reply `{ success, authToken?, message? }`.  A missing
   * or falsy `success` is `false`.
   */
  datatype Reply = Reply(success: bool, authToken: Option<string>, message: Option<string>)

  /** What awaiting the request yields: a reply, or a rejected promise (network failure, unparsable body). */
  datatype Outcome = Replied(reply: Reply) | Rejected

  /** A request as sent: `fetch(url, { method: 'POST', headers: { 'Content-Type': ... }, body: JSON.stringify(body) })`. */
  datatype Request = Post(url: string, contentType: string, body: map<string, string>)

  /** Both forms post to the empty URL. */
  const Endpoint: string := ""

  const JsonContentType: string := "application/json"

  /**
   * `json.message || fallback`: the server's message when it is present and
   * non-empty (an empty string is falsy), the fallback otherwise; so a
   * non-empty fallback always yields a non-empty text.
   */
  function MessageOr(message: Option<string>, fallback: string): (text: string)
    ensures message.Some? && message.value != "" ==> text == message.value
    ensures message.None? || message.value == "" ==> text == fallback
    ensures fallback != "" ==> text != ""
  {
    if message.Some? && message.value != "" then message.value else fallback
  }

  /**
   * What `localStorage.setItem('token', json.authToken)` stores: storage
   * keeps strings, and a missing `authToken` is coerced to "undefined".
   */
  function StoredText(authToken: Option<string>): (s: string)
    ensures authToken.Some? ==> s == authToken.value
    ensures authToken.None? ==> s == "undefined"
  {
    authToken.GetOr("undefined")
  }
}
