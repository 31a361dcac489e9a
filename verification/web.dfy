/** Shapes shared by the client and the server: optional values, the outcome
    of a network round trip, and JavaScript truthiness of optional strings. */
module Web {

  datatype Option<+T> = None | Some(value: T)

  /** What a `GET` wrapped in try/catch hands to the component: either the
      response body, or nothing because the token request or the network
      failed and the catch block ran. A body of an unexpected shape is not a
      case here: where the component sorts the body it would also throw into
      the catch block, but where it stores the body as it came it would not. */
  datatype Fetch<+T> = Failed | Fetched(data: T)

  /** Outcome of a handler that first asks for an access token and then issues
      one write request: a failed token request means no request was sent. */
  datatype Outcome = TokenFailed | RequestFailed | Succeeded

  /** A request goes out exactly when the token was obtained. */
  predicate RequestSent(outcome: Outcome)
  {
    outcome != TokenFailed
  }

  /** JavaScript truthiness of a value that is a string or null/undefined:
      null, undefined and "" are falsy, every other string is truthy. */
  predicate Truthy(s: Option<string>)
  {
    s.Some? && s.value != ""
  }
}
