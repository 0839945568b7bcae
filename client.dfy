/** What the browser stores receive from `fetch` followed by `response.json()`. */
module Client {
  import opened Wrappers

  /** The parsed response body, or the exception that `fetch` or `response.json()` threw. */
  datatype Fetched<T> = Responded(body: T) | Threw

  /**
   * The `{ success, message, ... }` body every endpoint answers with: a truthy `success` with
   * its payload, or anything else with the `message` it may carry.
   */
  datatype Envelope<T> = Ok(payload: T) | Rejected(message: Option<string>)

  /** The error a store reports when the request itself threw. */
  const NetworkError := "Network error"
}
