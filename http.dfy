/** Values shared by every handler: JavaScript's `undefined`/`null` as an
    Option, and the abstract outcome of one `fetch` exchange. */
module Http {

  /** `None` stands for a JavaScript `undefined` or `null`. */
  datatype Option<+T> = None | Some(value: T)

  /** What one request produced once the network is taken out.
      - `Threw(error)`: something on the way threw (`fetch` rejected,
        `response.json()` failed); `error` is the exception's message.
      - `Answered(status, reason, data)`: the server answered with `status`;
        `data` is the parsed body, read only by the code paths that parse a
        successful body, and `reason` is the text the error paths build from
        the body (`errorData.error?.message || response.statusText`). */
  datatype Reply<T> = Threw(error: string) | Answered(status: int, reason: string, data: T)

  /** `Response.ok` of the Fetch standard: a status in 200..299. */
  predicate IsOk(status: int)
    ensures IsOk(status) <==> status / 100 == 2
  {
    200 <= status <= 299
  }
}
