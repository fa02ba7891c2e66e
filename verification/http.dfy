/** The transport as the dashboard sees it: every API call ends either in a
    reply body or in an axios error, and the network itself is a parameter.
    Only the fields of an error response that the code reads are kept. */
module Http {
  import opened Wrappers

  /** One entry of the `messages` list of an error body; `NoEntry` is a
      `null`/`undefined` element. */
  datatype MessageEntry = NoEntry | Entry(message: Option<string>)

  /** The error body: its `detail` and its `messages` list, each possibly
      absent. */
  datatype ResponseData = ResponseData(detail: Option<string>, messages: Option<seq<MessageEntry>>)

  datatype ErrorResponse = ErrorResponse(status: int, data: ResponseData)

  /** A rejected axios call; `response` is absent when no answer arrived
      (network failure, CORS, timeout). */
  datatype HttpError = HttpError(response: Option<ErrorResponse>)

  /** The outcome of one call, as decided by the server and the network. */
  datatype Reply<+T> = Ok(value: T) | Fail(error: HttpError)

  /** What a call's promise rejects with once the response interceptor has
      run: the axios error itself, or the `TypeError` the interceptor throws
      when it reads `status` of an absent response. */
  datatype Thrown = AxiosError(error: HttpError) | TypeError
}
