/** How the order gateway sorts REST replies: process_response in gateway/order_entry.cpp. */
module RestResponses {

  datatype Exception = NetworkError(status: int, error: int) | OtherException

  datatype Category = UnknownCategory | Informational | Success | Redirection | ClientError | ServerError

  /** A reply as the callback sees it: reading it throws, or it has a category. `unexpected` is what
      the expectation of status 200 throws on the categories that fall through to it. */
  datatype Reply =
    | Unreadable(e: Exception)
    | Received(category: Category, tooManyRequests: bool, unexpected: Exception)

  predicate Succeeds(reply: Reply) { reply.Received? && reply.category.Success? }

  predicate Redirects(reply: Reply) { reply.Received? && reply.category.Redirection? }

  /** What the error handler is told. */
  datatype Failure = Gateway(status: int, error: int) | Rejected | RateLimited | BadReply

  function Caught(e: Exception): Failure {
    match e
    case NetworkError(status, error) => Gateway(status, error)
    case OtherException => BadReply
  }

  /** The one call of the error handler for a reply that is neither a success nor a redirection. */
  function FailureOf(reply: Reply): Failure
    requires !Succeeds(reply) && !Redirects(reply)
  {
    match reply
    case Unreadable(e) => Caught(e)
    case Received(category, tooManyRequests, unexpected) =>
      if category.ClientError? then if tooManyRequests then RateLimited else Rejected
      else if category.ServerError? then Rejected
      else Caught(unexpected)
  }
}
