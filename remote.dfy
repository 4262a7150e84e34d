/**
 * The server as the client sees it. Each endpoint is a function of its
 * arguments. Within one paging pass the cursor strictly decreases, so no two
 * requests of a pass carry the same arguments and any sequence of replies is
 * some such function. Across separate operations of one object the same
 * request gets the same reply: a server whose answers change between calls
 * is not modelled.
 */
module Remote {
  import opened Models

  /** One HTTP exchange: a 2xx reply (its body possibly null), another status, or a thrown exception. */
  datatype Reply<+T> = Ok(body: Option<T>) | HttpError(code: int, reason: string) | Thrown(message: Option<string>)

  datatype MessageRequest = MessageRequest(from: string, to: string, data: MessageData)

  /**
   * The endpoints `ChatRepository` calls. The two message feeds take
   * (name, token, limit, lastKnownId, reverse).
   */
  datatype Api = Api(
    getInbox: (string, string, int, int, bool) -> Reply<seq<Message>>,
    getChannelMessages: (string, string, int, int, bool) -> Reply<seq<Message>>,
    getChannels: string -> Reply<seq<string>>,
    sendMessage: (string, MessageRequest) -> Reply<()>)

  /** The body of a reply, or the empty list when there is none. */
  function BodyOrEmpty<T>(reply: Reply<seq<T>>): seq<T> {
    if reply.Ok? then reply.body.GetOr([]) else []
  }

  predicate Is401<T>(reply: Reply<T>) {
    reply.HttpError? && reply.code == 401
  }

  const UNAUTHORIZED := "Unauthorized: Token expired or invalid"

  /**
   * The exception a failed reply turns into: the fixed "Unauthorized" one for
   * a 401, `failedText` (followed by the reason phrase when `withReason`) for
   * any other status, and the transport's own exception otherwise.
   */
  function Raised<T>(reply: Reply<T>, failedText: string, withReason: bool): (e: Error)
    requires !reply.Ok?
    ensures Is401(reply) ==> e == Error(Some(UNAUTHORIZED))
    ensures reply.Thrown? ==> e == Error(reply.message)
  {
    match reply
    case HttpError(code, reason) =>
      if code == 401 then Error(Some(UNAUTHORIZED))
      else Error(Some(if withReason then failedText + reason else failedText))
    case Thrown(message) => Error(message)
  }

  /** The server honours a cursor: a page holds only 32-bit ids below it. */
  predicate PageBelow(reply: Reply<seq<Message>>, cursor: int) {
    forall m | m in BodyOrEmpty(reply) :: INT_MIN <= m.id < cursor
  }

  /** The smallest id of a non-empty page. */
  function MinId(page: seq<Message>): (r: int)
    requires page != []
    ensures exists m :: m in page && m.id == r
    ensures forall m | m in page :: r <= m.id
  {
    if |page| == 1 then page[0].id
    else
      var rest := MinId(page[1..]);
      assert forall m | m in page[1..] :: m in page;
      assert forall m | m in page :: m == page[0] || m in page[1..];
      if page[0].id <= rest then page[0].id else rest
  }
}
