/** Shared vocabulary of the request handlers: document ids, optional values,
    and the three ways a handler can answer. */
module Common {

  /** Document ids (ObjectIds and the request's user id) are opaque strings. */
  type Id = string

  datatype Option<+T> = None | Some(value: T) {
    function GetOr(default: T): T {
      match this
      case Some(v) => v
      case None => default
    }
  }

  /** The outcome of a handler:
      - Ok: the JSON body it sends;
      - Error: a response built by sendErrorResponse with its status and message;
      - Thrown: an exception escaped the handler (a null dereference, say) and the
        error middleware answers 500 with the exception's message. */
  datatype Reply<+T> = Ok(body: T) | Error(status: nat, message: string) | Thrown

  /** A stored image reference ({ id, url }) for covers and avatars. */
  datatype Asset = Asset(id: string, url: string)

  /** `cover?.url` */
  function UrlOf(a: Option<Asset>): Option<string> {
    match a
    case Some(asset) => Some(asset.url)
    case None => None
  }
}
