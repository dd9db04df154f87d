/** What a route handler answers: a status with a JSON payload, or one of the
    error bodies the gateway sends. */
module Http {

  /** The error bodies the handlers send, one per distinct `error` string. */
  datatype ErrorKind =
    | MissingApiKey      // 401, no key in header, query or body
    | InvalidApiKey      // 403, unknown or revoked key
    | AdminRequired      // 403, admin header absent or wrong
    | MissingParameter   // 400
    | NotFound           // 404
    | TranslationFailed  // 500 from /translate
    | DetectionFailed    // 500 from /detect
    | ServerError        // 500 from every other handler's catch block

  function StatusOf(e: ErrorKind): nat
  {
    match e
    case MissingApiKey => 401
    case InvalidApiKey => 403
    case AdminRequired => 403
    case MissingParameter => 400
    case NotFound => 404
    case TranslationFailed => 500
    case DetectionFailed => 500
    case ServerError => 500
  }

  datatype Response<+T> = Respond(status: nat, payload: T) | Fail(error: ErrorKind)
  {
    function Status(): nat
    {
      match this
      case Respond(s, _) => s
      case Fail(e) => StatusOf(e)
    }
  }
}
