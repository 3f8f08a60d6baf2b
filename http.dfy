/** The HTTP status codes the Express handlers answer with. */
module Http {

  datatype Status = Ok | Created | BadRequest | Unauthorized | NotFound | ServerError {

    /** The numeric code sent on the wire. */
    function Code(): int {
      match this
      case Ok => 200
      case Created => 201
      case BadRequest => 400
      case Unauthorized => 401
      case NotFound => 404
      case ServerError => 500
    }
  }
}
