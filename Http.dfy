/** The outcome of an HTTP request, reduced to the status classes the modelled routes use. */
module Http {
  datatype Status = Ok | BadRequest | NotFound | ServerError {
    /** The numeric status code sent with the response. */
    function Code(): (c: nat)
      ensures 200 <= c < 600
      ensures c == 200 <==> this == Ok
    {
      match this
      case Ok => 200
      case BadRequest => 400
      case NotFound => 404
      case ServerError => 500
    }
  }
}
