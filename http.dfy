/** The HTTP statuses the controllers and the exception handler answer
    with, as Spring's HttpStatus names them. */
module Http {

  datatype HttpStatus = BadRequest | NotFound | Conflict | InternalServerError
  {
    /** HttpStatus.value(). */
    function Code(): int {
      match this
      case BadRequest => 400
      case NotFound => 404
      case Conflict => 409
      case InternalServerError => 500
    }

    /** HttpStatus.toString(): the code and the enum constant's name. */
    function Describe(): string {
      match this
      case BadRequest => "400 BAD_REQUEST"
      case NotFound => "404 NOT_FOUND"
      case Conflict => "409 CONFLICT"
      case InternalServerError => "500 INTERNAL_SERVER_ERROR"
    }

    /** HttpStatus.getReasonPhrase(). */
    function ReasonPhrase(): string {
      match this
      case BadRequest => "Bad Request"
      case NotFound => "Not Found"
      case Conflict => "Conflict"
      case InternalServerError => "Internal Server Error"
    }
  }
}
