/** The parts of Express the server core touches: the response it writes and the `next` calls it makes. */
module Express {
  import opened Common

  /** A call of `next`: `next()` or `next(error)` with the error's message. */
  datatype NextCall = NextOk | NextError(message: string)

  /** A JSON body: a plain message, or the error report the error handler writes. */
  datatype Json = MessageJson(message: string) | ErrorJson(title: string, message: string, stackTrace: Option<string>)

  /** The response object; Express starts it at status 200 with nothing written. */
  class ServerResponse {
    var statusCode: int
    var body: Option<Json>

    constructor ()
      ensures statusCode == 200 && body == None
    {
      statusCode := 200;
      body := None;
    }
  }
}
