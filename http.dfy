/** The response object the exception handler and the middleware work on. */
module Http {

  /** A value in a JSON-shaped body; `Detail` carries an exception's `detail` as it is. */
  datatype Value = Text(text: string) | Number(number: int) | Detail(detail: string)

  /** A framework response: a status code and a body that handlers may replace. */
  class Response {
    var statusCode: int
    var data: map<string, Value>

    constructor (statusCode: int, data: map<string, Value>)
      ensures this.statusCode == statusCode && this.data == data
    {
      this.statusCode := statusCode;
      this.data := data;
    }
  }
}
