/**
 * The API exception types, fixed at construction, and
 * `custom_exception_handler`, which rewrites the body of the framework's
 * error response.
 */
module Exceptions {
  import opened Wrappers
  import opened Http

  const TrackingErrorCode := "TRACKING_ERROR"
  const ValidationErrorCode := "VALIDATION_ERROR"
  const GenerationErrorCode := "GENERATION_ERROR"
  const BadRequest := 400
  const InternalServerError := 500

  /** Which class was instantiated; only `ValidationException` carries a `field`. */
  datatype Kind = Tracking | Validation(field: Option<string>) | Generation

  datatype TrackingApiException =
    TrackingApiException(kind: Kind, message: string, errorCode: string, statusCode: int)

  /**
   * `TrackingAPIException(message, error_code=None, status_code=500)`. The
   * code falls back to TRACKING_ERROR when the given one is falsy: absent or
   * the empty string.
   */
  function NewTrackingApiException(message: string, errorCode: Option<string> := None,
                                   statusCode: int := InternalServerError): (e: TrackingApiException)
    ensures e.kind == Tracking && e.message == message && e.statusCode == statusCode
    ensures errorCode.Some? && errorCode.value != "" ==> e.errorCode == errorCode.value
    ensures errorCode.None? || errorCode.value == "" ==> e.errorCode == TrackingErrorCode
    ensures e.errorCode != ""
  {
    var code := if errorCode.Some? && errorCode.value != "" then errorCode.value else TrackingErrorCode;
    TrackingApiException(Tracking, message, code, statusCode)
  }

  /** `ValidationException(message, field=None)`. */
  function NewValidationException(message: string, field: Option<string> := None): (e: TrackingApiException)
    ensures e.kind == Validation(field) && e.message == message
    ensures e.errorCode == ValidationErrorCode && e.statusCode == BadRequest
  {
    NewTrackingApiException(message, Some(ValidationErrorCode), BadRequest).(kind := Validation(field))
  }

  /** `GenerationException(message)`. */
  function NewGenerationException(message: string): (e: TrackingApiException)
    ensures e.kind == Generation && e.message == message
    ensures e.errorCode == GenerationErrorCode && e.statusCode == InternalServerError
  {
    NewTrackingApiException(message, Some(GenerationErrorCode), InternalServerError).(kind := Generation)
  }

  /** `str(e)`. */
  function Str(e: TrackingApiException): string
  {
    e.message
  }

  /** `str(e)` is the constructor's message, for every class and code. */
  lemma StrIsMessage(message: string, errorCode: Option<string>, statusCode: int, field: Option<string>)
    ensures Str(NewTrackingApiException(message, errorCode, statusCode)) == message
    ensures Str(NewValidationException(message, field)) == message
    ensures Str(NewGenerationException(message)) == message
  {
  }

  /** The defaults: no code, or an empty one, gives TRACKING_ERROR; the status defaults to 500. */
  lemma TrackingDefaults(message: string)
    ensures NewTrackingApiException(message).errorCode == TrackingErrorCode
    ensures NewTrackingApiException(message, Some("")).errorCode == TrackingErrorCode
    ensures NewTrackingApiException(message).statusCode == InternalServerError
  {
  }

  /** What the handler reads of the exception: `str(exc)` and its `detail` attribute, if it has one. */
  datatype RaisedException = RaisedException(text: string, detail: Option<string>)

  /** Python truthiness of an optional string. */
  predicate Truthy(s: Option<string>)
  {
    s.Some? && s.value != ""
  }

  /** The body the handler installs in place of the framework's. */
  function ErrorPayload(exc: RaisedException, statusCode: int, correlationId: Option<string>): (p: map<string, Value>)
    ensures "error" in p && p["error"] == Text(exc.text)
    ensures "status_code" in p && p["status_code"] == Number(statusCode)
    ensures "correlation_id" in p <==> Truthy(correlationId)
    ensures "correlation_id" in p ==> p["correlation_id"] == Text(correlationId.value)
    ensures "details" in p <==> exc.detail.Some?
    ensures "details" in p ==> p["details"] == Detail(exc.detail.value)
    ensures p.Keys <= {"error", "status_code", "correlation_id", "details"}
  {
    var base := map["error" := Text(exc.text), "status_code" := Number(statusCode)];
    var withId := if Truthy(correlationId) then base["correlation_id" := Text(correlationId.value)] else base;
    if exc.detail.Some? then withId["details" := Detail(exc.detail.value)] else withId
  }

  /**
   * `custom_exception_handler`. `response` is what the framework's own
   * handler returned (null when it does not handle the exception) and
   * `correlationId` the request's attribute, if any. The same response comes
   * back, its status untouched and its body replaced.
   */
  method CustomExceptionHandler(exc: RaisedException, correlationId: Option<string>, response: Response?)
    returns (r: Response?)
    modifies response
    ensures r == response
    ensures response != null ==> response.statusCode == old(response.statusCode)
    ensures response != null ==> response.data == ErrorPayload(exc, response.statusCode, correlationId)
  {
    if response != null {
      var payload := map["error" := Text(exc.text), "status_code" := Number(response.statusCode)];
      if Truthy(correlationId) {
        payload := payload["correlation_id" := Text(correlationId.value)];
      }
      if exc.detail.Some? {
        payload := payload["details" := Detail(exc.detail.value)];
      }
      response.data := payload;
    }
    r := response;
  }
}
