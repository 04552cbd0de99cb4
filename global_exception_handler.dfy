/** GlobalExceptionHandler: turns an EligibilityApiException escaping a
    controller into a 400 answer with an ErrorDto body. */
module ErrorHandling {
  import opened Wrappers
  import opened Exceptions
  import opened Http
  import opened DateUtils

  /** The generated ErrorDto. */
  datatype ErrorDto = ErrorDto(
    errorStatusValue: int,
    errorStatus: string,
    errorTime: Option<OffsetDateTime>,
    errorMessage: Option<string>)

  /** The exception types the handler is registered for. */
  predicate HandledAs400(e: Exception) {
    e.EligibilityApi?
  }

  /** handleException(e, headers, status, request): the correlation id header
      is added for an EligibilityApiException only (its value may be null),
      and the ErrorDto is filled from the status, the clock and the message.
      `now` is LocalDateTime.now() and `systemOffset` the system zone's offset. */
  method HandleException(e: Exception, headers: seq<(string, Option<string>)>, status: HttpStatus,
                         now: LocalDateTime, systemOffset: int)
    returns (r: ResponseEntity<ErrorDto>)
    ensures r.status == status.value
    ensures e.EligibilityApi? ==> r.headers == headers + [(CorrelationIdHeader, e.correlationId)]
    ensures !e.EligibilityApi? ==> r.headers == headers
    ensures r.body.Some? && r.body.value.errorStatusValue == status.value && r.body.value.errorStatus == status.name
    ensures r.body.Some? && r.body.value.errorMessage == Message(e)
    ensures r.body.Some? && r.body.value.errorTime == Some(OffsetDateTime(now, systemOffset))
  {
    var responseHeaders := headers;
    if e.EligibilityApi? {
      // getCorrelationId() cannot throw, so the NullPointerException branch
      // adds the same null value the getter returns
      responseHeaders := responseHeaders + [(CorrelationIdHeader, e.correlationId)];
    }
    var errorDto := ErrorDto(0, "", None, None);
    errorDto := errorDto.(errorStatusValue := status.value);
    errorDto := errorDto.(errorStatus := status.name);
    errorDto := errorDto.(errorTime := ConvertToSystemOffsetDateTime(Some(now), systemOffset));
    errorDto := errorDto.(errorMessage := Message(e));
    r := ResponseEntity(status.value, responseHeaders, Some(errorDto));
  }

  /** handleType400exceptions: a 400 BAD_REQUEST answer whose body carries the
      exception's message, always with an error time, and whose only header is
      the correlation id the exception carries. */
  method HandleType400Exceptions(e: Exception, now: LocalDateTime, systemOffset: int)
    returns (r: ResponseEntity<ErrorDto>)
    requires HandledAs400(e)
    ensures r.status == 400 && r.headers == [(CorrelationIdHeader, e.correlationId)]
    ensures r.body == Some(ErrorDto(400, "BAD_REQUEST", Some(OffsetDateTime(now, systemOffset)), Message(e)))
  {
    r := HandleException(e, [], BadRequest, now, systemOffset);
  }
}
