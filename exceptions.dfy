/** The exception types the core throws, catches and inspects, as tagged
    variants. Each variant records what the core reads from it: its message
    (getMessage, possibly null), its class name, and for the HTTP client
    errors the status and response body. */
module Exceptions {
  import opened Wrappers

  /** An HttpStatusCode: its numeric value and its toString() rendering
      ("404 NOT_FOUND" for a known status, the bare number otherwise). */
  datatype HttpStatusCode = HttpStatusCode(value: int, text: string)

  /** HttpStatusCode.valueOf(500). */
  const InternalServerError := HttpStatusCode(500, "500 INTERNAL_SERVER_ERROR")

  datatype Exception =
      /** HttpClientErrorException (a 4xx answer); a RestClientException. */
    | HttpClientError(status: HttpStatusCode, responseBody: string, msg: Option<string>)
      /** HttpServerErrorException (a 5xx answer); a RestClientException. */
    | HttpServerError(status: HttpStatusCode, responseBody: string, msg: Option<string>)
      /** Any other RestClientException, e.g. ResourceAccessException for I/O failures. */
    | RestClient(className: string, msg: Option<string>)
      /** cz.csas.eligibility.exceptions.ExternalApiException. */
    | ExternalApi(msg: Option<string>, cause: Exception, statusCode: HttpStatusCode, errorBody: Option<string>)
      /** cz.csas.eligibility.exceptions.EligibilityApiException. */
    | EligibilityApi(correlationId: Option<string>, msg: Option<string>, cause: Exception)
      /** Anything outside the RestClientException family: an IOException, a
          DateTimeParseException, a NullPointerException, a data-access error, ... */
    | Other(className: string, msg: Option<string>)

  /** Throwable.getMessage(). */
  function Message(e: Exception): Option<string> {
    e.msg
  }

  /** Throwable.getCause(). */
  function Cause(e: Exception): Option<Exception> {
    match e
    case ExternalApi(_, c, _, _) => Some(c)
    case EligibilityApi(_, _, c) => Some(c)
    case _ => None
  }

  /** getClass().getName(). */
  function ClassName(e: Exception): string {
    match e
    case HttpClientError(_, _, _) => "org.springframework.web.client.HttpClientErrorException"
    case HttpServerError(_, _, _) => "org.springframework.web.client.HttpServerErrorException"
    case RestClient(n, _) => n
    case ExternalApi(_, _, _, _) => "cz.csas.eligibility.exceptions.ExternalApiException"
    case EligibilityApi(_, _, _) => "cz.csas.eligibility.exceptions.EligibilityApiException"
    case Other(n, _) => n
  }

  /** `e instanceof RestClientException`. */
  predicate IsRestClientException(e: Exception) {
    e.HttpClientError? || e.HttpServerError? || e.RestClient?
  }

  /** What Java string concatenation prints for a possibly-null string. */
  function Printed(s: Option<string>): string {
    s.GetOr("null")
  }

  /** The JVM's detailed message for dereferencing the null cause at
      ExternalApiException.java:32. */
  const NullCauseMessage := "Cannot invoke \"java.lang.Throwable.getMessage()\" because \"cause\" is null"

  function NullPointer(msg: Option<string>): Exception {
    Other("java.lang.NullPointerException", msg)
  }

  /** new ExternalApiException(message, cause) for a non-null cause: an HTTP
      4xx cause supplies statusCode and errorBody, every other cause gives
      status 500 and the cause's own message as errorBody. */
  function ExternalApiException(message: Option<string>, cause: Exception): (r: Exception)
    ensures r.ExternalApi? && Message(r) == message && Cause(r) == Some(cause)
    ensures cause.HttpClientError? ==>
              r.statusCode == cause.status && r.errorBody == Some(cause.responseBody)
    ensures !cause.HttpClientError? ==>
              r.statusCode == InternalServerError && r.errorBody == Message(cause)
  {
    if cause.HttpClientError? then ExternalApi(message, cause, cause.status, Some(cause.responseBody))
    else ExternalApi(message, cause, InternalServerError, Message(cause))
  }

  /** The constructor as written, with a possibly-null cause: a null cause
      fails the instanceof test and is then dereferenced, which throws a
      NullPointerException out of the constructor. */
  function NewExternalApiException(message: Option<string>, cause: Option<Exception>): (r: Result<Exception, Exception>)
    ensures r.Failure? <==> cause.None?
    ensures r.Failure? ==> r.error.Other? && ClassName(r.error) == "java.lang.NullPointerException"
    ensures r.Failure? ==> Message(r.error) == Some(NullCauseMessage)
    ensures r.Success? ==> r.value == ExternalApiException(message, cause.value)
  {
    match cause
    case None => Failure(NullPointer(Some(NullCauseMessage)))
    case Some(c) => Success(ExternalApiException(message, c))
  }

  /** new EligibilityApiException(correlationId, message, cause): the getters
      give back the three arguments, a null correlation id included. */
  function EligibilityApiException(correlationId: Option<string>, message: Option<string>, cause: Exception): (r: Exception)
    ensures r.EligibilityApi? && r.correlationId == correlationId
    ensures Message(r) == message && Cause(r) == Some(cause)
    ensures ClassName(r) == "cz.csas.eligibility.exceptions.EligibilityApiException"
  {
    EligibilityApi(correlationId, message, cause)
  }
}
