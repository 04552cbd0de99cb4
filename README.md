# csas-eligibility in Dafny

A model of the eligibility service of csas-eligibility. The service answers
`GET /api/v1/eligibility` for a client. The client is eligible when it holds
at least one account (per the Accounts server) and is at least 18 years old
(per the birth date from the Clients server). Every decision leaves one row in
the `eligibility` table: ELIGIBLE, NOT_ELIGIBLE or ERROR. Every HTTP exchange
leaves one row in the `audit_logs` table:

- each inbound request, written by the servlet filter;
- each outbound call, written by the RestTemplate interceptor.

Upstream failures are mapped to `ExternalApiException`, then to
`EligibilityApiException`, then to a 400 answer carrying an `ErrorDto` and
the caller's `correlation-id` header.

The model has one Dafny module per source unit. Each module takes the form its
source has.

- **Pure code becomes functions.** This covers the age rule, the error
  mapping, API-name resolution and the record builders.
- **Code that updates state becomes classes.**
  - `AuditLog` is a class, because the audit log service overwrites its
    bodies in place and saving assigns its id.
  - The two repositories are in-memory tables that `save` appends to.
  - The services, the filter, the interceptors and the controller are
    classes over those tables.
- **Loops stay loops.** Both formatters build header text with a loop over a
  string builder.
- **Each method is proved against a specification function.** Separate lemmas
  then prove what the source promises about that function.

Inputs that the original program reads from the world become parameters:

- the outcome of each upstream call (a `Result` of the returned value or the
  thrown exception);
- what the database raises on each save (`dbError`);
- the UUID, the clock readings, today's date and the system zone offset;
- the JSON reader used for error bodies.

Modules:

| file | module | models |
|---|---|---|
| wrappers.dfy | Wrappers | Option and Result |
| text.dfy | Text | whitespace, contains, case-insensitive comparison, join, digit strings |
| http.dfy | Http | headers, first-value lookup, HttpStatus, ResponseEntity |
| exceptions.dfy | Exceptions | the exception types, `ExternalApiException`, `EligibilityApiException` |
| date_utils.dfy | DateUtils | `DateUtils`, including `yyyy-MM-dd` parsing and `Period.between` |
| entities.dfy | Entities | `Eligibility`, `AuditLog` and its builder |
| queries.dfy | Queries | filtering and descending sort used by the finders |
| repositories.dfy | Repositories | `EligibilityRepository`, `AuditLogRepository` |
| truncation.dfy | Truncation | the 10000-character body cap |
| audit_log_service.dfy | AuditLogs | `AuditLogServiceImpl` |
| rest_api_audit_filter.dfy | InboundAudit | `RestApiAuditFilter` |
| external_api_audit_interceptor.dfy | OutboundAudit | `ExternalApiAuditInterceptor` |
| audit_logging_interceptor.dfy | AuditLogging | `AuditLoggingInterceptor` |
| upstream_services.dfy | UpstreamServices | `ApiServiceAccountsImpl`, `ApiServiceClientsImpl` |
| eligibility_service.dfy | Eligibilities | `EligibilityServiceImpl` |
| global_exception_handler.dfy | ErrorHandling | `GlobalExceptionHandler` |
| eligibility_controller.dfy | Controllers | `EligibilityController` |

Four behaviours of the code are easy to miss. The model follows the code in
each:

- The `ERROR` save in the service's catch block is not guarded. When it fails,
  the database's own exception escapes instead of an `EligibilityApiException`
  (`Eligibilities.FailedErrorSaveEscapes`).
- `EligibilityService.java` documents a null result on error, but the
  implementation throws. As a result, the controller's 400-with-null-body
  branch cannot be reached through this service
  (`Controllers.EligibilityController.Dispatch`).
- `AuditLogService.java` declares a `CompletableFuture` result, but
  `saveAuditLog` returns nothing.
- The outbound interceptors share one builder between the try block and the
  catch block. When the success log's `getStatusCode()` call throws after the
  save, a second, failed audit log is saved for the same call, still carrying
  the response status, headers and body, and the exception is rethrown
  (`OutboundAudit.SaveCountOneOrTwo`, `OutboundAudit.OutboundRecords`).

## Model

| member | source | states |
|---|---|---|
| DateUtils.ParseIsoDate | src/main/java/cz/csas/eligibility/utils/DateUtils.java:17-18 | `LocalDate.parse` with `yyyy-MM-dd` yields a valid date with a positive year, or exactly the DateTimeParseException; text under 10 characters never parses |
| DateUtils.ParseFormatRoundTrip | src/main/java/cz/csas/eligibility/utils/DateUtils.java:17-18 | every valid date of years 1..9999, written as `yyyy-MM-dd`, parses back to itself |
| DateUtils.AdultIffEighteenthBirthdayReached | src/main/java/cz/csas/eligibility/utils/DateUtils.java:20-21 | `Period.between(birth, today).getYears() >= 18` holds exactly when the 18th birthday is on or before today |
| DateUtils.IsAdult | src/main/java/cz/csas/eligibility/utils/DateUtils.java:16-22 | a null birth date throws a NullPointerException; unparsable text throws the parse exception; otherwise the answer is true iff the 18th birthday has been reached |
| DateUtils.BornAfterTodayIsNotAdult | src/main/java/cz/csas/eligibility/utils/DateUtils.java:20-21 | a birth date after today gives a year count of at most 0, so it is not adult |
| DateUtils.AdultMonotoneInBirthDate | src/main/java/cz/csas/eligibility/utils/DateUtils.java:20-21 | with today fixed, an earlier birth date never turns an adult into a non-adult |
| DateUtils.EighteenthBirthdayBoundary | src/test/java/cz/csas/eligibility/service/EligibilityServiceTest.java:296-343 | born exactly 18 years before today: adult; one day later: not adult |
| DateUtils.ConvertToSystemOffsetDateTime | src/main/java/cz/csas/eligibility/utils/DateUtils.java:29-31 | null maps to null; any other value gets the system offset attached |
| Exceptions.ExternalApiException | src/main/java/cz/csas/eligibility/exceptions/ExternalApiException.java:23-34 | message and cause are kept; an HttpClientErrorException cause supplies statusCode and errorBody; any other cause gives status 500 and the cause's message |
| Exceptions.NewExternalApiException | src/main/java/cz/csas/eligibility/exceptions/ExternalApiException.java:27-33 | a null cause makes the constructor throw a NullPointerException with the JVM's message for the null `cause`; a non-null cause builds the exception |
| Exceptions.EligibilityApiException | src/main/java/cz/csas/eligibility/exceptions/EligibilityApiException.java:17-21 | the getters return the correlation id (null included), the message and the cause given |
| Entities.BuildEligibility | src/main/java/cz/csas/eligibility/entity/Eligibility.java:16-32 | the built row has no id, the given client, correlation id and result, and checkedAt at construction time |
| Entities.Build | src/main/java/cz/csas/eligibility/entity/AuditLog.java:54-72 | success defaults to false when unset; createdAt is the construction time; there is no id before the save |
| Entities.AuditLog.constructor | src/main/java/cz/csas/eligibility/entity/AuditLog.java:17-72 | the entity holds exactly the built record |
| Entities.UnsavedLogsNeverEqual | src/main/java/cz/csas/eligibility/entity/AuditLog.java:74-83 | two distinct logs are never equal while the first has no id |
| Entities.EqualsReflexiveSymmetric | src/main/java/cz/csas/eligibility/entity/AuditLog.java:74-83 | equals is reflexive and symmetric |
| Entities.SavedLogsEqualIffSameId | src/main/java/cz/csas/eligibility/entity/AuditLog.java:74-83 | saved logs are equal iff they are the same object or have the same id |
| Queries.FilterCount | src/main/java/cz/csas/eligibility/repository/EligibilityRepository.java:12-16 | a filtered query keeps each row that satisfies it as often as it occurs and drops every other row |
| Queries.FilterAppend | src/main/java/cz/csas/eligibility/repository/EligibilityRepository.java:12-16 | appending a row changes a query's answer only by that row, and only if the row matches |
| Queries.InsertPermutes | src/main/java/cz/csas/eligibility/repository/AuditLogRepository.java:24-25 | inserting into a sorted list adds exactly that element |
| Queries.InsertSorted | src/main/java/cz/csas/eligibility/repository/AuditLogRepository.java:24-25 | inserting into a descending list keeps it descending |
| Queries.SortDescendingCorrect | src/main/java/cz/csas/eligibility/repository/AuditLogRepository.java:24-25 | `ORDER BY ... DESC` yields a descending permutation of its input |
| Repositories.EligibilityRepository.Save | src/main/java/cz/csas/eligibility/repository/EligibilityRepository.java:10 | a save appends the entity with the next identity value; a database error leaves the table as it was |
| Repositories.EligibilityRepository.FindByClientId | src/main/java/cz/csas/eligibility/repository/EligibilityRepository.java:12 | exactly the rows of that client, each as often as stored |
| Repositories.EligibilityRepository.FindByCorrelationId | src/main/java/cz/csas/eligibility/repository/EligibilityRepository.java:14 | exactly the rows with that correlation id (IS NULL for null) |
| Repositories.EligibilityRepository.FindAllByResult | src/main/java/cz/csas/eligibility/repository/EligibilityRepository.java:16 | exactly the rows with that result |
| Repositories.EligibilityRepository.SaveExtendsOnlyThatClient | src/test/java/cz/csas/eligibility/service/EligibilityServiceIT.java:221-240 | saving a row adds it to its own client's answer only, with no deduplication |
| Repositories.ClientsStaySeparate | src/test/java/cz/csas/eligibility/service/EligibilityServiceIT.java:242-269 | no row is in the answers for two different clients |
| Repositories.AuditLogRepository.Save | src/main/java/cz/csas/eligibility/entity/AuditLog.java:20-34 | a save appends the log with the next id, sets the entity's id and advances the next id by one; a database error or a missing required column leaves the table and the entity as they were |
| Repositories.AuditLogRepository.FindByApiNameAndCreatedAtBetween | src/main/java/cz/csas/eligibility/repository/AuditLogRepository.java:14-18 | exactly the logs of that API with from <= createdAt <= to |
| Repositories.AuditLogRepository.FindByCorrelationId | src/main/java/cz/csas/eligibility/repository/AuditLogRepository.java:20 | exactly the logs with that correlation id |
| Repositories.AuditLogRepository.FindByRequestId | src/main/java/cz/csas/eligibility/repository/AuditLogRepository.java:22 | exactly the logs with that request id |
| Repositories.AuditLogRepository.FindFailedRequests | src/main/java/cz/csas/eligibility/repository/AuditLogRepository.java:24-25 | exactly the failed logs, newest first |
| Truncation.Truncate | src/main/java/cz/csas/eligibility/service/impl/AuditLogServiceImpl.java:25-30 | a body over 10000 characters becomes its first 10000 followed by `... [TRUNCATED]`; a shorter body is kept; the result is at most 10015 characters |
| Truncation.TruncateBody | src/main/java/cz/csas/eligibility/service/impl/AuditLogServiceImpl.java:25-28 | a null body stays null; any other body is capped |
| Truncation.TruncateIdempotent | src/main/java/cz/csas/eligibility/config/auditlogs/RestApiAuditFilter.java:124 | capping an already capped body changes nothing |
| Truncation.TruncateBodyIdempotent | src/main/java/cz/csas/eligibility/service/impl/AuditLogServiceImpl.java:25-30 | the same holds for nullable bodies |
| AuditLogs.WithTruncatedBodies | src/main/java/cz/csas/eligibility/service/impl/AuditLogServiceImpl.java:24-32 | both bodies are capped and no other column changes |
| AuditLogs.WithTruncatedBodiesIdempotent | src/main/java/cz/csas/eligibility/service/impl/AuditLogServiceImpl.java:24-32 | the service's cap applied twice equals the cap applied once |
| AuditLogs.StoredRows | src/main/java/cz/csas/eligibility/service/impl/AuditLogServiceImpl.java:22-37 | a run of saves adds at most one row per call |
| AuditLogs.StoredRowsSnoc | src/main/java/cz/csas/eligibility/service/impl/AuditLogServiceImpl.java:22-37 | one more save adds, after the earlier rows, what that call adds from the next id the run left |
| AuditLogs.AuditLogServiceImpl.SaveAuditLog | src/main/java/cz/csas/eligibility/service/impl/AuditLogServiceImpl.java:22-37 | the entity's bodies are capped in place and it is stored with the next id when storable, which advances the next id; otherwise nothing else changes; nothing is thrown |
| Http.FirstHeaderValueSpec | src/main/java/cz/csas/eligibility/config/auditlogs/RestApiAuditFilter.java:175-179 | a header lookup matches names case-insensitively and returns the first value of the first matching header, or null when no matching header has one |
| Text.JoinAppend | src/main/java/cz/csas/eligibility/config/auditlogs/RestApiAuditFilter.java:151-173 | joining one more part appends the separator and the part |
| InboundAudit.ExtractBody | src/main/java/cz/csas/eligibility/config/auditlogs/RestApiAuditFilter.java:118-134 | an empty captured body is null; any other body is capped at 10000 characters plus the marker |
| InboundAudit.ExtractErrorMessage | src/main/java/cz/csas/eligibility/config/auditlogs/RestApiAuditFilter.java:136-149 | a null or blank body gives null; a non-blank body gives exactly the JSON reader's errorMessage field, null included |
| InboundAudit.RequestUrl | src/main/java/cz/csas/eligibility/config/auditlogs/RestApiAuditFilter.java:93-94 | the request URL, then `?` and the query only when a query string is present |
| InboundAudit.TerminatedIsJoinThenSeparator | src/main/java/cz/csas/eligibility/config/auditlogs/RestApiAuditFilter.java:156-158 | appending every entry with `; ` and then deleting the last `; ` gives the entries joined by `; ` |
| InboundAudit.FormatHeaders | src/main/java/cz/csas/eligibility/config/auditlogs/RestApiAuditFilter.java:151-173 | the builder loop yields `[` + the entries joined by `; ` + `]` |
| InboundAudit.HeadersTextEmptyIffNoHeaders | src/main/java/cz/csas/eligibility/config/auditlogs/RestApiAuditFilter.java:151-173 | the header text is `[]` exactly when there are no headers |
| InboundAudit.InboundRecord | src/main/java/cz/csas/eligibility/config/auditlogs/RestApiAuditFilter.java:83-105 | success iff 200 <= status < 300; apiName ApplicationServer; userId SYSTEM; correlation id from the header; both header columns are the formatted header text; bodies extracted; the error message extracted from the response body; the execution time as measured; no exception name |
| InboundAudit.InboundRecordStorable | src/main/java/cz/csas/eligibility/config/auditlogs/RestApiAuditFilter.java:89-107 | an inbound log always has its required columns and already-capped bodies, so the service's cap changes nothing |
| InboundAudit.RestApiAuditFilter.CreateAndSaveAuditLog | src/main/java/cz/csas/eligibility/config/auditlogs/RestApiAuditFilter.java:77-116 | exactly one log is handed to the service, and it is stored unchanged apart from its new id unless the database fails |
| InboundAudit.RestApiAuditFilter.DoFilter | src/main/java/cz/csas/eligibility/config/auditlogs/RestApiAuditFilter.java:33-63 | the chain's response is delivered and its exception rethrown unchanged, after exactly one audit log for the request |
| OutboundAudit.DetermineApiName | src/main/java/cz/csas/eligibility/config/auditlogs/ExternalApiAuditInterceptor.java:94-103 | AccountsServer iff the host contains the accounts host; ClientsServer iff it contains only the clients host; Unknown for a null host or neither |
| OutboundAudit.RequestPart | src/main/java/cz/csas/eligibility/config/auditlogs/ExternalApiAuditInterceptor.java:35-43 | the request id, the API name, the method, the URI and the printed request headers are recorded; an empty body array is recorded as null, any other body in full; correlationId is the first `correlation-id` header; userId is SYSTEM; there are no response fields yet |
| OutboundAudit.InterceptResult | src/main/java/cz/csas/eligibility/config/auditlogs/ExternalApiAuditInterceptor.java:46-91 | the response is returned only when the call, the body read and all three getStatusCode() calls succeed; otherwise the first exception among them is rethrown unchanged |
| OutboundAudit.SaveCountOneOrTwo | src/main/java/cz/csas/eligibility/config/auditlogs/ExternalApiAuditInterceptor.java:46-91 | every call is saved once, except a call whose log statement's getStatusCode() throws after the try block's save: that one is saved twice |
| OutboundAudit.SaveErrors | src/main/java/cz/csas/eligibility/config/auditlogs/ExternalApiAuditInterceptor.java:66-85 | one database outcome per save: the try block's, then the catch block's |
| OutboundAudit.AuditRecords | src/main/java/cz/csas/eligibility/config/auditlogs/ExternalApiAuditInterceptor.java:54-83 | the try block's log carries the status, headers, full body, the try time and success iff 2xx; the catch block's log is unsuccessful, carries the exception's message and class, the catch time and whatever response fields the builder already held |
| OutboundAudit.AuditRecordsSplit | src/main/java/cz/csas/eligibility/config/auditlogs/ExternalApiAuditInterceptor.java:57-83 | the saved logs are the try block's log, if it got that far, then the catch block's log over the builder it was handed |
| OutboundAudit.OutboundRecords | src/main/java/cz/csas/eligibility/config/auditlogs/ExternalApiAuditInterceptor.java:35-83 | every saved log has the request id, API name, method, URI, request headers, request body, correlation id and userId SYSTEM; a failure log keeps the response fields of the earlier log exactly when the exception came after lines 57-62, and has none otherwise |
| OutboundAudit.SaveBuilt | src/main/java/cz/csas/eligibility/config/auditlogs/ExternalApiAuditInterceptor.java:63-66 | building the builder and handing it to saveAuditLog extends the run of saves by that log |
| OutboundAudit.ExternalApiAuditInterceptor.TryBlock | src/main/java/cz/csas/eligibility/config/auditlogs/ExternalApiAuditInterceptor.java:45-72 | the try block throws exactly when intercept fails, with the first exception, leaves the response fields on the shared builder once set, and saves the answered log when it gets that far |
| OutboundAudit.ExternalApiAuditInterceptor.Intercept | src/main/java/cz/csas/eligibility/config/auditlogs/ExternalApiAuditInterceptor.java:26-92 | the same response or the same exception as the call, with the saves in order: the answered log, then the failure log over the shared builder |
| AuditLogging.DetermineApiName | src/main/java/cz/csas/eligibility/interceptor/AuditLoggingInterceptor.java:92-103 | the same order as the registered interceptor, with localhost resolving to ApplicationServer before falling back to Unknown |
| AuditLogging.ApiNamesDifferOnlyForLocalhost | src/main/java/cz/csas/eligibility/interceptor/AuditLoggingInterceptor.java:92-103 | the two interceptors disagree exactly on localhost hosts that match neither cluster host |
| AuditLogging.OutboundRecords | src/main/java/cz/csas/eligibility/interceptor/AuditLoggingInterceptor.java:35-81 | the failure log carries the exception's message and class, and the response's status, headers and body exactly when the first getStatusCode() call returned, none of them otherwise |
| AuditLogging.RecordsDifferOnlyOnSecondStatusFault | src/main/java/cz/csas/eligibility/interceptor/AuditLoggingInterceptor.java:56-62 | the two interceptors save the same logs, except when the second getStatusCode() call throws: this one's failure log then keeps the status, headers and body |
| AuditLogging.AuditLoggingInterceptor.TryBlock | src/main/java/cz/csas/eligibility/interceptor/AuditLoggingInterceptor.java:45-70 | the try block throws exactly when intercept fails, leaves status, headers, body and time on the builder when only the second getStatusCode() call throws, and saves the answered log when it gets that far |
| AuditLogging.AuditLoggingInterceptor.Intercept | src/main/java/cz/csas/eligibility/interceptor/AuditLoggingInterceptor.java:26-90 | the registered interceptor's result, with this interceptor's saved logs in order |
| UpstreamServices.MapCallError | src/main/java/cz/csas/eligibility/service/impl/ApiServiceAccountsImpl.java:59-71 | a 4xx error becomes an ExternalApiException named by its status, with its status and body; any other RestClientException is named by its message, with status 500; anything else passes unwrapped |
| UpstreamServices.GetClientAccounts | src/main/java/cz/csas/eligibility/service/impl/ApiServiceAccountsImpl.java:43-72 | a null accounts list becomes empty; a null response object throws a NullPointerException; errors are mapped with the Accounts prefixes |
| UpstreamServices.GetClientDetail | src/main/java/cz/csas/eligibility/service/impl/ApiServiceClientsImpl.java:29-51 | the detail is returned unchanged; errors are mapped with the Clients prefixes |
| UpstreamServices.UpstreamFailuresAreWrapped | src/main/java/cz/csas/eligibility/service/impl/ApiServiceClientsImpl.java:30-50 | the services fail exactly when the call does, and never leak an unwrapped RestClientException |
| Eligibilities.DecideCorrect | src/main/java/cz/csas/eligibility/service/impl/EligibilityServiceImpl.java:41-52 | eligible iff there is an account and the client is adult, with no reasons; otherwise NO_ACCOUNT iff no account and NO_ADULT iff not adult, each at most once, never an empty list |
| Eligibilities.EvaluationDecides | src/main/java/cz/csas/eligibility/service/impl/EligibilityServiceImpl.java:37-44 | a response is built iff both lookups answer and the birth date parses; an accounts failure is the exception caught |
| Eligibilities.RowMatchesOutcome | src/main/java/cz/csas/eligibility/service/impl/EligibilityServiceImpl.java:43-63 | a response is returned iff an ELIGIBLE or NOT_ELIGIBLE row matching it was saved; an ERROR row goes with an EligibilityApiException that carries the correlation id |
| Eligibilities.FailureBecomesEligibilityApiException | src/main/java/cz/csas/eligibility/service/impl/EligibilityServiceImpl.java:59-63 | a failure before the save leaves one ERROR row and throws an EligibilityApiException with the correlation id, the original message and the original cause |
| Eligibilities.FailedDecisionSaveRecordsError | src/main/java/cz/csas/eligibility/service/impl/EligibilityServiceImpl.java:43-63 | a failed decision save is followed by an ERROR save, and the database error becomes the cause |
| Eligibilities.FailedErrorSaveEscapes | src/main/java/cz/csas/eligibility/service/impl/EligibilityServiceImpl.java:61 | a failed ERROR save leaves no row and its exception escapes as it is |
| Eligibilities.EligibilityServiceImpl.SaveResult | src/main/java/cz/csas/eligibility/service/impl/EligibilityServiceImpl.java:67-75 | the built row is appended with a fresh id, or the database error is returned and nothing changes |
| Eligibilities.EligibilityServiceImpl.Decision | src/main/java/cz/csas/eligibility/service/impl/EligibilityServiceImpl.java:35-52 | accounts are looked up before the client detail, and the detail is not looked up when accounts fail; the two guarded appends yield the decision rule's response |
| Eligibilities.EligibilityServiceImpl.EvaluateEligibility | src/main/java/cz/csas/eligibility/service/impl/EligibilityServiceImpl.java:33-65 | the call returns or throws what the decision and the save outcomes dictate, and appends at most one row, with the caller's client and correlation id |
| ErrorHandling.HandleException | src/main/java/cz/csas/eligibility/exceptions/GlobalExceptionHandler.java:31-53 | the correlation-id header is added for an EligibilityApiException only; the ErrorDto carries the status value and name, the current time and the message |
| ErrorHandling.HandleType400Exceptions | src/main/java/cz/csas/eligibility/exceptions/GlobalExceptionHandler.java:22-29 | 400 BAD_REQUEST, the exception's correlation id as the only header, and an error time that is always set |
| Controllers.RespondWith | src/main/java/cz/csas/eligibility/controller/EligibilityController.java:20-28 | a response gives 200 with it as body; null gives 400 with no body; both echo the correlation id |
| Controllers.EligibilityController.ApiV1EligibilityGet | src/main/java/cz/csas/eligibility/controller/EligibilityController.java:17-29 | the service is asked with the same client and correlation id, and its exception passes through |
| Controllers.EligibilityController.Dispatch | src/test/java/cz/csas/eligibility/controller/EligibilityControllerIT.java:144-163 | a failure before the first save, with a working database, ends as a 400 carrying the message; every controller answer is a 200 echoing the correlation id |

## Left out

- `@Async` and `@Transactional` on `saveAuditLog` are not modelled. The call runs synchronously and never fails outward.
- Servlet caching wrappers, `preloadRequestBody`, `copyBodyToResponse` and stream copies are I/O. Captured bodies are inputs.
- The servlet container's header-name enumeration is assumed to list each name once. The model takes the header list as given.
- UTF-8 decoding is not modelled. Bodies are strings of Unicode characters, so the 10000-character cap counts characters, not UTF-16 code units.
- JSON parsing in `extractErrorMessage` is not modelled. The Jackson reader is the `errorMessageField` parameter; only the null and blank cases are fixed.
- `HttpHeaders.toString()` is not modelled. The outbound request and response carry their printed header text as given.
- UUIDs, `System.currentTimeMillis`, `LocalDateTime.now`, `LocalDate.now` and the system zone offset are parameters. `LocalDateTime` is an opaque timestamp.
- Logging is not modelled. No log statement throws, except through the `getStatusCode()` call in the outbound interceptors' success log, which is modelled.
- OutboundAudit.ClientResponse: every `getStatusCode()` call that returns gives the same status; only whether each of the three calls throws varies. `getHeaders()` does not throw.
- JDK exception messages are abstracted. The parse error reads "Text '…' could not be parsed" without the JDK's index suffix. A NullPointerException from a null dereference carries the JVM's detailed message written out as a constant (for instance `Cannot invoke "…GetAccountsResponse.getAccounts()" because "response" is null`); the JVM prints a local slot such as `<local4>` instead of the variable name when the class is compiled without local variable tables, which the model does not cover. Through `EligibilityApiException` that message reaches the 400 answer's `errorMessage`.
- Header names are compared case-insensitively for ASCII letters only.
- Hibernate proxies in `equals`/`hashCode` are not modelled. The effective class is the class, and the class hash is a parameter; `hashCode` reads no field, so every two logs hash alike.
- Column length limits (for instance 36 characters for `request_id`) are not modelled. Only the non-null constraints are checked on save.
- JPA merge of an already saved entity is not modelled. Saves are of new entities.
- The order of rows from finders without `ORDER BY` is not promised by the database. The model returns table order.
- `handleExceptionInternal` returning null for a committed response is not modelled.
- The accounts are opaque, and polymorphic account deserialization is not modelled. The client detail is reduced to its birth date.
- Eligibilities.EligibilityServiceImpl.EvaluateEligibility: the decision is computed first and saved after. The source saves inside each branch of the same decision, so the order of calls is the same.
- Eligibilities.EligibilityResponse: the initial value of `reasons` in the generated class is not visible. An eligible response leaves it unset (`None`).
- The wiring in `ExternalApiConfig` is not modelled. It registers only `ExternalApiAuditInterceptor`, so `AuditLoggingInterceptor` is modelled but never used.
- Integer widths are unbounded. `executionTimeMs` (a Java `long`) and ids do not wrap around.
