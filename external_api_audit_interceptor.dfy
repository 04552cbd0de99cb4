/** ExternalApiAuditInterceptor: the RestTemplate interceptor that writes an
    audit log for every outbound call to the accounts and clients servers
    (two when a late status read fails after the first one was saved).
    The record shapes are shared with the unregistered AuditLoggingInterceptor. */
module OutboundAudit {
  import opened Wrappers
  import opened Text
  import opened Exceptions
  import opened Http
  import opened DateUtils
  import opened Entities
  import opened AuditLogs

  /** The outbound request. `headersText` is what HttpHeaders.toString()
      prints for its headers. */
  datatype ClientRequest = ClientRequest(
    httpMethod: string,
    uri: string,
    host: Option<string>,
    headers: seq<Header>,
    headersText: string)

  /** What each getStatusCode() call on one response throws, in call order;
      None where the call returns the status. Once the body is read, both
      interceptors call it up to three times. */
  datatype StatusFaults = StatusFaults(first: Option<Exception>, second: Option<Exception>, third: Option<Exception>)

  const NoStatusFaults := StatusFaults(None, None, None)

  /** The response of execution.execute: its status, what reading the status
      throws, the printed headers and the outcome of reading its body stream. */
  datatype ClientResponse = ClientResponse(
    statusCode: int,
    statusFaults: StatusFaults,
    headersText: string,
    body: Result<string, Exception>)

  /** The clock of one intercept call: currentTimeMillis at the start, after
      the body is read and in the catch block, and the times the try block's
      and the catch block's audit logs are built. */
  datatype CallClock = CallClock(
    startMillis: int,
    responseMillis: int,
    catchMillis: int,
    responseNow: LocalDateTime,
    catchNow: LocalDateTime)

  const AccountsHost := "accounts.cluster.domain.cz"
  const ClientsHost := "clients.cluster.domain.cz"
  const AccountsServer := "AccountsServer"
  const ClientsServer := "ClientsServer"
  const UnknownApi := "Unknown"
  const SystemUser := "SYSTEM"

  /** determineApiName: the accounts host is compared first, then the clients host. */
  function DetermineApiName(host: Option<string>): (r: string)
    ensures r == AccountsServer <==> host.Some? && Contains(host.value, AccountsHost)
    ensures r == ClientsServer <==> host.Some? && !Contains(host.value, AccountsHost) && Contains(host.value, ClientsHost)
    ensures r == UnknownApi <==> host.None? || (!Contains(host.value, AccountsHost) && !Contains(host.value, ClientsHost))
  {
    if host.Some? && Contains(host.value, AccountsHost) then AccountsServer
    else if host.Some? && Contains(host.value, ClientsHost) then ClientsServer
    else UnknownApi
  }

  /** The builder as assembled before the call: an empty body array is
      recorded as null, any other body in full. */
  function RequestPart(request: ClientRequest, body: string, requestId: string, apiName: string): (b: AuditLogBuilder)
    ensures b.requestBody.None? <==> |body| == 0
    ensures b.requestBody.Some? ==> b.requestBody.value == body
    ensures b.correlationId == FirstHeaderValue(request.headers, CorrelationIdHeader)
    ensures b.userId == Some(SystemUser) && b.apiName == Some(apiName)
    ensures b.requestId == Some(requestId) && b.httpMethod == Some(request.httpMethod)
    ensures b.url == Some(request.uri) && b.requestHeaders == Some(request.headersText)
    ensures b.responseStatus.None? && b.responseHeaders.None? && b.responseBody.None? && b.success.None?
  {
    NewBuilder.(
      requestId := Some(requestId),
      apiName := Some(apiName),
      httpMethod := Some(request.httpMethod),
      url := Some(request.uri),
      requestHeaders := Some(request.headersText),
      requestBody := if |body| > 0 then Some(body) else None,
      correlationId := FirstHeaderValue(request.headers, CorrelationIdHeader),
      userId := Some(SystemUser))
  }

  /** What intercept returns: the response itself, or the first exception
      thrown inside the try block (by the call, the body read, or one of the
      getStatusCode() calls), unchanged. */
  function InterceptResult(execution: Result<ClientResponse, Exception>): (r: Result<ClientResponse, Exception>)
    ensures r.Success? <==>
              execution.Success? && execution.value.body.Success? && execution.value.statusFaults == NoStatusFaults
    ensures r.Success? || execution.Failure? ==> r == execution
    ensures execution.Success? && execution.value.body.Failure? ==> r == Failure(execution.value.body.error)
    ensures execution.Success? && execution.value.body.Success? ==>
              var faults := execution.value.statusFaults;
              (faults.first.Some? ==> r == Failure(faults.first.value)) &&
              (faults.first.None? && faults.second.Some? ==> r == Failure(faults.second.value)) &&
              (faults.first.None? && faults.second.None? && faults.third.Some? ==> r == Failure(faults.third.value))
  {
    match execution
    case Failure(e) => Failure(e)
    case Success(response) =>
      if response.body.Failure? then Failure(response.body.error)
      else if response.statusFaults.first.Some? then Failure(response.statusFaults.first.value)
      else if response.statusFaults.second.Some? then Failure(response.statusFaults.second.value)
      else if response.statusFaults.third.Some? then Failure(response.statusFaults.third.value)
      else Success(response)
  }

  /** Whether the try block gets as far as its saveAuditLog call: the call,
      the body read and the first two getStatusCode() calls succeed. */
  predicate ReachesSave(execution: Result<ClientResponse, Exception>) {
    execution.Success? && execution.value.body.Success? &&
    execution.value.statusFaults.first.None? && execution.value.statusFaults.second.None?
  }

  /** How many audit logs one intercept call hands to saveAuditLog: one in
      the try block once it gets that far, one in the catch block. */
  function SaveCount(execution: Result<ClientResponse, Exception>): (n: nat) {
    (if ReachesSave(execution) then 1 else 0) + (if InterceptResult(execution).Failure? then 1 else 0)
  }

  /** Every call is audited once, except a call whose log statement's
      getStatusCode() throws after the try block has saved: that one is
      audited twice, first as answered and then as failed. */
  lemma SaveCountOneOrTwo(execution: Result<ClientResponse, Exception>)
    ensures 1 <= SaveCount(execution) <= 2
    ensures SaveCount(execution) == 2 <==> ReachesSave(execution) && execution.value.statusFaults.third.Some?
  {
  }

  /** The database outcome each saveAuditLog call of one intercept call meets,
      in call order: `tryDbError` for the try block's, `catchDbError` for the
      catch block's. */
  function SaveErrors(execution: Result<ClientResponse, Exception>, tryDbError: Option<Exception>,
                      catchDbError: Option<Exception>): (errors: seq<Option<Exception>>)
    ensures |errors| == SaveCount(execution)
  {
    TryErrors(execution, tryDbError) + (if InterceptResult(execution).Failure? then [catchDbError] else [])
  }

  /** The database outcome the try block's save meets, when it gets that far. */
  function TryErrors(execution: Result<ClientResponse, Exception>, tryDbError: Option<Exception>): seq<Option<Exception>> {
    if ReachesSave(execution) then [tryDbError] else []
  }

  /** The builder with the try block's response fields set on it. */
  function ResponsePart(b: AuditLogBuilder, response: ClientResponse, executionTime: int): AuditLogBuilder
    requires response.body.Success?
  {
    b.(responseStatus := Some(response.statusCode),
       responseHeaders := Some(response.headersText),
       responseBody := Some(response.body.value),
       executionTimeMs := Some(executionTime),
       success := Some(200 <= response.statusCode < 300))
  }

  /** The catch block's additions to whatever the builder holds by then. */
  function FailurePart(b: AuditLogBuilder, e: Exception, executionTime: int): AuditLogBuilder {
    b.(executionTimeMs := Some(executionTime),
       success := Some(false),
       errorMessage := Message(e),
       exceptionName := Some(ClassName(e)))
  }

  /** The audit log the try block saves, when it gets that far. */
  function AnsweredRecords(requestPart: AuditLogBuilder, execution: Result<ClientResponse, Exception>,
                           clock: CallClock): seq<AuditRecord>
  {
    if ReachesSave(execution)
    then [Build(ResponsePart(requestPart, execution.value, clock.responseMillis - clock.startMillis), clock.responseNow)]
    else []
  }

  /** The audit logs one intercept call saves, in order, given the builder as
      assembled before the call and the builder as it stands when an
      exception reaches the catch block. */
  function AuditRecords(requestPart: AuditLogBuilder, execution: Result<ClientResponse, Exception>, clock: CallClock,
                        atCatch: AuditLogBuilder): (records: seq<AuditRecord>)
    ensures |records| == SaveCount(execution)
    ensures ReachesSave(execution) ==>
              var response := execution.value;
              var answered := records[0];
              answered.responseStatus == Some(response.statusCode) &&
              answered.responseHeaders == Some(response.headersText) &&
              answered.responseBody == Some(response.body.value) &&
              (answered.success <==> 200 <= response.statusCode < 300) &&
              answered.executionTimeMs == Some(clock.responseMillis - clock.startMillis) &&
              answered.createdAt == clock.responseNow
    ensures InterceptResult(execution).Failure? ==>
              var e := InterceptResult(execution).error;
              var failed := records[|records| - 1];
              !failed.success && failed.errorMessage == Message(e) && failed.exceptionName == Some(ClassName(e)) &&
              failed.executionTimeMs == Some(clock.catchMillis - clock.startMillis) &&
              failed.createdAt == clock.catchNow &&
              failed.responseStatus == atCatch.responseStatus && failed.responseHeaders == atCatch.responseHeaders &&
              failed.responseBody == atCatch.responseBody
  {
    AnsweredRecords(requestPart, execution, clock) +
    (if InterceptResult(execution).Failure?
     then [Build(FailurePart(atCatch, InterceptResult(execution).error, clock.catchMillis - clock.startMillis), clock.catchNow)]
     else [])
  }

  /** The saved audit logs: what the try block saved, then the catch block's
      log over the builder it was handed. */
  lemma AuditRecordsSplit(requestPart: AuditLogBuilder, execution: Result<ClientResponse, Exception>,
                          clock: CallClock, atCatch: AuditLogBuilder)
    ensures InterceptResult(execution).Success? ==>
              AuditRecords(requestPart, execution, clock, atCatch) == AnsweredRecords(requestPart, execution, clock)
    ensures InterceptResult(execution).Failure? ==>
              AuditRecords(requestPart, execution, clock, atCatch) ==
              AnsweredRecords(requestPart, execution, clock) +
              [Build(FailurePart(atCatch, InterceptResult(execution).error, clock.catchMillis - clock.startMillis),
                     clock.catchNow)]
  {
  }

  /** What this interceptor's builder holds when an exception reaches the
      catch block: the response fields once lines 57-62 have run (only the
      log statement's getStatusCode() can throw after them), otherwise the
      request fields alone. */
  function BuilderAtCatch(requestPart: AuditLogBuilder, execution: Result<ClientResponse, Exception>,
                          clock: CallClock): AuditLogBuilder
  {
    if ReachesSave(execution)
    then ResponsePart(requestPart, execution.value, clock.responseMillis - clock.startMillis)
    else requestPart
  }

  /** The audit logs this interceptor saves for one call, in order. */
  function OutboundRecords(request: ClientRequest, body: string, requestId: string, apiName: string,
                           execution: Result<ClientResponse, Exception>, clock: CallClock): (records: seq<AuditRecord>)
    ensures |records| == SaveCount(execution)
    ensures forall i :: 0 <= i < |records| ==>
              records[i].requestId == Some(requestId) && records[i].apiName == Some(apiName) &&
              records[i].httpMethod == Some(request.httpMethod) && records[i].url == Some(request.uri) &&
              records[i].requestHeaders == Some(request.headersText) &&
              records[i].requestBody == RequestPart(request, body, requestId, apiName).requestBody &&
              records[i].correlationId == FirstHeaderValue(request.headers, CorrelationIdHeader) &&
              records[i].userId == Some(SystemUser)
    ensures InterceptResult(execution).Success? ==>
              records[0].success == (200 <= execution.value.statusCode < 300) &&
              records[0].responseBody == Some(execution.value.body.value) && records[0].errorMessage.None?
    ensures InterceptResult(execution).Failure? ==>
              var e := InterceptResult(execution).error;
              var failed := records[|records| - 1];
              !failed.success && failed.errorMessage == Message(e) && failed.exceptionName == Some(ClassName(e)) &&
              (ReachesSave(execution) ==>
                 failed.responseStatus == records[0].responseStatus &&
                 failed.responseHeaders == records[0].responseHeaders &&
                 failed.responseBody == records[0].responseBody) &&
              (!ReachesSave(execution) ==>
                 failed.responseStatus.None? && failed.responseHeaders.None? && failed.responseBody.None?)
  {
    var requestPart := RequestPart(request, body, requestId, apiName);
    AuditRecords(requestPart, execution, clock, BuilderAtCatch(requestPart, execution, clock))
  }

  /** `auditLogService.saveAuditLog(builder.build())` at time `now`, as one
      more call in a run of saves that began from `submitted0`, `rows0` and
      `nextId0`. */
  method SaveBuilt(service: AuditLogServiceImpl, builder: AuditLogBuilder, now: LocalDateTime, dbError: Option<Exception>,
                   ghost saved: seq<AuditRecord>, ghost dbErrors: seq<Option<Exception>>,
                   ghost submitted0: seq<AuditRecord>, ghost rows0: seq<AuditRecord>, ghost nextId0: int)
    requires service.Valid() && |saved| == |dbErrors|
    requires service.SavedInOrder(saved, dbErrors, submitted0, rows0, nextId0)
    modifies service, service.repository
    ensures service.Valid()
    ensures service.SavedInOrder(saved + [Build(builder, now)], dbErrors + [dbError], submitted0, rows0, nextId0)
  {
    var auditLog := new AuditLog(builder, now);
    service.SaveAuditLog(auditLog, dbError);
    ExtendRun(submitted0, rows0, saved, dbErrors, Build(builder, now), dbError, nextId0);
  }

  class ExternalApiAuditInterceptor {
    const auditLogService: AuditLogServiceImpl

    ghost predicate Valid()
      reads this, auditLogService, auditLogService.repository
    {
      auditLogService.Valid()
    }

    constructor (auditLogService: AuditLogServiceImpl)
      requires auditLogService.Valid()
      ensures Valid() && this.auditLogService == auditLogService
    {
      this.auditLogService := auditLogService;
    }

    /** The try block of intercept, up to its return or its first
        exception: the call, the body read, the response fields set on the
        shared builder, the save and the log statement. Returns the exception,
        if any, and the builder as it then stands. */
    method TryBlock(request: ClientRequest, body: string, execution: Result<ClientResponse, Exception>,
                    requestId: string, clock: CallClock, tryDbError: Option<Exception>)
      returns (thrown: Option<Exception>, auditLogBuilder: AuditLogBuilder)
      requires Valid()
      modifies auditLogService, auditLogService.repository
      ensures Valid()
      ensures thrown.Some? <==> InterceptResult(execution).Failure?
      ensures var requestPart := RequestPart(request, body, requestId, DetermineApiName(request.host));
              thrown.Some? ==>
                thrown.value == InterceptResult(execution).error &&
                auditLogBuilder == BuilderAtCatch(requestPart, execution, clock)
      ensures auditLogService.SavedInOrder(
                AnsweredRecords(RequestPart(request, body, requestId, DetermineApiName(request.host)), execution, clock),
                TryErrors(execution, tryDbError),
                old(auditLogService.submitted), old(auditLogService.repository.rows),
                old(auditLogService.repository.nextId))
    {
      auditLogBuilder := RequestPart(request, body, requestId, DetermineApiName(request.host));
      ghost var requestPart := auditLogBuilder;
      EmptyRun(auditLogService.submitted, auditLogService.repository.rows, auditLogService.repository.nextId);
      assert auditLogService.SavedInOrder([], [], old(auditLogService.submitted), old(auditLogService.repository.rows),
                                          old(auditLogService.repository.nextId));
      thrown := None;
      if execution.Failure? {
        thrown := Some(execution.error);
      } else {
        var response := execution.value;
        if response.body.Failure? {
          thrown := Some(response.body.error);
        } else {
          var executionTime := clock.responseMillis - clock.startMillis;
          if response.statusFaults.first.Some? {
            thrown := response.statusFaults.first;
          } else {
            var isSuccess := 200 <= response.statusCode < 300;
            if response.statusFaults.second.Some? {
              thrown := response.statusFaults.second;
            } else {
              auditLogBuilder := auditLogBuilder.(
                responseStatus := Some(response.statusCode),
                responseHeaders := Some(response.headersText),
                responseBody := Some(response.body.value),
                executionTimeMs := Some(executionTime),
                success := Some(isSuccess));
              assert auditLogBuilder == ResponsePart(requestPart, response, executionTime);
              SaveBuilt(auditLogService, auditLogBuilder, clock.responseNow, tryDbError, [], [],
                        old(auditLogService.submitted), old(auditLogService.repository.rows),
                        old(auditLogService.repository.nextId));
              assert [] + [Build(auditLogBuilder, clock.responseNow)] == AnsweredRecords(requestPart, execution, clock);
              // the log statement reads the status once more
              thrown := response.statusFaults.third;
            }
          }
        }
      }
    }

    /** intercept(request, body, execution); `execution` is what the rest of
        the request pipeline yields for this request. The catch block
        completes whatever the try block left on the shared builder. */
    method Intercept(request: ClientRequest, body: string, execution: Result<ClientResponse, Exception>,
                     requestId: string, clock: CallClock, tryDbError: Option<Exception>, catchDbError: Option<Exception>)
      returns (r: Result<ClientResponse, Exception>)
      requires Valid()
      modifies auditLogService, auditLogService.repository
      ensures Valid()
      ensures r == InterceptResult(execution)
      ensures auditLogService.SavedInOrder(
                OutboundRecords(request, body, requestId, DetermineApiName(request.host), execution, clock),
                SaveErrors(execution, tryDbError, catchDbError),
                old(auditLogService.submitted), old(auditLogService.repository.rows),
                old(auditLogService.repository.nextId))
    {
      ghost var requestPart := RequestPart(request, body, requestId, DetermineApiName(request.host));
      var thrown, auditLogBuilder := TryBlock(request, body, execution, requestId, clock, tryDbError);
      AuditRecordsSplit(requestPart, execution, clock, BuilderAtCatch(requestPart, execution, clock));
      if thrown.Some? {
        var e := thrown.value;
        auditLogBuilder := auditLogBuilder.(
          executionTimeMs := Some(clock.catchMillis - clock.startMillis),
          success := Some(false),
          errorMessage := Message(e),
          exceptionName := Some(ClassName(e)));
        assert auditLogBuilder == FailurePart(BuilderAtCatch(requestPart, execution, clock), e,
                                                 clock.catchMillis - clock.startMillis);
        SaveBuilt(auditLogService, auditLogBuilder, clock.catchNow, catchDbError,
                  AnsweredRecords(requestPart, execution, clock), TryErrors(execution, tryDbError),
                  old(auditLogService.submitted), old(auditLogService.repository.rows),
                  old(auditLogService.repository.nextId));
        r := Failure(e);
      } else {
        r := Success(execution.value);
      }
    }
  }
}
