/** AuditLoggingInterceptor: an interceptor with the same record shapes as
    ExternalApiAuditInterceptor and one more host rule. No RestTemplate has it
    registered. */
module AuditLogging {
  import opened Wrappers
  import opened Text
  import opened Exceptions
  import opened DateUtils
  import opened Entities
  import opened AuditLogs
  import OutboundAudit

  const LocalHost := "localhost"
  const ApplicationServer := "ApplicationServer"

  /** determineApiName of this interceptor: accounts host, clients host, then localhost. */
  function DetermineApiName(host: Option<string>): (r: string)
    ensures r == OutboundAudit.AccountsServer <==> host.Some? && Contains(host.value, OutboundAudit.AccountsHost)
    ensures r == OutboundAudit.ClientsServer <==>
              host.Some? && !Contains(host.value, OutboundAudit.AccountsHost) && Contains(host.value, OutboundAudit.ClientsHost)
    ensures r == ApplicationServer <==>
              host.Some? && !Contains(host.value, OutboundAudit.AccountsHost) &&
              !Contains(host.value, OutboundAudit.ClientsHost) && Contains(host.value, LocalHost)
  {
    if host.Some? && Contains(host.value, OutboundAudit.AccountsHost) then OutboundAudit.AccountsServer
    else if host.Some? && Contains(host.value, OutboundAudit.ClientsHost) then OutboundAudit.ClientsServer
    else if host.Some? && Contains(host.value, LocalHost) then ApplicationServer
    else OutboundAudit.UnknownApi
  }

  /** The two interceptors name an API differently only for a localhost host
      that matches neither cluster host: this one says ApplicationServer, the
      registered one Unknown. */
  lemma ApiNamesDifferOnlyForLocalhost(host: Option<string>)
    ensures DetermineApiName(host) != OutboundAudit.DetermineApiName(host) <==>
              host.Some? && !Contains(host.value, OutboundAudit.AccountsHost) &&
              !Contains(host.value, OutboundAudit.ClientsHost) && Contains(host.value, LocalHost)
    ensures DetermineApiName(host) != OutboundAudit.DetermineApiName(host) ==>
              DetermineApiName(host) == ApplicationServer && OutboundAudit.DetermineApiName(host) == OutboundAudit.UnknownApi
  {
  }

  /** What this interceptor's builder holds when an exception reaches the
      catch block. Its first getStatusCode() call is the argument of
      responseStatus, so that call throwing leaves the request fields alone;
      its second is the argument of success, so that call throwing leaves the
      status, headers, body and time already set; after the save, only the
      log statement's call can throw. */
  function BuilderAtCatch(requestPart: AuditLogBuilder, execution: Result<OutboundAudit.ClientResponse, Exception>,
                          clock: OutboundAudit.CallClock): AuditLogBuilder
  {
    if execution.Success? && execution.value.body.Success? && execution.value.statusFaults.first.None? then
      var answered := OutboundAudit.ResponsePart(requestPart, execution.value, clock.responseMillis - clock.startMillis);
      if execution.value.statusFaults.second.None? then answered else answered.(success := requestPart.success)
    else requestPart
  }

  /** The audit logs this interceptor saves for one call, in order. */
  function OutboundRecords(request: OutboundAudit.ClientRequest, body: string, requestId: string, apiName: string,
                           execution: Result<OutboundAudit.ClientResponse, Exception>,
                           clock: OutboundAudit.CallClock): (records: seq<AuditRecord>)
    ensures |records| == OutboundAudit.SaveCount(execution)
    ensures OutboundAudit.InterceptResult(execution).Failure? ==>
              var failed := records[|records| - 1];
              !failed.success &&
              (failed.responseStatus.Some? <==>
                 execution.Success? && execution.value.body.Success? && execution.value.statusFaults.first.None?)
    ensures OutboundAudit.InterceptResult(execution).Failure? ==>
              var e := OutboundAudit.InterceptResult(execution).error;
              var failed := records[|records| - 1];
              failed.errorMessage == Message(e) && failed.exceptionName == Some(ClassName(e)) &&
              (execution.Success? && execution.value.body.Success? && execution.value.statusFaults.first.None? ==>
                 failed.responseStatus == Some(execution.value.statusCode) &&
                 failed.responseHeaders == Some(execution.value.headersText) &&
                 failed.responseBody == Some(execution.value.body.value)) &&
              (!(execution.Success? && execution.value.body.Success? && execution.value.statusFaults.first.None?) ==>
                 failed.responseStatus.None? && failed.responseHeaders.None? && failed.responseBody.None?)
  {
    var requestPart := OutboundAudit.RequestPart(request, body, requestId, apiName);
    OutboundAudit.AuditRecords(requestPart, execution, clock, BuilderAtCatch(requestPart, execution, clock))
  }

  /** The two interceptors save the same audit logs for the same call and API
      name, except when the second getStatusCode() call throws: this one's
      failure log then keeps the status, headers and body it had already set,
      where the registered one's has none of them. */
  lemma RecordsDifferOnlyOnSecondStatusFault(request: OutboundAudit.ClientRequest, body: string, requestId: string,
                                             apiName: string, execution: Result<OutboundAudit.ClientResponse, Exception>,
                                             clock: OutboundAudit.CallClock)
    ensures var mine := OutboundRecords(request, body, requestId, apiName, execution, clock);
            var registered := OutboundAudit.OutboundRecords(request, body, requestId, apiName, execution, clock);
            (mine != registered <==>
               execution.Success? && execution.value.body.Success? &&
               execution.value.statusFaults.first.None? && execution.value.statusFaults.second.Some?) &&
            (mine != registered ==>
               |mine| == |registered| == 1 &&
               mine[0] == registered[0].(responseStatus := Some(execution.value.statusCode),
                                         responseHeaders := Some(execution.value.headersText),
                                         responseBody := Some(execution.value.body.value)))
  {
    var requestPart := OutboundAudit.RequestPart(request, body, requestId, apiName);
    var mine := OutboundRecords(request, body, requestId, apiName, execution, clock);
    var registered := OutboundAudit.OutboundRecords(request, body, requestId, apiName, execution, clock);
    if execution.Success? && execution.value.body.Success? &&
       execution.value.statusFaults.first.None? && execution.value.statusFaults.second.Some? {
      assert mine[0].responseStatus.Some? && registered[0].responseStatus.None?;
    } else {
      assert BuilderAtCatch(requestPart, execution, clock) ==
             OutboundAudit.BuilderAtCatch(requestPart, execution, clock);
    }
  }

  class AuditLoggingInterceptor {
    const auditLogService: AuditLogServiceImpl

    ghost predicate Valid()
      reads this, auditLogService, auditLogService.repository
    {
      auditLogService.Valid()
    }

    constructor (auditLogService: AuditLogServiceImpl)
      requires auditLogService.Valid()
      ensures Valid() && this.auditLogService == auditLogService
    {
      this.auditLogService := auditLogService;
    }

    /** The try block of this interceptor's intercept, up to its return or
        its first exception. Its first getStatusCode() call is the argument
        of responseStatus and its second the argument of success, so the
        builder calls in between have already run when the second throws. */
    method TryBlock(request: OutboundAudit.ClientRequest, body: string,
                    execution: Result<OutboundAudit.ClientResponse, Exception>, requestId: string,
                    clock: OutboundAudit.CallClock, tryDbError: Option<Exception>)
      returns (thrown: Option<Exception>, auditLogBuilder: AuditLogBuilder)
      requires Valid()
      modifies auditLogService, auditLogService.repository
      ensures Valid()
      ensures thrown.Some? <==> OutboundAudit.InterceptResult(execution).Failure?
      ensures var requestPart := OutboundAudit.RequestPart(request, body, requestId, DetermineApiName(request.host));
              thrown.Some? ==>
                thrown.value == OutboundAudit.InterceptResult(execution).error &&
                auditLogBuilder == BuilderAtCatch(requestPart, execution, clock)
      ensures auditLogService.SavedInOrder(
                OutboundAudit.AnsweredRecords(OutboundAudit.RequestPart(request, body, requestId, DetermineApiName(request.host)),
                                              execution, clock),
                OutboundAudit.TryErrors(execution, tryDbError),
                old(auditLogService.submitted), old(auditLogService.repository.rows),
                old(auditLogService.repository.nextId))
    {
      auditLogBuilder := OutboundAudit.RequestPart(request, body, requestId, DetermineApiName(request.host));
      ghost var requestPart := auditLogBuilder;
      EmptyRun(auditLogService.submitted, auditLogService.repository.rows, auditLogService.repository.nextId);
      assert auditLogService.SavedInOrder([], [], old(auditLogService.submitted), old(auditLogService.repository.rows),
                                          old(auditLogService.repository.nextId));
      thrown := None;
      if execution.Failure? {
        thrown := Some(execution.error);
      } else {
        var response := execution.value;
        if response.body.Failure? {
          thrown := Some(response.body.error);
        } else {
          var executionTime := clock.responseMillis - clock.startMillis;
          if response.statusFaults.first.Some? {
            thrown := response.statusFaults.first;
          } else {
            auditLogBuilder := auditLogBuilder.(
              responseStatus := Some(response.statusCode),
              responseHeaders := Some(response.headersText),
              responseBody := Some(response.body.value),
              executionTimeMs := Some(executionTime));
            if response.statusFaults.second.Some? {
              thrown := response.statusFaults.second;
            } else {
              auditLogBuilder := auditLogBuilder.(success := Some(200 <= response.statusCode < 300));
              assert auditLogBuilder == OutboundAudit.ResponsePart(requestPart, response, executionTime);
              OutboundAudit.SaveBuilt(auditLogService, auditLogBuilder, clock.responseNow, tryDbError, [], [],
                                      old(auditLogService.submitted), old(auditLogService.repository.rows),
                                      old(auditLogService.repository.nextId));
              assert [] + [Build(auditLogBuilder, clock.responseNow)] == OutboundAudit.AnsweredRecords(requestPart, execution, clock);
              // the log statement reads the status once more
              thrown := response.statusFaults.third;
            }
          }
        }
      }
    }

    /** intercept: the registered interceptor's response and exception
        handling and catch block, under this interceptor's API name and with
        its own try block. */
    method Intercept(request: OutboundAudit.ClientRequest, body: string,
                     execution: Result<OutboundAudit.ClientResponse, Exception>, requestId: string,
                     clock: OutboundAudit.CallClock, tryDbError: Option<Exception>, catchDbError: Option<Exception>)
      returns (r: Result<OutboundAudit.ClientResponse, Exception>)
      requires Valid()
      modifies auditLogService, auditLogService.repository
      ensures Valid()
      ensures r == OutboundAudit.InterceptResult(execution)
      ensures auditLogService.SavedInOrder(
                OutboundRecords(request, body, requestId, DetermineApiName(request.host), execution, clock),
                OutboundAudit.SaveErrors(execution, tryDbError, catchDbError),
                old(auditLogService.submitted), old(auditLogService.repository.rows),
                old(auditLogService.repository.nextId))
    {
      ghost var requestPart := OutboundAudit.RequestPart(request, body, requestId, DetermineApiName(request.host));
      var thrown, auditLogBuilder := TryBlock(request, body, execution, requestId, clock, tryDbError);
      OutboundAudit.AuditRecordsSplit(requestPart, execution, clock, BuilderAtCatch(requestPart, execution, clock));
      if thrown.Some? {
        var e := thrown.value;
        auditLogBuilder := auditLogBuilder.(
          executionTimeMs := Some(clock.catchMillis - clock.startMillis),
          success := Some(false),
          errorMessage := Message(e),
          exceptionName := Some(ClassName(e)));
        assert auditLogBuilder == OutboundAudit.FailurePart(BuilderAtCatch(requestPart, execution, clock), e,
                                                 clock.catchMillis - clock.startMillis);
        OutboundAudit.SaveBuilt(auditLogService, auditLogBuilder, clock.catchNow, catchDbError,
                                OutboundAudit.AnsweredRecords(requestPart, execution, clock),
                                OutboundAudit.TryErrors(execution, tryDbError),
                                old(auditLogService.submitted), old(auditLogService.repository.rows),
                                old(auditLogService.repository.nextId));
        r := Failure(e);
      } else {
        r := Success(execution.value);
      }
    }
  }
}
