/** RestApiAuditFilter: the servlet filter that writes one audit log for every
    inbound HTTP request, whatever the rest of the chain does. */
module InboundAudit {
  import opened Wrappers
  import opened Text
  import opened Exceptions
  import opened Http
  import opened DateUtils
  import opened Entities
  import opened Repositories
  import opened Truncation
  import opened AuditLogs

  /** The request as the caching wrapper sees it once the chain has run;
      `content` is the cached body decoded as UTF-8. */
  datatype ServletRequest = ServletRequest(
    httpMethod: string,
    requestUrl: string,
    queryString: Option<string>,
    headers: seq<Header>,
    content: string)

  /** The response as the caching wrapper holds it when the chain returns. */
  datatype ServletResponse = ServletResponse(status: int, headers: seq<Header>, content: string)

  /** What chain.doFilter did: the response it produced and what it threw, if anything. */
  datatype ChainOutcome = ChainOutcome(response: ServletResponse, thrown: Option<Exception>)

  const ApplicationServer := "ApplicationServer"
  const SystemUser := "SYSTEM"

  /** isSuccess: the status is in the 2xx range. */
  predicate IsSuccessStatus(status: int) {
    200 <= status && status < 300
  }

  /** extractRequestBody / extractResponseBody: an empty body is recorded as
      null, any other body is capped. */
  function ExtractBody(content: string): (r: Option<string>)
    ensures r.None? <==> |content| == 0
    ensures r.Some? ==> r.value == Truncate(content) && |r.value| <= MaxBodyLength + |TruncatedMarker|
  {
    if |content| == 0 then None else Some(Truncate(content))
  }

  /** extractErrorMessage. `errorMessageField` stands for the JSON reader: the
      text of the body's top-level errorMessage field, or null when the body is
      not JSON or has no such field. */
  function ExtractErrorMessage(responseBody: Option<string>, errorMessageField: string -> Option<string>): (r: Option<string>)
    ensures responseBody.None? || IsBlank(responseBody.value) ==> r.None?
    ensures r.Some? ==> responseBody.Some? && !IsBlank(responseBody.value) && r == errorMessageField(responseBody.value)
    ensures responseBody.Some? && !IsBlank(responseBody.value) ==> r == errorMessageField(responseBody.value)
  {
    if responseBody.None? || IsBlank(responseBody.value) then None else errorMessageField(responseBody.value)
  }

  /** The url column: the request URL, then `?` and the query string when there is one. */
  function RequestUrl(request: ServletRequest): (r: string)
    ensures request.queryString.None? ==> r == request.requestUrl
    ensures request.queryString.Some? ==> r == request.requestUrl + "?" + request.queryString.value
  {
    request.requestUrl + (if request.queryString.Some? then "?" + request.queryString.value else "")
  }

  /** One entry of the header text: name:"value", where the value is the
      first value under that name (or null). */
  function HeaderEntry(headers: seq<Header>, name: string): string {
    name + ":" + "\"" + Printed(FirstHeaderValue(headers, name)) + "\""
  }

  function HeaderEntries(headers: seq<Header>): (r: seq<string>)
    ensures |r| == |headers|
    ensures forall i :: 0 <= i < |headers| ==> r[i] == HeaderEntry(headers, headers[i].name)
  {
    seq(|headers|, i requires 0 <= i < |headers| => HeaderEntry(headers, headers[i].name))
  }

  /** What formatHeaders produces: the entries joined by "; " inside brackets. */
  function HeadersText(headers: seq<Header>): string {
    "[" + Join(HeaderEntries(headers), "; ") + "]"
  }

  /** The parts, each followed by the separator: what the builder holds
      before the trailing separator is deleted. */
  function Terminated(parts: seq<string>, sep: string): string {
    if |parts| == 0 then "" else Terminated(parts[..|parts| - 1], sep) + parts[|parts| - 1] + sep
  }

  lemma {:induction false} TerminatedIsJoinThenSeparator(parts: seq<string>, sep: string)
    requires |parts| > 0
    ensures Terminated(parts, sep) == Join(parts, sep) + sep
    decreases |parts|
  {
    var n := |parts|;
    if n > 1 {
      var init := parts[..n - 1];
      TerminatedIsJoinThenSeparator(init, sep);
      assert init + [parts[n - 1]] == parts;
      JoinAppend(init, parts[n - 1], sep);
    }
  }

  /** formatHeaders: a builder starting with "[", one name:"value"; per
      header, the last "; " deleted, then "]". */
  method FormatHeaders(headers: seq<Header>) returns (text: string)
    ensures text == HeadersText(headers)
  {
    ghost var entries := HeaderEntries(headers);
    var sb := "[";
    var i := 0;
    while i < |headers|
      invariant 0 <= i <= |headers|
      invariant sb == "[" + Terminated(entries[..i], "; ")
    {
      ghost var before := sb;
      sb := sb + headers[i].name + ":" + "\"" + Printed(FirstHeaderValue(headers, headers[i].name)) + "\"" + "; ";
      assert sb == before + entries[i] + "; ";
      assert entries[..i + 1][..i] == entries[..i];
      assert Terminated(entries[..i + 1], "; ") == Terminated(entries[..i], "; ") + entries[i] + "; ";
      i := i + 1;
    }
    assert entries[..i] == entries;
    if |sb| > 2 && sb[|sb| - 2..] == "; " {
      sb := sb[..|sb| - 2];
    }
    if |headers| > 0 {
      TerminatedIsJoinThenSeparator(entries, "; ");
      var joined := "[" + Join(entries, "; ");
      assert sb == joined by {
        assert |joined + "; "| > 2;
        assert (joined + "; ")[..|joined + "; "| - 2] == joined;
      }
    }
    text := sb + "]";
  }

  /** The header text is "[]" exactly when there are no headers. */
  lemma HeadersTextEmptyIffNoHeaders(headers: seq<Header>)
    ensures HeadersText(headers) == "[]" <==> |headers| == 0
  {
    var entries := HeaderEntries(headers);
    if |headers| > 0 {
      assert |Join(entries, "; ")| >= |entries[0]|;
      assert |HeadersText(headers)| > 2;
    }
  }

  /** The AuditLog.builder() chain of createAndSaveAuditLog. */
  function InboundRecord(request: ServletRequest, response: ServletResponse, requestId: string,
                         executionTime: int, errorMessageField: string -> Option<string>): (b: AuditLogBuilder)
    ensures b.apiName == Some(ApplicationServer) && b.userId == Some(SystemUser)
    ensures b.success == Some(IsSuccessStatus(response.status))
    ensures b.requestId == Some(requestId) && b.httpMethod == Some(request.httpMethod)
    ensures b.url == Some(RequestUrl(request)) && b.responseStatus == Some(response.status)
    ensures b.correlationId == FirstHeaderValue(request.headers, CorrelationIdHeader)
    ensures b.requestBody == ExtractBody(request.content) && b.responseBody == ExtractBody(response.content)
    ensures b.errorMessage == ExtractErrorMessage(b.responseBody, errorMessageField)
    ensures b.requestHeaders == Some(HeadersText(request.headers)) && b.responseHeaders == Some(HeadersText(response.headers))
    ensures b.executionTimeMs == Some(executionTime)
    ensures b.exceptionName.None?
  {
    var responseBody := ExtractBody(response.content);
    NewBuilder.(
      requestId := Some(requestId),
      apiName := Some(ApplicationServer),
      httpMethod := Some(request.httpMethod),
      url := Some(RequestUrl(request)),
      requestHeaders := Some(HeadersText(request.headers)),
      requestBody := ExtractBody(request.content),
      responseStatus := Some(response.status),
      responseHeaders := Some(HeadersText(response.headers)),
      responseBody := responseBody,
      executionTimeMs := Some(executionTime),
      success := Some(IsSuccessStatus(response.status)),
      errorMessage := ExtractErrorMessage(responseBody, errorMessageField),
      correlationId := FirstHeaderValue(request.headers, CorrelationIdHeader),
      userId := Some(SystemUser))
  }

  /** An inbound audit log always has its required columns, and its bodies
      are already capped, so the audit log service's own cap changes nothing. */
  lemma InboundRecordStorable(request: ServletRequest, response: ServletResponse, requestId: string,
                              executionTime: int, errorMessageField: string -> Option<string>, now: LocalDateTime)
    ensures var r := Build(InboundRecord(request, response, requestId, executionTime, errorMessageField), now);
            HasRequiredColumns(r) && WithTruncatedBodies(r) == r
  {
    TruncateBodyIdempotent(if |request.content| == 0 then None else Some(request.content));
    TruncateBodyIdempotent(if |response.content| == 0 then None else Some(response.content));
  }

  class RestApiAuditFilter {
    const auditLogService: AuditLogServiceImpl
    /** The object mapper's view of an error body (see ExtractErrorMessage). */
    const errorMessageField: string -> Option<string>

    ghost predicate Valid()
      reads this, auditLogService, auditLogService.repository
    {
      auditLogService.Valid()
    }

    constructor (auditLogService: AuditLogServiceImpl, errorMessageField: string -> Option<string>)
      requires auditLogService.Valid()
      ensures Valid() && this.auditLogService == auditLogService && this.errorMessageField == errorMessageField
    {
      this.auditLogService := auditLogService;
      this.errorMessageField := errorMessageField;
    }

    /** createAndSaveAuditLog: builds the entry and hands it to the audit log
        service, which never throws. */
    method CreateAndSaveAuditLog(request: ServletRequest, response: ServletResponse, requestId: string,
                                 executionTime: int, now: LocalDateTime, dbError: Option<Exception>)
      requires Valid()
      modifies auditLogService, auditLogService.repository
      ensures Valid()
      ensures var record := Build(InboundRecord(request, response, requestId, executionTime, errorMessageField), now);
              auditLogService.submitted == old(auditLogService.submitted) + [record] &&
              if dbError.None? then
                auditLogService.repository.rows ==
                  old(auditLogService.repository.rows) + [record.(id := Some(old(auditLogService.repository.nextId)))]
              else
                auditLogService.repository.rows == old(auditLogService.repository.rows)
    {
      var requestBody := ExtractBody(request.content);
      var responseBody := ExtractBody(response.content);
      var errorMessage := ExtractErrorMessage(responseBody, errorMessageField);
      var isSuccess := 200 <= response.status && response.status < 300;
      var requestHeaders := FormatHeaders(request.headers);
      var responseHeaders := FormatHeaders(response.headers);
      var builder := NewBuilder.(
        requestId := Some(requestId),
        apiName := Some(ApplicationServer),
        httpMethod := Some(request.httpMethod),
        url := Some(RequestUrl(request)),
        requestHeaders := Some(requestHeaders),
        requestBody := requestBody,
        responseStatus := Some(response.status),
        responseHeaders := Some(responseHeaders),
        responseBody := responseBody,
        executionTimeMs := Some(executionTime),
        success := Some(isSuccess),
        errorMessage := errorMessage,
        correlationId := FirstHeaderValue(request.headers, CorrelationIdHeader),
        userId := Some(SystemUser));
      assert builder == InboundRecord(request, response, requestId, executionTime, errorMessageField);
      var logEntry := new AuditLog(builder, now);
      InboundRecordStorable(request, response, requestId, executionTime, errorMessageField, now);
      auditLogService.SaveAuditLog(logEntry, dbError);
    }

    /** doFilter. The chain runs between the two clock readings; whatever it
        did, one audit log is written, and then the chain's response is
        delivered and whatever it threw is rethrown unchanged. */
    method DoFilter(request: ServletRequest, chain: ChainOutcome, requestId: string,
                    startMillis: int, endMillis: int, now: LocalDateTime, dbError: Option<Exception>)
      returns (delivered: ServletResponse, thrown: Option<Exception>)
      requires Valid()
      modifies auditLogService, auditLogService.repository
      ensures Valid()
      ensures delivered == chain.response && thrown == chain.thrown
      ensures var record := Build(InboundRecord(request, chain.response, requestId, endMillis - startMillis, errorMessageField), now);
              auditLogService.submitted == old(auditLogService.submitted) + [record] &&
              if dbError.None? then
                auditLogService.repository.rows ==
                  old(auditLogService.repository.rows) + [record.(id := Some(old(auditLogService.repository.nextId)))]
              else
                auditLogService.repository.rows == old(auditLogService.repository.rows)
    {
      var executionTime := endMillis - startMillis;
      CreateAndSaveAuditLog(request, chain.response, requestId, executionTime, now, dbError);
      delivered := chain.response;
      thrown := chain.thrown;
    }
  }
}
