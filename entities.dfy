/** The two persisted entities: one Eligibility row per decision and one
    AuditLog row per HTTP exchange. */
module Entities {
  import opened Wrappers
  import opened DateUtils

  /** Eligibility.EligibilityResultEnum. */
  datatype EligibilityResult = Eligible | NotEligible | Error

  /** An eligibility decision row. It is never changed after it is built; the
      store assigns its id when it is saved. */
  datatype Eligibility = Eligibility(
    id: Option<int>,
    clientId: string,
    correlationId: Option<string>,
    result: EligibilityResult,
    checkedAt: LocalDateTime)

  /** Eligibility.builder().clientId(..).correlationId(..).result(..).build():
      no id yet, and checkedAt takes its default, the construction time. */
  function BuildEligibility(clientId: string, correlationId: Option<string>, result: EligibilityResult,
                            now: LocalDateTime): (e: Eligibility)
    ensures e.id.None? && e.checkedAt == now
    ensures e.clientId == clientId && e.correlationId == correlationId && e.result == result
  {
    Eligibility(None, clientId, correlationId, result, now)
  }

  /** AuditLog.builder(): every field starts unset (null); success has a
      builder default, so an unset success is recorded separately from false. */
  datatype AuditLogBuilder = AuditLogBuilder(
    requestId: Option<string>,
    apiName: Option<string>,
    httpMethod: Option<string>,  // the `method` column
    url: Option<string>,
    requestHeaders: Option<string>,
    requestBody: Option<string>,
    responseStatus: Option<int>,
    responseHeaders: Option<string>,
    responseBody: Option<string>,
    executionTimeMs: Option<int>,
    success: Option<bool>,
    errorMessage: Option<string>,
    exceptionName: Option<string>,
    correlationId: Option<string>,
    userId: Option<string>)

  const NewBuilder := AuditLogBuilder(None, None, None, None, None, None, None, None, None, None, None, None, None, None, None)

  /** The values of an AuditLog's columns at one moment: what a row of the
      audit_logs table holds. */
  datatype AuditRecord = AuditRecord(
    id: Option<int>,
    requestId: Option<string>,
    apiName: Option<string>,
    httpMethod: Option<string>,  // the `method` column
    url: Option<string>,
    requestHeaders: Option<string>,
    requestBody: Option<string>,
    responseStatus: Option<int>,
    responseHeaders: Option<string>,
    responseBody: Option<string>,
    executionTimeMs: Option<int>,
    success: bool,
    errorMessage: Option<string>,
    exceptionName: Option<string>,
    correlationId: Option<string>,
    userId: Option<string>,
    createdAt: LocalDateTime)

  /** build(): the builder's fields, success defaulting to false, createdAt to
      the construction time, and no id. */
  function Build(b: AuditLogBuilder, now: LocalDateTime): (r: AuditRecord)
    ensures r.id.None? && r.createdAt == now
    ensures r.success <==> b.success == Some(true)
    ensures b.success.None? ==> !r.success
  {
    AuditRecord(None, b.requestId, b.apiName, b.httpMethod, b.url, b.requestHeaders, b.requestBody,
                b.responseStatus, b.responseHeaders, b.responseBody, b.executionTimeMs,
                b.success.GetOr(false), b.errorMessage, b.exceptionName, b.correlationId, b.userId, now)
  }

  /** The columns declared nullable = false: request_id, api_name, method and
      url (success and created_at are never null here by construction). */
  predicate HasRequiredColumns(r: AuditRecord) {
    r.requestId.Some? && r.apiName.Some? && r.httpMethod.Some? && r.url.Some?
  }

  /** The AuditLog entity. Its setters are used in place by the audit log
      service, and saving it assigns its id. */
  class AuditLog {
    var id: Option<int>
    var requestId: Option<string>
    var apiName: Option<string>
    var httpMethod: Option<string>
    var url: Option<string>
    var requestHeaders: Option<string>
    var requestBody: Option<string>
    var responseStatus: Option<int>
    var responseHeaders: Option<string>
    var responseBody: Option<string>
    var executionTimeMs: Option<int>
    var success: bool
    var errorMessage: Option<string>
    var exceptionName: Option<string>
    var correlationId: Option<string>
    var userId: Option<string>
    var createdAt: LocalDateTime

    /** The current values of all fields. */
    function Row(): AuditRecord
      reads this
    {
      AuditRecord(id, requestId, apiName, httpMethod, url, requestHeaders, requestBody, responseStatus,
                  responseHeaders, responseBody, executionTimeMs, success, errorMessage, exceptionName,
                  correlationId, userId, createdAt)
    }

    /** builder.build() at time `now`. */
    constructor (b: AuditLogBuilder, now: LocalDateTime)
      ensures Row() == Build(b, now)
    {
      id, requestId, apiName, httpMethod, url := None, b.requestId, b.apiName, b.httpMethod, b.url;
      requestHeaders, requestBody, responseStatus := b.requestHeaders, b.requestBody, b.responseStatus;
      responseHeaders, responseBody, executionTimeMs := b.responseHeaders, b.responseBody, b.executionTimeMs;
      success, errorMessage, exceptionName := b.success.GetOr(false), b.errorMessage, b.exceptionName;
      correlationId, userId, createdAt := b.correlationId, b.userId, now;
    }

    /** equals(o): the same reference, or another AuditLog (no Hibernate proxy
        is modelled, so the effective class is the class) with the same
        non-null id. */
    predicate Equals(o: object?)
      reads this, o
    {
      if this == o then true
      else if o == null || !(o is AuditLog) then false
      else
        var other := o as AuditLog;
        id.Some? && id == other.id
    }

    /** hashCode(): getClass().hashCode(), which the model receives as
        classHash; no field of the log is read. */
    function HashCode(classHash: int): int {
      classHash
    }
  }

  /** Two distinct logs that have not been saved (null id) are never equal. */
  lemma UnsavedLogsNeverEqual(a: AuditLog, b: AuditLog)
    requires a != b && a.id.None?
    ensures !a.Equals(b) && !b.Equals(a)
  {
  }

  /** equals is reflexive and symmetric on audit logs. */
  lemma EqualsReflexiveSymmetric(a: AuditLog, b: AuditLog)
    ensures a.Equals(a)
    ensures a.Equals(b) <==> b.Equals(a)
  {
  }

  /** Two saved logs are equal exactly when their ids are. */
  lemma SavedLogsEqualIffSameId(a: AuditLog, b: AuditLog)
    requires a.id.Some? && b.id.Some?
    ensures a.Equals(b) <==> a == b || a.id == b.id
  {
  }
}
