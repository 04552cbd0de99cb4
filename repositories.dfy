/** EligibilityRepository and AuditLogRepository as in-memory tables: save
    appends a row and assigns the next identity value, the finders filter the
    table without changing it. Rows come back in table order (the database
    promises no order where the query has no ORDER BY). */
module Repositories {
  import opened Wrappers
  import opened Exceptions
  import opened DateUtils
  import opened Entities
  import opened Queries

  class EligibilityRepository {
    var rows: seq<Eligibility>
    var nextId: int

    /** Every row has an id, ids grow with the table and stay below nextId. */
    ghost predicate Valid()
      reads this
    {
      nextId >= 1 &&
      (forall i :: 0 <= i < |rows| ==> rows[i].id.Some? && 1 <= rows[i].id.value < nextId) &&
      (forall i, j :: 0 <= i < j < |rows| ==> rows[i].id.value < rows[j].id.value)
    }

    constructor ()
      ensures Valid() && rows == []
    {
      rows, nextId := [], 1;
    }

    /** save(entity) for a new entity. `dbError` is the failure the database
        raises on this call, if any; a failed save leaves the table as it was. */
    method Save(e: Eligibility, dbError: Option<Exception>) returns (r: Result<Eligibility, Exception>)
      requires Valid() && e.id.None?
      modifies this
      ensures Valid()
      ensures dbError.Some? ==> r == Failure(dbError.value) && rows == old(rows) && nextId == old(nextId)
      ensures dbError.None? ==>
                r == Success(e.(id := Some(old(nextId)))) && rows == old(rows) + [r.value] && nextId > old(nextId)
    {
      if dbError.Some? {
        return Failure(dbError.value);
      }
      var saved := e.(id := Some(nextId));
      rows := rows + [saved];
      nextId := nextId + 1;
      return Success(saved);
    }

    /** findByClientId: exactly the rows of that client. */
    function FindByClientId(clientId: string): (r: seq<Eligibility>)
      reads this
      ensures forall e :: multiset(r)[e] == if e.clientId == clientId then multiset(rows)[e] else 0
      ensures forall e :: e in r <==> e in rows && e.clientId == clientId
    {
      FilterCount(rows, (e: Eligibility) => e.clientId == clientId);
      Filter(rows, (e: Eligibility) => e.clientId == clientId)
    }

    /** findByCorrelationId: exactly the rows with that correlation id (IS NULL for a null argument). */
    function FindByCorrelationId(correlationId: Option<string>): (r: seq<Eligibility>)
      reads this
      ensures forall e :: multiset(r)[e] == if e.correlationId == correlationId then multiset(rows)[e] else 0
      ensures forall e :: e in r <==> e in rows && e.correlationId == correlationId
    {
      FilterCount(rows, (e: Eligibility) => e.correlationId == correlationId);
      Filter(rows, (e: Eligibility) => e.correlationId == correlationId)
    }

    /** findAllByResult: exactly the rows with that result. */
    function FindAllByResult(result: EligibilityResult): (r: seq<Eligibility>)
      reads this
      ensures forall e :: multiset(r)[e] == if e.result == result then multiset(rows)[e] else 0
      ensures forall e :: e in r <==> e in rows && e.result == result
    {
      FilterCount(rows, (e: Eligibility) => e.result == result);
      Filter(rows, (e: Eligibility) => e.result == result)
    }

    /** A successful save adds the saved row to the client's rows and to no other client's. */
    lemma SaveExtendsOnlyThatClient(before: seq<Eligibility>, saved: Eligibility, clientId: string)
      requires rows == before + [saved]
      ensures FindByClientId(clientId) ==
                Filter(before, (e: Eligibility) => e.clientId == clientId) +
                (if saved.clientId == clientId then [saved] else [])
    {
      FilterAppend(before, saved, (e: Eligibility) => e.clientId == clientId);
    }
  }

  /** Rows of different clients never mix. */
  lemma ClientsStaySeparate(repo: EligibilityRepository, a: string, b: string)
    requires a != b
    ensures forall e :: !(e in repo.FindByClientId(a) && e in repo.FindByClientId(b))
  {
  }

  class AuditLogRepository {
    var rows: seq<AuditRecord>
    var nextId: int

    /** Every row was stored with its required columns and an id; ids grow
        with the table and stay below nextId. */
    ghost predicate Valid()
      reads this
    {
      nextId >= 1 &&
      (forall i :: 0 <= i < |rows| ==> HasRequiredColumns(rows[i])) &&
      (forall i :: 0 <= i < |rows| ==> rows[i].id.Some? && 1 <= rows[i].id.value < nextId) &&
      (forall i, j :: 0 <= i < j < |rows| ==> rows[i].id.value < rows[j].id.value)
    }

    constructor ()
      ensures Valid() && rows == []
    {
      rows, nextId := [], 1;
    }

    /** save(auditLog) for a new AuditLog: the insert fails when the database
        does (dbError) or when a NOT NULL column is null; otherwise the entity
        receives its id and its current fields become a row. */
    method Save(log: AuditLog, dbError: Option<Exception>) returns (r: Result<AuditLog, Exception>)
      requires Valid() && log.id.None?
      modifies this, log
      ensures Valid()
      ensures r.Success? <==> dbError.None? && HasRequiredColumns(old(log.Row()))
      ensures r.Failure? ==> rows == old(rows) && nextId == old(nextId) && log.Row() == old(log.Row())
      ensures r.Success? ==>
                r.value == log && log.Row() == old(log.Row()).(id := Some(old(nextId))) &&
                rows == old(rows) + [log.Row()] && nextId == old(nextId) + 1
    {
      if dbError.Some? {
        return Failure(dbError.value);
      }
      if !HasRequiredColumns(log.Row()) {
        return Failure(Other("org.springframework.dao.DataIntegrityViolationException", None));
      }
      log.id := Some(nextId);
      rows := rows + [log.Row()];
      nextId := nextId + 1;
      return Success(log);
    }

    /** findByApiNameAndCreatedAtBetween: the rows of that API created within [from, to]. */
    function FindByApiNameAndCreatedAtBetween(apiName: string, from: LocalDateTime, to: LocalDateTime): (r: seq<AuditRecord>)
      reads this
      ensures forall a :: a in r <==> a in rows && a.apiName == Some(apiName) && from <= a.createdAt <= to
      ensures forall a :: multiset(r)[a] ==
                if a.apiName == Some(apiName) && from <= a.createdAt <= to then multiset(rows)[a] else 0
    {
      FilterCount(rows, (a: AuditRecord) => a.apiName == Some(apiName) && from <= a.createdAt <= to);
      Filter(rows, (a: AuditRecord) => a.apiName == Some(apiName) && from <= a.createdAt <= to)
    }

    /** findByCorrelationId: exactly the rows with that correlation id. */
    function FindByCorrelationId(correlationId: Option<string>): (r: seq<AuditRecord>)
      reads this
      ensures forall a :: a in r <==> a in rows && a.correlationId == correlationId
      ensures forall a :: multiset(r)[a] == if a.correlationId == correlationId then multiset(rows)[a] else 0
    {
      FilterCount(rows, (a: AuditRecord) => a.correlationId == correlationId);
      Filter(rows, (a: AuditRecord) => a.correlationId == correlationId)
    }

    /** findByRequestId: exactly the rows with that request id. */
    function FindByRequestId(requestId: Option<string>): (r: seq<AuditRecord>)
      reads this
      ensures forall a :: a in r <==> a in rows && a.requestId == requestId
      ensures forall a :: multiset(r)[a] == if a.requestId == requestId then multiset(rows)[a] else 0
    {
      FilterCount(rows, (a: AuditRecord) => a.requestId == requestId);
      Filter(rows, (a: AuditRecord) => a.requestId == requestId)
    }

    /** findFailedRequests (WHERE success = false ORDER BY createdAt DESC):
        exactly the failed rows, newest first. Rows created at the same time
        come in an order the database does not fix; here, table order. */
    function FindFailedRequests(): (r: seq<AuditRecord>)
      reads this
      ensures forall a :: multiset(r)[a] == if !a.success then multiset(rows)[a] else 0
      ensures forall i, j :: 0 <= i < j < |r| ==> r[i].createdAt >= r[j].createdAt
    {
      var failed := Filter(rows, (a: AuditRecord) => !a.success);
      FilterCount(rows, (a: AuditRecord) => !a.success);
      SortDescendingCorrect(failed, (a: AuditRecord) => a.createdAt);
      SortDescending(failed, (a: AuditRecord) => a.createdAt)
    }
  }
}
