/** AuditLogServiceImpl: caps both bodies of an audit log, then stores it,
    and never lets a failure reach its caller. The method runs synchronously
    here; its @Async and @Transactional execution is not modelled. */
module AuditLogs {
  import opened Wrappers
  import opened Exceptions
  import opened Entities
  import opened Repositories
  import opened Truncation

  /** An audit record with both bodies capped. */
  function WithTruncatedBodies(r: AuditRecord): (t: AuditRecord)
    ensures t.requestBody == TruncateBody(r.requestBody) && t.responseBody == TruncateBody(r.responseBody)
    ensures t.(requestBody := r.requestBody, responseBody := r.responseBody) == r
  {
    r.(requestBody := TruncateBody(r.requestBody), responseBody := TruncateBody(r.responseBody))
  }

  /** Capping twice is capping once. */
  lemma WithTruncatedBodiesIdempotent(r: AuditRecord)
    ensures WithTruncatedBodies(WithTruncatedBodies(r)) == WithTruncatedBodies(r)
  {
    TruncateBodyIdempotent(r.requestBody);
    TruncateBodyIdempotent(r.responseBody);
  }

  /** Whether the store accepts this record on a call where the database
      raises `dbError` (or nothing). */
  predicate Stored(r: AuditRecord, dbError: Option<Exception>) {
    dbError.None? && HasRequiredColumns(r)
  }

  /** The rows a run of saveAuditLog calls adds to a table whose next id is
      `nextId`: each storable capped record in turn, with consecutive ids. */
  function StoredRows(records: seq<AuditRecord>, dbErrors: seq<Option<Exception>>, nextId: int): (rows: seq<AuditRecord>)
    requires |records| == |dbErrors|
    ensures |rows| <= |records|
    decreases |records|
  {
    if |records| == 0 then []
    else
      var capped := WithTruncatedBodies(records[0]);
      if Stored(capped, dbErrors[0]) then [capped.(id := Some(nextId))] + StoredRows(records[1..], dbErrors[1..], nextId + 1)
      else StoredRows(records[1..], dbErrors[1..], nextId)
  }

  /** An empty run adds nothing. */
  lemma EmptyRun(submitted0: seq<AuditRecord>, rows0: seq<AuditRecord>, nextId0: int)
    ensures submitted0 + [] == submitted0 && rows0 + StoredRows([], [], nextId0) == rows0
    ensures nextId0 + |StoredRows([], [], nextId0)| == nextId0
  {
    assert rows0 + [] == rows0;
  }

  /** A single call adds its capped record with the next id, if it is stored. */
  lemma StoredRowsSingle(record: AuditRecord, dbError: Option<Exception>, nextId: int)
    ensures var capped := WithTruncatedBodies(record);
            StoredRows([record], [dbError], nextId) == if Stored(capped, dbError) then [capped.(id := Some(nextId))] else []
  {
    assert [record][1..] == [] && [dbError][1..] == [];
  }

  /** A run extended by one call adds what the run added, then what that
      call adds from the next id the run left. */
  lemma {:induction false} StoredRowsSnoc(records: seq<AuditRecord>, dbErrors: seq<Option<Exception>>,
                                          record: AuditRecord, dbError: Option<Exception>, nextId: int)
    requires |records| == |dbErrors|
    ensures StoredRows(records + [record], dbErrors + [dbError], nextId) ==
            StoredRows(records, dbErrors, nextId) +
            StoredRows([record], [dbError], nextId + |StoredRows(records, dbErrors, nextId)|)
    decreases |records|
  {
    if |records| == 0 {
      assert records + [record] == [record];
      assert dbErrors + [dbError] == [dbError];
    } else {
      assert (records + [record])[1..] == records[1..] + [record];
      assert (dbErrors + [dbError])[1..] == dbErrors[1..] + [dbError];
      var capped := WithTruncatedBodies(records[0]);
      var next := if Stored(capped, dbErrors[0]) then nextId + 1 else nextId;
      StoredRowsSnoc(records[1..], dbErrors[1..], record, dbError, next);
    }
  }

  /** The history, table and next id after a run, extended by one more call. */
  lemma ExtendRun(submitted0: seq<AuditRecord>, rows0: seq<AuditRecord>, records: seq<AuditRecord>,
                  dbErrors: seq<Option<Exception>>, record: AuditRecord, dbError: Option<Exception>, nextId0: int)
    requires |records| == |dbErrors|
    ensures submitted0 + records + [record] == submitted0 + (records + [record])
    ensures rows0 + StoredRows(records, dbErrors, nextId0) +
              StoredRows([record], [dbError], nextId0 + |StoredRows(records, dbErrors, nextId0)|) ==
            rows0 + StoredRows(records + [record], dbErrors + [dbError], nextId0)
    ensures nextId0 + |StoredRows(records, dbErrors, nextId0)| +
              |StoredRows([record], [dbError], nextId0 + |StoredRows(records, dbErrors, nextId0)|)| ==
            nextId0 + |StoredRows(records + [record], dbErrors + [dbError], nextId0)|
  {
    StoredRowsSnoc(records, dbErrors, record, dbError, nextId0);
  }

  class AuditLogServiceImpl {
    const repository: AuditLogRepository

    /** Every audit log handed to saveAuditLog, as it was handed in, in call order. */
    ghost var submitted: seq<AuditRecord>

    ghost predicate Valid()
      reads this, repository
    {
      repository.Valid()
    }

    constructor (repository: AuditLogRepository)
      requires repository.Valid()
      ensures Valid() && this.repository == repository && submitted == []
    {
      this.repository := repository;
      submitted := [];
    }

    /** The effect of a run of saveAuditLog calls on entities holding
        `records`, the database raising `dbErrors` on them in turn, measured
        against the service's earlier history and table. */
    ghost predicate SavedInOrder(records: seq<AuditRecord>, dbErrors: seq<Option<Exception>>,
                                 submitted0: seq<AuditRecord>, rows0: seq<AuditRecord>, nextId0: int)
      requires |records| == |dbErrors|
      reads this, repository
    {
      submitted == submitted0 + records && repository.rows == rows0 + StoredRows(records, dbErrors, nextId0) &&
      repository.nextId == nextId0 + |StoredRows(records, dbErrors, nextId0)|
    }

    /** saveAuditLog(auditLog). The entity's bodies are capped in place, then
        it is saved; a failed save is caught and dropped. Nothing is returned
        and nothing is thrown. */
    method SaveAuditLog(auditLog: AuditLog, dbError: Option<Exception>)
      requires Valid() && auditLog.id.None?
      modifies this, auditLog, repository
      ensures Valid()
      ensures submitted == old(submitted) + [old(auditLog.Row())]
      ensures repository.rows == old(repository.rows) + StoredRows([old(auditLog.Row())], [dbError], old(repository.nextId))
      ensures repository.nextId == old(repository.nextId) + |StoredRows([old(auditLog.Row())], [dbError], old(repository.nextId))|
      ensures var capped := WithTruncatedBodies(old(auditLog.Row()));
              if Stored(capped, dbError) then
                auditLog.Row() == capped.(id := Some(old(repository.nextId))) &&
                repository.rows == old(repository.rows) + [auditLog.Row()] &&
                repository.nextId == old(repository.nextId) + 1
              else
                auditLog.Row() == capped && repository.rows == old(repository.rows) &&
                repository.nextId == old(repository.nextId)
    {
      ghost var handed := auditLog.Row();
      submitted := submitted + [handed];
      if auditLog.requestBody.Some? && |auditLog.requestBody.value| > MaxBodyLength {
        auditLog.requestBody := Some(auditLog.requestBody.value[..MaxBodyLength] + TruncatedMarker);
      }
      assert auditLog.requestBody == TruncateBody(handed.requestBody);
      if auditLog.responseBody.Some? && |auditLog.responseBody.value| > MaxBodyLength {
        auditLog.responseBody := Some(auditLog.responseBody.value[..MaxBodyLength] + TruncatedMarker);
      }
      assert auditLog.responseBody == TruncateBody(handed.responseBody);
      assert auditLog.Row() == WithTruncatedBodies(handed);
      StoredRowsSingle(handed, dbError, old(repository.nextId));
      var saved := repository.Save(auditLog, dbError);
      // a Failure here is what the catch block logs and drops
      assert saved.Success? <==> Stored(WithTruncatedBodies(handed), dbError);
    }
  }
}
