/** EligibilityServiceImpl: the decision rule and the one decision row each
    evaluation leaves behind. The two lookups arrive as what the upstream
    services returned or threw; `firstSaveError` and `secondSaveError` are what
    the database raises on the first and second save of the call, if anything. */
module Eligibilities {
  import opened Wrappers
  import opened Exceptions
  import opened DateUtils
  import opened Entities
  import opened Repositories
  import opened UpstreamServices

  /** GetEligibilityResponse.ReasonsEnum. */
  datatype Reason = NoAccount | NoAdult

  /** GetEligibilityResponse. `reasons` is None while the service has not set
      it, which is the case for every eligible client. */
  datatype EligibilityResponse = EligibilityResponse(eligible: bool, reasons: Option<seq<Reason>>)

  /** The upstream lookups, in the order they are made. */
  datatype Lookup = AccountsLookup | ClientDetailLookup

  /** The reasons for a refusal: NO_ACCOUNT, then NO_ADULT. */
  function Reasons(hasAccount: bool, isAdult: bool): seq<Reason> {
    (if hasAccount then [] else [NoAccount]) + (if isAdult then [] else [NoAdult])
  }

  /** The response for the client's accounts and age. */
  function Decide(accounts: seq<Account>, isAdult: bool): EligibilityResponse {
    if |accounts| > 0 && isAdult then EligibilityResponse(true, None)
    else EligibilityResponse(false, Some(Reasons(|accounts| > 0, isAdult)))
  }

  /** The decision rule: eligible exactly for an adult with an account, with
      no reasons set; otherwise each reason is listed exactly when it applies,
      at most once, so the list is never empty. */
  lemma DecideCorrect(accounts: seq<Account>, isAdult: bool)
    ensures Decide(accounts, isAdult).eligible <==> |accounts| > 0 && isAdult
    ensures Decide(accounts, isAdult).reasons.None? <==> Decide(accounts, isAdult).eligible
    ensures var reasons := Decide(accounts, isAdult).reasons;
            reasons.Some? ==>
              (NoAccount in reasons.value <==> |accounts| == 0) &&
              (NoAdult in reasons.value <==> !isAdult) &&
              multiset(reasons.value)[NoAccount] <= 1 && multiset(reasons.value)[NoAdult] <= 1 &&
              |reasons.value| > 0
  {
    var hasAccount := |accounts| > 0;
    var r := Reasons(hasAccount, isAdult);
    assert r == [NoAccount, NoAdult] || r == [NoAccount] || r == [NoAdult] || r == [];
  }

  /** The JVM's detailed message for `clientDetail.getBirthDate()` on a null
      client detail. */
  const NullClientDetailMessage :=
    "Cannot invoke \"cz.csas.eligibility.model.GetClientDetailResponse.getBirthDate()\" because \"clientDetail\" is null"

  /** The try block up to the first save: the response it builds, or the
      exception it catches (from a lookup, from the null client detail, or
      from the age rule). */
  function Evaluation(accounts: Result<seq<Account>, Exception>,
                      clientDetail: Result<Option<GetClientDetailResponse>, Exception>,
                      today: LocalDate): Result<EligibilityResponse, Exception>
    requires 1 <= today.month <= 12
  {
    match accounts
    case Failure(e) => Failure(e)
    case Success(accs) =>
      match clientDetail
      case Failure(e) => Failure(e)
      case Success(None) => Failure(NullPointer(Some(NullClientDetailMessage)))
      case Success(Some(detail)) =>
        match IsAdult(detail.birthDate, today)
        case Failure(e) => Failure(e)
        case Success(adult) => Success(Decide(accs, adult))
  }

  /** The response is built exactly when both lookups answer and the birth
      date parses, and it is eligible exactly for an adult with an account. */
  lemma EvaluationDecides(accounts: Result<seq<Account>, Exception>,
                          clientDetail: Result<Option<GetClientDetailResponse>, Exception>, today: LocalDate)
    requires 1 <= today.month <= 12
    ensures Evaluation(accounts, clientDetail, today).Success? <==>
              accounts.Success? && clientDetail.Success? && clientDetail.value.Some? &&
              IsAdult(clientDetail.value.value.birthDate, today).Success?
    ensures Evaluation(accounts, clientDetail, today).Success? ==>
              (Evaluation(accounts, clientDetail, today).value.eligible <==>
                 |accounts.value| > 0 && IsAdult(clientDetail.value.value.birthDate, today).value)
    ensures accounts.Failure? ==> Evaluation(accounts, clientDetail, today) == Failure(accounts.error)
  {
    if Evaluation(accounts, clientDetail, today).Success? {
      DecideCorrect(accounts.value, IsAdult(clientDetail.value.value.birthDate, today).value);
    }
  }

  function ResultOf(response: EligibilityResponse): EligibilityResult {
    if response.eligible then Eligible else NotEligible
  }

  /** The result column of the row the call leaves in the table, if any. */
  function SavedResult(evaluation: Result<EligibilityResponse, Exception>,
                       firstSaveError: Option<Exception>, secondSaveError: Option<Exception>): Option<EligibilityResult> {
    if evaluation.Success? && firstSaveError.None? then Some(ResultOf(evaluation.value))
    else if evaluation.Success? then (if secondSaveError.None? then Some(Error) else None)
    else if firstSaveError.None? then Some(Error)
    else None
  }

  /** What evaluateEligibility returns or throws. */
  function Returned(correlationId: Option<string>, evaluation: Result<EligibilityResponse, Exception>,
                    firstSaveError: Option<Exception>, secondSaveError: Option<Exception>): Result<EligibilityResponse, Exception> {
    if evaluation.Success? && firstSaveError.None? then Success(evaluation.value)
    else
      // the exception the catch block sees, and the ERROR save's own error
      var caught := if evaluation.Success? then firstSaveError.value else evaluation.error;
      var errorSaveError := if evaluation.Success? then secondSaveError else firstSaveError;
      if errorSaveError.Some? then Failure(errorSaveError.value)
      else Failure(EligibilityApiException(correlationId, Message(caught), caught))
  }

  /** A response is returned exactly when an ELIGIBLE or NOT_ELIGIBLE row was
      saved, and that row agrees with it; otherwise the row, if any, is ERROR,
      and an ERROR row goes with an EligibilityApiException carrying the
      caller's correlation id. */
  lemma RowMatchesOutcome(correlationId: Option<string>, evaluation: Result<EligibilityResponse, Exception>,
                          firstSaveError: Option<Exception>, secondSaveError: Option<Exception>)
    ensures var r := Returned(correlationId, evaluation, firstSaveError, secondSaveError);
            var saved := SavedResult(evaluation, firstSaveError, secondSaveError);
            (r.Success? <==> saved.Some? && saved.value != Error) &&
            (r.Success? ==> saved == Some(if r.value.eligible then Eligible else NotEligible)) &&
            (r.Failure? ==> saved.None? || saved == Some(Error)) &&
            (r.Failure? && saved.Some? ==> r.error.EligibilityApi? && r.error.correlationId == correlationId)
  {
  }

  /** The exception path: with a working database, a failure before the first
      save leaves one ERROR row and becomes an EligibilityApiException with the
      caller's correlation id, the original message and the original cause. */
  lemma FailureBecomesEligibilityApiException(correlationId: Option<string>, e: Exception,
                                              secondSaveError: Option<Exception>)
    ensures SavedResult(Failure(e), None, secondSaveError) == Some(Error)
    ensures var r := Returned(correlationId, Failure(e), None, secondSaveError);
            r.Failure? && r.error.EligibilityApi? && r.error.correlationId == correlationId &&
            Message(r.error) == Message(e) && Cause(r.error) == Some(e)
  {
  }

  /** A failed decision save is caught by the same handler: ERROR is saved
      next, and the database error becomes the cause of the
      EligibilityApiException. */
  lemma FailedDecisionSaveRecordsError(correlationId: Option<string>, response: EligibilityResponse, dbError: Exception)
    ensures SavedResult(Success(response), Some(dbError), None) == Some(Error)
    ensures var r := Returned(correlationId, Success(response), Some(dbError), None);
            r.Failure? && r.error.EligibilityApi? && r.error.correlationId == correlationId &&
            Cause(r.error) == Some(dbError) && Message(r.error) == Message(dbError)
  {
  }

  /** The ERROR save is not guarded: when it fails, no row is left and its own
      database error escapes instead of an EligibilityApiException. */
  lemma FailedErrorSaveEscapes(correlationId: Option<string>, evaluation: Result<EligibilityResponse, Exception>,
                               firstSaveError: Option<Exception>, errorSaveError: Exception)
    requires evaluation.Success? ==> firstSaveError.Some?
    ensures var secondSaveError := if evaluation.Success? then Some(errorSaveError) else None;
            var first := if evaluation.Success? then firstSaveError else Some(errorSaveError);
            SavedResult(evaluation, first, secondSaveError).None? &&
            Returned(correlationId, evaluation, first, secondSaveError) == Failure(errorSaveError)
  {
  }

  class EligibilityServiceImpl {
    const eligibilityRepository: EligibilityRepository

    ghost predicate Valid()
      reads this, eligibilityRepository
    {
      eligibilityRepository.Valid()
    }

    constructor (eligibilityRepository: EligibilityRepository)
      requires eligibilityRepository.Valid()
      ensures Valid() && this.eligibilityRepository == eligibilityRepository
    {
      this.eligibilityRepository := eligibilityRepository;
    }

    /** saveResult: builds the row and saves it. */
    method SaveResult(clientId: string, correlationId: Option<string>, result: EligibilityResult,
                      now: LocalDateTime, dbError: Option<Exception>)
      returns (r: Result<Eligibility, Exception>)
      requires Valid()
      modifies eligibilityRepository
      ensures Valid()
      ensures r.Success? <==> dbError.None?
      ensures r.Failure? ==>
                r.error == dbError.value && eligibilityRepository.rows == old(eligibilityRepository.rows) &&
                eligibilityRepository.nextId == old(eligibilityRepository.nextId)
      ensures r.Success? ==>
                r.value == BuildEligibility(clientId, correlationId, result, now).(id := Some(old(eligibilityRepository.nextId))) &&
                eligibilityRepository.rows == old(eligibilityRepository.rows) + [r.value]
    {
      r := eligibilityRepository.Save(BuildEligibility(clientId, correlationId, result, now), dbError);
    }

    /** The try block of evaluateEligibility up to its save: the lookups in
        order, the age rule, and the response with its reasons list filled
        one reason at a time. `invoked` lists the lookups made. */
    method Decision(accounts: Result<seq<Account>, Exception>,
                    clientDetail: Result<Option<GetClientDetailResponse>, Exception>, today: LocalDate)
      returns (outcome: Result<EligibilityResponse, Exception>, invoked: seq<Lookup>)
      requires 1 <= today.month <= 12
      ensures outcome == Evaluation(accounts, clientDetail, today)
      ensures invoked == if accounts.Success? then [AccountsLookup, ClientDetailLookup] else [AccountsLookup]
    {
      invoked := [AccountsLookup];
      if accounts.Failure? {
        return Failure(accounts.error), invoked;
      }
      var accountList := accounts.value;
      invoked := invoked + [ClientDetailLookup];
      if clientDetail.Failure? {
        return Failure(clientDetail.error), invoked;
      }
      if clientDetail.value.None? {
        return Failure(NullPointer(Some(NullClientDetailMessage))), invoked;
      }
      var clientIsAdult := IsAdult(clientDetail.value.value.birthDate, today);
      if clientIsAdult.Failure? {
        return Failure(clientIsAdult.error), invoked;
      }
      var eligibilityResponse := EligibilityResponse(false, None);
      if |accountList| > 0 && clientIsAdult.value {
        eligibilityResponse := eligibilityResponse.(eligible := true);
      } else {
        var reasons: seq<Reason> := [];
        if |accountList| == 0 {
          reasons := reasons + [NoAccount];
        }
        if !clientIsAdult.value {
          reasons := reasons + [NoAdult];
        }
        assert reasons == Reasons(|accountList| > 0, clientIsAdult.value);
        eligibilityResponse := eligibilityResponse.(eligible := false, reasons := Some(reasons));
      }
      assert eligibilityResponse == Decide(accountList, clientIsAdult.value);
      outcome := Success(eligibilityResponse);
    }

    /** evaluateEligibility(clientId, correlationId), with the lookups'
        outcomes, today's date and the clock as inputs. `invoked` lists the
        lookups made, in order. */
    method EvaluateEligibility(clientId: string, correlationId: Option<string>,
                               accounts: Result<seq<Account>, Exception>,
                               clientDetail: Result<Option<GetClientDetailResponse>, Exception>,
                               today: LocalDate, now: LocalDateTime,
                               firstSaveError: Option<Exception>, secondSaveError: Option<Exception>)
      returns (r: Result<EligibilityResponse, Exception>, invoked: seq<Lookup>)
      requires Valid() && 1 <= today.month <= 12
      modifies eligibilityRepository
      ensures Valid()
      ensures invoked == if accounts.Success? then [AccountsLookup, ClientDetailLookup] else [AccountsLookup]
      ensures var evaluation := Evaluation(accounts, clientDetail, today);
              r == Returned(correlationId, evaluation, firstSaveError, secondSaveError) &&
              var saved := SavedResult(evaluation, firstSaveError, secondSaveError);
              eligibilityRepository.rows ==
                old(eligibilityRepository.rows) +
                (if saved.Some?
                 then [BuildEligibility(clientId, correlationId, saved.value, now).(id := Some(old(eligibilityRepository.nextId)))]
                 else [])
    {
      var outcome;
      outcome, invoked := Decision(accounts, clientDetail, today);
      var caught: Exception;
      var errorSaveError: Option<Exception>;
      if outcome.Success? {
        var result := if outcome.value.eligible then Eligible else NotEligible;
        var saved := SaveResult(clientId, correlationId, result, now, firstSaveError);
        if saved.Success? {
          return Success(outcome.value), invoked;
        }
        caught, errorSaveError := saved.error, secondSaveError;
      } else {
        caught, errorSaveError := outcome.error, firstSaveError;
      }
      // the catch block
      var errorSaved := SaveResult(clientId, correlationId, Error, now, errorSaveError);
      if errorSaved.Failure? {
        return Failure(errorSaved.error), invoked;
      }
      r := Failure(EligibilityApiException(correlationId, Message(caught), caught));
    }
  }
}
