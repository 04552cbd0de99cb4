/** EligibilityController: GET /api/v1/eligibility, answered from the
    eligibility service. */
module Controllers {
  import opened Wrappers
  import opened Exceptions
  import opened Http
  import opened DateUtils
  import opened Entities
  import opened Repositories
  import opened UpstreamServices
  import opened Eligibilities
  import opened ErrorHandling

  /** The branch after the service call: 200 with the response, or 400 with
      no body for a null response; both echo the caller's correlation id. */
  function RespondWith(response: Option<EligibilityResponse>, correlationId: Option<string>): (r: ResponseEntity<EligibilityResponse>)
    ensures response.Some? ==> r.status == 200 && r.body == response
    ensures response.None? ==> r.status == 400 && r.body.None?
    ensures r.headers == [(CorrelationIdHeader, correlationId)]
  {
    if response.Some? then ResponseEntity(200, [(CorrelationIdHeader, correlationId)], response)
    else ResponseEntity(400, [(CorrelationIdHeader, correlationId)], None)
  }

  /** What reaches the client: the controller's answer, the handler's 400
      answer, or an exception no handler takes. */
  datatype Reply =
    | Answered(entity: ResponseEntity<EligibilityResponse>)
    | Rejected(error: ResponseEntity<ErrorDto>)
    | Unhandled(exception: Exception)

  class EligibilityController {
    const eligibilityService: EligibilityServiceImpl

    ghost predicate Valid()
      reads this, eligibilityService, eligibilityService.eligibilityRepository
    {
      eligibilityService.Valid()
    }

    constructor (eligibilityService: EligibilityServiceImpl)
      requires eligibilityService.Valid()
      ensures Valid() && this.eligibilityService == eligibilityService
    {
      this.eligibilityService := eligibilityService;
    }

    /** apiV1EligibilityGet(clientId, correlationId): the service is asked for
        the same client and correlation id; what it throws passes through. */
    method ApiV1EligibilityGet(clientId: string, correlationId: Option<string>,
                               accounts: Result<seq<Account>, Exception>,
                               clientDetail: Result<Option<GetClientDetailResponse>, Exception>,
                               today: LocalDate, now: LocalDateTime,
                               firstSaveError: Option<Exception>, secondSaveError: Option<Exception>)
      returns (r: Result<ResponseEntity<EligibilityResponse>, Exception>)
      requires Valid() && 1 <= today.month <= 12
      modifies eligibilityService.eligibilityRepository
      ensures Valid()
      ensures var returned := Returned(correlationId, Evaluation(accounts, clientDetail, today), firstSaveError, secondSaveError);
              (returned.Success? ==> r == Success(RespondWith(Some(returned.value), correlationId))) &&
              (returned.Failure? ==> r == Failure(returned.error))
      ensures var saved := SavedResult(Evaluation(accounts, clientDetail, today), firstSaveError, secondSaveError);
              eligibilityService.eligibilityRepository.rows ==
                old(eligibilityService.eligibilityRepository.rows) +
                (if saved.Some?
                 then [BuildEligibility(clientId, correlationId, saved.value, now).(id := Some(old(eligibilityService.eligibilityRepository.nextId)))]
                 else [])
    {
      var response, _ := eligibilityService.EvaluateEligibility(clientId, correlationId, accounts, clientDetail,
                                                                today, now, firstSaveError, secondSaveError);
      if response.Failure? {
        return Failure(response.error);
      }
      r := Success(RespondWith(Some(response.value), correlationId));
    }

    /** The request end to end: the controller, then the exception handler for
        an EligibilityApiException. The service never returns null, so every
        answer the controller gives is a 200. */
    method Dispatch(clientId: string, correlationId: Option<string>,
                    accounts: Result<seq<Account>, Exception>,
                    clientDetail: Result<Option<GetClientDetailResponse>, Exception>,
                    today: LocalDate, now: LocalDateTime, systemOffset: int,
                    firstSaveError: Option<Exception>, secondSaveError: Option<Exception>)
      returns (reply: Reply)
      requires Valid() && 1 <= today.month <= 12
      modifies eligibilityService.eligibilityRepository
      ensures Valid()
      ensures reply.Answered? ==> reply.entity.status == 200 && reply.entity.headers == [(CorrelationIdHeader, correlationId)]
      ensures reply.Rejected? ==> reply.error.status == 400
      ensures reply.Rejected? && SavedResult(Evaluation(accounts, clientDetail, today), firstSaveError, secondSaveError).Some? ==>
                reply.error.headers == [(CorrelationIdHeader, correlationId)]
      ensures var evaluation := Evaluation(accounts, clientDetail, today);
              evaluation.Failure? && firstSaveError.None? ==>
                reply.Rejected? && reply.error.body.Some? && reply.error.body.value.errorMessage == Message(evaluation.error)
      ensures reply.Unhandled? ==> SavedResult(Evaluation(accounts, clientDetail, today), firstSaveError, secondSaveError).None?
      ensures SavedResult(Evaluation(accounts, clientDetail, today), firstSaveError, secondSaveError).Some? ==> !reply.Unhandled?
    {
      var outcome := ApiV1EligibilityGet(clientId, correlationId, accounts, clientDetail, today, now,
                                         firstSaveError, secondSaveError);
      RowMatchesOutcome(correlationId, Evaluation(accounts, clientDetail, today), firstSaveError, secondSaveError);
      if outcome.Success? {
        reply := Answered(outcome.value);
      } else if HandledAs400(outcome.error) {
        var entity := HandleType400Exceptions(outcome.error, now, systemOffset);
        reply := Rejected(entity);
      } else {
        reply := Unhandled(outcome.error);
      }
    }
  }
}
