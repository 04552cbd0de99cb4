/** ApiServiceAccountsImpl and ApiServiceClientsImpl: one call to the
    generated client each, with the same mapping of RestTemplate errors onto
    ExternalApiException. The call itself is the `call` input: what the
    generated client returned (possibly null) or threw. */
module UpstreamServices {
  import opened Wrappers
  import opened Exceptions

  /** An account as the Accounts server returns it; the core never looks inside it. */
  datatype Account = Account(payload: string)

  /** GetAccountsResponse: its accounts list may be null. */
  datatype GetAccountsResponse = GetAccountsResponse(accounts: Option<seq<Account>>)

  /** GetClientDetailResponse, reduced to the birth date the core reads. */
  datatype GetClientDetailResponse = GetClientDetailResponse(birthDate: Option<string>)

  const AccountsClientErrorPrefix := "Accounts server error when calling Accounts API: "
  const AccountsInternalErrorPrefix := "Internal error when calling Accounts API: "
  const ClientsClientErrorPrefix := "Clients server error when calling Clients API: "
  const ClientsInternalErrorPrefix := "Internal error when calling Clients API: "

  /** The two catch blocks: an HttpClientErrorException is caught first and
      named by its status; any other RestClientException by its message;
      anything else is not caught and propagates as it is. */
  function MapCallError(clientErrorPrefix: string, internalErrorPrefix: string, e: Exception): (r: Exception)
    ensures e.HttpClientError? ==>
              r.ExternalApi? && Message(r) == Some(clientErrorPrefix + e.status.text) && Cause(r) == Some(e) &&
              r.statusCode == e.status && r.errorBody == Some(e.responseBody)
    ensures IsRestClientException(e) && !e.HttpClientError? ==>
              r.ExternalApi? && Message(r) == Some(internalErrorPrefix + Printed(Message(e))) && Cause(r) == Some(e) &&
              r.statusCode == InternalServerError && r.errorBody == Message(e)
    ensures !IsRestClientException(e) ==> r == e
  {
    if e.HttpClientError? then ExternalApiException(Some(clientErrorPrefix + e.status.text), e)
    else if IsRestClientException(e) then ExternalApiException(Some(internalErrorPrefix + Printed(Message(e))), e)
    else e
  }

  /** The JVM's detailed message for `response.getAccounts()` on a null response. */
  const NullAccountsResponseMessage :=
    "Cannot invoke \"cz.csas.eligibility.model.GetAccountsResponse.getAccounts()\" because \"response\" is null"

  /** getClientAccounts. A null accounts list becomes the empty list; a null
      response object is dereferenced and throws a NullPointerException, which
      is not a RestClientException and so is not wrapped. */
  function GetClientAccounts(call: Result<Option<GetAccountsResponse>, Exception>): (r: Result<seq<Account>, Exception>)
    ensures call.Success? && call.value.Some? ==>
              r.Success? && r.value == (if call.value.value.accounts.Some? then call.value.value.accounts.value else [])
    ensures call.Success? && call.value.None? ==> r == Failure(NullPointer(Some(NullAccountsResponseMessage)))
    ensures call.Failure? ==>
              r == Failure(MapCallError(AccountsClientErrorPrefix, AccountsInternalErrorPrefix, call.error))
  {
    match call
    case Failure(e) => Failure(MapCallError(AccountsClientErrorPrefix, AccountsInternalErrorPrefix, e))
    case Success(None) => Failure(NullPointer(Some(NullAccountsResponseMessage)))
    case Success(Some(response)) => Success(response.accounts.GetOr([]))
  }

  /** getClientDetail: the response is passed on as it is, null included. */
  function GetClientDetail(call: Result<Option<GetClientDetailResponse>, Exception>): (r: Result<Option<GetClientDetailResponse>, Exception>)
    ensures call.Success? ==> r == call
    ensures call.Failure? ==>
              r == Failure(MapCallError(ClientsClientErrorPrefix, ClientsInternalErrorPrefix, call.error))
  {
    match call
    case Failure(e) => Failure(MapCallError(ClientsClientErrorPrefix, ClientsInternalErrorPrefix, e))
    case Success(detail) => Success(detail)
  }

  /** Both services fail exactly when the call fails (or, for accounts, when
      the response object is null), and a RestClientException never leaves
      them unwrapped. */
  lemma UpstreamFailuresAreWrapped(accountsCall: Result<Option<GetAccountsResponse>, Exception>,
                                   detailCall: Result<Option<GetClientDetailResponse>, Exception>)
    ensures GetClientAccounts(accountsCall).Failure? <==> accountsCall.Failure? || accountsCall.value.None?
    ensures GetClientDetail(detailCall).Failure? <==> detailCall.Failure?
    ensures GetClientAccounts(accountsCall).Failure? ==> !IsRestClientException(GetClientAccounts(accountsCall).error)
    ensures GetClientDetail(detailCall).Failure? ==> !IsRestClientException(GetClientDetail(detailCall).error)
  {
  }
}
