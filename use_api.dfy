/**
 * The request hook: three state cells (`response`, `loading`, `error`) and
 * the transitions `sendRequest`, `clearResponse` and `clearError`. The
 * asynchronous call is split at its `await`: `Begin` runs before the
 * service is called and `Settle` after it answers.
 */
module UseApi {
  import opened Wrappers
  import opened Strings
  import opened Types

  const UrlRequired := "URL is required"
  const RequestFailed := "Request failed"

  /** What the service call rejected with: an `Error` carrying a message, or any other value. */
  datatype Rejection = ErrorInstance(message: string) | NonError

  /** `err instanceof Error ? err.message : 'Request failed'`. */
  function RejectionMessage(r: Rejection): (m: string)
    ensures r.ErrorInstance? ==> m == r.message
    ensures r.NonError? ==> m == RequestFailed
  {
    match r
    case ErrorInstance(message) => message
    case NonError => RequestFailed
  }

  /** The request service throws an `Error` carrying its message. */
  function FromService(r: Result<ApiResponse, string>): (o: Result<ApiResponse, Rejection>)
    ensures r.Success? ==> o == Success(r.value)
    ensures r.Failure? ==> o.Failure? && RejectionMessage(o.error) == r.error
  {
    match r
    case Success(v) => Success(v)
    case Failure(m) => Failure(ErrorInstance(m))
  }

  /** Which callback fires, with what. */
  datatype Notice = NoNotice | SuccessNotice(response: ApiResponse) | ErrorNotice(message: string)

  /** The state of one `useApi` instance. */
  class ApiHook {
    var response: Option<ApiResponse>
    var loading: bool
    var error: Option<string>

    /** The initial state: nothing loaded, not loading, no error. */
    constructor()
      ensures response.None? && !loading && error.None?
    {
      response := None;
      loading := false;
      error := None;
    }

    /** After a request has settled: not loading, and exactly one of response and error is set. */
    predicate Settled()
      reads this
    {
      !loading && (response.Some? <==> error.None?)
    }

    /** The part of `sendRequest` before the `await`: start loading and clear both results. */
    method Begin()
      modifies this
      ensures loading && error.None? && response.None?
    {
      loading := true;
      error := None;
      response := None;
    }

    /** The part after the `await`: record the result or the message, then stop loading (`finally`). */
    method Settle(outcome: Result<ApiResponse, Rejection>) returns (notice: Notice)
      modifies this
      ensures !loading
      ensures outcome.Success? ==>
        response == Some(outcome.value) && error == old(error) && notice == SuccessNotice(outcome.value)
      ensures outcome.Failure? ==>
        && error == Some(RejectionMessage(outcome.error)) && response == old(response)
        && notice == ErrorNotice(RejectionMessage(outcome.error))
    {
      match outcome {
        case Success(result) =>
          response := Some(result);
          notice := SuccessNotice(result);
        case Failure(err) =>
          var errorMessage := RejectionMessage(err);
          error := Some(errorMessage);
          notice := ErrorNotice(errorMessage);
      }
      loading := false;
    }

    /**
     * `sendRequest(config)`, with `outcome` standing for what
     * `ApiService.makeRequest(config)` resolves or rejects with. A blank URL
     * only sets the error and calls nothing.
     */
    method SendRequest(config: RequestConfig, outcome: Result<ApiResponse, Rejection>)
      returns (called: bool, notice: Notice)
      modifies this
      ensures called <==> !Blank(config.url)
      ensures !called ==>
        error == Some(UrlRequired) && loading == old(loading) && response == old(response) && notice == NoNotice
      ensures called ==> Settled()
      ensures called && outcome.Success? ==>
        response == Some(outcome.value) && error.None? && notice == SuccessNotice(outcome.value)
      ensures called && outcome.Failure? ==>
        && response.None? && error == Some(RejectionMessage(outcome.error))
        && notice == ErrorNotice(RejectionMessage(outcome.error))
    {
      if Blank(config.url) {
        error := Some(UrlRequired);
        called := false;
        notice := NoNotice;
        return;
      }
      called := true;
      Begin();
      notice := Settle(outcome);
    }

    /** `clearResponse()`: both results cleared, loading untouched. */
    method ClearResponse()
      modifies this
      ensures response.None? && error.None? && loading == old(loading)
    {
      response := None;
      error := None;
    }

    /** `clearError()`: only the error cleared. */
    method ClearError()
      modifies this
      ensures error.None? && response == old(response) && loading == old(loading)
    {
      error := None;
    }
  }
}
