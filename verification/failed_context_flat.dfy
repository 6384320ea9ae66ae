/** The field-by-field failed-execution context
    (`interceptor.DefaultFailedExecutionInterceptorContext`): the four
    context fields plus the exception, with `request` and `exception`
    mandatory. */
module FlatFailedContext {
  import opened Wrappers
  import opened Values
  import opened Exceptions

  datatype FlatFailed = FlatFailed(
    request: Message,
    httpRequest: Option<WireRequest>,
    httpResponse: Option<Message>,
    response: Option<Message>,
    exception: Exception)

  datatype FlatBuilder = FlatBuilder(
    request: Option<Message>,
    httpRequest: Option<WireRequest>,
    httpResponse: Option<Message>,
    response: Option<Message>,
    exception: Option<Exception>)

  /** `builder()`: every field null. */
  function NewBuilder(): (b: FlatBuilder)
    ensures Build(b) == Failure(NullPointer("request"))
    ensures forall m, e :: Build(b.(request := Some(m), exception := Some(e))) == Success(FlatFailed(m, None, None, None, e))
  {
    FlatBuilder(None, None, None, None, None)
  }

  /** The private constructor: `request` is checked before `exception`. */
  function Build(b: FlatBuilder): (r: Result<FlatFailed, Exception>)
    ensures r.Success? <==> b.request.Some? && b.exception.Some?
    ensures b.request.None? ==> r == Failure(NullPointer("request"))
    ensures b.request.Some? && b.exception.None? ==> r == Failure(NullPointer("exception"))
    ensures r.Success? ==> Some(r.value.request) == b.request && Some(r.value.exception) == b.exception
    ensures r.Success? ==> HttpRequestView(r.value) == b.httpRequest && HttpResponseView(r.value) == b.httpResponse
    ensures r.Success? ==> ResponseView(r.value) == b.response
  {
    if b.request.None? then Failure(NullPointer("request"))
    else if b.exception.None? then Failure(NullPointer("exception"))
    else Success(FlatFailed(b.request.value, b.httpRequest, b.httpResponse, b.response, b.exception.value))
  }

  /** `toBuilder()`: the builder that rebuilds this very context. */
  function ToBuilder(c: FlatFailed): (b: FlatBuilder)
    ensures Build(b) == Success(c)
  {
    FlatBuilder(Some(c.request), c.httpRequest, c.httpResponse, c.response, Some(c.exception))
  }

  /** `httpRequest()`: `Optional.ofNullable` of the stored field. */
  function HttpRequestView(c: FlatFailed): (r: Option<WireRequest>)
    ensures r.Some? <==> c.httpRequest.Some?
    ensures r.Some? ==> r.value == c.httpRequest.value
  {
    c.httpRequest
  }

  /** `httpResponse()`: `Optional.ofNullable` of the stored field. */
  function HttpResponseView(c: FlatFailed): (r: Option<Message>)
    ensures r.Some? <==> c.httpResponse.Some?
    ensures r.Some? ==> r.value == c.httpResponse.value
  {
    c.httpResponse
  }

  /** `response()`: `Optional.ofNullable` of the stored field. */
  function ResponseView(c: FlatFailed): (r: Option<Message>)
    ensures r.Some? <==> c.response.Some?
    ensures r.Some? ==> r.value == c.response.value
  {
    c.response
  }

  /** `Builder.request(...)`. */
  function SetRequest(b: FlatBuilder, v: Option<Message>): (r: FlatBuilder)
    ensures r.request == v
    ensures r.httpRequest == b.httpRequest && r.httpResponse == b.httpResponse
    ensures r.response == b.response && r.exception == b.exception
  {
    b.(request := v)
  }

  /** `Builder.httpRequest(...)`. */
  function SetHttpRequest(b: FlatBuilder, v: Option<WireRequest>): (r: FlatBuilder)
    ensures r.httpRequest == v
    ensures r.request == b.request && r.httpResponse == b.httpResponse
    ensures r.response == b.response && r.exception == b.exception
  {
    b.(httpRequest := v)
  }

  /** `Builder.httpResponse(...)`. */
  function SetHttpResponse(b: FlatBuilder, v: Option<Message>): (r: FlatBuilder)
    ensures r.httpResponse == v
    ensures r.request == b.request && r.httpRequest == b.httpRequest
    ensures r.response == b.response && r.exception == b.exception
  {
    b.(httpResponse := v)
  }

  /** `Builder.response(...)`. */
  function SetResponse(b: FlatBuilder, v: Option<Message>): (r: FlatBuilder)
    ensures r.response == v
    ensures r.request == b.request && r.httpRequest == b.httpRequest
    ensures r.httpResponse == b.httpResponse && r.exception == b.exception
  {
    b.(response := v)
  }

  /** `Builder.exception(...)`. */
  function SetException(b: FlatBuilder, v: Option<Exception>): (r: FlatBuilder)
    ensures r.exception == v
    ensures r.request == b.request && r.httpRequest == b.httpRequest
    ensures r.httpResponse == b.httpResponse && r.response == b.response
  {
    b.(exception := v)
  }

  /** Building a builder and copying the result back loses nothing. */
  lemma ToBuilderOfBuild(b: FlatBuilder)
    requires b.request.Some? && b.exception.Some?
    ensures ToBuilder(Build(b).value) == b
  {
  }
}
