/** `DefaultInterceptorContext`: the immutable four-field snapshot handed to
    interceptors, and its `Builder`. Only `request` is mandatory. */
module InterceptorContext {
  import opened Wrappers
  import opened Values
  import opened Exceptions

  datatype Context = Context(
    request: Message,
    httpRequest: Option<WireRequest>,
    httpResponse: Option<Message>,
    response: Option<Message>)

  datatype ContextBuilder = ContextBuilder(
    request: Option<Message>,
    httpRequest: Option<WireRequest>,
    httpResponse: Option<Message>,
    response: Option<Message>)

  /** `DefaultInterceptorContext.builder()`: every field null. */
  function NewBuilder(): (b: ContextBuilder)
    ensures Build(b) == Failure(NullPointer("request"))
    ensures forall m :: Build(SetRequest(b, Some(m))) == Success(Context(m, None, None, None))
  {
    ContextBuilder(None, None, None, None)
  }

  /** `Builder.build()`: fails unless `request` was set. */
  function Build(b: ContextBuilder): (r: Result<Context, Exception>)
    ensures r.Success? <==> b.request.Some?
    ensures r.Failure? ==> r.error == NullPointer("request")
    ensures r.Success? ==> Some(r.value.request) == b.request && r.value.httpRequest == b.httpRequest
    ensures r.Success? ==> r.value.httpResponse == b.httpResponse && r.value.response == b.response
  {
    match b.request
    case None => Failure(NullPointer("request"))
    case Some(req) => Success(Context(req, b.httpRequest, b.httpResponse, b.response))
  }

  /** `toBuilder()`: the builder that rebuilds this very context. */
  function ToBuilder(c: Context): (b: ContextBuilder)
    ensures Build(b) == Success(c)
  {
    ContextBuilder(Some(c.request), c.httpRequest, c.httpResponse, c.response)
  }

  /** Copying a buildable builder's result back gives the same builder. */
  lemma ToBuilderOfBuild(b: ContextBuilder)
    requires b.request.Some?
    ensures ToBuilder(Build(b).value) == b
  {
  }

  /** `Builder.request(...)`. */
  function SetRequest(b: ContextBuilder, v: Option<Message>): (r: ContextBuilder)
    ensures r.request == v
    ensures r.httpRequest == b.httpRequest && r.httpResponse == b.httpResponse && r.response == b.response
  {
    b.(request := v)
  }

  /** `Builder.httpRequest(...)`. */
  function SetHttpRequest(b: ContextBuilder, v: Option<WireRequest>): (r: ContextBuilder)
    ensures r.httpRequest == v
    ensures r.request == b.request && r.httpResponse == b.httpResponse && r.response == b.response
  {
    b.(httpRequest := v)
  }

  /** `Builder.httpResponse(...)`. */
  function SetHttpResponse(b: ContextBuilder, v: Option<Message>): (r: ContextBuilder)
    ensures r.httpResponse == v
    ensures r.request == b.request && r.httpRequest == b.httpRequest && r.response == b.response
  {
    b.(httpResponse := v)
  }

  /** `Builder.response(...)`. */
  function SetResponse(b: ContextBuilder, v: Option<Message>): (r: ContextBuilder)
    ensures r.response == v
    ensures r.request == b.request && r.httpRequest == b.httpRequest && r.httpResponse == b.httpResponse
  {
    b.(response := v)
  }

  /** `context.modify(b -> b.request(v))` for a non-null `v`. */
  function ReplaceRequest(c: Context, v: Message): (r: Context)
    ensures r.request == v
    ensures r.httpRequest == c.httpRequest && r.httpResponse == c.httpResponse && r.response == c.response
  {
    Build(SetRequest(ToBuilder(c), Some(v))).value
  }

  /** `context.modify(b -> b.httpRequest(v))` for a non-null `v`. */
  function ReplaceHttpRequest(c: Context, v: WireRequest): (r: Context)
    ensures r.httpRequest == Some(v)
    ensures r.request == c.request && r.httpResponse == c.httpResponse && r.response == c.response
  {
    Build(SetHttpRequest(ToBuilder(c), Some(v))).value
  }

  /** `context.modify(b -> b.httpResponse(v))` for a non-null `v`. */
  function ReplaceHttpResponse(c: Context, v: Message): (r: Context)
    ensures r.httpResponse == Some(v)
    ensures r.request == c.request && r.httpRequest == c.httpRequest && r.response == c.response
  {
    Build(SetHttpResponse(ToBuilder(c), Some(v))).value
  }

  /** `context.modify(b -> b.response(v))` for a non-null `v`. */
  function ReplaceResponse(c: Context, v: Message): (r: Context)
    ensures r.response == Some(v)
    ensures r.request == c.request && r.httpRequest == c.httpRequest && r.httpResponse == c.httpResponse
  {
    Build(SetResponse(ToBuilder(c), Some(v))).value
  }
}
