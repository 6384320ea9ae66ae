/** The wrapping failed-execution context
    (`interceptor.context.DefaultFailedExecutionInterceptorContext`): an
    interceptor context plus the exception, both mandatory. This is the
    context the chain hands to `onExecutionFailure`. */
module FailedContext {
  import opened Wrappers
  import opened Values
  import opened Exceptions
  import InterceptorContext

  datatype Failed = Failed(context: InterceptorContext.Context, exception: Exception)

  datatype FailedBuilder = FailedBuilder(
    context: Option<InterceptorContext.Context>,
    exception: Option<Exception>)

  /** `builder()`: both fields null. */
  function NewBuilder(): (b: FailedBuilder)
    ensures Build(b) == Failure(NullPointer("interceptorContext"))
  {
    FailedBuilder(None, None)
  }

  /** The private constructor: `interceptorContext` is checked before
      `exception`. */
  function Build(b: FailedBuilder): (r: Result<Failed, Exception>)
    ensures r.Success? <==> b.context.Some? && b.exception.Some?
    ensures b.context.None? ==> r == Failure(NullPointer("interceptorContext"))
    ensures b.context.Some? && b.exception.None? ==> r == Failure(NullPointer("exception"))
    ensures r.Success? ==> Some(r.value.context) == b.context && Some(ExceptionOf(r.value)) == b.exception
  {
    if b.context.None? then Failure(NullPointer("interceptorContext"))
    else if b.exception.None? then Failure(NullPointer("exception"))
    else Success(Failed(b.context.value, b.exception.value))
  }

  /** `toBuilder()`: the builder that rebuilds this very context. */
  function ToBuilder(f: Failed): (b: FailedBuilder)
    ensures Build(b) == Success(f)
  {
    FailedBuilder(Some(f.context), Some(f.exception))
  }

  /** Building a builder and copying the result back loses nothing. */
  lemma ToBuilderOfBuild(b: FailedBuilder)
    requires b.context.Some? && b.exception.Some?
    ensures ToBuilder(Build(b).value) == b
  {
  }

  /** `Builder.interceptorContext(...)`. */
  function SetContext(b: FailedBuilder, v: Option<InterceptorContext.Context>): (r: FailedBuilder)
    ensures r.context == v && r.exception == b.exception
  {
    b.(context := v)
  }

  /** `Builder.exception(...)`. */
  function SetException(b: FailedBuilder, v: Option<Exception>): (r: FailedBuilder)
    ensures r.exception == v && r.context == b.context
  {
    b.(exception := v)
  }

  /** The failure context the chain builds for `onExecutionFailure`. */
  function Of(c: InterceptorContext.Context, e: Exception): (f: Failed)
    ensures Request(f) == c.request && ExceptionOf(f) == e
    ensures HttpRequest(f) == c.httpRequest && HttpResponse(f) == c.httpResponse && Response(f) == c.response
  {
    Build(SetException(SetContext(NewBuilder(), Some(c)), Some(e))).value
  }

  /** `request()`: delegated to the wrapped context, so never null. */
  function Request(f: Failed): (r: Message)
    ensures r == f.context.request
  {
    f.context.request
  }

  /** `httpRequest()`: present exactly when the wrapped field is non-null. */
  function HttpRequest(f: Failed): (r: Option<WireRequest>)
    ensures r.Some? <==> f.context.httpRequest.Some?
    ensures r.Some? ==> r.value == f.context.httpRequest.value
  {
    f.context.httpRequest
  }

  /** `httpResponse()`: present exactly when the wrapped field is non-null. */
  function HttpResponse(f: Failed): (r: Option<Message>)
    ensures r.Some? <==> f.context.httpResponse.Some?
    ensures r.Some? ==> r.value == f.context.httpResponse.value
  {
    f.context.httpResponse
  }

  /** `response()`: present exactly when the wrapped field is non-null. */
  function Response(f: Failed): (r: Option<Message>)
    ensures r.Some? <==> f.context.response.Some?
    ensures r.Some? ==> r.value == f.context.response.value
  {
    f.context.response
  }

  /** `exception()`. */
  function ExceptionOf(f: Failed): (r: Exceptions.Exception)
    ensures r == f.exception
  {
    f.exception
  }

  /** A failure over a context that holds only a request reports every
      optional field absent. */
  lemma OnlyRequestAllAbsent(m: Message, e: Exceptions.Exception)
    ensures var f := Of(InterceptorContext.Context(m, None, None, None), e);
            HttpRequest(f).None? && HttpResponse(f).None? && Response(f).None? && Request(f) == m
  {
  }
}
