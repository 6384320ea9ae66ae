/** `ExecutionInterceptor`: a record of thirteen hooks. Each hook is a pure
    function of the context it is shown and of the execution attributes; it
    returns its outcome (a value, null, or a thrown exception) together with
    the attributes as it left them, since `ExecutionAttributes` is a mutable
    bag shared by every hook of one execution. */
module Interceptors {
  import opened Wrappers
  import opened Values
  import opened Checkpoints
  import opened Exceptions
  import InterceptorContext
  import FailedContext

  type Context = InterceptorContext.Context
  type Failed = FailedContext.Failed

  /** What one hook call produced: its outcome and the attributes after it. */
  datatype HookResult<T> = HookResult(outcome: Result<T, Exception>, attrs: Attributes)

  /** The context a read hook is shown: the plain snapshot, or the failure
      context for `onExecutionFailure`. */
  datatype HookArg = Plain(ctx: Context) | Failing(failed: Failed)

  datatype Interceptor = Interceptor(
    beforeExecution: (Context, Attributes) -> HookResult<()>,
    modifyRequest: (Context, Attributes) -> HookResult<Option<Message>>,
    beforeMarshalling: (Context, Attributes) -> HookResult<()>,
    afterMarshalling: (Context, Attributes) -> HookResult<()>,
    modifyHttpRequest: (Context, Attributes) -> HookResult<Option<WireRequest>>,
    beforeTransmission: (Context, Attributes) -> HookResult<()>,
    afterTransmission: (Context, Attributes) -> HookResult<()>,
    modifyHttpResponse: (Context, Attributes) -> HookResult<Option<Message>>,
    beforeUnmarshalling: (Context, Attributes) -> HookResult<()>,
    afterUnmarshalling: (Context, Attributes) -> HookResult<()>,
    modifyResponse: (Context, Attributes) -> HookResult<Option<Message>>,
    afterExecution: (Context, Attributes) -> HookResult<()>,
    onExecutionFailure: (Failed, Attributes) -> HookResult<()>)

  /** A read hook and the kind of context it is shown. */
  predicate Fits(hook: Hook, arg: HookArg)
  {
    !hook.IsModify() && (hook.OnExecutionFailure? <==> arg.Failing?)
  }

  /** Calls the read hook `hook` of `i`. */
  function InvokeRead(i: Interceptor, hook: Hook, arg: HookArg, a: Attributes): HookResult<()>
    requires Fits(hook, arg)
  {
    match hook
    case BeforeExecution => i.beforeExecution(arg.ctx, a)
    case BeforeMarshalling => i.beforeMarshalling(arg.ctx, a)
    case AfterMarshalling => i.afterMarshalling(arg.ctx, a)
    case BeforeTransmission => i.beforeTransmission(arg.ctx, a)
    case AfterTransmission => i.afterTransmission(arg.ctx, a)
    case BeforeUnmarshalling => i.beforeUnmarshalling(arg.ctx, a)
    case AfterUnmarshalling => i.afterUnmarshalling(arg.ctx, a)
    case AfterExecution => i.afterExecution(arg.ctx, a)
    case OnExecutionFailure => i.onExecutionFailure(arg.failed, a)
    case _ => HookResult(Success(()), a)
  }

  /** An interceptor that overrides nothing: every read hook does nothing
      and every modify hook hands back the field it could replace (null
      when that field is null). */
  function DefaultInterceptor(): (i: Interceptor)
    ensures forall hook, arg, a | Fits(hook, arg) :: InvokeRead(i, hook, arg, a) == HookResult(Success(()), a)
    ensures forall c: Context, a :: i.modifyRequest(c, a) == HookResult(Success(Some(c.request)), a)
    ensures forall c: Context, a :: i.modifyHttpRequest(c, a) == HookResult(Success(c.httpRequest), a)
    ensures forall c: Context, a :: i.modifyHttpResponse(c, a) == HookResult(Success(c.httpResponse), a)
    ensures forall c: Context, a :: i.modifyResponse(c, a) == HookResult(Success(c.response), a)
  {
    Interceptor(
      (c, a) => HookResult(Success(()), a),
      (c: Context, a) => HookResult(Success(Some(c.request)), a),
      (c, a) => HookResult(Success(()), a),
      (c, a) => HookResult(Success(()), a),
      (c: Context, a) => HookResult(Success(c.httpRequest), a),
      (c, a) => HookResult(Success(()), a),
      (c, a) => HookResult(Success(()), a),
      (c: Context, a) => HookResult(Success(c.httpResponse), a),
      (c, a) => HookResult(Success(()), a),
      (c, a) => HookResult(Success(()), a),
      (c: Context, a) => HookResult(Success(c.response), a),
      (c, a) => HookResult(Success(()), a),
      (f, a) => HookResult(Success(()), a))
  }

  /** `n` interceptors that override nothing. */
  function Defaults(n: nat): (ics: seq<Interceptor>)
    ensures |ics| == n
    ensures forall k :: 0 <= k < n ==> ics[k] == DefaultInterceptor()
  {
    seq(n, _ => DefaultInterceptor())
  }
}
