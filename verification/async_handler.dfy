/** `AsyncClientHandlerImpl.execute`: the caller-thread half of an
    asynchronous call (the interceptor checkpoints up to `modifyHttpRequest`,
    marshalling and the metrics timers) and the continuation that runs when
    the HTTP layer's future completes. */
module AsyncHandler {
  import opened Wrappers
  import opened Values
  import HttpRequest
  import Checkpoints
  import opened Exceptions
  import opened Interceptors
  import opened Events
  import InterceptorContext
  import FailedContext
  import Chain
  import opened HandlerTrace

  /** What `execute` uses without defining it: the operation's marshaller,
      `SdkHttpFullRequestAdapter.toHttpFullRequest`, the configured endpoint,
      and `Throwables.failure`. */
  datatype Collaborators = Collaborators(
    marshal: Message -> Result<MarshalledRequest, Exception>,
    toHttpFullRequest: MarshalledRequest -> WireRequest,
    endpoint: HttpRequest.Uri,
    failure: Exception -> Exception)

  /** How the HTTP layer's future completed: with a response or an error,
      and the interceptor context and attributes it left in the shared
      execution context. */
  datatype Completion = Completion(result: Result<Message, Exception>, context: Context, attrs: Attributes)

  /** The HTTP layer: given the wire request, the interceptor context and
      the attributes, how its future completes. */
  type Transport = (WireRequest, Context, Attributes) -> Completion

  /** What the caller sees: an exception thrown by `execute` itself, or the
      returned future completing normally or exceptionally. An exception
      thrown inside the `handle` callback completes the future with a
      `CompletionException` whose cause is that exception;
      `CompletedExceptionally(error)` names the cause, `error`, and leaves
      the wrapper implicit. */
  datatype Outcome = Thrown(error: Exception) | Completed(response: Message) | CompletedExceptionally(error: Exception)

  datatype Execution = Execution(outcome: Outcome, attrs: Attributes, trace: seq<Event>)

  /** The interceptor context of a fresh execution: only the request is
      known. */
  function Initial(input: Message): (c: Context)
    ensures c.request == input && c.httpRequest.None? && c.httpResponse.None? && c.response.None?
  {
    InterceptorContext.Context(input, None, None, None)
  }

  // ---------------------------------------------------------------------
  // The checkpoints the handler runs, as trace segments

  lemma BeforeExecutionSegment(c: Chain.Chain, ctx: Context, attrs: Attributes)
    ensures var r := Chain.BeforeExecution(c, ctx, attrs);
      && Segment(r.trace, BEFORE_EXECUTION, Plain(ctx))
      && (r.outcome.Success? ==> |r.trace| == |c.interceptors|)
  {
    var r := Chain.BeforeExecution(c, ctx, attrs);
    ObservedCalls(c.interceptors, Chain.Forward(|c.interceptors|), Checkpoints.BeforeExecution, Plain(ctx), attrs, r, true);
  }

  lemma ModifyRequestSegment(c: Chain.Chain, ctx: Context, attrs: Attributes)
    ensures var r := Chain.ModifyRequest(c, ctx, attrs);
      && Segment(r.trace, MODIFY_REQUEST, Plain(ctx))
      && (r.outcome.Success? ==> |r.trace| == |c.interceptors|)
  {
    var r := Chain.ModifyRequest(c, ctx, attrs);
    ModifiedCalls(Chain.RequestSlot, c.interceptors, Chain.Forward(|c.interceptors|), ctx, attrs, ctx, r, true);
  }

  lemma BeforeMarshallingSegment(c: Chain.Chain, ctx: Context, attrs: Attributes)
    ensures var r := Chain.BeforeMarshalling(c, ctx, attrs);
      && Segment(r.trace, BEFORE_MARSHALLING, Plain(ctx))
      && (r.outcome.Success? ==> |r.trace| == |c.interceptors|)
  {
    var r := Chain.BeforeMarshalling(c, ctx, attrs);
    ObservedCalls(c.interceptors, Chain.Forward(|c.interceptors|), Checkpoints.BeforeMarshalling, Plain(ctx), attrs, r, true);
  }

  lemma AfterMarshallingSegment(c: Chain.Chain, ctx: Context, attrs: Attributes)
    ensures var r := Chain.AfterMarshalling(c, ctx, attrs);
      && Segment(r.trace, AFTER_MARSHALLING, Plain(ctx))
      && (r.outcome.Success? ==> |r.trace| == |c.interceptors|)
      && (|r.trace| > 0 ==> Chain.AttrsIn(r.trace[0]) == attrs)
  {
    var r := Chain.AfterMarshalling(c, ctx, attrs);
    ObservedCalls(c.interceptors, Chain.Forward(|c.interceptors|), Checkpoints.AfterMarshalling, Plain(ctx), attrs, r, true);
  }

  lemma ModifyHttpRequestSegment(c: Chain.Chain, ctx: Context, attrs: Attributes)
    ensures var r := Chain.ModifyHttpRequest(c, ctx, attrs);
      && Segment(r.trace, MODIFY_HTTP_REQUEST, Plain(ctx))
      && (r.outcome.Success? ==> |r.trace| == |c.interceptors|)
  {
    var r := Chain.ModifyHttpRequest(c, ctx, attrs);
    ModifiedCalls(Chain.HttpRequestSlot, c.interceptors, Chain.Forward(|c.interceptors|), ctx, attrs, ctx, r, true);
  }

  lemma AfterExecutionSegment(c: Chain.Chain, ctx: Context, attrs: Attributes)
    ensures var r := Chain.AfterExecution(c, ctx, attrs);
      && Segment(r.trace, AFTER_EXECUTION, Plain(ctx))
      && (r.outcome.Success? ==> |r.trace| == |c.interceptors|)
  {
    var r := Chain.AfterExecution(c, ctx, attrs);
    ObservedCalls(c.interceptors, Chain.Reverse(|c.interceptors|), Checkpoints.AfterExecution, Plain(ctx), attrs, r, true);
  }

  lemma OnExecutionFailureSegment(c: Chain.Chain, f: Failed, attrs: Attributes)
    ensures var r := Chain.OnExecutionFailure(c, f, attrs);
      && Segment(r.trace, ON_FAILURE, Failing(f))
      && (r.outcome.Success? ==> |r.trace| == |c.interceptors|)
      && (|c.interceptors| > 0 ==> |r.trace| > 0)
  {
    var r := Chain.OnExecutionFailure(c, f, attrs);
    ObservedCalls(c.interceptors, Chain.Forward(|c.interceptors|), Checkpoints.OnExecutionFailure, Failing(f), attrs, r, true);
  }

  // ---------------------------------------------------------------------
  // Caller thread, before the timers start (lines 73-75)

  /** `beforeExecution`, then `modifyRequest`, both on the initial
      context. */
  function Prepare(c: Chain.Chain, input: Message, attrs: Attributes): Run<Context>
  {
    var be := Chain.BeforeExecution(c, Initial(input), attrs);
    if be.outcome.Failure? then Run(Failure(be.outcome.error), be.attrs, be.trace)
    else
      var mr := Chain.ModifyRequest(c, Initial(input), be.attrs);
      Run(mr.outcome, mr.attrs, be.trace + mr.trace)
  }

  /** Both checkpoints see the caller's request untouched, `modifyRequest`
      runs only once `beforeExecution` has passed, on success every
      interceptor had both hooks called once, and the request handed on is
      the one `modifyRequest` produced. */
  lemma PrepareShape(c: Chain.Chain, input: Message, attrs: Attributes)
    ensures var r := Prepare(c, input, attrs);
      && Ordered(r.trace, BEFORE_EXECUTION, MODIFY_REQUEST)
      && ShownIn(r.trace, BEFORE_EXECUTION, Plain(Initial(input)))
      && ShownIn(r.trace, MODIFY_REQUEST, Plain(Initial(input)))
      && (InPhase(r.trace, MODIFY_REQUEST) != [] ==> Chain.BeforeExecution(c, Initial(input), attrs).outcome.Success?)
      && (r.outcome.Success? ==>
            && |InPhase(r.trace, BEFORE_EXECUTION)| == |c.interceptors|
            && |InPhase(r.trace, MODIFY_REQUEST)| == |c.interceptors|
            && r.outcome == Chain.ModifyRequest(c, Initial(input), Chain.BeforeExecution(c, Initial(input), attrs).attrs).outcome)
  {
    var ctx := Initial(input);
    var be := Chain.BeforeExecution(c, ctx, attrs);
    BeforeExecutionSegment(c, ctx, attrs);
    SegmentFacts(be.trace, BEFORE_EXECUTION, Plain(ctx));
    if be.outcome.Success? {
      var mr := Chain.ModifyRequest(c, ctx, be.attrs);
      ModifyRequestSegment(c, ctx, be.attrs);
      TwoSegments(be.trace, mr.trace, BEFORE_EXECUTION, MODIFY_REQUEST, Plain(ctx), Plain(ctx));
    }
  }

  /** Two consecutive segments, the first of an earlier phase. */
  lemma TwoSegments(a: seq<Event>, b: seq<Event>, p: nat, q: nat, argA: HookArg, argB: HookArg)
    requires p < q && Segment(a, p, argA) && Segment(b, q, argB)
    ensures Ordered(a + b, p, q) && ShownIn(a + b, p, argA) && ShownIn(a + b, q, argB)
    ensures InPhase(a + b, p) == a && InPhase(a + b, q) == b
  {
    SegmentFacts(a, p, argA);
    SegmentFacts(b, q, argB);
    InPhaseAppend(a, b);
    OrderedAppend(a, b, p, p, q);
    ShownAppend(a, b, p, argA);
    ShownAppend(a, b, q, argB);
  }

  // ---------------------------------------------------------------------
  // Caller thread, marshalling (lines 77-95)

  /** What the marshalling block records after `beforeMarshalling`: the
      marshaller's input if it was reached, `endClientExecution(null, null)`
      if an `Exception` escaped (the `catch`), and always the end of the
      marshalling timer (the `finally`). */
  function MarshalTail(marshalled: Option<Message>, aborted: bool): seq<Event>
  {
    (if marshalled.Some? then [Marshalled(marshalled.value)] else [])
      + (if aborted then [ClientExecutionEnded(None, None)] else [])
      + [Ended(RequestMarshallTime)]
  }

  /** The `try` block around `beforeMarshalling` and the marshaller, with
      its `catch` and `finally`. */
  function MarshalStage(c: Chain.Chain, ctx: Context, attrs: Attributes, co: Collaborators): Run<MarshalledRequest>
  {
    var bm := Chain.BeforeMarshalling(c, ctx, attrs);
    if bm.outcome.Failure? then
      Run(Failure(bm.outcome.error), bm.attrs, bm.trace + MarshalTail(None, IsRuntime(bm.outcome.error)))
    else
      match co.marshal(ctx.request)
      case Failure(e) => Run(Failure(e), bm.attrs, bm.trace + MarshalTail(Some(ctx.request), IsRuntime(e)))
      case Success(m) =>
        var request := m.(endpoint := Some(co.endpoint));
        Run(Success(request), bm.attrs[SERVICE_NAME := Text(request.serviceName)],
            bm.trace + MarshalTail(Some(ctx.request), false))
  }

  lemma MarshalTailOrdered(marshalled: Option<Message>, aborted: bool)
    ensures var t := MarshalTail(marshalled, aborted);
      Ordered(t, MARSHAL, MARSHALL_TIMER_END) && t[|t| - 1] == Ended(RequestMarshallTime)
  {
    var a: seq<Event> := if marshalled.Some? then [Marshalled(marshalled.value)] else [];
    var b: seq<Event> := if aborted then [ClientExecutionEnded(None, None)] else [];
    OrderedAppend(a, b, MARSHAL, MARSHAL, MARSHAL_ABORTED);
    OrderedAppend(a + b, [Ended(RequestMarshallTime)], MARSHAL, MARSHAL_ABORTED, MARSHALL_TIMER_END);
  }

  lemma MarshalTailAt(marshalled: Option<Message>, aborted: bool, p: nat)
    ensures InPhase(MarshalTail(marshalled, aborted), p) ==
              if p == MARSHAL then (if marshalled.Some? then [Marshalled(marshalled.value)] else [])
              else if p == MARSHAL_ABORTED then (if aborted then [ClientExecutionEnded(None, None)] else [])
              else if p == MARSHALL_TIMER_END then [Ended(RequestMarshallTime)]
              else []
  {
    var a: seq<Event> := if marshalled.Some? then [Marshalled(marshalled.value)] else [];
    var b: seq<Event> := if aborted then [ClientExecutionEnded(None, None)] else [];
    var e: seq<Event> := [Ended(RequestMarshallTime)];
    InPhaseThree(a, b, e, p);
    assert InPhase(a, p) == (if p == MARSHAL then a else []);
    assert InPhase(b, p) == (if p == MARSHAL_ABORTED then b else []);
    assert InPhase(e, p) == (if p == MARSHALL_TIMER_END then e else []);
  }

  /** The marshalling block is ordered, shows `beforeMarshalling` the
      context and always ends with the end of its timer. */
  lemma MarshalStageOrder(c: Chain.Chain, ctx: Context, attrs: Attributes, co: Collaborators)
    ensures var r := MarshalStage(c, ctx, attrs, co);
      && Ordered(r.trace, BEFORE_MARSHALLING, MARSHALL_TIMER_END)
      && ShownIn(r.trace, BEFORE_MARSHALLING, Plain(ctx))
      && r.trace[|r.trace| - 1] == Ended(RequestMarshallTime)
  {
    var bm := Chain.BeforeMarshalling(c, ctx, attrs);
    BeforeMarshallingSegment(c, ctx, attrs);
    var marshalled := if bm.outcome.Success? then Some(ctx.request) else None;
    var r := MarshalStage(c, ctx, attrs, co);
    var aborted := r.outcome.Failure? && IsRuntime(r.outcome.error);
    assert r.trace == bm.trace + MarshalTail(marshalled, aborted);
    MarshalTailOrdered(marshalled, aborted);
    SegmentThen(bm.trace, BEFORE_MARSHALLING, Plain(ctx), MarshalTail(marshalled, aborted), MARSHAL, MARSHALL_TIMER_END);
  }

  /** The marshaller is shown the context's request exactly when
      `beforeMarshalling` passed; `endClientExecution(null, null)` is
      recorded exactly when an `Exception` escapes the block; the timer
      ends exactly once. */
  lemma MarshalStageAt(c: Chain.Chain, ctx: Context, attrs: Attributes, co: Collaborators, p: nat)
    ensures var r := MarshalStage(c, ctx, attrs, co);
      var bm := Chain.BeforeMarshalling(c, ctx, attrs);
      InPhase(r.trace, p) ==
        if p == BEFORE_MARSHALLING then bm.trace
        else if p == MARSHAL then (if bm.outcome.Success? then [Marshalled(ctx.request)] else [])
        else if p == MARSHAL_ABORTED then
          (if r.outcome.Failure? && IsRuntime(r.outcome.error) then [ClientExecutionEnded(None, None)] else [])
        else if p == MARSHALL_TIMER_END then [Ended(RequestMarshallTime)]
        else []
  {
    var bm := Chain.BeforeMarshalling(c, ctx, attrs);
    BeforeMarshallingSegment(c, ctx, attrs);
    var marshalled := if bm.outcome.Success? then Some(ctx.request) else None;
    var r := MarshalStage(c, ctx, attrs, co);
    var aborted := r.outcome.Failure? && IsRuntime(r.outcome.error);
    assert r.trace == bm.trace + MarshalTail(marshalled, aborted);
    SegmentFacts(bm.trace, BEFORE_MARSHALLING, Plain(ctx));
    InPhaseAppend(bm.trace, MarshalTail(marshalled, aborted));
    MarshalTailAt(marshalled, aborted, p);
  }

  /** An exception from `beforeMarshalling` or from the marshaller is
      rethrown as it is; on success the request carries the configured
      endpoint and its service name is recorded under `SERVICE_NAME`, the
      other attributes being those `beforeMarshalling` left. */
  lemma MarshalStageResult(c: Chain.Chain, ctx: Context, attrs: Attributes, co: Collaborators)
    ensures var r := MarshalStage(c, ctx, attrs, co);
      var bm := Chain.BeforeMarshalling(c, ctx, attrs);
      && (bm.outcome.Failure? ==> r.outcome == Failure(bm.outcome.error))
      && (bm.outcome.Success? && co.marshal(ctx.request).Failure? ==> r.outcome == Failure(co.marshal(ctx.request).error))
      && (r.outcome.Success? <==> bm.outcome.Success? && co.marshal(ctx.request).Success?)
      && (r.outcome.Success? ==>
            && r.outcome.value.endpoint == Some(co.endpoint)
            && r.outcome.value.serviceName == co.marshal(ctx.request).value.serviceName
            && r.outcome.value.id == co.marshal(ctx.request).value.id
            && r.attrs == bm.attrs[SERVICE_NAME := Text(r.outcome.value.serviceName)])
  {
  }

  // ---------------------------------------------------------------------
  // Caller thread, after marshalling (lines 97-99)

  /** `afterMarshalling`, then `modifyHttpRequest`, on the context holding
      the adapted HTTP request. */
  function SendStage(c: Chain.Chain, ctx: Context, attrs: Attributes): (r: Run<Context>)
    ensures r.outcome.Success? && ctx.httpRequest.Some? ==> r.outcome.value.httpRequest.Some?
  {
    var am := Chain.AfterMarshalling(c, ctx, attrs);
    if am.outcome.Failure? then Run(Failure(am.outcome.error), am.attrs, am.trace)
    else
      var mh := Chain.ModifyHttpRequest(c, ctx, am.attrs);
      Run(mh.outcome, mh.attrs, am.trace + mh.trace)
  }

  /** Both checkpoints see the same context; the first call sees the
      attributes the stage started with. */
  lemma SendStageShape(c: Chain.Chain, ctx: Context, attrs: Attributes)
    ensures var r := SendStage(c, ctx, attrs);
      && Ordered(r.trace, AFTER_MARSHALLING, MODIFY_HTTP_REQUEST)
      && ShownIn(r.trace, AFTER_MARSHALLING, Plain(ctx))
      && ShownIn(r.trace, MODIFY_HTTP_REQUEST, Plain(ctx))
      && (|r.trace| > 0 ==> Phase(r.trace[0]) == AFTER_MARSHALLING && Chain.AttrsIn(r.trace[0]) == attrs)
      && (r.outcome.Success? ==>
            && |InPhase(r.trace, AFTER_MARSHALLING)| == |c.interceptors|
            && |InPhase(r.trace, MODIFY_HTTP_REQUEST)| == |c.interceptors|)
  {
    var am := Chain.AfterMarshalling(c, ctx, attrs);
    AfterMarshallingSegment(c, ctx, attrs);
    SegmentFacts(am.trace, AFTER_MARSHALLING, Plain(ctx));
    if am.outcome.Success? {
      var mh := Chain.ModifyHttpRequest(c, ctx, am.attrs);
      ModifyHttpRequestSegment(c, ctx, am.attrs);
      TwoSegments(am.trace, mh.trace, AFTER_MARSHALLING, MODIFY_HTTP_REQUEST, Plain(ctx), Plain(ctx));
      if |am.trace| > 0 {
        assert (am.trace + mh.trace)[0] == am.trace[0];
      }
    }
  }

  // ---------------------------------------------------------------------
  // The continuation (lines 120-133)

  /** The `try` block of the continuation: an error from the HTTP layer is
      rethrown through `Throwables.failure`; otherwise `afterExecution`
      runs and the response is returned. */
  function TryBlock(c: Chain.Chain, done: Completion, failure: Exception -> Exception): Run<Message>
  {
    match done.result
    case Failure(err) => Run(Failure(failure(err)), done.attrs, [])
    case Success(resp) =>
      var ae := Chain.AfterExecution(c, done.context, done.attrs);
      Run(if ae.outcome.Success? then Success(resp) else Failure(ae.outcome.error), ae.attrs, ae.trace)
  }

  /** The continuation: the `try` block, the `catch` that runs
      `onExecutionFailure` on an `Exception` and rethrows, and the
      `finally` that ends the client execution. */
  function Handle(c: Chain.Chain, request: MarshalledRequest, done: Completion, failure: Exception -> Exception): Execution
  {
    var t := TryBlock(c, done, failure);
    var end := ClientExecutionEnded(Some(request), if done.result.Success? then Some(done.result.value) else None);
    match t.outcome
    case Success(resp) => Execution(Completed(resp), t.attrs, t.trace + [end])
    case Failure(e) =>
      if !IsRuntime(e) then Execution(CompletedExceptionally(e), t.attrs, t.trace + [end])
      else
        var of := Chain.OnExecutionFailure(c, FailedContext.Of(done.context, e), t.attrs);
        var thrown := if of.outcome.Failure? then of.outcome.error else e;
        Execution(CompletedExceptionally(thrown), of.attrs, t.trace + of.trace + [end])
  }

  /** An error from the HTTP layer skips `afterExecution`; a response is
      returned unchanged when `afterExecution` passes, and otherwise its
      exception is what the block throws. */
  lemma TryBlockShape(c: Chain.Chain, done: Completion, failure: Exception -> Exception)
    ensures var t := TryBlock(c, done, failure);
      && Segment(t.trace, AFTER_EXECUTION, Plain(done.context))
      && (done.result.Failure? ==> t.trace == [] && t.outcome == Failure(failure(done.result.error)))
      && (done.result.Success? ==>
            var ae := Chain.AfterExecution(c, done.context, done.attrs);
            && (t.outcome.Success? <==> ae.outcome.Success?)
            && (t.outcome.Success? ==> t.outcome.value == done.result.value && |t.trace| == |c.interceptors|)
            && (t.outcome.Failure? ==> t.outcome.error == ae.outcome.error))
  {
    if done.result.Success? {
      AfterExecutionSegment(c, done.context, done.attrs);
    }
  }

  /** The shape of a continuation trace: the `try` block's calls, the
      failure hooks' calls if an exception was caught, and the end event. */
  function ContinuationTrace(t: seq<Event>, hooks: Option<seq<Event>>, end: Event): seq<Event>
  {
    if hooks.Some? then t + hooks.value + [end] else t + [end]
  }

  lemma ContinuationTraceShape(t: seq<Event>, hooks: Option<seq<Event>>, end: Event, p: nat)
    requires Phased(t, AFTER_EXECUTION)
    requires hooks.Some? ==> Phased(hooks.value, ON_FAILURE)
    requires Phase(end) == CLIENT_EXECUTION_END
    ensures var h := ContinuationTrace(t, hooks, end);
      && Ordered(h, AFTER_EXECUTION, CLIENT_EXECUTION_END)
      && h[|h| - 1] == end
      && InPhase(h, p) ==
           if p == AFTER_EXECUTION then t
           else if p == ON_FAILURE then (if hooks.Some? then hooks.value else [])
           else if p == CLIENT_EXECUTION_END then [end]
           else []
  {
    assert Ordered([end], CLIENT_EXECUTION_END, CLIENT_EXECUTION_END);
    InPhaseSingle(end);
    if hooks.Some? {
      var of := hooks.value;
      PhasedThen(of, ON_FAILURE, [end], CLIENT_EXECUTION_END, CLIENT_EXECUTION_END);
      PhasedThen(t, AFTER_EXECUTION, of + [end], ON_FAILURE, CLIENT_EXECUTION_END);
      assert t + of + [end] == t + (of + [end]);
    } else {
      PhasedThen(t, AFTER_EXECUTION, [end], CLIENT_EXECUTION_END, CLIENT_EXECUTION_END);
    }
  }

  /** The exception the continuation's `catch` block receives, if any. */
  function Caught(c: Chain.Chain, done: Completion, failure: Exception -> Exception): Option<Exception>
  {
    var t := TryBlock(c, done, failure);
    if t.outcome.Failure? && IsRuntime(t.outcome.error) then Some(t.outcome.error) else None
  }

  /** The `onExecutionFailure` checkpoint the `catch` block runs for `e`. */
  function FailureHooks(c: Chain.Chain, done: Completion, failure: Exception -> Exception, e: Exception): Run<()>
  {
    Chain.OnExecutionFailure(c, FailedContext.Of(done.context, e), TryBlock(c, done, failure).attrs)
  }

  /** The failure hooks' calls, when the `catch` block ran them. */
  function FailureHooksOf(c: Chain.Chain, done: Completion, failure: Exception -> Exception): Option<seq<Event>>
  {
    var caught := Caught(c, done, failure);
    if caught.Some? then Some(FailureHooks(c, done, failure, caught.value).trace) else None
  }

  /** The `endClientExecution` event of the `finally` block: the
      marshalled request, and the response (null on an HTTP-layer
      error). */
  function EndOf(request: MarshalledRequest, done: Completion): Event
  {
    ClientExecutionEnded(Some(request), if done.result.Success? then Some(done.result.value) else None)
  }

  lemma HandleTrace(c: Chain.Chain, request: MarshalledRequest, done: Completion, failure: Exception -> Exception)
    ensures Handle(c, request, done, failure).trace
              == ContinuationTrace(TryBlock(c, done, failure).trace, FailureHooksOf(c, done, failure), EndOf(request, done))
    ensures !Handle(c, request, done, failure).outcome.Thrown?
  {
  }

  lemma HooksPhased(c: Chain.Chain, done: Completion, failure: Exception -> Exception)
    ensures Phased(TryBlock(c, done, failure).trace, AFTER_EXECUTION)
    ensures var hooks := FailureHooksOf(c, done, failure);
      hooks.Some? ==> Phased(hooks.value, ON_FAILURE)
  {
    TryBlockShape(c, done, failure);
    var caught := Caught(c, done, failure);
    if caught.Some? {
      OnExecutionFailureSegment(c, FailedContext.Of(done.context, caught.value), TryBlock(c, done, failure).attrs);
    }
  }

  /** The continuation records the `try` block's `afterExecution` calls,
      then the failure hooks exactly when an `Exception` was caught, then
      exactly one `endClientExecution`, which is its last event; the future
      never fails synchronously. */
  lemma HandleShape(c: Chain.Chain, request: MarshalledRequest, done: Completion, failure: Exception -> Exception, p: nat)
    ensures var h := Handle(c, request, done, failure);
      var hooks := FailureHooksOf(c, done, failure);
      && !h.outcome.Thrown?
      && Ordered(h.trace, AFTER_EXECUTION, CLIENT_EXECUTION_END)
      && h.trace[|h.trace| - 1] == EndOf(request, done)
      && InPhase(h.trace, p) ==
           if p == AFTER_EXECUTION then TryBlock(c, done, failure).trace
           else if p == ON_FAILURE then (if hooks.Some? then hooks.value else [])
           else if p == CLIENT_EXECUTION_END then [EndOf(request, done)]
           else []
  {
    HandleTrace(c, request, done, failure);
    HooksPhased(c, done, failure);
    ContinuationTraceShape(TryBlock(c, done, failure).trace, FailureHooksOf(c, done, failure), EndOf(request, done), p);
  }

  /** What the continuation's future completes with. A response that
      passed `afterExecution` is returned unchanged. An `Exception` caught
      in the `try` block is shown, with the current context, to every
      interceptor's `onExecutionFailure` and is rethrown, unless a failure
      hook throws, whose exception then replaces it. An `Error` skips the
      failure hooks and is rethrown. */
  lemma HandleOutcome(c: Chain.Chain, request: MarshalledRequest, done: Completion, failure: Exception -> Exception)
    ensures var h := Handle(c, request, done, failure);
      var t := TryBlock(c, done, failure);
      && (t.outcome.Success? ==> h.outcome == Completed(done.result.value))
      && (t.outcome.Failure? && !IsRuntime(t.outcome.error) ==> h.outcome == CompletedExceptionally(t.outcome.error))
      && (t.outcome.Failure? && IsRuntime(t.outcome.error) ==>
            var of := FailureHooks(c, done, failure, t.outcome.error);
            && Segment(of.trace, ON_FAILURE, Failing(FailedContext.Of(done.context, t.outcome.error)))
            && (|c.interceptors| > 0 ==> of.trace != [])
            && (of.outcome.Success? ==>
                  h.outcome == CompletedExceptionally(t.outcome.error) && |of.trace| == |c.interceptors|)
            && (of.outcome.Failure? ==> h.outcome == CompletedExceptionally(of.outcome.error)))
  {
    TryBlockShape(c, done, failure);
    var t := TryBlock(c, done, failure);
    if t.outcome.Failure? && IsRuntime(t.outcome.error) {
      OnExecutionFailureSegment(c, FailedContext.Of(done.context, t.outcome.error), t.attrs);
    }
  }

  // ---------------------------------------------------------------------
  // The whole call (lines 73-133)

  /** The two timers `execute` starts before marshalling. */
  const TIMERS: seq<Event> := [Started(ClientExecuteTime), Started(RequestMarshallTime)]

  /** The marshalling block as `execute` runs it, once preparation has
      passed. */
  function Marshalling(c: Chain.Chain, input: Message, attrs: Attributes, co: Collaborators): Run<MarshalledRequest>
    requires Prepare(c, input, attrs).outcome.Success?
  {
    var p := Prepare(c, input, attrs);
    MarshalStage(c, p.outcome.value, p.attrs, co)
  }

  /** The context `afterMarshalling` sees: the prepared one, now holding the
      HTTP request adapted from the marshalled one (`addHttpRequest`). */
  function Adapted(c: Chain.Chain, input: Message, attrs: Attributes, co: Collaborators): (r: Context)
    requires Prepare(c, input, attrs).outcome.Success?
    requires Marshalling(c, input, attrs, co).outcome.Success?
    ensures r.request == Prepare(c, input, attrs).outcome.value.request
    ensures r.httpRequest == Some(co.toHttpFullRequest(Marshalling(c, input, attrs, co).outcome.value))
  {
    InterceptorContext.ReplaceHttpRequest(Prepare(c, input, attrs).outcome.value,
                                          co.toHttpFullRequest(Marshalling(c, input, attrs, co).outcome.value))
  }

  /** The send stage as `execute` runs it. */
  function Sending(c: Chain.Chain, input: Message, attrs: Attributes, co: Collaborators): Run<Context>
    requires Prepare(c, input, attrs).outcome.Success?
    requires Marshalling(c, input, attrs, co).outcome.Success?
  {
    SendStage(c, Adapted(c, input, attrs, co), Marshalling(c, input, attrs, co).attrs)
  }

  /** The HTTP request handed to the transport. */
  function Wire(c: Chain.Chain, input: Message, attrs: Attributes, co: Collaborators): WireRequest
    requires Prepare(c, input, attrs).outcome.Success?
    requires Marshalling(c, input, attrs, co).outcome.Success?
    requires Sending(c, input, attrs, co).outcome.Success?
  {
    Sending(c, input, attrs, co).outcome.value.httpRequest.value
  }

  /** The continuation, run on whatever the transport completes with. */
  function Continuing(c: Chain.Chain, input: Message, attrs: Attributes, co: Collaborators, transport: Transport): Execution
    requires Prepare(c, input, attrs).outcome.Success?
    requires Marshalling(c, input, attrs, co).outcome.Success?
    requires Sending(c, input, attrs, co).outcome.Success?
  {
    Handle(c, Marshalling(c, input, attrs, co).outcome.value, Done(c, input, attrs, co, transport), co.failure)
  }

  /** What the transport completes with, given the HTTP request, the
      context and the attributes the send stage left. */
  function Done(c: Chain.Chain, input: Message, attrs: Attributes, co: Collaborators, transport: Transport): Completion
    requires Prepare(c, input, attrs).outcome.Success?
    requires Marshalling(c, input, attrs, co).outcome.Success?
    requires Sending(c, input, attrs, co).outcome.Success?
  {
    var s := Sending(c, input, attrs, co);
    transport(Wire(c, input, attrs, co), s.outcome.value, s.attrs)
  }

  /** `execute`: the caller-thread stages in turn, each of whose exceptions
      escapes `execute` itself, then the transport and the continuation. */
  function Execute(c: Chain.Chain, input: Message, attrs: Attributes, co: Collaborators, transport: Transport): Execution
  {
    var p := Prepare(c, input, attrs);
    if p.outcome.Failure? then Execution(Thrown(p.outcome.error), p.attrs, p.trace)
    else
      var m := Marshalling(c, input, attrs, co);
      if m.outcome.Failure? then Execution(Thrown(m.outcome.error), m.attrs, p.trace + TIMERS + m.trace)
      else
        var s := Sending(c, input, attrs, co);
        if s.outcome.Failure? then Execution(Thrown(s.outcome.error), s.attrs, p.trace + TIMERS + m.trace + s.trace)
        else
          var h := Continuing(c, input, attrs, co, transport);
          Execution(h.outcome, h.attrs, p.trace + TIMERS + m.trace + s.trace + ([Transmitted(Wire(c, input, attrs, co))] + h.trace))
  }

  /** How far an execution got: the stage traces it recorded, each present
      only if the stage was reached. */
  function Assemble(pre: seq<Event>, marshal: Option<seq<Event>>, send: Option<seq<Event>>, rest: Option<seq<Event>>): seq<Event>
  {
    if marshal.None? then pre
    else if send.None? then pre + TIMERS + marshal.value
    else if rest.None? then pre + TIMERS + marshal.value + send.value
    else pre + TIMERS + marshal.value + send.value + rest.value
  }

  predicate AssemblyOk(pre: seq<Event>, marshal: Option<seq<Event>>, send: Option<seq<Event>>, rest: Option<seq<Event>>)
  {
    && Ordered(pre, BEFORE_EXECUTION, MODIFY_REQUEST)
    && (marshal.Some? ==> Ordered(marshal.value, BEFORE_MARSHALLING, MARSHALL_TIMER_END))
    && (send.Some? ==> marshal.Some? && Ordered(send.value, AFTER_MARSHALLING, MODIFY_HTTP_REQUEST))
    && (rest.Some? ==> send.Some? && Ordered(rest.value, TRANSMIT, CLIENT_EXECUTION_END))
  }

  lemma AssembleOrdered(pre: seq<Event>, marshal: Option<seq<Event>>, send: Option<seq<Event>>, rest: Option<seq<Event>>)
    requires AssemblyOk(pre, marshal, send, rest)
    ensures Ordered(Assemble(pre, marshal, send, rest), BEFORE_EXECUTION, CLIENT_EXECUTION_END)
  {
    if marshal.Some? {
      assert Ordered(TIMERS, CLIENT_TIMER_START, MARSHALL_TIMER_START);
      OrderedAppend(pre, TIMERS, BEFORE_EXECUTION, MODIFY_REQUEST, MARSHALL_TIMER_START);
      var a := pre + TIMERS + marshal.value;
      OrderedAppend(pre + TIMERS, marshal.value, BEFORE_EXECUTION, MARSHALL_TIMER_START, MARSHALL_TIMER_END);
      if send.Some? {
        var b := a + send.value;
        OrderedAppend(a, send.value, BEFORE_EXECUTION, MARSHALL_TIMER_END, MODIFY_HTTP_REQUEST);
        if rest.Some? {
          OrderedAppend(b, rest.value, BEFORE_EXECUTION, MODIFY_HTTP_REQUEST, CLIENT_EXECUTION_END);
        } else {
          assert Ordered(b, BEFORE_EXECUTION, CLIENT_EXECUTION_END);
        }
      } else {
        assert Ordered(a, BEFORE_EXECUTION, CLIENT_EXECUTION_END);
      }
    } else {
      assert Ordered(pre, BEFORE_EXECUTION, CLIENT_EXECUTION_END);
    }
  }

  /** Which stage recorded the events of each phase. */
  lemma AssembleAt(pre: seq<Event>, marshal: Option<seq<Event>>, send: Option<seq<Event>>, rest: Option<seq<Event>>, q: nat)
    requires AssemblyOk(pre, marshal, send, rest)
    ensures InPhase(Assemble(pre, marshal, send, rest), q) ==
      if q <= MODIFY_REQUEST then InPhase(pre, q)
      else if marshal.None? then []
      else if q <= MARSHALL_TIMER_START then InPhase(TIMERS, q)
      else if q <= MARSHALL_TIMER_END then InPhase(marshal.value, q)
      else if send.None? then []
      else if q <= MODIFY_HTTP_REQUEST then InPhase(send.value, q)
      else if rest.None? then []
      else InPhase(rest.value, q)
  {
    InPhaseOutside(pre, BEFORE_EXECUTION, MODIFY_REQUEST);
    if marshal.Some? {
      var a := Upto(pre, marshal.value, q);
      if send.Some? {
        var b := Beyond(a, send.value, rest, q);
      } else {
        InPhaseOutside(marshal.value, BEFORE_MARSHALLING, MARSHALL_TIMER_END);
      }
    }
  }

  /** The trace from the sending stage on. */
  lemma Beyond(a: seq<Event>, send: seq<Event>, rest: Option<seq<Event>>, q: nat) returns (b: seq<Event>)
    requires Ordered(a, BEFORE_EXECUTION, MARSHALL_TIMER_END)
    requires Ordered(send, AFTER_MARSHALLING, MODIFY_HTTP_REQUEST)
    requires rest.Some? ==> Ordered(rest.value, TRANSMIT, CLIENT_EXECUTION_END)
    ensures b == if rest.Some? then a + send + rest.value else a + send
    ensures InPhase(b, q) ==
      if q <= MARSHALL_TIMER_END then InPhase(a, q)
      else if q <= MODIFY_HTTP_REQUEST then InPhase(send, q)
      else if rest.None? then []
      else InPhase(rest.value, q)
  {
    OrderedSplit(a, send, BEFORE_EXECUTION, MARSHALL_TIMER_END, MODIFY_HTTP_REQUEST, q);
    InPhaseOutside(send, AFTER_MARSHALLING, MODIFY_HTTP_REQUEST);
    if rest.Some? {
      OrderedSplit(a + send, rest.value, BEFORE_EXECUTION, MODIFY_HTTP_REQUEST, CLIENT_EXECUTION_END, q);
      b := a + send + rest.value;
    } else {
      b := a + send;
    }
  }

  /** The trace up to the end of marshalling. */
  lemma Upto(pre: seq<Event>, marshal: seq<Event>, q: nat) returns (a: seq<Event>)
    requires Ordered(pre, BEFORE_EXECUTION, MODIFY_REQUEST)
    requires Ordered(marshal, BEFORE_MARSHALLING, MARSHALL_TIMER_END)
    ensures a == pre + TIMERS + marshal
    ensures Ordered(a, BEFORE_EXECUTION, MARSHALL_TIMER_END)
    ensures InPhase(a, q) ==
      if q <= MODIFY_REQUEST then InPhase(pre, q)
      else if q <= MARSHALL_TIMER_START then InPhase(TIMERS, q)
      else InPhase(marshal, q)
  {
    assert Ordered(TIMERS, CLIENT_TIMER_START, MARSHALL_TIMER_START);
    OrderedSplit(pre, TIMERS, BEFORE_EXECUTION, MODIFY_REQUEST, MARSHALL_TIMER_START, q);
    OrderedSplit(pre + TIMERS, marshal, BEFORE_EXECUTION, MARSHALL_TIMER_START, MARSHALL_TIMER_END, q);
    a := pre + TIMERS + marshal;
  }

  /** The transmission followed by the continuation. */
  lemma RestShape(wire: WireRequest, h: seq<Event>, q: nat)
    requires Ordered(h, AFTER_EXECUTION, CLIENT_EXECUTION_END)
    ensures Ordered([Transmitted(wire)] + h, TRANSMIT, CLIENT_EXECUTION_END)
    ensures InPhase([Transmitted(wire)] + h, q) == if q == TRANSMIT then [Transmitted(wire)] else InPhase(h, q)
  {
    assert Phased([Transmitted(wire)], TRANSMIT);
    PhasedThen([Transmitted(wire)], TRANSMIT, h, AFTER_EXECUTION, CLIENT_EXECUTION_END);
  }

  /** The stages `execute` reached, and the trace each recorded. */
  lemma ExecuteStages(c: Chain.Chain, input: Message, attrs: Attributes, co: Collaborators, transport: Transport)
    returns (marshal: Option<seq<Event>>, send: Option<seq<Event>>, rest: Option<seq<Event>>)
    ensures var p := Prepare(c, input, attrs);
      var x := Execute(c, input, attrs, co, transport);
      && AssemblyOk(p.trace, marshal, send, rest)
      && x.trace == Assemble(p.trace, marshal, send, rest)
      && (marshal.Some? <==> p.outcome.Success?)
      && (marshal.Some? ==> marshal.value == Marshalling(c, input, attrs, co).trace)
      && (send.Some? <==> marshal.Some? && Marshalling(c, input, attrs, co).outcome.Success?)
      && (send.Some? ==> send.value == Sending(c, input, attrs, co).trace)
      && (rest.Some? <==> send.Some? && Sending(c, input, attrs, co).outcome.Success?)
      && (rest.Some? ==> rest.value == [Transmitted(Wire(c, input, attrs, co))] + Continuing(c, input, attrs, co, transport).trace)
      && (rest.Some? <==> !x.outcome.Thrown?)
  {
    var p := Prepare(c, input, attrs);
    PrepareShape(c, input, attrs);
    marshal, send, rest := None, None, None;
    if p.outcome.Success? {
      var m := Marshalling(c, input, attrs, co);
      MarshalStageOrder(c, p.outcome.value, p.attrs, co);
      marshal := Some(m.trace);
      if m.outcome.Success? {
        var s := Sending(c, input, attrs, co);
        SendStageShape(c, Adapted(c, input, attrs, co), m.attrs);
        send := Some(s.trace);
        if s.outcome.Success? {
          var h := Continuing(c, input, attrs, co, transport);
          HandleShape(c, m.outcome.value, Done(c, input, attrs, co, transport), co.failure, 0);
          RestShape(Wire(c, input, attrs, co), h.trace, 0);
          rest := Some([Transmitted(Wire(c, input, attrs, co))] + h.trace);
        }
      }
    }
  }

  /** Every event of `execute` comes in lifecycle order. */
  lemma ExecuteOrdered(c: Chain.Chain, input: Message, attrs: Attributes, co: Collaborators, transport: Transport)
    ensures Ordered(Execute(c, input, attrs, co, transport).trace, BEFORE_EXECUTION, CLIENT_EXECUTION_END)
  {
    var marshal, send, rest := ExecuteStages(c, input, attrs, co, transport);
    AssembleOrdered(Prepare(c, input, attrs).trace, marshal, send, rest);
  }

  /** Which stage recorded the events of each phase of `execute`: a stage
      that was not reached recorded nothing. */
  lemma ExecuteAt(c: Chain.Chain, input: Message, attrs: Attributes, co: Collaborators, transport: Transport, q: nat)
    ensures var p := Prepare(c, input, attrs);
      InPhase(Execute(c, input, attrs, co, transport).trace, q) ==
        if q <= MODIFY_REQUEST then InPhase(p.trace, q)
        else if p.outcome.Failure? then []
        else if q <= MARSHALL_TIMER_START then InPhase(TIMERS, q)
        else if q <= MARSHALL_TIMER_END then InPhase(Marshalling(c, input, attrs, co).trace, q)
        else if Marshalling(c, input, attrs, co).outcome.Failure? then []
        else if q <= MODIFY_HTTP_REQUEST then InPhase(Sending(c, input, attrs, co).trace, q)
        else if Sending(c, input, attrs, co).outcome.Failure? then []
        else if q == TRANSMIT then [Transmitted(Wire(c, input, attrs, co))]
        else InPhase(Continuing(c, input, attrs, co, transport).trace, q)
  {
    var marshal, send, rest := ExecuteStages(c, input, attrs, co, transport);
    AssembleAt(Prepare(c, input, attrs).trace, marshal, send, rest, q);
    if rest.Some? {
      var m := Marshalling(c, input, attrs, co);
      var h := Continuing(c, input, attrs, co, transport);
      HandleShape(c, m.outcome.value, Done(c, input, attrs, co, transport), co.failure, q);
      RestShape(Wire(c, input, attrs, co), h.trace, q);
    }
  }

  lemma TimersAt(q: nat)
    ensures InPhase(TIMERS, q) ==
      if q == CLIENT_TIMER_START then [Started(ClientExecuteTime)]
      else if q == MARSHALL_TIMER_START then [Started(RequestMarshallTime)]
      else []
  {
    InPhaseSingle(TIMERS[0]);
    InPhaseSingle(TIMERS[1]);
    InPhaseAppend([TIMERS[0]], [TIMERS[1]]);
    assert TIMERS == [TIMERS[0]] + [TIMERS[1]];
  }

  /** Both timers start exactly when preparation passed, and the
      marshalling timer then ends exactly once, whatever the marshalling
      block does (its `finally`). */
  lemma ExecuteTimers(c: Chain.Chain, input: Message, attrs: Attributes, co: Collaborators, transport: Transport)
    ensures var t := Execute(c, input, attrs, co, transport).trace;
      var started := Prepare(c, input, attrs).outcome.Success?;
      && InPhase(t, CLIENT_TIMER_START) == (if started then [Started(ClientExecuteTime)] else [])
      && InPhase(t, MARSHALL_TIMER_START) == (if started then [Started(RequestMarshallTime)] else [])
      && InPhase(t, MARSHALL_TIMER_END) == (if started then [Ended(RequestMarshallTime)] else [])
  {
    ExecuteAt(c, input, attrs, co, transport, CLIENT_TIMER_START);
    ExecuteAt(c, input, attrs, co, transport, MARSHALL_TIMER_START);
    ExecuteAt(c, input, attrs, co, transport, MARSHALL_TIMER_END);
    TimersAt(CLIENT_TIMER_START);
    TimersAt(MARSHALL_TIMER_START);
    var p := Prepare(c, input, attrs);
    if p.outcome.Success? {
      MarshalStageAt(c, p.outcome.value, p.attrs, co, MARSHALL_TIMER_END);
    }
  }

  /** The marshaller is called at most once, exactly when preparation and
      `beforeMarshalling` passed, and then on the request `modifyRequest`
      produced. */
  lemma ExecuteMarshals(c: Chain.Chain, input: Message, attrs: Attributes, co: Collaborators, transport: Transport)
    ensures var t := Execute(c, input, attrs, co, transport).trace;
      var p := Prepare(c, input, attrs);
      var be := Chain.BeforeExecution(c, Initial(input), attrs);
      && (InPhase(t, MARSHAL) != [] ==>
            && p.outcome.Success?
            && Chain.BeforeMarshalling(c, p.outcome.value, p.attrs).outcome.Success?
            && be.outcome.Success?
            && InPhase(t, MARSHAL) == [Marshalled(Chain.ModifyRequest(c, Initial(input), be.attrs).outcome.value.request)])
      && (p.outcome.Success? && Chain.BeforeMarshalling(c, p.outcome.value, p.attrs).outcome.Success? ==> InPhase(t, MARSHAL) != [])
  {
    ExecuteAt(c, input, attrs, co, transport, MARSHAL);
    PrepareShape(c, input, attrs);
    var p := Prepare(c, input, attrs);
    if p.outcome.Success? {
      MarshalStageAt(c, p.outcome.value, p.attrs, co, MARSHAL);
    }
  }

  /** The client execution ends at most once: with `(null, null)` when an
      `Exception` escapes the marshalling block, and otherwise only from
      the continuation's `finally`, which runs exactly when the request was
      sent. */
  lemma ExecuteEndsOnce(c: Chain.Chain, input: Message, attrs: Attributes, co: Collaborators, transport: Transport)
    ensures var x := Execute(c, input, attrs, co, transport);
      var p := Prepare(c, input, attrs);
      && InPhase(x.trace, MARSHAL_ABORTED) ==
           (if p.outcome.Success? && Marshalling(c, input, attrs, co).outcome.Failure?
               && IsRuntime(Marshalling(c, input, attrs, co).outcome.error)
            then [ClientExecutionEnded(None, None)] else [])
      && (x.outcome.Thrown? ==> InPhase(x.trace, CLIENT_EXECUTION_END) == [])
      && (!x.outcome.Thrown? ==>
            && p.outcome.Success? && Marshalling(c, input, attrs, co).outcome.Success?
            && Sending(c, input, attrs, co).outcome.Success?
            && InPhase(x.trace, CLIENT_EXECUTION_END)
                 == [EndOf(Marshalling(c, input, attrs, co).outcome.value, Done(c, input, attrs, co, transport))])
      && |InPhase(x.trace, MARSHAL_ABORTED)| + |InPhase(x.trace, CLIENT_EXECUTION_END)| <= 1
  {
    var marshal, send, rest := ExecuteStages(c, input, attrs, co, transport);
    ExecuteAt(c, input, attrs, co, transport, MARSHAL_ABORTED);
    ExecuteAt(c, input, attrs, co, transport, CLIENT_EXECUTION_END);
    var p := Prepare(c, input, attrs);
    if p.outcome.Success? {
      MarshalStageAt(c, p.outcome.value, p.attrs, co, MARSHAL_ABORTED);
    }
    if rest.Some? {
      HandleShape(c, Marshalling(c, input, attrs, co).outcome.value, Done(c, input, attrs, co, transport), co.failure, CLIENT_EXECUTION_END);
    }
  }

  /** A request that was sent is transmitted exactly once; a call that
      threw sent nothing. */
  lemma ExecuteTransmits(c: Chain.Chain, input: Message, attrs: Attributes, co: Collaborators, transport: Transport)
    ensures var x := Execute(c, input, attrs, co, transport);
      && (x.outcome.Thrown? ==> InPhase(x.trace, TRANSMIT) == [])
      && (!x.outcome.Thrown? ==>
            && Prepare(c, input, attrs).outcome.Success? && Marshalling(c, input, attrs, co).outcome.Success?
            && Sending(c, input, attrs, co).outcome.Success?
            && InPhase(x.trace, TRANSMIT) == [Transmitted(Wire(c, input, attrs, co))])
  {
    var marshal, send, rest := ExecuteStages(c, input, attrs, co, transport);
    ExecuteAt(c, input, attrs, co, transport, TRANSMIT);
  }

  /** A call that did not throw ends its trace with the end of the client
      execution. */
  lemma ExecuteEndsLast(c: Chain.Chain, input: Message, attrs: Attributes, co: Collaborators, transport: Transport)
    ensures var x := Execute(c, input, attrs, co, transport);
      !x.outcome.Thrown? ==>
        && Prepare(c, input, attrs).outcome.Success? && Marshalling(c, input, attrs, co).outcome.Success?
        && Sending(c, input, attrs, co).outcome.Success?
        && x.trace[|x.trace| - 1] == EndOf(Marshalling(c, input, attrs, co).outcome.value, Done(c, input, attrs, co, transport))
  {
    var marshal, send, rest := ExecuteStages(c, input, attrs, co, transport);
    if rest.Some? {
      RestLast(c, input, attrs, co, transport);
      AssembleLast(Prepare(c, input, attrs).trace, marshal, send, rest);
    }
  }

  lemma HandleEndsLast(c: Chain.Chain, request: MarshalledRequest, done: Completion, failure: Exception -> Exception)
    ensures var h := Handle(c, request, done, failure).trace; h != [] && h[|h| - 1] == EndOf(request, done)
  {
    HandleTrace(c, request, done, failure);
    var t := TryBlock(c, done, failure).trace;
    var hooks := FailureHooksOf(c, done, failure);
    if hooks.Some? {
      LastOfAppend(t + hooks.value, [EndOf(request, done)]);
    } else {
      LastOfAppend(t, [EndOf(request, done)]);
    }
  }

  lemma AssembleLast(pre: seq<Event>, marshal: Option<seq<Event>>, send: Option<seq<Event>>, rest: Option<seq<Event>>)
    requires marshal.Some? && send.Some? && rest.Some? && rest.value != []
    ensures var t := Assemble(pre, marshal, send, rest); t[|t| - 1] == rest.value[|rest.value| - 1]
  {
    LastOfAppend(pre + TIMERS + marshal.value + send.value, rest.value);
  }

  lemma RestLast(c: Chain.Chain, input: Message, attrs: Attributes, co: Collaborators, transport: Transport)
    requires Prepare(c, input, attrs).outcome.Success?
    requires Marshalling(c, input, attrs, co).outcome.Success?
    requires Sending(c, input, attrs, co).outcome.Success?
    ensures var r := [Transmitted(Wire(c, input, attrs, co))] + Continuing(c, input, attrs, co, transport).trace;
      r[|r| - 1] == EndOf(Marshalling(c, input, attrs, co).outcome.value, Done(c, input, attrs, co, transport))
  {
    var request := Marshalling(c, input, attrs, co).outcome.value;
    var done := Done(c, input, attrs, co, transport);
    var h := Handle(c, request, done, co.failure).trace;
    assert h == Continuing(c, input, attrs, co, transport).trace;
    HandleEndsLast(c, request, done, co.failure);
    LastOfAppend([Transmitted(Wire(c, input, attrs, co))], h);
  }

  lemma LastOfAppend(a: seq<Event>, b: seq<Event>)
    requires b != []
    ensures (a + b)[|a + b| - 1] == b[|b| - 1]
  {
  }

  /** The first `afterMarshalling` call sees the service name of the
      marshalled request recorded under `SERVICE_NAME`. */
  lemma ExecuteServiceName(c: Chain.Chain, input: Message, attrs: Attributes, co: Collaborators, transport: Transport)
    ensures var calls := InPhase(Execute(c, input, attrs, co, transport).trace, AFTER_MARSHALLING);
      calls != [] ==>
        && Prepare(c, input, attrs).outcome.Success? && Marshalling(c, input, attrs, co).outcome.Success?
        && SERVICE_NAME in Chain.AttrsIn(calls[0])
        && Chain.AttrsIn(calls[0])[SERVICE_NAME] == Text(Marshalling(c, input, attrs, co).outcome.value.serviceName)
  {
    ExecuteAt(c, input, attrs, co, transport, AFTER_MARSHALLING);
    var p := Prepare(c, input, attrs);
    if p.outcome.Success? && Marshalling(c, input, attrs, co).outcome.Success? {
      var m := Marshalling(c, input, attrs, co);
      var st := Sending(c, input, attrs, co).trace;
      MarshalStageResult(c, p.outcome.value, p.attrs, co);
      SendStageShape(c, Adapted(c, input, attrs, co), m.attrs);
      if st != [] {
        assert InPhase(st, AFTER_MARSHALLING)[0] == st[0];
      }
    }
  }

  /** `beforeExecution` and `modifyRequest` are shown the caller's request;
      `beforeMarshalling` is shown the context `modifyRequest` produced. */
  lemma ExecuteShowsPrepared(c: Chain.Chain, input: Message, attrs: Attributes, co: Collaborators, transport: Transport)
    ensures var t := Execute(c, input, attrs, co, transport).trace;
      var p := Prepare(c, input, attrs);
      && Shows(InPhase(t, BEFORE_EXECUTION), Plain(Initial(input)))
      && Shows(InPhase(t, MODIFY_REQUEST), Plain(Initial(input)))
      && (p.outcome.Success? ==> Shows(InPhase(t, BEFORE_MARSHALLING), Plain(p.outcome.value)))
  {
    var p := Prepare(c, input, attrs);
    PrepareShape(c, input, attrs);
    ExecuteAt(c, input, attrs, co, transport, BEFORE_EXECUTION);
    ExecuteAt(c, input, attrs, co, transport, MODIFY_REQUEST);
    ShownInPhase(p.trace, BEFORE_EXECUTION, Plain(Initial(input)));
    ShownInPhase(p.trace, MODIFY_REQUEST, Plain(Initial(input)));
    if p.outcome.Success? {
      ExecuteAt(c, input, attrs, co, transport, BEFORE_MARSHALLING);
      MarshalStageOrder(c, p.outcome.value, p.attrs, co);
      ShownInPhase(Marshalling(c, input, attrs, co).trace, BEFORE_MARSHALLING, Plain(p.outcome.value));
    }
  }

  /** `afterMarshalling` and `modifyHttpRequest` are shown the prepared
      context with the adapted HTTP request added; `afterExecution` is
      shown the context the transport completed with. */
  lemma ExecuteShowsSent(c: Chain.Chain, input: Message, attrs: Attributes, co: Collaborators, transport: Transport)
    ensures var t := Execute(c, input, attrs, co, transport).trace;
      Prepare(c, input, attrs).outcome.Success? && Marshalling(c, input, attrs, co).outcome.Success? ==>
        && Shows(InPhase(t, AFTER_MARSHALLING), Plain(Adapted(c, input, attrs, co)))
        && Shows(InPhase(t, MODIFY_HTTP_REQUEST), Plain(Adapted(c, input, attrs, co)))
        && (Sending(c, input, attrs, co).outcome.Success? ==>
              Shows(InPhase(t, AFTER_EXECUTION), Plain(Done(c, input, attrs, co, transport).context)))
  {
    if Prepare(c, input, attrs).outcome.Success? && Marshalling(c, input, attrs, co).outcome.Success? {
      var ctx := Adapted(c, input, attrs, co);
      var st := Sending(c, input, attrs, co).trace;
      SendStageShape(c, ctx, Marshalling(c, input, attrs, co).attrs);
      ExecuteAt(c, input, attrs, co, transport, AFTER_MARSHALLING);
      ExecuteAt(c, input, attrs, co, transport, MODIFY_HTTP_REQUEST);
      ShownInPhase(st, AFTER_MARSHALLING, Plain(ctx));
      ShownInPhase(st, MODIFY_HTTP_REQUEST, Plain(ctx));
      if Sending(c, input, attrs, co).outcome.Success? {
        var done := Done(c, input, attrs, co, transport);
        ExecuteAt(c, input, attrs, co, transport, AFTER_EXECUTION);
        HandleShape(c, Marshalling(c, input, attrs, co).outcome.value, done, co.failure, AFTER_EXECUTION);
        TryBlockShape(c, done, co.failure);
      }
    }
  }

  /** A call whose future completes normally called `beforeExecution` and
      `modifyRequest` once per interceptor. */
  lemma CompletedPrepare(c: Chain.Chain, input: Message, attrs: Attributes, co: Collaborators, transport: Transport)
    ensures var x := Execute(c, input, attrs, co, transport);
      x.outcome.Completed? ==>
        && |InPhase(x.trace, BEFORE_EXECUTION)| == |c.interceptors|
        && |InPhase(x.trace, MODIFY_REQUEST)| == |c.interceptors|
  {
    ExecuteOutcome(c, input, attrs, co, transport);
    PrepareShape(c, input, attrs);
    ExecuteAt(c, input, attrs, co, transport, BEFORE_EXECUTION);
    ExecuteAt(c, input, attrs, co, transport, MODIFY_REQUEST);
  }

  /** A call whose future completes normally called `beforeMarshalling`
      once per interceptor, then the marshaller once. */
  lemma CompletedMarshal(c: Chain.Chain, input: Message, attrs: Attributes, co: Collaborators, transport: Transport)
    ensures var x := Execute(c, input, attrs, co, transport);
      x.outcome.Completed? ==>
        && |InPhase(x.trace, BEFORE_MARSHALLING)| == |c.interceptors|
        && |InPhase(x.trace, MARSHAL)| == 1
  {
    var x := Execute(c, input, attrs, co, transport);
    ExecuteOutcome(c, input, attrs, co, transport);
    if x.outcome.Completed? {
      var p := Prepare(c, input, attrs);
      ExecuteAt(c, input, attrs, co, transport, BEFORE_MARSHALLING);
      ExecuteAt(c, input, attrs, co, transport, MARSHAL);
      MarshalStageResult(c, p.outcome.value, p.attrs, co);
      MarshalStageAt(c, p.outcome.value, p.attrs, co, BEFORE_MARSHALLING);
      MarshalStageAt(c, p.outcome.value, p.attrs, co, MARSHAL);
      BeforeMarshallingSegment(c, p.outcome.value, p.attrs);
    }
  }

  /** A call whose future completes normally called `afterMarshalling` and
      `modifyHttpRequest` once per interceptor. */
  lemma CompletedSend(c: Chain.Chain, input: Message, attrs: Attributes, co: Collaborators, transport: Transport)
    ensures var x := Execute(c, input, attrs, co, transport);
      x.outcome.Completed? ==>
        && |InPhase(x.trace, AFTER_MARSHALLING)| == |c.interceptors|
        && |InPhase(x.trace, MODIFY_HTTP_REQUEST)| == |c.interceptors|
  {
    var x := Execute(c, input, attrs, co, transport);
    ExecuteOutcome(c, input, attrs, co, transport);
    if x.outcome.Completed? {
      ExecuteAt(c, input, attrs, co, transport, AFTER_MARSHALLING);
      ExecuteAt(c, input, attrs, co, transport, MODIFY_HTTP_REQUEST);
      CompletedSendAt(c, input, attrs, co);
    }
  }

  lemma CompletedSendAt(c: Chain.Chain, input: Message, attrs: Attributes, co: Collaborators)
    requires Prepare(c, input, attrs).outcome.Success?
    requires Marshalling(c, input, attrs, co).outcome.Success?
    ensures var r := Sending(c, input, attrs, co);
      r.outcome.Success? ==>
        |InPhase(r.trace, AFTER_MARSHALLING)| == |c.interceptors| && |InPhase(r.trace, MODIFY_HTTP_REQUEST)| == |c.interceptors|
  {
    SendStageShape(c, Adapted(c, input, attrs, co), Marshalling(c, input, attrs, co).attrs);
  }

  /** A call whose future completes normally called `afterExecution` once
      per interceptor and no failure hook. */
  lemma CompletedContinuation(c: Chain.Chain, input: Message, attrs: Attributes, co: Collaborators, transport: Transport)
    ensures var x := Execute(c, input, attrs, co, transport);
      x.outcome.Completed? ==>
        && |InPhase(x.trace, AFTER_EXECUTION)| == |c.interceptors|
        && InPhase(x.trace, ON_FAILURE) == []
  {
    var x := Execute(c, input, attrs, co, transport);
    ExecuteOutcome(c, input, attrs, co, transport);
    if x.outcome.Completed? {
      ExecuteAt(c, input, attrs, co, transport, AFTER_EXECUTION);
      ExecuteAt(c, input, attrs, co, transport, ON_FAILURE);
      CompletedContinuationAt(c, input, attrs, co, transport);
    }
  }

  lemma CompletedContinuationAt(c: Chain.Chain, input: Message, attrs: Attributes, co: Collaborators, transport: Transport)
    requires Prepare(c, input, attrs).outcome.Success?
    requires Marshalling(c, input, attrs, co).outcome.Success?
    requires Sending(c, input, attrs, co).outcome.Success?
    ensures var h := Continuing(c, input, attrs, co, transport);
      h.outcome.Completed? ==>
        |InPhase(h.trace, AFTER_EXECUTION)| == |c.interceptors| && InPhase(h.trace, ON_FAILURE) == []
  {
    var request := Marshalling(c, input, attrs, co).outcome.value;
    var done := Done(c, input, attrs, co, transport);
    assert Handle(c, request, done, co.failure) == Continuing(c, input, attrs, co, transport);
    HandleShape(c, request, done, co.failure, AFTER_EXECUTION);
    HandleShape(c, request, done, co.failure, ON_FAILURE);
    HandleOutcome(c, request, done, co.failure);
    TryBlockShape(c, done, co.failure);
  }

  /** `execute` throws exactly the exception of the first caller-thread
      stage that failed; once the request is sent, the future completes as
      the continuation does. */
  lemma ExecuteOutcome(c: Chain.Chain, input: Message, attrs: Attributes, co: Collaborators, transport: Transport)
    ensures var x := Execute(c, input, attrs, co, transport);
      var p := Prepare(c, input, attrs);
      && (p.outcome.Failure? ==> x.outcome == Thrown(p.outcome.error))
      && (p.outcome.Success? ==>
            var m := Marshalling(c, input, attrs, co);
            && (m.outcome.Failure? ==> x.outcome == Thrown(m.outcome.error))
            && (m.outcome.Success? ==>
                  var s := Sending(c, input, attrs, co);
                  && (s.outcome.Failure? ==> x.outcome == Thrown(s.outcome.error))
                  && (s.outcome.Success? ==> x.outcome == Continuing(c, input, attrs, co, transport).outcome && !x.outcome.Thrown?)))
  {
    var p := Prepare(c, input, attrs);
    if p.outcome.Success? && Marshalling(c, input, attrs, co).outcome.Success? && Sending(c, input, attrs, co).outcome.Success? {
      HandleTrace(c, Marshalling(c, input, attrs, co).outcome.value, Done(c, input, attrs, co, transport), co.failure);
    }
  }
}
