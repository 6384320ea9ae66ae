/** `ExecutionInterceptorChain`: drives a fixed list of interceptors through
    the thirteen checkpoints, validates what modify hooks return, and
    normalises exceptions into `ExecutionInterceptorException`. */
module Chain {
  import opened Wrappers
  import opened Values
  import opened Checkpoints
  import opened Exceptions
  import opened Interceptors
  import opened Events
  import InterceptorContext

  datatype Chain = Chain(interceptors: seq<Interceptor>)

  /** The constructor: a null list is rejected, any other is copied. */
  function New(list: Option<seq<Interceptor>>): (r: Result<Chain, Exception>)
    ensures r.Success? <==> list.Some?
    ensures r.Failure? ==> r.error == NullPointer("interceptors")
    ensures r.Success? ==> r.value.interceptors == list.value
  {
    match list
    case None => Failure(NullPointer("interceptors"))
    case Some(ics) => Success(Chain(ics))
  }

  // ---------------------------------------------------------------------
  // Visiting orders

  /** `o` visits each of the indices `0 .. n-1` exactly once. */
  predicate EachOnce(o: seq<nat>, n: nat)
  {
    |o| == n
    && (forall k :: 0 <= k < |o| ==> o[k] < n)
    && (forall a, b :: 0 <= a < b < |o| ==> o[a] != o[b])
  }

  /** Every index of `o` names an interceptor of a list of length `n`. */
  predicate InRange(o: seq<nat>, n: nat)
  {
    forall k :: 0 <= k < |o| ==> o[k] < n
  }

  /** Registration order, as `forEach` and the forward `for` loops visit. */
  function Forward(n: nat): (o: seq<nat>)
    ensures EachOnce(o, n)
    ensures forall k :: 0 <= k < n ==> o[k] == k
  {
    seq(n, k => k)
  }

  /** Reverse registration order, as `reverseForEach` and the downward
      `for` loops visit. */
  function Reverse(n: nat): (o: seq<nat>)
    ensures EachOnce(o, n)
    ensures forall k :: 0 <= k < n ==> o[k] == n - 1 - k
  {
    if n == 0 then [] else [n - 1] + Reverse(n - 1)
  }

  // ---------------------------------------------------------------------
  // Exception normalisation

  /** The failure a loop reports: normalised or as thrown. */
  function Reported(e: Exception, normalized: bool): Exception
  {
    if normalized then Normalize(e) else e
  }

  /** `tryOrThrowInterceptorException` around a whole loop. */
  function TryOrThrow<T>(r: Run<T>): (n: Run<T>)
    ensures n.attrs == r.attrs && n.trace == r.trace
    ensures n.outcome.Success? <==> r.outcome.Success?
    ensures r.outcome.Success? ==> n.outcome == r.outcome
    ensures r.outcome.Failure? ==> n.outcome.error == Normalize(r.outcome.error)
  {
    match r.outcome
    case Success(_) => r
    case Failure(e) => r.(outcome := Failure(Normalize(e)))
  }

  // ---------------------------------------------------------------------
  // Read-only checkpoints

  /** The attributes a recorded hook call received. */
  function AttrsIn(e: Event): Attributes
  {
    if e.Called? then e.attrs else map[]
  }

  /** Event `k` of `trace` is the call of the `k`th interceptor of `order`
      with `arg`. */
  predicate ReadCallAt(order: seq<nat>, hook: Hook, arg: HookArg, trace: seq<Event>, k: nat)
    requires k < |trace| && k < |order|
  {
    trace[k].Called? && trace[k].interceptor == order[k] && trace[k].hook == hook && trace[k].arg == arg
  }

  /** The hook call recorded as event `k` returned normally, leaving the
      attributes the next call received. */
  predicate ReadPassed(ics: seq<Interceptor>, order: seq<nat>, hook: Hook, arg: HookArg, trace: seq<Event>, k: nat)
    requires Fits(hook, arg) && InRange(order, |ics|)
    requires k + 1 < |trace| && k < |order|
  {
    var h := InvokeRead(ics[order[k]], hook, arg, AttrsIn(trace[k]));
    h.outcome.Success? && h.attrs == AttrsIn(trace[k + 1])
  }

  /** `r` is what visiting `order` with a read hook does: it calls the
      interceptors in that order with the same context, threads the
      attributes through them, and stops at the first exception, which it
      reports (normalised or not). */
  predicate Observed(ics: seq<Interceptor>, order: seq<nat>, hook: Hook, arg: HookArg, attrs: Attributes,
                     r: Run<()>, normalized: bool)
    requires Fits(hook, arg) && InRange(order, |ics|)
  {
    && |r.trace| <= |order|
    && (|r.trace| == 0 <==> |order| == 0)
    && (forall k :: 0 <= k < |r.trace| ==> ReadCallAt(order, hook, arg, r.trace, k))
    && (|order| == 0 ==> r.outcome.Success? && r.attrs == attrs)
    && (|r.trace| > 0 ==> AttrsIn(r.trace[0]) == attrs)
    && (forall k :: 0 <= k < |r.trace| - 1 ==> ReadPassed(ics, order, hook, arg, r.trace, k))
    && (|r.trace| > 0 ==>
          var last := InvokeRead(ics[order[|r.trace| - 1]], hook, arg, AttrsIn(r.trace[|r.trace| - 1]));
          && r.attrs == last.attrs
          && (last.outcome.Success? ==> r.outcome.Success? && |r.trace| == |order|)
          && (last.outcome.Failure? ==> r.outcome == Failure(Reported(last.outcome.error, normalized))))
  }

  /** Visits `order` calling the read hook `hook` of each interceptor. */
  function Visit(ics: seq<Interceptor>, order: seq<nat>, hook: Hook, arg: HookArg, attrs: Attributes): (r: Run<()>)
    requires Fits(hook, arg) && InRange(order, |ics|)
    ensures Observed(ics, order, hook, arg, attrs, r, false)
    decreases |order|
  {
    if order == [] then Run(Success(()), attrs, [])
    else
      var h := InvokeRead(ics[order[0]], hook, arg, attrs);
      var ev := Called(order[0], hook, arg, attrs);
      if h.outcome.Failure? then Run(Failure(h.outcome.error), h.attrs, [ev])
      else
        var rest := Visit(ics, order[1..], hook, arg, h.attrs);
        ObservedCons(ics, order, hook, arg, attrs, rest);
        Run(rest.outcome, rest.attrs, [ev] + rest.trace)
  }

  /** One successful call in front of an observed visit of the rest of the
      order is an observed visit of the whole order. */
  lemma ObservedCons(ics: seq<Interceptor>, order: seq<nat>, hook: Hook, arg: HookArg, attrs: Attributes, rest: Run<()>)
    requires Fits(hook, arg) && InRange(order, |ics|) && |order| > 0
    requires InvokeRead(ics[order[0]], hook, arg, attrs).outcome.Success?
    requires Observed(ics, order[1..], hook, arg, InvokeRead(ics[order[0]], hook, arg, attrs).attrs, rest, false)
    ensures Observed(ics, order, hook, arg, attrs,
                     Run(rest.outcome, rest.attrs, [Called(order[0], hook, arg, attrs)] + rest.trace), false)
  {
    CallsCons(ics, order, hook, arg, attrs, rest.trace);
    PassedCons(ics, order, hook, arg, attrs, rest.trace);
  }

  lemma CallsCons(ics: seq<Interceptor>, order: seq<nat>, hook: Hook, arg: HookArg, attrs: Attributes, rest: seq<Event>)
    requires |order| > 0 && |rest| <= |order| - 1
    requires forall k :: 0 <= k < |rest| ==> ReadCallAt(order[1..], hook, arg, rest, k)
    ensures var t := [Called(order[0], hook, arg, attrs)] + rest;
      forall k :: 0 <= k < |t| ==> ReadCallAt(order, hook, arg, t, k)
  {
    var t := [Called(order[0], hook, arg, attrs)] + rest;
    forall k | 0 <= k < |t|
      ensures ReadCallAt(order, hook, arg, t, k)
    {
      if k > 0 {
        assert ReadCallAt(order[1..], hook, arg, rest, k - 1);
      }
    }
  }

  lemma PassedCons(ics: seq<Interceptor>, order: seq<nat>, hook: Hook, arg: HookArg, attrs: Attributes, rest: seq<Event>)
    requires Fits(hook, arg) && InRange(order, |ics|) && |order| > 0 && |rest| <= |order| - 1
    requires InvokeRead(ics[order[0]], hook, arg, attrs).outcome.Success?
    requires |rest| > 0 ==> AttrsIn(rest[0]) == InvokeRead(ics[order[0]], hook, arg, attrs).attrs
    requires forall k :: 0 <= k < |rest| - 1 ==> ReadPassed(ics, order[1..], hook, arg, rest, k)
    ensures var t := [Called(order[0], hook, arg, attrs)] + rest;
      forall k :: 0 <= k < |t| - 1 ==> ReadPassed(ics, order, hook, arg, t, k)
  {
    var t := [Called(order[0], hook, arg, attrs)] + rest;
    forall k | 0 <= k < |t| - 1
      ensures ReadPassed(ics, order, hook, arg, t, k)
    {
      if k > 0 {
        assert ReadPassed(ics, order[1..], hook, arg, rest, k - 1);
      } else {
        assert t[1] == rest[0];
      }
    }
  }

  /** Normalising a loop's failure keeps everything else it observed. */
  lemma ObservedNormalized(ics: seq<Interceptor>, order: seq<nat>, hook: Hook, arg: HookArg, attrs: Attributes, r: Run<()>)
    requires Fits(hook, arg) && InRange(order, |ics|)
    requires Observed(ics, order, hook, arg, attrs, r, false)
    ensures Observed(ics, order, hook, arg, attrs, TryOrThrow(r), true)
  {
  }


  /** A read checkpoint wrapped in exception normalisation. */
  function ReadCheckpoint(c: Chain, order: seq<nat>, hook: Hook, arg: HookArg, attrs: Attributes): (r: Run<()>)
    requires Fits(hook, arg) && InRange(order, |c.interceptors|)
    ensures Observed(c.interceptors, order, hook, arg, attrs, r, true)
  {
    var raw := Visit(c.interceptors, order, hook, arg, attrs);
    ObservedNormalized(c.interceptors, order, hook, arg, attrs, raw);
    TryOrThrow(raw)
  }

  function BeforeExecution(c: Chain, ctx: Context, attrs: Attributes): (r: Run<()>)
    ensures Observed(c.interceptors, Forward(|c.interceptors|), Hook.BeforeExecution, Plain(ctx), attrs, r, true)
  {
    ReadCheckpoint(c, Forward(|c.interceptors|), Hook.BeforeExecution, Plain(ctx), attrs)
  }

  function BeforeMarshalling(c: Chain, ctx: Context, attrs: Attributes): (r: Run<()>)
    ensures Observed(c.interceptors, Forward(|c.interceptors|), Hook.BeforeMarshalling, Plain(ctx), attrs, r, true)
  {
    ReadCheckpoint(c, Forward(|c.interceptors|), Hook.BeforeMarshalling, Plain(ctx), attrs)
  }

  function AfterMarshalling(c: Chain, ctx: Context, attrs: Attributes): (r: Run<()>)
    ensures Observed(c.interceptors, Forward(|c.interceptors|), Hook.AfterMarshalling, Plain(ctx), attrs, r, true)
  {
    ReadCheckpoint(c, Forward(|c.interceptors|), Hook.AfterMarshalling, Plain(ctx), attrs)
  }

  function BeforeTransmission(c: Chain, ctx: Context, attrs: Attributes): (r: Run<()>)
    ensures Observed(c.interceptors, Forward(|c.interceptors|), Hook.BeforeTransmission, Plain(ctx), attrs, r, true)
  {
    ReadCheckpoint(c, Forward(|c.interceptors|), Hook.BeforeTransmission, Plain(ctx), attrs)
  }

  function AfterTransmission(c: Chain, ctx: Context, attrs: Attributes): (r: Run<()>)
    ensures Observed(c.interceptors, Reverse(|c.interceptors|), Hook.AfterTransmission, Plain(ctx), attrs, r, true)
  {
    ReadCheckpoint(c, Reverse(|c.interceptors|), Hook.AfterTransmission, Plain(ctx), attrs)
  }

  function BeforeUnmarshalling(c: Chain, ctx: Context, attrs: Attributes): (r: Run<()>)
    ensures Observed(c.interceptors, Reverse(|c.interceptors|), Hook.BeforeUnmarshalling, Plain(ctx), attrs, r, true)
  {
    ReadCheckpoint(c, Reverse(|c.interceptors|), Hook.BeforeUnmarshalling, Plain(ctx), attrs)
  }

  /** The one checkpoint whose exceptions are not normalised. */
  function AfterUnmarshalling(c: Chain, ctx: Context, attrs: Attributes): (r: Run<()>)
    ensures Observed(c.interceptors, Reverse(|c.interceptors|), Hook.AfterUnmarshalling, Plain(ctx), attrs, r, false)
  {
    Visit(c.interceptors, Reverse(|c.interceptors|), Hook.AfterUnmarshalling, Plain(ctx), attrs)
  }

  function AfterExecution(c: Chain, ctx: Context, attrs: Attributes): (r: Run<()>)
    ensures Observed(c.interceptors, Reverse(|c.interceptors|), Hook.AfterExecution, Plain(ctx), attrs, r, true)
  {
    ReadCheckpoint(c, Reverse(|c.interceptors|), Hook.AfterExecution, Plain(ctx), attrs)
  }

  function OnExecutionFailure(c: Chain, f: Failed, attrs: Attributes): (r: Run<()>)
    ensures Observed(c.interceptors, Forward(|c.interceptors|), Hook.OnExecutionFailure, Failing(f), attrs, r, true)
  {
    ReadCheckpoint(c, Forward(|c.interceptors|), Hook.OnExecutionFailure, Failing(f), attrs)
  }

  // ---------------------------------------------------------------------
  // Modify checkpoints

  /** The context field a modify checkpoint may replace: its hook, how to
      read and replace it, the runtime class of its values, and how to call
      an interceptor's hook for it. */
  datatype Slot<!T> = Slot(
    hook: Hook,
    get: Context -> Option<T>,
    put: (Context, T) -> Context,
    classOf: T -> RuntimeClass,
    call: (Interceptor, Context, Attributes) -> HookResult<Option<T>>)

  const RequestSlot: Slot<Message> := Slot(
    Hook.ModifyRequest,
    (c: Context) => Some(c.request),
    (c: Context, v: Message) => InterceptorContext.ReplaceRequest(c, v),
    (v: Message) => v.cls,
    (i: Interceptor, c: Context, a: Attributes) => i.modifyRequest(c, a))

  const HttpRequestSlot: Slot<WireRequest> := Slot(
    Hook.ModifyHttpRequest,
    (c: Context) => c.httpRequest,
    (c: Context, v: WireRequest) => InterceptorContext.ReplaceHttpRequest(c, v),
    (v: WireRequest) => v.cls,
    (i: Interceptor, c: Context, a: Attributes) => i.modifyHttpRequest(c, a))

  const HttpResponseSlot: Slot<Message> := Slot(
    Hook.ModifyHttpResponse,
    (c: Context) => c.httpResponse,
    (c: Context, v: Message) => InterceptorContext.ReplaceHttpResponse(c, v),
    (v: Message) => v.cls,
    (i: Interceptor, c: Context, a: Attributes) => i.modifyHttpResponse(c, a))

  const ResponseSlot: Slot<Message> := Slot(
    Hook.ModifyResponse,
    (c: Context) => c.response,
    (c: Context, v: Message) => InterceptorContext.ReplaceResponse(c, v),
    (v: Message) => v.cls,
    (i: Interceptor, c: Context, a: Attributes) => i.modifyResponse(c, a))

  /** `validateInterceptorResult`: a null result is an illegal state; a
      null original fails on `getClass`; a result that is not an instance
      of the original's class is an illegal argument. */
  function Validate<T>(slot: Slot<T>, original: Option<T>, returned: Option<T>, index: nat): (r: Result<T, Exception>)
    ensures r.Success? <==> returned.Some? && original.Some?
                            && InstanceOf(slot.classOf(returned.value), slot.classOf(original.value))
    ensures r.Success? ==> r.value == returned.value
    ensures returned.None? ==> r == Failure(NullResult(index, slot.hook))
    ensures r.Failure? ==> IsRuntime(r.error) && !r.error.InterceptorFailure?
  {
    match returned
    case None => Failure(NullResult(index, slot.hook))
    case Some(v) =>
      match original
      case None => Failure(NullPointer("originalMessage"))
      case Some(o) =>
        if InstanceOf(slot.classOf(v), slot.classOf(o)) then Success(v)
        else Failure(WrongResultClass(index, slot.hook, slot.classOf(v), slot.classOf(o)))
  }

  /** One interceptor's turn in a modify loop: its hook's outcome, then
      validation against the original field. */
  function Attempt<T>(slot: Slot<T>, i: Interceptor, index: nat, ctx: Context, a: Attributes): HookResult<T>
  {
    var h := slot.call(i, ctx, a);
    match h.outcome
    case Failure(e) => HookResult(Failure(e), h.attrs)
    case Success(v) => HookResult(Validate(slot, slot.get(ctx), v, index), h.attrs)
  }

  /** Event `k` of `trace` is the `k`th interceptor of `order` being shown
      the original context. */
  predicate ModifyCallAt(order: seq<nat>, hook: Hook, ctx: Context, trace: seq<Event>, k: nat)
    requires k < |trace| && k < |order|
  {
    trace[k].Called? && trace[k].interceptor == order[k] && trace[k].hook == hook && trace[k].arg == Plain(ctx)
  }

  /** The turn recorded as event `k` passed validation, leaving the
      attributes the next call received. */
  predicate ModifyPassed<T>(slot: Slot<T>, ics: seq<Interceptor>, order: seq<nat>, ctx: Context, trace: seq<Event>, k: nat)
    requires InRange(order, |ics|)
    requires k + 1 < |trace| && k < |order|
  {
    var h := Attempt(slot, ics[order[k]], order[k], ctx, AttrsIn(trace[k]));
    h.outcome.Success? && h.attrs == AttrsIn(trace[k + 1])
  }

  /** `r` is what a modify loop over `order` does: every interceptor is
      shown the original context `ctx` and validated against its original
      field, attributes are threaded through, the first failure stops the
      loop and is reported, and on success the result is `ctx` with the
      field replaced by the last interceptor's value (`acc` when the order
      is empty). */
  predicate Modified<T>(slot: Slot<T>, ics: seq<Interceptor>, order: seq<nat>, ctx: Context, attrs: Attributes,
                        acc: Context, r: Run<Context>, normalized: bool)
    requires InRange(order, |ics|)
  {
    && |r.trace| <= |order|
    && (|r.trace| == 0 <==> |order| == 0)
    && (forall k :: 0 <= k < |r.trace| ==> ModifyCallAt(order, slot.hook, ctx, r.trace, k))
    && (|order| == 0 ==> r.outcome == Success(acc) && r.attrs == attrs)
    && (|r.trace| > 0 ==> AttrsIn(r.trace[0]) == attrs)
    && (forall k :: 0 <= k < |r.trace| - 1 ==> ModifyPassed(slot, ics, order, ctx, r.trace, k))
    && (|r.trace| > 0 ==>
          var j := order[|r.trace| - 1];
          var last := Attempt(slot, ics[j], j, ctx, AttrsIn(r.trace[|r.trace| - 1]));
          && r.attrs == last.attrs
          && (last.outcome.Success? ==> r.outcome == Success(slot.put(ctx, last.outcome.value)) && |r.trace| == |order|)
          && (last.outcome.Failure? ==> r.outcome == Failure(Reported(last.outcome.error, normalized))))
  }

  /** The loop of a modify checkpoint: `acc` is the result so far. */
  function ModifyLoop<T>(slot: Slot<T>, ics: seq<Interceptor>, order: seq<nat>, ctx: Context, attrs: Attributes,
                         acc: Context): (r: Run<Context>)
    requires InRange(order, |ics|)
    ensures Modified(slot, ics, order, ctx, attrs, acc, r, false)
    decreases |order|
  {
    if order == [] then Run(Success(acc), attrs, [])
    else
      var h := Attempt(slot, ics[order[0]], order[0], ctx, attrs);
      var ev := Called(order[0], slot.hook, Plain(ctx), attrs);
      match h.outcome
      case Failure(e) => Run(Failure(e), h.attrs, [ev])
      case Success(v) =>
        var rest := ModifyLoop(slot, ics, order[1..], ctx, h.attrs, slot.put(ctx, v));
        ModifiedCons(slot, ics, order, ctx, attrs, rest);
        Run(rest.outcome, rest.attrs, [ev] + rest.trace)
  }

  /** One validated turn in front of a modify loop over the rest of the
      order is a modify loop over the whole order. */
  lemma ModifiedCons<T>(slot: Slot<T>, ics: seq<Interceptor>, order: seq<nat>, ctx: Context, attrs: Attributes,
                        rest: Run<Context>)
    requires InRange(order, |ics|) && |order| > 0
    requires Attempt(slot, ics[order[0]], order[0], ctx, attrs).outcome.Success?
    requires var h := Attempt(slot, ics[order[0]], order[0], ctx, attrs);
             Modified(slot, ics, order[1..], ctx, h.attrs, slot.put(ctx, h.outcome.value), rest, false)
    ensures Modified(slot, ics, order, ctx, attrs, slot.put(ctx, Attempt(slot, ics[order[0]], order[0], ctx, attrs).outcome.value),
                     Run(rest.outcome, rest.attrs, [Called(order[0], slot.hook, Plain(ctx), attrs)] + rest.trace), false)
  {
    var t := [Called(order[0], slot.hook, Plain(ctx), attrs)] + rest.trace;
    forall k | 0 <= k < |t|
      ensures ModifyCallAt(order, slot.hook, ctx, t, k)
    {
      if k > 0 {
        assert ModifyCallAt(order[1..], slot.hook, ctx, rest.trace, k - 1);
      }
    }
    forall k | 0 <= k < |t| - 1
      ensures ModifyPassed(slot, ics, order, ctx, t, k)
    {
      if k > 0 {
        assert ModifyPassed(slot, ics, order[1..], ctx, rest.trace, k - 1);
      } else {
        assert t[1] == rest.trace[0];
      }
    }
  }

  /** Normalising a modify loop's failure keeps everything else it did. */
  lemma ModifiedNormalized<T>(slot: Slot<T>, ics: seq<Interceptor>, order: seq<nat>, ctx: Context, attrs: Attributes,
                              acc: Context, r: Run<Context>)
    requires InRange(order, |ics|)
    requires Modified(slot, ics, order, ctx, attrs, acc, r, false)
    ensures Modified(slot, ics, order, ctx, attrs, acc, TryOrThrow(r), true)
  {
  }

  /** A modify checkpoint: a modify loop starting from the input context,
      wrapped in exception normalisation. */
  function ModifyCheckpoint<T>(slot: Slot<T>, c: Chain, order: seq<nat>, ctx: Context, attrs: Attributes): (r: Run<Context>)
    requires InRange(order, |c.interceptors|)
    ensures Modified(slot, c.interceptors, order, ctx, attrs, ctx, r, true)
  {
    var raw := ModifyLoop(slot, c.interceptors, order, ctx, attrs, ctx);
    ModifiedNormalized(slot, c.interceptors, order, ctx, attrs, ctx, raw);
    TryOrThrow(raw)
  }

  function ModifyRequest(c: Chain, ctx: Context, attrs: Attributes): (r: Run<Context>)
    ensures Modified(RequestSlot, c.interceptors, Forward(|c.interceptors|), ctx, attrs, ctx, r, true)
    ensures r.outcome.Success? ==> var v := r.outcome.value;
              v.httpRequest == ctx.httpRequest && v.httpResponse == ctx.httpResponse && v.response == ctx.response
  {
    ModifyCheckpoint(RequestSlot, c, Forward(|c.interceptors|), ctx, attrs)
  }

  function ModifyHttpRequest(c: Chain, ctx: Context, attrs: Attributes): (r: Run<Context>)
    ensures Modified(HttpRequestSlot, c.interceptors, Forward(|c.interceptors|), ctx, attrs, ctx, r, true)
    ensures r.outcome.Success? ==> var v := r.outcome.value;
              v.request == ctx.request && v.httpResponse == ctx.httpResponse && v.response == ctx.response
    ensures r.outcome.Success? && ctx.httpRequest.Some? ==> r.outcome.value.httpRequest.Some?
  {
    ModifyCheckpoint(HttpRequestSlot, c, Forward(|c.interceptors|), ctx, attrs)
  }

  function ModifyHttpResponse(c: Chain, ctx: Context, attrs: Attributes): (r: Run<Context>)
    ensures Modified(HttpResponseSlot, c.interceptors, Reverse(|c.interceptors|), ctx, attrs, ctx, r, true)
    ensures r.outcome.Success? ==> var v := r.outcome.value;
              v.request == ctx.request && v.httpRequest == ctx.httpRequest && v.response == ctx.response
    ensures r.outcome.Success? && ctx.httpResponse.Some? ==> r.outcome.value.httpResponse.Some?
  {
    ModifyCheckpoint(HttpResponseSlot, c, Reverse(|c.interceptors|), ctx, attrs)
  }

  function ModifyResponse(c: Chain, ctx: Context, attrs: Attributes): (r: Run<Context>)
    ensures Modified(ResponseSlot, c.interceptors, Reverse(|c.interceptors|), ctx, attrs, ctx, r, true)
    ensures r.outcome.Success? ==> var v := r.outcome.value;
              v.request == ctx.request && v.httpRequest == ctx.httpRequest && v.httpResponse == ctx.httpResponse
    ensures r.outcome.Success? && ctx.response.Some? ==> r.outcome.value.response.Some?
  {
    ModifyCheckpoint(ResponseSlot, c, Reverse(|c.interceptors|), ctx, attrs)
  }
}
