/** What a chain of interceptors that override nothing does at each
    checkpoint. The lemmas are stated over the run characterisations
    `Observed` and `Modified`, so they apply to every checkpoint. */
module ChainDefaults {
  import opened Wrappers
  import opened Values
  import Checkpoints
  import opened Exceptions
  import opened Interceptors
  import opened Events
  import opened Chain

  /** The trace of a visit on which every call returned normally with the
      attributes untouched. */
  function QuietTrace(order: seq<nat>, hook: Checkpoints.Hook, arg: HookArg, attrs: Attributes): seq<Event>
  {
    seq(|order|, k requires 0 <= k < |order| => Called(order[k], hook, arg, attrs))
  }

  /** Along an observed visit of default interceptors every call receives
      the attributes the visit started with. */
  lemma {:induction false} QuietReadAttrs(n: nat, order: seq<nat>, hook: Checkpoints.Hook, arg: HookArg,
                                          attrs: Attributes, r: Run<()>, normalized: bool, k: nat)
    requires Fits(hook, arg) && InRange(order, n)
    requires Observed(Defaults(n), order, hook, arg, attrs, r, normalized)
    requires k < |r.trace|
    ensures AttrsIn(r.trace[k]) == attrs
  {
    if k > 0 {
      QuietReadAttrs(n, order, hook, arg, attrs, r, normalized, k - 1);
      assert ReadPassed(Defaults(n), order, hook, arg, r.trace, k - 1);
      assert Defaults(n)[order[k - 1]] == DefaultInterceptor();
    }
  }

  /** Read hooks of default interceptors have no effect: any read
      checkpoint over them succeeds, calls each interceptor of its order
      once, and leaves the attributes as they were. */
  lemma DefaultsObserveNothing(n: nat, order: seq<nat>, hook: Checkpoints.Hook, arg: HookArg, attrs: Attributes,
                               r: Run<()>, normalized: bool)
    requires Fits(hook, arg) && InRange(order, n)
    requires Observed(Defaults(n), order, hook, arg, attrs, r, normalized)
    ensures r.outcome.Success? && r.attrs == attrs
    ensures r.trace == QuietTrace(order, hook, arg, attrs)
  {
    forall k | 0 <= k < |r.trace|
      ensures AttrsIn(r.trace[k]) == attrs
    {
      QuietReadAttrs(n, order, hook, arg, attrs, r, normalized, k);
    }
    if |r.trace| > 0 {
      assert Defaults(n)[order[|r.trace| - 1]] == DefaultInterceptor();
    }
    forall k | 0 <= k < |order|
      ensures r.trace[k] == QuietTrace(order, hook, arg, attrs)[k]
    {
      assert ReadCallAt(order, hook, arg, r.trace, k);
    }
  }

  /** The field `slot` of `ctx` is non-null, the default hook hands it
      back, and writing it back leaves `ctx` as it is. */
  ghost predicate DefaultKeeps<T>(slot: Slot<T>, ctx: Context)
  {
    && slot.get(ctx).Some?
    && (forall a :: slot.call(DefaultInterceptor(), ctx, a) == HookResult(Success(slot.get(ctx)), a))
    && slot.put(ctx, slot.get(ctx).value) == ctx
  }

  /** Along a modify loop of default interceptors over a non-null field
      every turn receives the attributes the loop started with. */
  lemma {:induction false} QuietModifyAttrs<T>(slot: Slot<T>, n: nat, order: seq<nat>, ctx: Context, attrs: Attributes,
                                               acc: Context, r: Run<Context>, normalized: bool, k: nat)
    requires InRange(order, n) && DefaultKeeps(slot, ctx)
    requires Modified(slot, Defaults(n), order, ctx, attrs, acc, r, normalized)
    requires k < |r.trace|
    ensures AttrsIn(r.trace[k]) == attrs
  {
    if k > 0 {
      QuietModifyAttrs(slot, n, order, ctx, attrs, acc, r, normalized, k - 1);
      assert ModifyPassed(slot, Defaults(n), order, ctx, r.trace, k - 1);
      assert Defaults(n)[order[k - 1]] == DefaultInterceptor();
    }
  }

  /** A modify checkpoint of default interceptors over a non-null field
      passes every validation and returns the context unchanged (`acc`
      when there is no interceptor), with the attributes as they were. */
  lemma DefaultsModifyNothing<T>(slot: Slot<T>, n: nat, order: seq<nat>, ctx: Context, attrs: Attributes,
                                 acc: Context, r: Run<Context>, normalized: bool)
    requires InRange(order, n) && DefaultKeeps(slot, ctx)
    requires Modified(slot, Defaults(n), order, ctx, attrs, acc, r, normalized)
    ensures r.outcome == Success(if order == [] then acc else ctx) && r.attrs == attrs
    ensures r.trace == QuietTrace(order, slot.hook, Plain(ctx), attrs)
  {
    if |r.trace| > 0 {
      QuietModifyAttrs(slot, n, order, ctx, attrs, acc, r, normalized, |r.trace| - 1);
      assert Defaults(n)[order[|r.trace| - 1]] == DefaultInterceptor();
    }
    forall k | 0 <= k < |order|
      ensures r.trace[k] == QuietTrace(order, slot.hook, Plain(ctx), attrs)[k]
    {
      assert ModifyCallAt(order, slot.hook, ctx, r.trace, k);
      QuietModifyAttrs(slot, n, order, ctx, attrs, acc, r, normalized, k);
    }
  }

  /** The default modify hook of each slot hands back a non-null field
      unchanged. */
  lemma DefaultKeepsFields(ctx: Context)
    ensures DefaultKeeps(RequestSlot, ctx)
    ensures ctx.httpRequest.Some? ==> DefaultKeeps(HttpRequestSlot, ctx)
    ensures ctx.httpResponse.Some? ==> DefaultKeeps(HttpResponseSlot, ctx)
    ensures ctx.response.Some? ==> DefaultKeeps(ResponseSlot, ctx)
  {
  }

  /** Every modify checkpoint of a default chain keeps a context whose
      field is non-null. */
  lemma DefaultChainKeepsContext(n: nat, ctx: Context, attrs: Attributes)
    ensures var r := ModifyRequest(Chain(Defaults(n)), ctx, attrs); r.outcome == Success(ctx) && r.attrs == attrs
    ensures ctx.httpRequest.Some? ==>
              var r := ModifyHttpRequest(Chain(Defaults(n)), ctx, attrs); r.outcome == Success(ctx) && r.attrs == attrs
    ensures ctx.httpResponse.Some? ==>
              var r := ModifyHttpResponse(Chain(Defaults(n)), ctx, attrs); r.outcome == Success(ctx) && r.attrs == attrs
    ensures ctx.response.Some? ==>
              var r := ModifyResponse(Chain(Defaults(n)), ctx, attrs); r.outcome == Success(ctx) && r.attrs == attrs
  {
    var c := Chain(Defaults(n));
    DefaultKeepsFields(ctx);
    KeepsVia(RequestSlot, n, Forward(n), ctx, attrs);
    if ctx.httpRequest.Some? {
      KeepsVia(HttpRequestSlot, n, Forward(n), ctx, attrs);
    }
    if ctx.httpResponse.Some? {
      KeepsVia(HttpResponseSlot, n, Reverse(n), ctx, attrs);
    }
    if ctx.response.Some? {
      KeepsVia(ResponseSlot, n, Reverse(n), ctx, attrs);
    }
  }

  /** A modify checkpoint of a default chain over a field the default hook
      keeps returns the context unchanged. */
  lemma KeepsVia<T>(slot: Slot<T>, n: nat, order: seq<nat>, ctx: Context, attrs: Attributes)
    requires InRange(order, n) && DefaultKeeps(slot, ctx)
    ensures var r := ModifyCheckpoint(slot, Chain(Defaults(n)), order, ctx, attrs);
            r.outcome == Success(ctx) && r.attrs == attrs && r.trace == QuietTrace(order, slot.hook, Plain(ctx), attrs)
  {
    DefaultsModifyNothing(slot, n, order, ctx, attrs, ctx, ModifyCheckpoint(slot, Chain(Defaults(n)), order, ctx, attrs), true);
  }

  /** Over a null field the default modify hook returns null, so the first
      interceptor visited fails validation and no other is called: the
      first registered one for the HTTP request, the last registered one
      for the HTTP response and the response. */
  lemma DefaultChainRejectsNullHttpRequest(n: nat, ctx: Context, attrs: Attributes)
    requires n > 0
    ensures ctx.httpRequest.None? ==>
              ModifyHttpRequest(Chain(Defaults(n)), ctx, attrs)
              == Run(Failure(InterceptorFailure(Some(NullResult(0, Checkpoints.ModifyHttpRequest)))), attrs,
                     [Called(0, Checkpoints.ModifyHttpRequest, Plain(ctx), attrs)])
  {
    assert Defaults(n)[0] == DefaultInterceptor();
  }

  lemma DefaultChainRejectsNullHttpResponse(n: nat, ctx: Context, attrs: Attributes)
    requires n > 0
    ensures ctx.httpResponse.None? ==>
              ModifyHttpResponse(Chain(Defaults(n)), ctx, attrs)
              == Run(Failure(InterceptorFailure(Some(NullResult(n - 1, Checkpoints.ModifyHttpResponse)))), attrs,
                     [Called(n - 1, Checkpoints.ModifyHttpResponse, Plain(ctx), attrs)])
  {
    assert Defaults(n)[n - 1] == DefaultInterceptor();
  }

  lemma DefaultChainRejectsNullResponse(n: nat, ctx: Context, attrs: Attributes)
    requires n > 0
    ensures ctx.response.None? ==>
              ModifyResponse(Chain(Defaults(n)), ctx, attrs)
              == Run(Failure(InterceptorFailure(Some(NullResult(n - 1, Checkpoints.ModifyResponse)))), attrs,
                     [Called(n - 1, Checkpoints.ModifyResponse, Plain(ctx), attrs)])
  {
    assert Defaults(n)[n - 1] == DefaultInterceptor();
  }
}
