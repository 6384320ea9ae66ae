/** `AcceptJsonInterceptor` of the CloudWatch Logs client: a modify hook
    that rebuilds the HTTP request with the header `Accept:
    application/json` and overrides nothing else. */
module AcceptJson {
  import opened Wrappers
  import opened HeaderNames
  import opened HttpRequest
  import opened Values
  import opened Exceptions
  import opened Interceptors
  import opened Events
  import Checkpoints
  import Chain

  const ACCEPT: string := "Accept"
  const APPLICATION_JSON: string := "application/json"

  /** The request has no Accept header filed under a spelling other than
      `Accept`. */
  predicate NoOtherAccept(r: Request)
  {
    Fold(ACCEPT) in r.headers ==> r.headers[Fold(ACCEPT)].name == ACCEPT
  }

  /** `toBuilder().header("Accept", "application/json").build()`. */
  function AddAcceptJson(r: Request): (s: Request)
    ensures s.resourcePath == r.resourcePath && s.endpoint == r.endpoint
    ensures s.httpMethod == r.httpMethod && s.content == r.content
    ensures s.queryParameters == r.queryParameters
    ensures Fold(ACCEPT) in s.headers
    ensures forall f :: f != Fold(ACCEPT) ==> (f in s.headers <==> f in r.headers)
    ensures forall f :: f != Fold(ACCEPT) && f in r.headers ==> s.headers[f] == r.headers[f]
  {
    var b := ToBuilder(r);
    BuildToBuilder(r);
    SetHeaderKeepsOthers(b, ACCEPT, [APPLICATION_JSON]);
    Build(SetHeader(b, ACCEPT, [APPLICATION_JSON]))
  }

  /** Without a differently spelled Accept header, the result's Accept
      header is exactly `application/json` under the name `Accept`, every
      other header is untouched, and the result again has no differently
      spelled Accept header. */
  lemma AddAcceptJsonSetsAccept(r: Request)
    requires NoOtherAccept(r)
    ensures AddAcceptJson(r).headers == r.headers[Fold(ACCEPT) := Header(ACCEPT, [APPLICATION_JSON])]
    ensures ValuesForHeader(AddAcceptJson(r), ACCEPT) == Some([APPLICATION_JSON])
    ensures NoOtherAccept(AddAcceptJson(r))
  {
    var b := ToBuilder(r);
    BuildToBuilder(r);
    OnlyAcceptKey(r);
    SetHeaderFiles(b, ACCEPT, [APPLICATION_JSON]);
  }

  /** Copied into a builder, a request with no differently spelled Accept
      header has no builder key other than `Accept` that folds like it. */
  lemma OnlyAcceptKey(r: Request)
    requires NoOtherAccept(r)
    ensures forall k :: k in ToBuilder(r).headers && Fold(k) == Fold(ACCEPT) ==> k == ACCEPT
  {
    forall k | k in ToBuilder(r).headers && Fold(k) == Fold(ACCEPT)
      ensures k == ACCEPT
    {
      var f :| f in r.headers && r.headers[f].name == k;
    }
  }

  /** Re-filing an entry that is already there changes nothing. */
  lemma RefileSame(m: map<string, Header>, k: string, v: Header)
    requires k in m && m[k] == v
    ensures m[k := v] == m
  {
  }

  /** Adding the header twice is adding it once. */
  lemma AddAcceptJsonIdempotent(r: Request)
    requires NoOtherAccept(r)
    ensures AddAcceptJson(AddAcceptJson(r)) == AddAcceptJson(r)
  {
    var s := AddAcceptJson(r);
    AddAcceptJsonSetsAccept(r);
    AddAcceptJsonSetsAccept(s);
    RefileSame(s.headers, Fold(ACCEPT), Header(ACCEPT, [APPLICATION_JSON]));
  }

  /** The interceptor's `modifyHttpRequest`: dereferencing a null HTTP
      request throws, otherwise the rebuilt request is a
      `DefaultSdkHttpFullRequest`. */
  function ModifyHttpRequest(c: Context, a: Attributes): (h: HookResult<Option<WireRequest>>)
    ensures h.attrs == a
    ensures h.outcome.Failure? <==> c.httpRequest.None?
    ensures h.outcome.Failure? ==> h.outcome.error == NullPointer("httpRequest")
    ensures h.outcome.Success? ==>
              h.outcome.value == Some(WireRequest(DefaultRequestClass, AddAcceptJson(c.httpRequest.value.request)))
  {
    match c.httpRequest
    case None => HookResult(Failure(NullPointer("httpRequest")), a)
    case Some(w) => HookResult(Success(Some(WireRequest(DefaultRequestClass, AddAcceptJson(w.request)))), a)
  }

  /** The interceptor: the default for every hook but `modifyHttpRequest`. */
  function AcceptJsonInterceptor(): (i: Interceptor)
    ensures forall hook, arg, a | Fits(hook, arg) :: InvokeRead(i, hook, arg, a) == HookResult(Success(()), a)
    ensures forall c: Context, a :: i.modifyRequest(c, a) == HookResult(Success(Some(c.request)), a)
    ensures forall c: Context, a :: i.modifyHttpRequest(c, a) == ModifyHttpRequest(c, a)
    ensures forall c: Context, a :: i.modifyHttpResponse(c, a) == HookResult(Success(c.httpResponse), a)
    ensures forall c: Context, a :: i.modifyResponse(c, a) == HookResult(Success(c.response), a)
  {
    DefaultInterceptor().(modifyHttpRequest := (c: Context, a: Attributes) => ModifyHttpRequest(c, a))
  }

  /** Registered alone, the interceptor turns a `DefaultSdkHttpFullRequest`
      into the same request with the Accept header set: its result passes
      validation, the call is its only one, and the rest of the context and
      the attributes are unchanged. */
  lemma AcceptJsonChainRewrites(ctx: Context, attrs: Attributes)
    requires ctx.httpRequest.Some? && ctx.httpRequest.value.cls == DefaultRequestClass
    ensures var r := Chain.ModifyHttpRequest(Chain.Chain([AcceptJsonInterceptor()]), ctx, attrs);
            && r.outcome.Success?
            && r.outcome.value.httpRequest == Some(WireRequest(DefaultRequestClass, AddAcceptJson(ctx.httpRequest.value.request)))
            && r.outcome.value.request == ctx.request
            && r.outcome.value.httpResponse == ctx.httpResponse && r.outcome.value.response == ctx.response
            && r.attrs == attrs
            && r.trace == [Called(0, Checkpoints.ModifyHttpRequest, Plain(ctx), attrs)]
  {
  }

  /** Over a context with no HTTP request the interceptor's failure is
      reported as an `ExecutionInterceptorException` caused by it. */
  lemma AcceptJsonChainNullRequest(ctx: Context, attrs: Attributes)
    requires ctx.httpRequest.None?
    ensures Chain.ModifyHttpRequest(Chain.Chain([AcceptJsonInterceptor()]), ctx, attrs).outcome
            == Failure(InterceptorFailure(Some(NullPointer("httpRequest"))))
  {
  }
}
