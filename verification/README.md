# Interceptor pipeline of the AWS SDK for Java v2 request-execution core

This project is a Dafny model of the execution-interceptor pipeline. The pipeline decides:

- in what order user extensions (`ExecutionInterceptor`s) are called during one API call;
- which value each extension may replace;
- what is reported when something fails.

Every part is a pure function over immutable values. A Java `null` is `None`, and an exception is a `Failure`. Each checkpoint returns a `Run`: an outcome, the execution attributes as they stand afterwards, and an event trace. Each trace entry records:

- the interceptor's index;
- the hook;
- the context it was given;
- the attributes it saw.

The modules follow the source classes:

- `Chain` — `ExecutionInterceptorChain`. It covers the thirteen checkpoints and both visiting orders (registration order and `reverseForEach`). It also covers `validateInterceptorResult` and `tryOrThrowInterceptorException`. A modify loop is written once over a `Slot` (the field's getter, setter, runtime class and hook) and is used for the four modify checkpoints.
- `Interceptors` — `ExecutionInterceptor`. An interceptor is a record of thirteen hook functions, and `DefaultInterceptor` holds the interface's default methods.
- `ChainDefaults` — what a chain of default interceptors does at each checkpoint.
- `InterceptorContext` — `DefaultInterceptorContext` and its builder.
- `FlatFailedContext` and `FailedContext` — the two `DefaultFailedExecutionInterceptorContext` classes: the flat one and the one that wraps a `DefaultInterceptorContext`.
- `HttpRequest`, `HeaderNames` and `QueryParams` — `DefaultSdkHttpFullRequest` and its builder:
  - the built header map is keyed by the ASCII case-folded name, so lookups are case-insensitive;
  - query parameters are an insertion-ordered list of distinct names, with `LinkedHashMap` semantics.
- `AcceptJson` — the `AcceptJsonInterceptor` of the CloudWatch Logs client.
- `AsyncHandler` — `AsyncClientHandlerImpl.execute`. It models the checkpoints run on the caller's thread, marshalling, the metrics timers and the completion continuation. The transport is an abstract function from the wire request to a `Completion`. `HandlerTrace` gives every event a phase, so that "in this order" and "exactly once" can be stated per phase.
- `Lifecycle` — one whole execution: `execute`'s caller-thread stages, then the HTTP layer's checkpoints (from `beforeTransmission` to `modifyResponse`) with abstract transmission and unmarshalling stages between them, then `execute`'s continuation. It agrees with `AsyncHandler` when the HTTP layer is the transport, and it states what the protocol test `ExecutionInterceptorTest` expects, for any chain, on the success path and on a service error.

Where the code and its documented design differ, the model follows the code:

- Every interceptor in a modify loop is given the **original** context, not the previous interceptor's output. Each result is also validated against the original field. A modify checkpoint therefore returns the input context with one field set to the last-visited interceptor's value.
- `afterUnmarshalling` is not wrapped in exception normalisation, so a runtime exception from it propagates unwrapped.
- In `execute`, exceptions from `beforeExecution`, `modifyRequest`, `afterMarshalling` and `modifyHttpRequest` propagate synchronously. No `onExecutionFailure` runs for them, and the `ClientExecuteTime` timer that was started is never ended. Only a failure of `beforeMarshalling` or of the marshaller ends the client execution before rethrowing.
- `tryOrThrowInterceptorException` and `execute`'s `catch (Exception e)` catch only exceptions, so a `java.lang.Error` (`Fatal` in the model) passes through both unchanged.

## Model

| member | source | states |
|---|---|---|
| Chain.New | core/src/main/java/software/amazon/awssdk/interceptor/ExecutionInterceptorChain.java:33-35 | a null list is rejected with a null-pointer error; any other list becomes the chain's fixed interceptor list |
| Chain.Forward | core/src/main/java/software/amazon/awssdk/interceptor/ExecutionInterceptorChain.java:37-39 | the registration order visits every index exactly once, index k at position k |
| Chain.Reverse | core/src/main/java/software/amazon/awssdk/interceptor/ExecutionInterceptorChain.java:154-158 | `reverseForEach` visits every index exactly once, index n-1-k at position k |
| Chain.TryOrThrow | core/src/main/java/software/amazon/awssdk/interceptor/ExecutionInterceptorChain.java:137-152 | success passes through; a failure is replaced by its normalised form; attributes and trace are untouched |
| Exceptions.Normalize | core/src/main/java/software/amazon/awssdk/interceptor/ExecutionInterceptorChain.java:137-145 | an `ExecutionInterceptorException` or an `Error` is kept as it is; any other runtime exception is wrapped exactly once with itself as cause, so nothing is double-wrapped |
| Chain.Visit | core/src/main/java/software/amazon/awssdk/interceptor/ExecutionInterceptorChain.java:37-39 | a read loop calls the interceptors in the given order, each at most once, all with the same context; attributes are threaded from call to call; the loop stops at the first failure and reports it unnormalised |
| Chain.ObservedCons | core/src/main/java/software/amazon/awssdk/interceptor/ExecutionInterceptorChain.java:37-39 | one successful call followed by a run that satisfies the read contract on the rest of the order is itself such a run |
| Chain.ObservedNormalized | core/src/main/java/software/amazon/awssdk/interceptor/ExecutionInterceptorChain.java:137-145 | wrapping a read loop in exception normalisation keeps every call and changes only how the stopping failure is reported |
| Chain.ReadCheckpoint | core/src/main/java/software/amazon/awssdk/interceptor/ExecutionInterceptorChain.java:37-39 | a normalised read checkpoint satisfies the read contract with normalised failures |
| Chain.BeforeExecution | core/src/main/java/software/amazon/awssdk/interceptor/ExecutionInterceptorChain.java:37-39 | every interceptor is called once in registration order with the same context until one fails; the failure is normalised |
| Chain.BeforeMarshalling | core/src/main/java/software/amazon/awssdk/interceptor/ExecutionInterceptorChain.java:54-56 | registration order, each interceptor once, the same context, normalised failure |
| Chain.AfterMarshalling | core/src/main/java/software/amazon/awssdk/interceptor/ExecutionInterceptorChain.java:58-60 | registration order, each interceptor once, the same context, normalised failure |
| Chain.BeforeTransmission | core/src/main/java/software/amazon/awssdk/interceptor/ExecutionInterceptorChain.java:76-78 | registration order, each interceptor once, the same context, normalised failure |
| Chain.AfterTransmission | core/src/main/java/software/amazon/awssdk/interceptor/ExecutionInterceptorChain.java:80-82 | reverse registration order, each interceptor once, the same context, normalised failure |
| Chain.BeforeUnmarshalling | core/src/main/java/software/amazon/awssdk/interceptor/ExecutionInterceptorChain.java:98-100 | reverse registration order, each interceptor once, the same context, normalised failure |
| Chain.AfterUnmarshalling | core/src/main/java/software/amazon/awssdk/interceptor/ExecutionInterceptorChain.java:102-104 | reverse registration order, each interceptor once; a failure propagates raw, without normalisation |
| Chain.AfterExecution | core/src/main/java/software/amazon/awssdk/interceptor/ExecutionInterceptorChain.java:119-121 | reverse registration order, each interceptor once, the same context, normalised failure |
| Chain.OnExecutionFailure | core/src/main/java/software/amazon/awssdk/interceptor/ExecutionInterceptorChain.java:123-125 | registration order, each interceptor once, the same failed context, normalised failure |
| Chain.Validate | core/src/main/java/software/amazon/awssdk/interceptor/ExecutionInterceptorChain.java:127-135 | a result is accepted iff it is non-null, the original is non-null and the result is an instance of the original's runtime class; a null result gives the null-result error; every rejection is a runtime exception other than `ExecutionInterceptorException` |
| Chain.ModifyLoop | core/src/main/java/software/amazon/awssdk/interceptor/ExecutionInterceptorChain.java:41-52 | every interceptor visited is given the original context and attributes threaded from the previous call; the loop stops at the first failed or rejected result; on success the result is the input context with the field set to the last-visited interceptor's value |
| Chain.ModifiedCons | core/src/main/java/software/amazon/awssdk/interceptor/ExecutionInterceptorChain.java:43-50 | one accepted modification followed by a run that satisfies the modify contract on the rest of the order is itself such a run |
| Chain.ModifiedNormalized | core/src/main/java/software/amazon/awssdk/interceptor/ExecutionInterceptorChain.java:137-145 | normalising a modify loop keeps its calls and its result and changes only how the stopping failure is reported |
| Chain.ModifyCheckpoint | core/src/main/java/software/amazon/awssdk/interceptor/ExecutionInterceptorChain.java:41-52 | a normalised modify checkpoint satisfies the modify contract; with no interceptors it returns the context unchanged |
| Chain.ModifyRequest | core/src/main/java/software/amazon/awssdk/interceptor/ExecutionInterceptorChain.java:41-52 | registration order; each interceptor gets the original context; on success only `request` may differ from the input |
| Chain.ModifyHttpRequest | core/src/main/java/software/amazon/awssdk/interceptor/ExecutionInterceptorChain.java:62-74 | registration order; each interceptor gets the original context; on success only `httpRequest` may differ, and it stays non-null |
| Chain.ModifyHttpResponse | core/src/main/java/software/amazon/awssdk/interceptor/ExecutionInterceptorChain.java:84-96 | reverse order; each interceptor gets the original context; on success only `httpResponse` may differ, and a present HTTP response stays present |
| Chain.ModifyResponse | core/src/main/java/software/amazon/awssdk/interceptor/ExecutionInterceptorChain.java:106-117 | reverse order; each interceptor gets the original context; on success only `response` may differ, and a present response stays present |
| Interceptors.DefaultInterceptor | core/src/main/java/software/amazon/awssdk/interceptor/ExecutionInterceptor.java:68-118 | every default read hook, `onExecutionFailure` included, succeeds and leaves the attributes alone; each default modify hook returns its own field unchanged |
| Interceptors.Defaults | core/src/main/java/software/amazon/awssdk/interceptor/ExecutionInterceptor.java:68-118 | a list of n interceptors, each of them the default interceptor |
| ChainDefaults.DefaultsObserveNothing | core/src/main/java/software/amazon/awssdk/interceptor/ExecutionInterceptor.java:68-118 | a read checkpoint over default interceptors succeeds, keeps the attributes and calls each interceptor once with the same context and attributes |
| ChainDefaults.QuietReadAttrs | core/src/main/java/software/amazon/awssdk/interceptor/ExecutionInterceptor.java:68-70 | every call in such a read run sees the initial attributes |
| ChainDefaults.DefaultsModifyNothing | core/src/main/java/software/amazon/awssdk/interceptor/ExecutionInterceptor.java:72-110 | when each default hook returns its field and validation accepts it, a modify loop returns the input context unchanged after calling every interceptor once |
| ChainDefaults.QuietModifyAttrs | core/src/main/java/software/amazon/awssdk/interceptor/ExecutionInterceptor.java:72-74 | every call in such a modify run sees the initial attributes |
| ChainDefaults.DefaultKeepsFields | core/src/main/java/software/amazon/awssdk/interceptor/ExecutionInterceptorChain.java:127-135 | a default modify hook's result passes validation whenever the field is non-null (`request` always is) |
| ChainDefaults.DefaultChainKeepsContext | core/src/main/java/software/amazon/awssdk/interceptor/ExecutionInterceptor.java:72-110 | each modify checkpoint of a default-only chain returns the context unchanged with the same attributes, provided its field is non-null |
| ChainDefaults.KeepsVia | core/src/main/java/software/amazon/awssdk/interceptor/ExecutionInterceptorChain.java:41-52 | in either order, a default-only modify checkpoint on a non-null field keeps the context and the attributes and calls each interceptor once |
| ChainDefaults.DefaultChainRejectsNullHttpRequest | core/src/main/java/software/amazon/awssdk/interceptor/ExecutionInterceptorChain.java:127-131 | with `httpRequest` null, the first default interceptor's result fails validation and the checkpoint stops there with a wrapped null-result error |
| ChainDefaults.DefaultChainRejectsNullHttpResponse | core/src/main/java/software/amazon/awssdk/interceptor/ExecutionInterceptorChain.java:127-131 | with `httpResponse` null, the last-registered interceptor, which is visited first, fails validation and nothing else is called |
| ChainDefaults.DefaultChainRejectsNullResponse | core/src/main/java/software/amazon/awssdk/interceptor/ExecutionInterceptorChain.java:127-131 | with `response` null, the last-registered interceptor fails validation and nothing else is called |
| InterceptorContext.Build | core/src/main/java/software/amazon/awssdk/interceptor/DefaultInterceptorContext.java:39-44 | building succeeds iff `request` is non-null; the getters then return exactly the builder's four values |
| InterceptorContext.NewBuilder | core/src/main/java/software/amazon/awssdk/interceptor/DefaultInterceptorContext.java:46-48 | a fresh builder cannot be built; given only a request it builds a context whose other three fields are absent |
| InterceptorContext.ToBuilder | core/src/main/java/software/amazon/awssdk/interceptor/DefaultInterceptorContext.java:50-53 | `toBuilder().build()` gives back the same context |
| InterceptorContext.ToBuilderOfBuild | core/src/main/java/software/amazon/awssdk/interceptor/DefaultInterceptorContext.java:83-88 | copying a built context into a builder reproduces the builder it was built from |
| InterceptorContext.SetRequest | core/src/main/java/software/amazon/awssdk/interceptor/DefaultInterceptorContext.java:90-93 | the setter changes `request` only |
| InterceptorContext.SetHttpRequest | core/src/main/java/software/amazon/awssdk/interceptor/DefaultInterceptorContext.java:95-98 | the setter changes `httpRequest` only |
| InterceptorContext.SetHttpResponse | core/src/main/java/software/amazon/awssdk/interceptor/DefaultInterceptorContext.java:100-103 | the setter changes `httpResponse` only |
| InterceptorContext.SetResponse | core/src/main/java/software/amazon/awssdk/interceptor/DefaultInterceptorContext.java:105-108 | the setter changes `response` only |
| InterceptorContext.ReplaceRequest | core/src/main/java/software/amazon/awssdk/interceptor/ExecutionInterceptorChain.java:45-51 | `toBuilder().request(v).build()` sets `request` and keeps the other three fields |
| InterceptorContext.ReplaceHttpRequest | core/src/main/java/software/amazon/awssdk/interceptor/ExecutionInterceptorChain.java:66-73 | `toBuilder().httpRequest(v).build()` sets `httpRequest` and keeps the other three fields |
| InterceptorContext.ReplaceHttpResponse | core/src/main/java/software/amazon/awssdk/interceptor/ExecutionInterceptorChain.java:88-95 | `toBuilder().httpResponse(v).build()` sets `httpResponse` and keeps the other three fields |
| InterceptorContext.ReplaceResponse | core/src/main/java/software/amazon/awssdk/interceptor/ExecutionInterceptorChain.java:109-116 | `toBuilder().response(v).build()` sets `response` and keeps the other three fields |
| FlatFailedContext.Build | core/src/main/java/software/amazon/awssdk/interceptor/DefaultFailedExecutionInterceptorContext.java:38-44 | building succeeds iff `request` and `exception` are both non-null; a missing request is reported before a missing exception; the built fields equal the builder's |
| FlatFailedContext.NewBuilder | core/src/main/java/software/amazon/awssdk/interceptor/DefaultFailedExecutionInterceptorContext.java:46-48 | a fresh builder cannot be built; given a request and an exception it builds a context with the three optional fields absent |
| FlatFailedContext.ToBuilder | core/src/main/java/software/amazon/awssdk/interceptor/DefaultFailedExecutionInterceptorContext.java:50-53 | `toBuilder().build()` gives back the same context |
| FlatFailedContext.ToBuilderOfBuild | core/src/main/java/software/amazon/awssdk/interceptor/DefaultFailedExecutionInterceptorContext.java:87-93 | copying a built context into a builder preserves all five fields |
| FlatFailedContext.HttpRequestView | core/src/main/java/software/amazon/awssdk/interceptor/DefaultFailedExecutionInterceptorContext.java:59-61 | present iff the field is non-null, and then equal to it |
| FlatFailedContext.HttpResponseView | core/src/main/java/software/amazon/awssdk/interceptor/DefaultFailedExecutionInterceptorContext.java:63-65 | present iff the field is non-null, and then equal to it |
| FlatFailedContext.ResponseView | core/src/main/java/software/amazon/awssdk/interceptor/DefaultFailedExecutionInterceptorContext.java:67-69 | present iff the field is non-null, and then equal to it |
| FlatFailedContext.SetRequest | core/src/main/java/software/amazon/awssdk/interceptor/DefaultFailedExecutionInterceptorContext.java:95-98 | changes `request` only |
| FlatFailedContext.SetHttpRequest | core/src/main/java/software/amazon/awssdk/interceptor/DefaultFailedExecutionInterceptorContext.java:100-103 | changes `httpRequest` only |
| FlatFailedContext.SetHttpResponse | core/src/main/java/software/amazon/awssdk/interceptor/DefaultFailedExecutionInterceptorContext.java:105-108 | changes `httpResponse` only |
| FlatFailedContext.SetResponse | core/src/main/java/software/amazon/awssdk/interceptor/DefaultFailedExecutionInterceptorContext.java:110-113 | changes `response` only |
| FlatFailedContext.SetException | core/src/main/java/software/amazon/awssdk/interceptor/DefaultFailedExecutionInterceptorContext.java:115-118 | changes `exception` only |
| FailedContext.Build | core/src/main/java/software/amazon/awssdk/interceptor/context/DefaultFailedExecutionInterceptorContext.java:36-39 | building succeeds iff the wrapped context and the exception are both non-null; the wrapped context is checked first |
| FailedContext.NewBuilder | core/src/main/java/software/amazon/awssdk/interceptor/context/DefaultFailedExecutionInterceptorContext.java:41-43 | a fresh builder fails for the missing interceptor context |
| FailedContext.ToBuilder | core/src/main/java/software/amazon/awssdk/interceptor/context/DefaultFailedExecutionInterceptorContext.java:45-48 | `toBuilder().build()` gives back the same failed context |
| FailedContext.ToBuilderOfBuild | core/src/main/java/software/amazon/awssdk/interceptor/context/DefaultFailedExecutionInterceptorContext.java:84-87 | copying a built failed context into a builder preserves both fields |
| FailedContext.SetContext | core/src/main/java/software/amazon/awssdk/interceptor/context/DefaultFailedExecutionInterceptorContext.java:89-92 | changes the wrapped context only |
| FailedContext.SetException | core/src/main/java/software/amazon/awssdk/interceptor/context/DefaultFailedExecutionInterceptorContext.java:94-97 | changes the exception only |
| FailedContext.Of | core/src/main/java/software/amazon/awssdk/interceptor/context/DefaultFailedExecutionInterceptorContext.java:36-39 | a failed context built from a context and an exception reports that context's four fields and that exception |
| FailedContext.Request | core/src/main/java/software/amazon/awssdk/interceptor/context/DefaultFailedExecutionInterceptorContext.java:50-53 | delegates to the wrapped context's request, which is never null |
| FailedContext.HttpRequest | core/src/main/java/software/amazon/awssdk/interceptor/context/DefaultFailedExecutionInterceptorContext.java:55-58 | present iff the wrapped context's `httpRequest` is non-null, and then equal to it |
| FailedContext.HttpResponse | core/src/main/java/software/amazon/awssdk/interceptor/context/DefaultFailedExecutionInterceptorContext.java:60-63 | present iff the wrapped context's `httpResponse` is non-null, and then equal to it |
| FailedContext.Response | core/src/main/java/software/amazon/awssdk/interceptor/context/DefaultFailedExecutionInterceptorContext.java:65-68 | present iff the wrapped context's `response` is non-null, and then equal to it |
| FailedContext.ExceptionOf | core/src/main/java/software/amazon/awssdk/interceptor/context/DefaultFailedExecutionInterceptorContext.java:70-73 | returns the exception it was built with |
| FailedContext.OnlyRequestAllAbsent | core/src/main/java/software/amazon/awssdk/interceptor/context/DefaultFailedExecutionInterceptorContext.java:55-68 | a failed context over a context holding only a request reports all three optional fields absent |
| HttpRequest.NewBuilder | core/src/main/java/software/amazon/awssdk/http/DefaultSdkHttpFullRequest.java:109-117 | a request built from a fresh builder has no header under any name and no query parameters |
| HttpRequest.SetHeader | core/src/main/java/software/amazon/awssdk/http/DefaultSdkHttpFullRequest.java:123-126 | `header(k, vs)` maps exactly k to vs, adding or replacing it; every other key and the rest of the builder are unchanged |
| HttpRequest.SetHeaders | core/src/main/java/software/amazon/awssdk/http/DefaultSdkHttpFullRequest.java:129-132 | `headers(m)` replaces the whole header map and nothing else |
| HttpRequest.SetQueryParameter | core/src/main/java/software/amazon/awssdk/http/DefaultSdkHttpFullRequest.java:151-154 | `queryParameter(k, vs)` maps k to vs, keeps every other name with its values, keeps a replaced name at its position and appends a new name at the end |
| HttpRequest.SetQueryParameters | core/src/main/java/software/amazon/awssdk/http/DefaultSdkHttpFullRequest.java:157-160 | `queryParameters(ps)` replaces the parameter list and nothing else |
| HttpRequest.RemoveQueryParameter | core/src/main/java/software/amazon/awssdk/http/DefaultSdkHttpFullRequest.java:162-166 | `removeQueryParameter(k)` removes exactly k: k is absent afterwards, the others keep their values and order, and an absent k leaves the builder unchanged |
| HttpRequest.ClearQueryParameters | core/src/main/java/software/amazon/awssdk/http/DefaultSdkHttpFullRequest.java:168-172 | `clearQueryParameters()` leaves no parameter and changes nothing else |
| HttpRequest.FoldHeaders | core/src/main/java/software/amazon/awssdk/http/DefaultSdkHttpFullRequest.java:45 | the built header map holds one entry per case-folded name, filed under one of the builder's spellings; when the builder's keys are distinct up to case, each entry holds that spelling's own values |
| HttpRequest.Build | core/src/main/java/software/amazon/awssdk/http/DefaultSdkHttpFullRequest.java:44-51 | the built request keeps the resource path, endpoint, method, content and query parameters in insertion order |
| HttpRequest.BuildLookup | core/src/main/java/software/amazon/awssdk/http/DefaultSdkHttpFullRequest.java:58-61 | a header lookup on a built request finds a value iff some builder key equals the name up to case; with case-distinct keys it returns that key's values |
| HttpRequest.ToBuilder | core/src/main/java/software/amazon/awssdk/http/DefaultSdkHttpFullRequest.java:88-97 | `toBuilder` copies path, endpoint, method, content and query parameters, and yields case-distinct header keys |
| HttpRequest.BuildToBuilder | core/src/main/java/software/amazon/awssdk/http/DefaultSdkHttpFullRequest.java:88-97 | `toBuilder().build()` gives back the same request |
| HttpRequest.ToBuilderBuild | core/src/main/java/software/amazon/awssdk/http/DefaultSdkHttpFullRequest.java:88-97 | for a builder with case-distinct header keys, `build().toBuilder()` gives back the same builder |
| HttpRequest.SetHeaderKeepsOthers | core/src/main/java/software/amazon/awssdk/http/DefaultSdkHttpFullRequest.java:123-126 | after `header(k, vs)` the built request has a header for k, and every header of another name is unchanged |
| HttpRequest.SetHeaderFiles | core/src/main/java/software/amazon/awssdk/http/DefaultSdkHttpFullRequest.java:123-126 | when no other spelling of k is present, `header(k, vs)` files exactly (k, vs) under k's folded name in the built request |
| HttpRequest.FoldPut | core/src/main/java/software/amazon/awssdk/http/DefaultSdkHttpFullRequest.java:45 | case-folding a map after putting k equals putting k into the folded map, when k has no other spelling |
| HeaderNames.Fold | core/src/main/java/software/amazon/awssdk/http/DefaultSdkHttpFullRequest.java:45 | case-folding keeps the length and maps each ASCII upper-case letter to its lower-case letter, leaving every other character unchanged |
| HeaderNames.Least | core/src/main/java/software/amazon/awssdk/http/DefaultSdkHttpFullRequest.java:45 | the spelling kept for a folded header name is one of the builder's spellings, the least in ordinal order |
| QueryParams.Get | core/src/main/java/software/amazon/awssdk/http/DefaultSdkHttpFullRequest.java:114 | a lookup finds nothing iff the name is not in the list |
| QueryParams.Put | core/src/main/java/software/amazon/awssdk/http/DefaultSdkHttpFullRequest.java:114 | a put keeps the order of names and appends a new name at the end |
| QueryParams.PutGet | core/src/main/java/software/amazon/awssdk/http/DefaultSdkHttpFullRequest.java:151-154 | after a put, the name maps to the new values and every other name to its old values |
| QueryParams.Remove | core/src/main/java/software/amazon/awssdk/http/DefaultSdkHttpFullRequest.java:162-166 | a removal deletes the name from the name order and keeps the others in order |
| QueryParams.RemoveSpec | core/src/main/java/software/amazon/awssdk/http/DefaultSdkHttpFullRequest.java:162-166 | after a removal the name is absent and the others are unchanged; the list is the original with the one entry spliced out; an absent name changes nothing |
| AcceptJson.AddAcceptJson | services/logs/src/main/java/software/amazon/awssdk/services/logs/internal/AcceptJsonInterceptor.java:26-29 | the result has an Accept header; every other header, the path, endpoint, method, query parameters and content are carried over |
| AcceptJson.AddAcceptJsonSetsAccept | services/logs/src/main/java/software/amazon/awssdk/services/logs/internal/AcceptJsonInterceptor.java:26-29 | when the request has no Accept header under a spelling other than `Accept`, the Accept header of the result is exactly the single value `application/json`, under no other spelling |
| AcceptJson.AddAcceptJsonIdempotent | services/logs/src/main/java/software/amazon/awssdk/services/logs/internal/AcceptJsonInterceptor.java:26-29 | when no differently-cased Accept key is present, applying the rewrite twice equals applying it once |
| AcceptJson.ModifyHttpRequest | services/logs/src/main/java/software/amazon/awssdk/services/logs/internal/AcceptJsonInterceptor.java:25-30 | the hook fails with a null-pointer error iff the context has no HTTP request; otherwise it returns a `DefaultSdkHttpFullRequest` holding the rewritten request; attributes are untouched |
| AcceptJson.AcceptJsonInterceptor | services/logs/src/main/java/software/amazon/awssdk/services/logs/internal/AcceptJsonInterceptor.java:23-31 | every hook except `modifyHttpRequest` keeps the default behaviour |
| AcceptJson.AcceptJsonChainRewrites | core/src/main/java/software/amazon/awssdk/interceptor/ExecutionInterceptorChain.java:62-74 | a chain holding the interceptor accepts its result and replaces only the HTTP request with the rewritten one |
| AcceptJson.AcceptJsonChainNullRequest | core/src/main/java/software/amazon/awssdk/interceptor/ExecutionInterceptorChain.java:137-145 | with no HTTP request the interceptor's null-pointer error surfaces wrapped in `ExecutionInterceptorException` |
| AsyncHandler.Initial | core/src/main/java/software/amazon/awssdk/client/AsyncClientHandlerImpl.java:73-74 | the context of a fresh execution holds only the caller's request |
| AsyncHandler.BeforeExecutionSegment | core/src/main/java/software/amazon/awssdk/client/AsyncClientHandlerImpl.java:74 | the `beforeExecution` calls form one phase of the trace, all given the same context; a completed checkpoint calls every interceptor |
| AsyncHandler.ModifyRequestSegment | core/src/main/java/software/amazon/awssdk/client/AsyncClientHandlerImpl.java:75 | the same for `modifyRequest` |
| AsyncHandler.BeforeMarshallingSegment | core/src/main/java/software/amazon/awssdk/client/AsyncClientHandlerImpl.java:83 | the same for `beforeMarshalling` |
| AsyncHandler.AfterMarshallingSegment | core/src/main/java/software/amazon/awssdk/client/AsyncClientHandlerImpl.java:98 | the same for `afterMarshalling`; its first call sees the attributes it was given |
| AsyncHandler.ModifyHttpRequestSegment | core/src/main/java/software/amazon/awssdk/client/AsyncClientHandlerImpl.java:99 | the same for `modifyHttpRequest` |
| AsyncHandler.AfterExecutionSegment | core/src/main/java/software/amazon/awssdk/client/AsyncClientHandlerImpl.java:125 | the same for `afterExecution` |
| AsyncHandler.OnExecutionFailureSegment | core/src/main/java/software/amazon/awssdk/client/AsyncClientHandlerImpl.java:128 | the same for `onExecutionFailure`, given the failed context; with any interceptor, at least one call is made |
| AsyncHandler.PrepareShape | core/src/main/java/software/amazon/awssdk/client/AsyncClientHandlerImpl.java:73-75 | `beforeExecution` calls come before `modifyRequest` calls; both see the initial context; `modifyRequest` runs only after `beforeExecution` succeeded |
| AsyncHandler.MarshalStageOrder | core/src/main/java/software/amazon/awssdk/client/AsyncClientHandlerImpl.java:82-95 | the try block runs `beforeMarshalling` before the marshaller and always ends with the `RequestMarshallTime` end event |
| AsyncHandler.MarshalStageAt | core/src/main/java/software/amazon/awssdk/client/AsyncClientHandlerImpl.java:82-95 | the marshaller is called iff `beforeMarshalling` succeeded; the client execution is ended with null request and response iff one of them failed with a runtime exception (an `Error` is not caught); the timer end happens exactly once |
| AsyncHandler.MarshalStageResult | core/src/main/java/software/amazon/awssdk/client/AsyncClientHandlerImpl.java:82-95 | a failure of `beforeMarshalling` or of the marshaller is rethrown unchanged; the stage succeeds iff both succeed, and then returns the marshalled request with the configured endpoint and sets `SERVICE_NAME` to its service name |
| AsyncHandler.SendStage | core/src/main/java/software/amazon/awssdk/client/AsyncClientHandlerImpl.java:97-99 | a successful `afterMarshalling` and `modifyHttpRequest` over a context with an HTTP request leave it with one |
| AsyncHandler.SendStageShape | core/src/main/java/software/amazon/awssdk/client/AsyncClientHandlerImpl.java:97-99 | `afterMarshalling` calls come before `modifyHttpRequest` calls, and both see the context carrying the adapted HTTP request |
| AsyncHandler.TryBlockShape | core/src/main/java/software/amazon/awssdk/client/AsyncClientHandlerImpl.java:120-126 | a failed completion throws the converted failure without calling `afterExecution`; a successful one runs `afterExecution` and returns the response unchanged unless a hook fails |
| AsyncHandler.ContinuationTraceShape | core/src/main/java/software/amazon/awssdk/client/AsyncClientHandlerImpl.java:120-132 | the continuation's events are the `afterExecution` calls, then any `onExecutionFailure` calls, then the client-execution end as the last event |
| AsyncHandler.HandleTrace | core/src/main/java/software/amazon/awssdk/client/AsyncClientHandlerImpl.java:118-133 | the continuation never throws to the caller, and its trace is the try block, the failure hooks and the end event in that order |
| AsyncHandler.HooksPhased | core/src/main/java/software/amazon/awssdk/client/AsyncClientHandlerImpl.java:125-129 | the try block only calls `afterExecution`, and the catch block only calls `onExecutionFailure` |
| AsyncHandler.HandleShape | core/src/main/java/software/amazon/awssdk/client/AsyncClientHandlerImpl.java:118-133 | the continuation's trace is ordered, ends with `endClientExecution` on every path and contains exactly one such end |
| AsyncHandler.HandleEndsLast | core/src/main/java/software/amazon/awssdk/client/AsyncClientHandlerImpl.java:130-132 | the finally block's `endClientExecution` is the continuation's last event on every path |
| AsyncHandler.HandleOutcome | core/src/main/java/software/amazon/awssdk/client/AsyncClientHandlerImpl.java:118-133 | the future completes with the response if the try block succeeds; a runtime failure runs `onExecutionFailure` once and completes the future exceptionally with a `CompletionException` caused by that failure, or by the hooks' own failure if they fail; an `Error` becomes the cause without the hooks running |
| AsyncHandler.Adapted | core/src/main/java/software/amazon/awssdk/client/AsyncClientHandlerImpl.java:97 | the context given to `afterMarshalling` holds the modified request and the adapter's HTTP request |
| AsyncHandler.ExecuteStages | core/src/main/java/software/amazon/awssdk/client/AsyncClientHandlerImpl.java:70-134 | an execution's trace is the preparation, the timers and marshalling, the send stage, then transmission and the continuation; each part exists iff the parts before it succeeded |
| AsyncHandler.ExecuteOrdered | core/src/main/java/software/amazon/awssdk/client/AsyncClientHandlerImpl.java:74-99 | the events of an execution come in phase order: `beforeExecution`, `modifyRequest`, the timer starts, `beforeMarshalling`, marshal, the marshalling end, `afterMarshalling`, `modifyHttpRequest`, transmission, `afterExecution`, `onExecutionFailure`, client-execution end |
| AsyncHandler.ExecuteAt | core/src/main/java/software/amazon/awssdk/client/AsyncClientHandlerImpl.java:70-134 | each phase of an execution holds exactly the events of the stage that produces it, and a phase is empty when an earlier stage failed |
| AsyncHandler.TimersAt | core/src/main/java/software/amazon/awssdk/client/AsyncClientHandlerImpl.java:78-81 | `ClientExecuteTime` starts before `RequestMarshallTime` |
| AsyncHandler.ExecuteTimers | core/src/main/java/software/amazon/awssdk/client/AsyncClientHandlerImpl.java:78-95 | exactly one `ClientExecuteTime` start, one `RequestMarshallTime` start and one `RequestMarshallTime` end are recorded iff `beforeExecution` and `modifyRequest` succeeded, whether marshalling then succeeds or fails |
| AsyncHandler.ExecuteMarshals | core/src/main/java/software/amazon/awssdk/client/AsyncClientHandlerImpl.java:75-84 | the marshaller is called at most once, only after `beforeExecution`, `modifyRequest` and `beforeMarshalling` succeeded, and receives the request produced by `modifyRequest` |
| AsyncHandler.ExecuteEndsOnce | core/src/main/java/software/amazon/awssdk/client/AsyncClientHandlerImpl.java:82-92 | the client execution is ended with null request and response iff `beforeMarshalling` or the marshaller failed with a runtime exception; when `execute` throws there is no other end; when it returns a future the continuation's end is the only one; an execution never ends twice |
| AsyncHandler.ExecuteTransmits | core/src/main/java/software/amazon/awssdk/client/AsyncClientHandlerImpl.java:99-118 | when `execute` throws, the transport is never invoked; when it returns a future, every earlier stage succeeded and the transport was invoked exactly once, with the modified HTTP request |
| AsyncHandler.ExecuteEndsLast | core/src/main/java/software/amazon/awssdk/client/AsyncClientHandlerImpl.java:130-132 | when `execute` returns a future, the last event is the continuation's `endClientExecution` |
| AsyncHandler.ExecuteServiceName | core/src/main/java/software/amazon/awssdk/client/AsyncClientHandlerImpl.java:89-98 | the first `afterMarshalling` call happens only after marshalling succeeded, and sees `SERVICE_NAME` set to the marshalled request's service name |
| AsyncHandler.ExecuteShowsPrepared | core/src/main/java/software/amazon/awssdk/client/AsyncClientHandlerImpl.java:73-83 | `beforeExecution` and `modifyRequest` see the caller's untouched request; `beforeMarshalling` sees the modified one |
| AsyncHandler.ExecuteShowsSent | core/src/main/java/software/amazon/awssdk/client/AsyncClientHandlerImpl.java:97-99 | `afterMarshalling` and `modifyHttpRequest` see the context with the adapted HTTP request |
| AsyncHandler.CompletedPrepare | core/src/main/java/software/amazon/awssdk/client/AsyncClientHandlerImpl.java:74-75 | on a successful call every interceptor saw `beforeExecution` and `modifyRequest` |
| AsyncHandler.CompletedMarshal | core/src/main/java/software/amazon/awssdk/client/AsyncClientHandlerImpl.java:83-84 | on a successful call every interceptor saw `beforeMarshalling` and the request was marshalled exactly once |
| AsyncHandler.CompletedSend | core/src/main/java/software/amazon/awssdk/client/AsyncClientHandlerImpl.java:98-99 | on a successful call every interceptor saw `afterMarshalling` and `modifyHttpRequest` |
| AsyncHandler.CompletedContinuation | core/src/main/java/software/amazon/awssdk/client/AsyncClientHandlerImpl.java:125-129 | on a successful call every interceptor saw `afterExecution` and none saw `onExecutionFailure` |
| AsyncHandler.ExecuteOutcome | core/src/main/java/software/amazon/awssdk/client/AsyncClientHandlerImpl.java:70-134 | a failure before transmission is thrown by `execute` itself; otherwise the returned future completes as the continuation decides |
| HandlerTrace.ObservedCalls | core/src/main/java/software/amazon/awssdk/interceptor/ExecutionInterceptorChain.java:37-39 | a read checkpoint's calls form one phase with the same argument, one call per interceptor when it succeeds |
| HandlerTrace.ModifiedCalls | core/src/main/java/software/amazon/awssdk/interceptor/ExecutionInterceptorChain.java:41-52 | a modify checkpoint's calls form one phase, all given the input context, one per interceptor when it succeeds |
| Lifecycle.DocumentedHooks | core/src/main/java/software/amazon/awssdk/interceptor/ExecutionInterceptor.java:35-54 | the documented order names twelve distinct hooks: every hook except `onExecutionFailure` |
| Lifecycle.DefaultCheckpoint | core/src/main/java/software/amazon/awssdk/interceptor/ExecutionInterceptor.java:68-114 | any success checkpoint over default interceptors keeps the context and attributes and calls every interceptor once with them, provided the field it replaces is present |
| Lifecycle.LayerFollowsDocumentation | core/src/main/java/software/amazon/awssdk/interceptor/ExecutionInterceptor.java:42-49 | the checkpoints the HTTP layer runs are the documented hooks from `beforeTransmission` to `modifyResponse`, in the documented order |
| Lifecycle.CheckpointsUntilUnmarshal | core/src/main/java/software/amazon/awssdk/interceptor/ExecutionInterceptor.java:42-47 | up to the unmarshaller, the HTTP layer runs the sixth to ninth documented checkpoints |
| Lifecycle.ReadyLayer | core/src/main/java/software/amazon/awssdk/interceptor/ExecutionInterceptor.java:42-49 | from a context holding only the HTTP request, every HTTP-layer checkpoint comes after the stages that fill the fields it reads, and the layer fills the HTTP response and the response |
| Lifecycle.FillIn | core/src/main/java/software/amazon/awssdk/interceptor/ExecutionInterceptor.java:42-48 | a successful transmission or unmarshalling fills its own field, keeps the request and the HTTP request, and changes no other field's presence |
| Lifecycle.HttpCompletion | core/src/main/java/software/amazon/awssdk/client/AsyncClientHandlerImpl.java:118-120 | the HTTP layer's future completes normally exactly when its run passed, with the response that run left in its final context, which it hands on; otherwise it completes with the exception that stopped the run and the context current at that point |
| Lifecycle.StepsPassed | core/src/main/java/software/amazon/awssdk/interceptor/ExecutionInterceptor.java:35-51 | for any chain, a run of ready steps that passes keeps the request, fills the steps' fields and calls each checkpoint's hook once per interceptor, in step order |
| Lifecycle.DefaultSteps | core/src/main/java/software/amazon/awssdk/interceptor/ExecutionInterceptor.java:68-114 | with default interceptors and stages that succeed, a run of ready steps passes, keeps the attributes and the request, and every call sees those attributes and that request |
| Lifecycle.Execute | core/src/main/java/software/amazon/awssdk/client/AsyncClientHandlerImpl.java:73-99 | an execution throws exactly when a caller-thread stage fails, and then it is exactly what `execute` does, with no failure hook run |
| Lifecycle.ExecuteAgrees | core/src/main/java/software/amazon/awssdk/client/AsyncClientHandlerImpl.java:73-133 | the lifecycle execution and `execute` with the HTTP layer as transport have the same outcome and attributes; they throw exactly when a caller-thread stage failed, with identical events, and otherwise differ only by the HTTP layer's calls after the transmission event |
| Lifecycle.ExecuteReaches | core/src/main/java/software/amazon/awssdk/client/AsyncClientHandlerImpl.java:73-99 | an execution throws exactly when a caller-thread stage fails, and otherwise ends as the hand-over to the HTTP layer does, after the caller's events |
| Lifecycle.ExecuteThrows | core/src/main/java/software/amazon/awssdk/client/AsyncClientHandlerImpl.java:73-99 | a failure before transmission is thrown with only the first five documented hooks called and no `onExecutionFailure` call |
| Lifecycle.CallerHooks | core/src/main/java/software/amazon/awssdk/client/AsyncClientHandlerImpl.java:73-99 | when the request is handed on, each interceptor has seen the first five documented hooks, in order |
| Lifecycle.RemoteHooks | core/src/main/java/software/amazon/awssdk/client/AsyncClientHandlerImpl.java:118-133 | when the future completes normally, the HTTP layer's six documented hooks and then `afterExecution` were called once per interceptor |
| Lifecycle.ExecuteHooks | core/src/main/java/software/amazon/awssdk/interceptor/ExecutionInterceptor.java:35-51 | for any chain, an execution whose future completes normally called every documented hook once per interceptor, in the documented order, and no other hook |
| Lifecycle.SingleInterceptorLifecycle | test/protocol-tests/src/test/java/software/amazon/awssdk/protocol/tests/ExecutionInterceptorTest.java:233-246 | for any single interceptor, an execution that completes normally calls exactly the twelve documented hooks, each once, in the documented order |
| Lifecycle.HandleSeesResponse | core/src/main/java/software/amazon/awssdk/client/AsyncClientHandlerImpl.java:118-124 | the continuation completes normally only with the HTTP layer's response, and every `afterExecution` call it made was shown the context that layer completed with |
| Lifecycle.ExecuteSeesResponse | test/protocol-tests/src/test/java/software/amazon/awssdk/protocol/tests/ExecutionInterceptorTest.java:265-266 | for any chain, when the future completes normally, every `afterExecution` call was shown a context whose response is the very response the future completes with |
| Lifecycle.StepsKeepHttpRequest | core/src/main/java/software/amazon/awssdk/interceptor/ExecutionInterceptor.java:42-48 | for any chain, a run of HTTP-layer steps without `modifyHttpRequest` that passes ends with the HTTP request it started with |
| Lifecycle.UnmarshalStops | test/protocol-tests/src/test/java/software/amazon/awssdk/protocol/tests/ExecutionInterceptorTest.java:277-285 | when the steps before the unmarshaller pass, the context then holds the request, the HTTP request it was handed and an HTTP response but no response, the hooks were the sixth to ninth documented ones, and a failing unmarshaller stops the HTTP layer there |
| Lifecycle.UnmarshalFailure | test/protocol-tests/src/test/java/software/amazon/awssdk/protocol/tests/ExecutionInterceptorTest.java:277-306 | for any chain, when the unmarshaller fails with a service error, the future fails with that error as `Throwables.failure` returns it (or with a failure hook's exception), the hooks are the first nine documented ones then `onExecutionFailure` once per interceptor unless one throws, and each failure call sees the modified request, the HTTP request `modifyHttpRequest` produced, the HTTP response `beforeUnmarshalling` was given, no response and the error; "fails" means the future completes with a `CompletionException` caused by that error |
| Lifecycle.DefaultLifecycle | test/protocol-tests/src/test/java/software/amazon/awssdk/protocol/tests/ExecutionInterceptorTest.java:233-246 | with default interceptors, a marshaller and stages that succeed, the future completes normally and the hooks are the twelve documented ones, in order, once per interceptor |
| Lifecycle.DefaultLifecycleUnmarshalFails | test/protocol-tests/src/test/java/software/amazon/awssdk/protocol/tests/ExecutionInterceptorTest.java:277-306 | with default interceptors, a marshaller and transmission that succeed and a failing unmarshaller, the future fails with the error, the hooks are the first nine documented ones then `onExecutionFailure` once per interceptor, and each failure call sees the caller's request, the HTTP request the HTTP layer was handed, the HTTP response `beforeUnmarshalling` was given, no response and the error; "fails" means the future completes with a `CompletionException` caused by that error |

## Left out

- Transport and futures: `invoke`/`doInvoke`, the `CompletableFuture` threading and `close` (AsyncClientHandlerImpl.java:136-139, 199-231). A transport is a function from the wire request to a `Completion`. The model also takes the interceptor context and attributes that the transport leaves in the execution context from that `Completion`, not from the HTTP layer.
- Response-handler and streaming-provider adaptation, and the CRC32 option (AsyncClientHandlerImpl.java:101-116, 149-193). These are adapters into code that is not part of this model.
- Credentials resolution and the metrics implementation. Metrics appear only as timer start and end events and client-execution end events in the trace.
- The parent-class helpers `createExecutionContext`, `addHttpRequest`, `endClientExecution` and the `run*Interceptors` wrappers are not part of this model. They become direct calls into `Chain` and trace events.
- `Throwables.failure`, the operation's marshaller, `SdkHttpFullRequestAdapter` and the endpoint are not part of this model. They are parameters of `AsyncHandler` (`Collaborators`).
- The checkpoints from `beforeTransmission` onward are run by the HTTP layer, which is not part of this model. `Lifecycle` composes them with abstract transmission and unmarshalling stages.
- `ExecutionInterceptorChainFactory`: classpath scanning, file reading and reflection.
- `ExecutionContext`, `HttpSyncClientDependencies` and `AwsExecutionAttributes`: holders and key declarations. Attributes are a map from opaque keys to values, threaded through every hook.
- `ExecutionInterceptorException`: constructors only. It is one exception variant with an optional cause.
- The `InputStream` content, the `URI` endpoint and the HTTP method are opaque values.
- HttpRequest.Build: when the builder holds one header name under several spellings, the model files the entry under the least spelling with that spelling's own values. Java's `TreeMap.put` keeps the first key it met and may pair it with a later key's values; that merge happens in `CollectionUtils`, which is not part of this model.
- HttpRequest.FoldHeaders: promises each entry's values only when the builder's keys are distinct up to case, for the reason given for `Build`. `BuildLookup` covers lookups without that condition.
- AcceptJson.AddAcceptJsonIdempotent: requires that the request hold no Accept header under a spelling other than `Accept`. With such a spelling both entries would reach the builder, and the rule that merges them is in `CollectionUtils`, which is not part of this model.
- HeaderNames.Least: which spelling survives a case collision is decided by `CollectionUtils`, which is not part of this model. The model keeps the least spelling so that `Build` is a function; the values filed under a colliding name are then that spelling's own, which Java does not promise.
- HeaderNames.Fold: folds the ASCII letters only. `CASE_INSENSITIVE_ORDER` also equates other case pairs such as "É" and "é", so for names with such characters the model treats as distinct some names that Java merges.
- AcceptJson.AddAcceptJsonSetsAccept: requires that the request hold no Accept header under a spelling other than `Accept`, for the reason given for `AddAcceptJsonIdempotent`. `AddAcceptJson` states what holds without that condition.
- Lifecycle.DefaultLifecycle: assumes the marshaller and the transmission and unmarshalling stages succeed, since they are abstract here. `ExecuteHooks` and `UnmarshalFailure` state the hook order for any chain without that assumption.
- The HTTP layer's internals (retries, the request pipeline, the error-response handler) are not part of this model. The layer is its documented checkpoints with one abstract stage for the transmission and one for the unmarshaller.
- HttpRequest.SetHeaderKeepsOthers: states that headers of other names keep their values even when another name is held under several spellings. There the model's values follow its least-spelling choice (see `Build`). Java's values for such a name depend on `HashMap` iteration order, which an unrelated `put` can change, so Java does not promise this in that case.
- Null builder arguments are not modelled. A null values list makes `header(k, null)` and `queryParameter(k, null)` throw a `NullPointerException` when the list is copied (DefaultSdkHttpFullRequest.java:124 and 152). Null header or parameter maps and null names are left out too. The model's arguments are values and always present.
- The `CompletionException` wrapper is not modelled. When the `handle` callback throws, the future completes with a `CompletionException` whose cause is the thrown exception; `CompletedExceptionally` carries that cause.
- The test's check that every hook received the same `ExecutionAttributes` object (ExecutionInterceptorTest.java:269 and 290) is not modelled. Attributes are values here, and `execute` adds `SERVICE_NAME` to them during marshalling. `DefaultSteps` states that default interceptors see the attributes the HTTP layer was handed.
