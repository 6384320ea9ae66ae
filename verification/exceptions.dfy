/** The exceptions the pipeline raises or passes through, and the chain's
    normalisation into `ExecutionInterceptorException`. */
module Exceptions {
  import opened Wrappers
  import opened Values
  import opened Checkpoints

  datatype Exception =
      /** `ExecutionInterceptorException`, with its optional cause. */
    | InterceptorFailure(cause: Option<Exception>)
      /** `IllegalStateException`: a modify hook returned null. */
    | NullResult(interceptor: nat, hook: Hook)
      /** `IllegalArgumentException`: a modify hook returned an object that
          is not an instance of the original field's class. */
    | WrongResultClass(interceptor: nat, hook: Hook, returned: RuntimeClass, expected: RuntimeClass)
      /** `NullPointerException`, naming what was null. */
    | NullPointer(what: string)
      /** `AmazonServiceException`: the service answered with an error. */
    | ServiceFailure(id: nat)
      /** Any other `RuntimeException` (client, transport, user code). */
    | ClientFailure(id: nat)
      /** A `java.lang.Error`: a throwable that is not an `Exception`. */
    | Fatal(id: nat)

  /** Whether `catch (RuntimeException e)` (and, as no checked exceptions are
      modelled, `catch (Exception e)`) catches `e`. */
  predicate IsRuntime(e: Exception)
  {
    !e.Fatal?
  }

  /** `tryOrThrowInterceptorException`: an `ExecutionInterceptorException`
      passes as is, any other runtime exception is wrapped once with the
      original as cause, and an `Error` is not caught. */
  function Normalize(e: Exception): (r: Exception)
    ensures r.InterceptorFailure? || r.Fatal?
    ensures e.InterceptorFailure? || e.Fatal? ==> r == e
    ensures r != e ==> r == InterceptorFailure(Some(e)) && IsRuntime(e) && !e.InterceptorFailure?
  {
    match e
    case InterceptorFailure(_) => e
    case Fatal(_) => e
    case _ => InterceptorFailure(Some(e))
  }
}
