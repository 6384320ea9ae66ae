/** The thirteen interceptor hooks of `ExecutionInterceptor`. */
module Checkpoints {

  datatype Hook =
    | BeforeExecution
    | ModifyRequest
    | BeforeMarshalling
    | AfterMarshalling
    | ModifyHttpRequest
    | BeforeTransmission
    | AfterTransmission
    | ModifyHttpResponse
    | BeforeUnmarshalling
    | AfterUnmarshalling
    | ModifyResponse
    | AfterExecution
    | OnExecutionFailure
  {
    /** Hooks that may replace a field of the context. */
    predicate IsModify()
    {
      ModifyRequest? || ModifyHttpRequest? || ModifyHttpResponse? || ModifyResponse?
    }

    /** Read-only hooks that receive the plain interceptor context. */
    predicate ReadsContext()
    {
      !IsModify() && !OnExecutionFailure?
    }
  }
}
