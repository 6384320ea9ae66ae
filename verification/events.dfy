/** What an execution leaves behind: the hook calls it made, the metrics
    events it recorded and the collaborators it invoked, in order. */
module Events {
  import opened Wrappers
  import opened Values
  import opened Checkpoints
  import opened Exceptions
  import opened Interceptors

  /** The `AwsRequestMetrics.Field`s the handler times. */
  datatype MetricField = ClientExecuteTime | RequestMarshallTime

  datatype Event =
      /** Interceptor number `interceptor` of the chain had its `hook`
          called with `arg` and the attributes `attrs`. */
    | Called(interceptor: nat, hook: Hook, arg: HookArg, attrs: Attributes)
    | Started(field: MetricField)
    | Ended(field: MetricField)
      /** The marshaller was given `input`. */
    | Marshalled(input: Message)
      /** The transport was handed `wire`. */
    | Transmitted(wire: WireRequest)
      /** `endClientExecution` with the marshalled request and the response,
          each possibly null. */
    | ClientExecutionEnded(request: Option<MarshalledRequest>, response: Option<Message>)

  /** A checkpoint or handler run: its outcome, the attributes it left, and
      what it did. */
  datatype Run<T> = Run(outcome: Result<T, Exception>, attrs: Attributes, trace: seq<Event>)
}
