/** The values that flow through the interceptor context, and the per-call
    execution attributes. Generated request and response types are opaque:
    all the pipeline observes of them is their runtime class. */
module Values {
  import opened Wrappers
  import opened HttpRequest

  /** A Java runtime class: its name and the names of all its supertypes. */
  datatype RuntimeClass = RuntimeClass(name: string, supertypes: set<string>)

  /** `Class.isInstance`: an object whose class is `c` is an instance of
      the class `of`. */
  predicate InstanceOf(c: RuntimeClass, of: RuntimeClass)
  {
    c.name == of.name || of.name in c.supertypes
  }

  /** An `SdkRequest`, `SdkResponse` or `SdkHttpFullResponse` object. */
  datatype Message = Message(cls: RuntimeClass, id: nat)

  /** An `SdkHttpFullRequest` object: its class and its observable state. */
  datatype WireRequest = WireRequest(cls: RuntimeClass, request: Request)

  const DefaultRequestClass: RuntimeClass :=
    RuntimeClass("software.amazon.awssdk.http.DefaultSdkHttpFullRequest",
                 {"software.amazon.awssdk.http.SdkHttpFullRequest", "java.lang.Object"})

  /** The marshaller's `Request<InputT>`: the service name it reports, the
      endpoint set on it, and the rest of its state. */
  datatype MarshalledRequest = MarshalledRequest(serviceName: string, endpoint: Option<Uri>, id: nat)

  /** `ExecutionAttribute` keys compare by identity; each key is a distinct
      token. */
  datatype AttributeKey = AttributeKey(id: nat)
  datatype AttributeValue = Text(text: string) | Opaque(id: nat)

  /** `ExecutionAttributes`: the per-call attribute bag. */
  type Attributes = map<AttributeKey, AttributeValue>

  /** `AwsExecutionAttributes.SERVICE_NAME`. */
  const SERVICE_NAME: AttributeKey := AttributeKey(2)
}
