/** A whole execution as `ExecutionInterceptor` documents it: the twelve
    success hooks in their documented order, and `onExecutionFailure` when
    something fails. `execute` runs the checkpoints up to
    `modifyHttpRequest` on the caller's thread (see `AsyncHandler`); the
    HTTP layer runs those from `beforeTransmission` to `modifyResponse`,
    with the transmission and the unmarshaller between them; the
    continuation runs `afterExecution` or `onExecutionFailure`. */
module Lifecycle {
  import opened Wrappers
  import opened Values
  import opened Checkpoints
  import opened Exceptions
  import opened Interceptors
  import opened Events
  import InterceptorContext
  import FailedContext
  import Chain
  import ChainDefaults
  import AsyncHandler

  /** The success hooks in the order the interface documents them. */
  const DOCUMENTED: seq<Hook> := [
    BeforeExecution, ModifyRequest, BeforeMarshalling, AfterMarshalling, ModifyHttpRequest,
    BeforeTransmission, AfterTransmission, ModifyHttpResponse, BeforeUnmarshalling,
    AfterUnmarshalling, ModifyResponse, AfterExecution]

  /** The documented order names every hook but `onExecutionFailure`, each
      once. */
  lemma DocumentedHooks()
    ensures |DOCUMENTED| == 12
    ensures forall i, j :: 0 <= i < j < |DOCUMENTED| ==> DOCUMENTED[i] != DOCUMENTED[j]
    ensures forall h: Hook :: h in DOCUMENTED <==> !h.OnExecutionFailure?
  {
    forall h: Hook
      ensures h in DOCUMENTED <==> !h.OnExecutionFailure?
    {
      match h
      case BeforeExecution => assert DOCUMENTED[0] == h;
      case ModifyRequest => assert DOCUMENTED[1] == h;
      case BeforeMarshalling => assert DOCUMENTED[2] == h;
      case AfterMarshalling => assert DOCUMENTED[3] == h;
      case ModifyHttpRequest => assert DOCUMENTED[4] == h;
      case BeforeTransmission => assert DOCUMENTED[5] == h;
      case AfterTransmission => assert DOCUMENTED[6] == h;
      case ModifyHttpResponse => assert DOCUMENTED[7] == h;
      case BeforeUnmarshalling => assert DOCUMENTED[8] == h;
      case AfterUnmarshalling => assert DOCUMENTED[9] == h;
      case ModifyResponse => assert DOCUMENTED[10] == h;
      case AfterExecution => assert DOCUMENTED[11] == h;
      case OnExecutionFailure =>
    }
  }

  // ---------------------------------------------------------------------
  // Checkpoints by hook

  /** The checkpoints that visit the interceptors in registration order. */
  predicate Forwards(h: Hook)
  {
    h.BeforeExecution? || h.ModifyRequest? || h.BeforeMarshalling? || h.AfterMarshalling?
    || h.ModifyHttpRequest? || h.BeforeTransmission? || h.OnExecutionFailure?
  }

  function OrderOf(h: Hook, n: nat): seq<nat>
  {
    if Forwards(h) then Chain.Forward(n) else Chain.Reverse(n)
  }

  /** A read checkpoint as a step that hands the context on unchanged. */
  function Lift(r: Run<()>, ctx: Context): Run<Context>
  {
    Run(if r.outcome.Success? then Success(ctx) else Failure(r.outcome.error), r.attrs, r.trace)
  }

  /** The chain's checkpoint for a success hook. */
  function Checkpoint(c: Chain.Chain, h: Hook, ctx: Context, attrs: Attributes): Run<Context>
    requires !h.OnExecutionFailure?
  {
    match h
    case BeforeExecution => Lift(Chain.BeforeExecution(c, ctx, attrs), ctx)
    case ModifyRequest => Chain.ModifyRequest(c, ctx, attrs)
    case BeforeMarshalling => Lift(Chain.BeforeMarshalling(c, ctx, attrs), ctx)
    case AfterMarshalling => Lift(Chain.AfterMarshalling(c, ctx, attrs), ctx)
    case ModifyHttpRequest => Chain.ModifyHttpRequest(c, ctx, attrs)
    case BeforeTransmission => Lift(Chain.BeforeTransmission(c, ctx, attrs), ctx)
    case AfterTransmission => Lift(Chain.AfterTransmission(c, ctx, attrs), ctx)
    case ModifyHttpResponse => Chain.ModifyHttpResponse(c, ctx, attrs)
    case BeforeUnmarshalling => Lift(Chain.BeforeUnmarshalling(c, ctx, attrs), ctx)
    case AfterUnmarshalling => Lift(Chain.AfterUnmarshalling(c, ctx, attrs), ctx)
    case ModifyResponse => Chain.ModifyResponse(c, ctx, attrs)
    case AfterExecution => Lift(Chain.AfterExecution(c, ctx, attrs), ctx)
  }

  /** The context fields the lifecycle fills in between checkpoints. */
  datatype Field = HttpRequestField | HttpResponseField | ResponseField

  predicate Has(ctx: Context, f: Field)
  {
    match f
    case HttpRequestField => ctx.httpRequest.Some?
    case HttpResponseField => ctx.httpResponse.Some?
    case ResponseField => ctx.response.Some?
  }

  /** The field a modify hook replaces, when it is one that may be null. */
  function Replaces(h: Hook): Option<Field>
  {
    match h
    case ModifyHttpRequest => Some(HttpRequestField)
    case ModifyHttpResponse => Some(HttpResponseField)
    case ModifyResponse => Some(ResponseField)
    case _ => None
  }

  /** A default chain hands a checkpoint's context on unchanged, calls each
      interceptor once in the checkpoint's order, and leaves the
      attributes alone, provided the field a modify hook replaces is
      present. */
  lemma DefaultCheckpoint(n: nat, h: Hook, ctx: Context, attrs: Attributes)
    requires !h.OnExecutionFailure?
    requires Replaces(h).Some? ==> Has(ctx, Replaces(h).value)
    ensures Checkpoint(Chain.Chain(Defaults(n)), h, ctx, attrs)
              == Run(Success(ctx), attrs, ChainDefaults.QuietTrace(OrderOf(h, n), h, Plain(ctx), attrs))
  {
    if h.IsModify() {
      DefaultModifyCheckpoint(n, h, ctx, attrs);
    } else {
      DefaultReadCheckpoint(n, h, ctx, attrs);
    }
  }

  lemma DefaultModifyCheckpoint(n: nat, h: Hook, ctx: Context, attrs: Attributes)
    requires h.IsModify()
    requires Replaces(h).Some? ==> Has(ctx, Replaces(h).value)
    ensures Checkpoint(Chain.Chain(Defaults(n)), h, ctx, attrs)
              == Run(Success(ctx), attrs, ChainDefaults.QuietTrace(OrderOf(h, n), h, Plain(ctx), attrs))
  {
    ChainDefaults.DefaultKeepsFields(ctx);
    match h
    case ModifyRequest =>
      ChainDefaults.KeepsVia(Chain.RequestSlot, n, Chain.Forward(n), ctx, attrs);
    case ModifyHttpRequest =>
      ChainDefaults.KeepsVia(Chain.HttpRequestSlot, n, Chain.Forward(n), ctx, attrs);
    case ModifyHttpResponse =>
      ChainDefaults.KeepsVia(Chain.HttpResponseSlot, n, Chain.Reverse(n), ctx, attrs);
    case ModifyResponse =>
      ChainDefaults.KeepsVia(Chain.ResponseSlot, n, Chain.Reverse(n), ctx, attrs);
  }

  lemma DefaultReadCheckpoint(n: nat, h: Hook, ctx: Context, attrs: Attributes)
    requires h.ReadsContext()
    ensures Checkpoint(Chain.Chain(Defaults(n)), h, ctx, attrs)
              == Run(Success(ctx), attrs, ChainDefaults.QuietTrace(OrderOf(h, n), h, Plain(ctx), attrs))
  {
    var c := Chain.Chain(Defaults(n));
    var order := OrderOf(h, n);
    var r: Run<()> := match h
      case BeforeExecution => Chain.BeforeExecution(c, ctx, attrs)
      case BeforeMarshalling => Chain.BeforeMarshalling(c, ctx, attrs)
      case AfterMarshalling => Chain.AfterMarshalling(c, ctx, attrs)
      case BeforeTransmission => Chain.BeforeTransmission(c, ctx, attrs)
      case AfterTransmission => Chain.AfterTransmission(c, ctx, attrs)
      case BeforeUnmarshalling => Chain.BeforeUnmarshalling(c, ctx, attrs)
      case AfterUnmarshalling => Chain.AfterUnmarshalling(c, ctx, attrs)
      case AfterExecution => Chain.AfterExecution(c, ctx, attrs);
    assert Checkpoint(c, h, ctx, attrs) == Lift(r, ctx);
    ChainDefaults.DefaultsObserveNothing(n, order, h, Plain(ctx), attrs, r, !h.AfterUnmarshalling?);
  }

  // ---------------------------------------------------------------------
  // Steps of the HTTP layer

  /** The stages between the HTTP layer's checkpoints. */
  datatype Stage = Transmit | Unmarshal

  /** The field a stage fills in: the transmission the HTTP response, the
      unmarshaller the response. */
  function Fills(s: Stage): Field
  {
    match s
    case Transmit => HttpResponseField
    case Unmarshal => ResponseField
  }

  /** The field a stage reads: the transmission the HTTP request, the
      unmarshaller the HTTP response. */
  function Source(s: Stage): Field
  {
    match s
    case Transmit => HttpRequestField
    case Unmarshal => HttpResponseField
  }

  /** A step of the HTTP layer: a checkpoint, or a stage. */
  datatype Step = Check(hook: Hook) | Fill(stage: Stage)

  /** The transmission and the unmarshaller. */
  datatype Stages = Stages(
    transmit: WireRequest -> Result<Message, Exception>,
    unmarshal: Message -> Result<Message, Exception>)

  /** The HTTP layer's steps: `beforeTransmission` and the transmission,
      the checkpoints on the HTTP response, then the unmarshaller and the
      checkpoints on the response. */
  const TRANSMISSION: seq<Step> := [Check(BeforeTransmission), Fill(Transmit)]
  const HTTP_RESPONSE_HOOKS: seq<Step> := [Check(AfterTransmission), Check(ModifyHttpResponse), Check(BeforeUnmarshalling)]
  const UNTIL_UNMARSHAL: seq<Step> := TRANSMISSION + HTTP_RESPONSE_HOOKS
  const UNMARSHALLING: seq<Step> := [Fill(Unmarshal), Check(AfterUnmarshalling), Check(ModifyResponse)]
  const HTTP_LAYER: seq<Step> := UNTIL_UNMARSHAL + UNMARSHALLING

  /** The hooks of the checkpoints among `steps`, in order. */
  function CheckpointsOf(steps: seq<Step>): (hs: seq<Hook>)
    ensures |hs| <= |steps|
  {
    if steps == [] then []
    else (if steps[0].Check? then [steps[0].hook] else []) + CheckpointsOf(steps[1..])
  }

  lemma CheckpointsOfCons(s: Step, t: seq<Step>)
    ensures CheckpointsOf([s] + t) == (if s.Check? then [s.hook] else []) + CheckpointsOf(t)
  {
    assert ([s] + t)[1..] == t;
  }

  /** Taking checkpoints distributes over concatenation. */
  lemma {:induction false} CheckpointsOfAppend(a: seq<Step>, b: seq<Step>)
    ensures CheckpointsOf(a + b) == CheckpointsOf(a) + CheckpointsOf(b)
  {
    if a == [] {
      assert a + b == b;
    } else {
      assert a + b == [a[0]] + (a[1..] + b);
      CheckpointsOfCons(a[0], a[1..] + b);
      CheckpointsOfAppend(a[1..], b);
      assert a == [a[0]] + a[1..];
      CheckpointsOfCons(a[0], a[1..]);
    }
  }

  lemma CheckpointsOfChecks(a: Hook, b: Hook, c: Hook)
    ensures CheckpointsOf([Check(a), Check(b), Check(c)]) == [a, b, c]
  {
    CheckpointsOfCons(Check(c), []);
    CheckpointsOfCons(Check(b), [Check(c)]);
    CheckpointsOfCons(Check(a), [Check(b), Check(c)]);
  }

  /** Where the caller thread, the HTTP layer and the continuation divide
      the documented order. */
  lemma DocumentedParts()
    ensures DOCUMENTED[..5] == [BeforeExecution, ModifyRequest] + [BeforeMarshalling] + [AfterMarshalling, ModifyHttpRequest]
    ensures DOCUMENTED[5..9] == [BeforeTransmission, AfterTransmission, ModifyHttpResponse, BeforeUnmarshalling]
    ensures DOCUMENTED[5..11] == DOCUMENTED[5..9] + [AfterUnmarshalling, ModifyResponse]
    ensures DOCUMENTED[..9] == DOCUMENTED[..5] + DOCUMENTED[5..9]
    ensures DOCUMENTED == DOCUMENTED[..5] + DOCUMENTED[5..11] + [AfterExecution]
  {
  }

  /** Up to the unmarshaller the HTTP layer runs the sixth to ninth
      documented checkpoints. */
  lemma CheckpointsUntilUnmarshal()
    ensures CheckpointsOf(UNTIL_UNMARSHAL) == DOCUMENTED[5..9]
  {
    CheckpointsOfCons(Fill(Transmit), []);
    CheckpointsOfCons(Check(BeforeTransmission), [Fill(Transmit)]);
    CheckpointsOfAppend(TRANSMISSION, HTTP_RESPONSE_HOOKS);
    CheckpointsOfChecks(AfterTransmission, ModifyHttpResponse, BeforeUnmarshalling);
    DocumentedParts();
  }

  /** The HTTP layer's checkpoints are the documented hooks from
      `beforeTransmission` to `modifyResponse`, in the documented order. */
  lemma LayerFollowsDocumentation()
    ensures CheckpointsOf(HTTP_LAYER) == DOCUMENTED[5..11]
  {
    CheckpointsUntilUnmarshal();
    CheckpointsOfAppend(UNTIL_UNMARSHAL, UNMARSHALLING);
    CheckpointsOfCons(Check(ModifyResponse), []);
    CheckpointsOfCons(Check(AfterUnmarshalling), [Check(ModifyResponse)]);
    CheckpointsOfCons(Fill(Unmarshal), [Check(AfterUnmarshalling), Check(ModifyResponse)]);
    DocumentedParts();
  }

  predicate NoFailureStep(steps: seq<Step>)
  {
    forall k :: 0 <= k < |steps| ==> steps[k] != Check(OnExecutionFailure)
  }

  /** No step replaces the request. */
  predicate KeepsRequest(steps: seq<Step>)
  {
    forall k :: 0 <= k < |steps| ==> steps[k] != Check(ModifyRequest)
  }

  /** No step replaces the HTTP request. */
  predicate KeepsHttpRequest(steps: seq<Step>)
  {
    forall k :: 0 <= k < |steps| ==> steps[k] != Check(ModifyHttpRequest)
  }

  lemma StepsTail(steps: seq<Step>)
    requires steps != []
    ensures NoFailureStep(steps) ==> NoFailureStep(steps[1..])
    ensures KeepsRequest(steps) ==> KeepsRequest(steps[1..])
    ensures KeepsHttpRequest(steps) ==> KeepsHttpRequest(steps[1..])
  {
    forall k | 0 <= k < |steps[1..]| ensures steps[1..][k] == steps[k + 1] {}
  }

  lemma LayerSteps()
    ensures NoFailureStep(HTTP_LAYER) && KeepsRequest(HTTP_LAYER)
    ensures NoFailureStep(UNTIL_UNMARSHAL) && KeepsRequest(UNTIL_UNMARSHAL) && KeepsHttpRequest(UNTIL_UNMARSHAL)
    ensures NoFailureStep(UNMARSHALLING)
  {
  }

  /** A stage: the transmission sends the HTTP request, the unmarshaller
      reads the HTTP response. */
  function FillIn(s: Stage, ctx: Context, st: Stages): (r: Result<Context, Exception>)
    ensures r.Success? ==> Has(r.value, Fills(s)) && r.value.request == ctx.request && r.value.httpRequest == ctx.httpRequest
    ensures r.Success? ==> forall g :: g != Fills(s) ==> (Has(r.value, g) <==> Has(ctx, g))
  {
    match s
    case Transmit =>
      if ctx.httpRequest.None? then Failure(NullPointer("httpRequest"))
      else
        (match st.transmit(ctx.httpRequest.value)
         case Failure(e) => Failure(e)
         case Success(m) => Success(InterceptorContext.ReplaceHttpResponse(ctx, m)))
    case Unmarshal =>
      if ctx.httpResponse.None? then Failure(NullPointer("httpResponse"))
      else
        (match st.unmarshal(ctx.httpResponse.value)
         case Failure(e) => Failure(e)
         case Success(m) => Success(InterceptorContext.ReplaceResponse(ctx, m)))
  }

  /** How far the steps got: the outcome, the context current when they
      stopped, the attributes and the calls made. */
  datatype Progress = Progress(outcome: Result<Context, Exception>, last: Context, attrs: Attributes, trace: seq<Event>)

  /** `p`, preceded by the calls `t`. */
  function After(t: seq<Event>, p: Progress): (r: Progress)
    ensures r.outcome == p.outcome && r.last == p.last && r.attrs == p.attrs
    ensures |r.trace| == |t| + |p.trace| && r.trace[..|t|] == t && r.trace[|t|..] == p.trace
  {
    p.(trace := t + p.trace)
  }

  /** Runs the steps in turn; the first failure stops them. */
  function RunSteps(c: Chain.Chain, steps: seq<Step>, ctx: Context, attrs: Attributes, st: Stages): Progress
    requires NoFailureStep(steps)
    decreases |steps|
  {
    if steps == [] then Progress(Success(ctx), ctx, attrs, [])
    else
      assert NoFailureStep(steps[1..]) by {
        forall k | 0 <= k < |steps[1..]| ensures steps[1..][k] != Check(OnExecutionFailure) {
          assert steps[1..][k] == steps[k + 1];
        }
      }
      match steps[0]
      case Check(h) =>
        assert steps[0] != Check(OnExecutionFailure);
        var r := Checkpoint(c, h, ctx, attrs);
        (match r.outcome
         case Failure(e) => Progress(Failure(e), ctx, r.attrs, r.trace)
         case Success(next) => After(r.trace, RunSteps(c, steps[1..], next, r.attrs, st)))
      case Fill(s) =>
        match FillIn(s, ctx, st)
        case Failure(e) => Progress(Failure(e), ctx, attrs, [])
        case Success(next) => RunSteps(c, steps[1..], next, attrs, st)
  }

  /** A run that starts with a checkpoint. */
  lemma RunStepsCheck(c: Chain.Chain, steps: seq<Step>, h: Hook, ctx: Context, attrs: Attributes, st: Stages)
    requires steps != [] && steps[0] == Check(h) && NoFailureStep(steps)
    ensures !h.OnExecutionFailure? && NoFailureStep(steps[1..])
    ensures var r := Checkpoint(c, h, ctx, attrs);
            RunSteps(c, steps, ctx, attrs, st)
              == if r.outcome.Failure? then Progress(Failure(r.outcome.error), ctx, r.attrs, r.trace)
                 else After(r.trace, RunSteps(c, steps[1..], r.outcome.value, r.attrs, st))
  {
    assert steps[0] != Check(OnExecutionFailure);
    StepsTail(steps);
  }

  // ---------------------------------------------------------------------
  // The HTTP layer as the client handler's transport

  /** The HTTP layer's run from the context `execute` hands it. */
  function HttpRun(c: Chain.Chain, ctx: Context, attrs: Attributes, st: Stages): Progress
  {
    LayerSteps();
    RunSteps(c, HTTP_LAYER, ctx, attrs, st)
  }

  /** A run of the HTTP layer that succeeds leaves a response in the
      context. */
  lemma LayerResponds(c: Chain.Chain, ctx: Context, attrs: Attributes, st: Stages)
    ensures var p := HttpRun(c, ctx, attrs, st);
            p.outcome.Success? ==> p.outcome.value.response.Some?
  {
    LayerSteps();
    RunStepsAppend(c, UNTIL_UNMARSHAL, UNMARSHALLING, ctx, attrs, st);
    var pa := RunSteps(c, UNTIL_UNMARSHAL, ctx, attrs, st);
    if pa.outcome.Success? {
      UnmarshallingResponds(c, pa.outcome.value, pa.attrs, st);
    }
  }

  lemma UnmarshallingResponds(c: Chain.Chain, ctx: Context, attrs: Attributes, st: Stages)
    ensures NoFailureStep(UNMARSHALLING)
    ensures var p := RunSteps(c, UNMARSHALLING, ctx, attrs, st);
            p.outcome.Success? ==> p.outcome.value.response.Some?
  {
    LayerSteps();
    var tail := [Check(AfterUnmarshalling), Check(ModifyResponse)];
    assert UNMARSHALLING[1..] == tail;
    if FillIn(Unmarshal, ctx, st).Success? {
      var next := FillIn(Unmarshal, ctx, st).value;
      assert RunSteps(c, UNMARSHALLING, ctx, attrs, st) == RunSteps(c, tail, next, attrs, st);
      CheckpointsKeepResponse(c, next, attrs, st);
    }
  }

  /** The checkpoints after the unmarshaller keep a response present. */
  lemma CheckpointsKeepResponse(c: Chain.Chain, next: Context, attrs: Attributes, st: Stages)
    requires next.response.Some?
    ensures NoFailureStep([Check(AfterUnmarshalling), Check(ModifyResponse)])
    ensures var p := RunSteps(c, [Check(AfterUnmarshalling), Check(ModifyResponse)], next, attrs, st);
            p.outcome.Success? ==> p.outcome.value.response.Some?
  {
    var tail := [Check(AfterUnmarshalling), Check(ModifyResponse)];
    RunStepsCheck(c, tail, AfterUnmarshalling, next, attrs, st);
    var r := Checkpoint(c, AfterUnmarshalling, next, attrs);
    if r.outcome.Success? {
      assert tail[1..] == [Check(ModifyResponse)];
      RunStepsCheck(c, [Check(ModifyResponse)], ModifyResponse, next, r.attrs, st);
      assert [Check(ModifyResponse)][1..] == [];
    }
  }

  /** How the HTTP layer's future completes: with the response its run
      left, in the context the run ended with, or with the exception that
      stopped it, in the context current at that point. */
  function HttpCompletion(c: Chain.Chain, ctx: Context, attrs: Attributes, st: Stages): (d: AsyncHandler.Completion)
    ensures d.result.Success? <==> HttpRun(c, ctx, attrs, st).outcome.Success?
    ensures d.result.Failure? ==> d.result.error == HttpRun(c, ctx, attrs, st).outcome.error
    ensures d.result.Failure? ==> d.context == HttpRun(c, ctx, attrs, st).last
    ensures d.result.Success? ==>
              d.context == HttpRun(c, ctx, attrs, st).outcome.value && d.context.response == Some(d.result.value)
    ensures d.attrs == HttpRun(c, ctx, attrs, st).attrs
  {
    var p := HttpRun(c, ctx, attrs, st);
    LayerResponds(c, ctx, attrs, st);
    match p.outcome
    case Failure(e) => AsyncHandler.Completion(Failure(e), p.last, p.attrs)
    case Success(done) => AsyncHandler.Completion(Success(done.response.value), done, p.attrs)
  }

  /** The HTTP layer as a transport for `execute`. */
  function Layer(c: Chain.Chain, st: Stages): AsyncHandler.Transport
  {
    (w: WireRequest, ctx: Context, attrs: Attributes) => HttpCompletion(c, ctx, attrs, st)
  }

  // ---------------------------------------------------------------------
  // Whole executions

  /** `execute` got past its caller-thread stages and handed the request
      to the HTTP layer. */
  predicate Reaches(c: Chain.Chain, input: Message, attrs: Attributes, co: AsyncHandler.Collaborators)
  {
    && AsyncHandler.Prepare(c, input, attrs).outcome.Success?
    && AsyncHandler.Marshalling(c, input, attrs, co).outcome.Success?
    && AsyncHandler.Sending(c, input, attrs, co).outcome.Success?
  }

  /** The request `modifyRequest` produced. */
  function Prepared(c: Chain.Chain, input: Message, attrs: Attributes): Message
    requires AsyncHandler.Prepare(c, input, attrs).outcome.Success?
  {
    AsyncHandler.Prepare(c, input, attrs).outcome.value.request
  }

  /** The context and attributes handed to the HTTP layer. */
  function Sent(c: Chain.Chain, input: Message, attrs: Attributes, co: AsyncHandler.Collaborators): Context
    requires Reaches(c, input, attrs, co)
  {
    AsyncHandler.Sending(c, input, attrs, co).outcome.value
  }

  function SentAttrs(c: Chain.Chain, input: Message, attrs: Attributes, co: AsyncHandler.Collaborators): Attributes
    requires Reaches(c, input, attrs, co)
  {
    AsyncHandler.Sending(c, input, attrs, co).attrs
  }

  /** The events `execute` records on the caller's thread. */
  function CallerTrace(c: Chain.Chain, input: Message, attrs: Attributes, co: AsyncHandler.Collaborators): seq<Event>
    requires Reaches(c, input, attrs, co)
  {
    AsyncHandler.Prepare(c, input, attrs).trace + AsyncHandler.TIMERS
      + AsyncHandler.Marshalling(c, input, attrs, co).trace + AsyncHandler.Sending(c, input, attrs, co).trace
  }

  /** Once the request is handed on: the transmission event, the HTTP
      layer's calls, then the continuation on how its future completed. */
  function Remote(c: Chain.Chain, request: MarshalledRequest, wire: WireRequest, ctx: Context, attrs: Attributes,
                  st: Stages, failure: Exception -> Exception): AsyncHandler.Execution
  {
    var k := AsyncHandler.Handle(c, request, HttpCompletion(c, ctx, attrs, st), failure);
    AsyncHandler.Execution(k.outcome, k.attrs, [Transmitted(wire)] + HttpRun(c, ctx, attrs, st).trace + k.trace)
  }

  /** What happens after the hand-over in an execution that reaches it. */
  function Handover(c: Chain.Chain, input: Message, attrs: Attributes, co: AsyncHandler.Collaborators, st: Stages): AsyncHandler.Execution
    requires Reaches(c, input, attrs, co)
  {
    Remote(c, AsyncHandler.Marshalling(c, input, attrs, co).outcome.value, AsyncHandler.Wire(c, input, attrs, co),
           Sent(c, input, attrs, co), SentAttrs(c, input, attrs, co), st, co.failure)
  }

  /** A whole execution: `execute`'s caller-thread stages, each of whose
      exceptions `execute` throws without running a failure hook, then the
      HTTP layer and the continuation. */
  function Execute(c: Chain.Chain, input: Message, attrs: Attributes, co: AsyncHandler.Collaborators, st: Stages): (x: AsyncHandler.Execution)
    ensures x.outcome.Thrown? <==> !Reaches(c, input, attrs, co)
    ensures !Reaches(c, input, attrs, co) ==> x == AsyncHandler.Execute(c, input, attrs, co, Layer(c, st))
  {
    var p := AsyncHandler.Prepare(c, input, attrs);
    if p.outcome.Failure? then AsyncHandler.Execution(AsyncHandler.Thrown(p.outcome.error), p.attrs, p.trace)
    else
      var m := AsyncHandler.Marshalling(c, input, attrs, co);
      if m.outcome.Failure? then
        AsyncHandler.Execution(AsyncHandler.Thrown(m.outcome.error), m.attrs, p.trace + AsyncHandler.TIMERS + m.trace)
      else
        var s := AsyncHandler.Sending(c, input, attrs, co);
        if s.outcome.Failure? then
          AsyncHandler.Execution(AsyncHandler.Thrown(s.outcome.error), s.attrs, p.trace + AsyncHandler.TIMERS + m.trace + s.trace)
        else
          var r := Remote(c, m.outcome.value, AsyncHandler.Wire(c, input, attrs, co), s.outcome.value, s.attrs, st, co.failure);
          AsyncHandler.HandleTrace(c, m.outcome.value, HttpCompletion(c, s.outcome.value, s.attrs, st), co.failure);
          AsyncHandler.Execution(r.outcome, r.attrs, p.trace + AsyncHandler.TIMERS + m.trace + s.trace + r.trace)
  }

  /** An execution throws exactly when it does not reach the hand-over;
      otherwise it ends as the hand-over does, after the caller's
      events. */
  lemma ExecuteReaches(c: Chain.Chain, input: Message, attrs: Attributes, co: AsyncHandler.Collaborators, st: Stages)
    ensures var x := Execute(c, input, attrs, co, st);
      && (x.outcome.Thrown? <==> !Reaches(c, input, attrs, co))
      && (Reaches(c, input, attrs, co) ==>
            var r := Handover(c, input, attrs, co, st);
            x == AsyncHandler.Execution(r.outcome, r.attrs, CallerTrace(c, input, attrs, co) + r.trace))
  {
    if Reaches(c, input, attrs, co) {
      AsyncHandler.HandleTrace(c, AsyncHandler.Marshalling(c, input, attrs, co).outcome.value,
                               HttpCompletion(c, Sent(c, input, attrs, co), SentAttrs(c, input, attrs, co), st), co.failure);
    }
  }

  /** After the hand-over `execute` with the HTTP layer as transport runs
      the same continuation as the execution. */
  lemma HandoverAgrees(c: Chain.Chain, input: Message, attrs: Attributes, co: AsyncHandler.Collaborators, st: Stages)
    requires Reaches(c, input, attrs, co)
    ensures var y := AsyncHandler.Execute(c, input, attrs, co, Layer(c, st));
      var k := AsyncHandler.Continuing(c, input, attrs, co, Layer(c, st));
      var r := Handover(c, input, attrs, co, st);
      && y == AsyncHandler.Execution(k.outcome, k.attrs,
                                     CallerTrace(c, input, attrs, co) + ([Transmitted(AsyncHandler.Wire(c, input, attrs, co))] + k.trace))
      && r.outcome == k.outcome && r.attrs == k.attrs
      && r.trace == [Transmitted(AsyncHandler.Wire(c, input, attrs, co))]
                    + HttpRun(c, Sent(c, input, attrs, co), SentAttrs(c, input, attrs, co), st).trace + k.trace
  {
    assert AsyncHandler.Done(c, input, attrs, co, Layer(c, st))
             == HttpCompletion(c, Sent(c, input, attrs, co), SentAttrs(c, input, attrs, co), st);
  }

  lemma Regroup3(a: seq<Event>, e: Event, h: seq<Event>, t: seq<Event>)
    ensures a + ([e] + h + t) == a + [e] + h + t
    ensures a + ([e] + t) == a + [e] + t
  {
  }

  /** An execution is `execute` with the HTTP layer as its transport: the
      same outcome and attributes, and the same events, to which the
      execution adds the HTTP layer's calls right after the transmission
      event. `execute` throws exactly when a caller-thread stage failed. */
  lemma ExecuteAgrees(c: Chain.Chain, input: Message, attrs: Attributes, co: AsyncHandler.Collaborators, st: Stages)
    ensures var x := Execute(c, input, attrs, co, st);
      var y := AsyncHandler.Execute(c, input, attrs, co, Layer(c, st));
      && x.outcome == y.outcome && x.attrs == y.attrs
      && (x.outcome.Thrown? <==> !Reaches(c, input, attrs, co))
      && (x.outcome.Thrown? ==> x.trace == y.trace)
      && (!x.outcome.Thrown? ==>
            var pre := CallerTrace(c, input, attrs, co) + [Transmitted(AsyncHandler.Wire(c, input, attrs, co))];
            var tail := AsyncHandler.Continuing(c, input, attrs, co, Layer(c, st)).trace;
            && y.trace == pre + tail
            && x.trace == pre + HttpRun(c, Sent(c, input, attrs, co), SentAttrs(c, input, attrs, co), st).trace + tail)
  {
    ExecuteReaches(c, input, attrs, co, st);
    if Reaches(c, input, attrs, co) {
      HandoverAgrees(c, input, attrs, co, st);
      Regroup3(CallerTrace(c, input, attrs, co), Transmitted(AsyncHandler.Wire(c, input, attrs, co)),
               HttpRun(c, Sent(c, input, attrs, co), SentAttrs(c, input, attrs, co), st).trace,
               AsyncHandler.Continuing(c, input, attrs, co, Layer(c, st)).trace);
    }
  }

  // ---------------------------------------------------------------------
  // What the interceptors see

  /** The hooks called along a trace, in order. */
  function HooksOf(t: seq<Event>): (hs: seq<Hook>)
    ensures |hs| <= |t|
  {
    if t == [] then []
    else (if t[0].Called? then [t[0].hook] else []) + HooksOf(t[1..])
  }

  lemma HooksOfCons(e: Event, t: seq<Event>)
    ensures HooksOf([e] + t) == (if e.Called? then [e.hook] else []) + HooksOf(t)
  {
    assert ([e] + t)[1..] == t;
  }

  /** Taking the hooks distributes over concatenation. */
  lemma {:induction false} HooksOfAppend(a: seq<Event>, b: seq<Event>)
    ensures HooksOf(a + b) == HooksOf(a) + HooksOf(b)
  {
    if a == [] {
      assert a + b == b;
    } else {
      assert a + b == [a[0]] + (a[1..] + b);
      HooksOfCons(a[0], a[1..] + b);
      HooksOfAppend(a[1..], b);
      assert a == [a[0]] + a[1..];
      HooksOfCons(a[0], a[1..]);
    }
  }

  lemma HooksOfThree(a: seq<Event>, b: seq<Event>, c: seq<Event>)
    ensures HooksOf(a + b + c) == HooksOf(a) + HooksOf(b) + HooksOf(c)
  {
    HooksOfAppend(a, b);
    HooksOfAppend(a + b, c);
  }

  /** Events that are not interceptor calls contribute no hook. */
  lemma HooksOfOne(e: Event)
    ensures HooksOf([e]) == if e.Called? then [e.hook] else []
  {
    HooksOfCons(e, []);
  }

  lemma HooksOfTimers()
    ensures HooksOf(AsyncHandler.TIMERS) == []
  {
    HooksOfCons(AsyncHandler.TIMERS[0], [AsyncHandler.TIMERS[1]]);
    HooksOfOne(AsyncHandler.TIMERS[1]);
    assert AsyncHandler.TIMERS == [AsyncHandler.TIMERS[0]] + [AsyncHandler.TIMERS[1]];
  }

  /** Every event of `t` is a call given `attrs`. */
  predicate CalledWith(t: seq<Event>, attrs: Attributes)
  {
    forall k :: 0 <= k < |t| ==> t[k].Called? && t[k].attrs == attrs
  }

  /** Every event of `t` is a call on a plain context holding `request`. */
  predicate SeesRequest(t: seq<Event>, request: Message)
  {
    forall k :: 0 <= k < |t| ==> t[k].Called? && t[k].arg.Plain? && t[k].arg.ctx.request == request
  }

  lemma CalledWithAppend(a: seq<Event>, b: seq<Event>, attrs: Attributes, request: Message)
    ensures CalledWith(a, attrs) && CalledWith(b, attrs) ==> CalledWith(a + b, attrs)
    ensures SeesRequest(a, request) && SeesRequest(b, request) ==> SeesRequest(a + b, request)
  {
    forall k | |a| <= k < |a + b| ensures (a + b)[k] == b[k - |a|] {}
  }

  /** `n` copies of one hook. */
  function Copies(h: Hook, n: nat): (hs: seq<Hook>)
    ensures |hs| == n && forall k :: 0 <= k < n ==> hs[k] == h
  {
    seq(n, _ => h)
  }

  /** Each hook of `hs` `n` times over, in order: what `n` interceptors that
      all run every checkpoint see. */
  function Repeat(hs: seq<Hook>, n: nat): seq<Hook>
  {
    if hs == [] then [] else Copies(hs[0], n) + Repeat(hs[1..], n)
  }

  lemma RepeatCons(h: Hook, hs: seq<Hook>, n: nat)
    ensures Repeat([h] + hs, n) == Copies(h, n) + Repeat(hs, n)
  {
    assert ([h] + hs)[1..] == hs;
  }

  lemma RepeatOne(h: Hook, n: nat)
    ensures Repeat([h], n) == Copies(h, n)
  {
    RepeatCons(h, [], n);
  }

  lemma {:induction false} RepeatAppend(a: seq<Hook>, b: seq<Hook>, n: nat)
    ensures Repeat(a + b, n) == Repeat(a, n) + Repeat(b, n)
  {
    if a == [] {
      assert a + b == b;
    } else {
      assert a + b == [a[0]] + (a[1..] + b);
      RepeatCons(a[0], a[1..] + b, n);
      RepeatAppend(a[1..], b, n);
      assert a == [a[0]] + a[1..];
      RepeatCons(a[0], a[1..], n);
    }
  }

  /** With a single interceptor, repeating is the identity. */
  lemma {:induction false} RepeatOnce(hs: seq<Hook>)
    ensures Repeat(hs, 1) == hs
  {
    if hs != [] {
      RepeatOnce(hs[1..]);
      assert Copies(hs[0], 1) == [hs[0]];
      assert hs == [hs[0]] + hs[1..];
    }
  }

  /** A quiet visit calls the hook once per interceptor, with the same
      attributes each time. */
  lemma {:induction false} HooksOfQuiet(order: seq<nat>, h: Hook, arg: HookArg, attrs: Attributes)
    ensures HooksOf(ChainDefaults.QuietTrace(order, h, arg, attrs)) == Copies(h, |order|)
    ensures CalledWith(ChainDefaults.QuietTrace(order, h, arg, attrs), attrs)
    ensures arg.Plain? ==> SeesRequest(ChainDefaults.QuietTrace(order, h, arg, attrs), arg.ctx.request)
  {
    var q := ChainDefaults.QuietTrace(order, h, arg, attrs);
    if order != [] {
      var tail := ChainDefaults.QuietTrace(order[1..], h, arg, attrs);
      assert q == [q[0]] + tail;
      HooksOfCons(q[0], tail);
      HooksOfQuiet(order[1..], h, arg, attrs);
      assert Copies(h, |order|) == [h] + Copies(h, |order| - 1);
    }
  }

  /** A trace of calls of one hook shows that hook once per call. */
  lemma {:induction false} CalledHooks(t: seq<Event>, h: Hook)
    requires forall k :: 0 <= k < |t| ==> t[k].Called? && t[k].hook == h
    ensures HooksOf(t) == Copies(h, |t|)
  {
    if t != [] {
      assert t == [t[0]] + t[1..];
      HooksOfCons(t[0], t[1..]);
      CalledHooks(t[1..], h);
      assert Copies(h, |t|) == [h] + Copies(h, |t| - 1);
    }
  }

  /** A read checkpoint calls only its own hook, and calls it once per
      interceptor when it passes. */
  lemma ObservedHooks(ics: seq<Interceptor>, order: seq<nat>, hook: Hook, arg: HookArg, attrs: Attributes,
                      r: Run<()>, normalized: bool)
    requires Fits(hook, arg) && Chain.InRange(order, |ics|)
    requires Chain.Observed(ics, order, hook, arg, attrs, r, normalized)
    ensures HooksOf(r.trace) == Copies(hook, |r.trace|)
    ensures r.outcome.Success? ==> |r.trace| == |order|
  {
    forall k | 0 <= k < |r.trace| ensures r.trace[k].Called? && r.trace[k].hook == hook {
      assert Chain.ReadCallAt(order, hook, arg, r.trace, k);
    }
    CalledHooks(r.trace, hook);
  }

  /** A modify checkpoint calls only its own hook, and calls it once per
      interceptor when it passes. */
  lemma ModifiedHooks<T>(slot: Chain.Slot<T>, ics: seq<Interceptor>, order: seq<nat>, ctx: Context, attrs: Attributes,
                         acc: Context, r: Run<Context>, normalized: bool)
    requires Chain.InRange(order, |ics|)
    requires Chain.Modified(slot, ics, order, ctx, attrs, acc, r, normalized)
    ensures HooksOf(r.trace) == Copies(slot.hook, |r.trace|)
    ensures r.outcome.Success? ==> |r.trace| == |order|
  {
    forall k | 0 <= k < |r.trace| ensures r.trace[k].Called? && r.trace[k].hook == slot.hook {
      assert Chain.ModifyCallAt(order, slot.hook, ctx, r.trace, k);
    }
    CalledHooks(r.trace, slot.hook);
  }

  /** Any success checkpoint calls only its hook, once per interceptor
      when it passes. */
  lemma CheckpointHooks(c: Chain.Chain, h: Hook, ctx: Context, attrs: Attributes)
    requires !h.OnExecutionFailure?
    ensures var r := Checkpoint(c, h, ctx, attrs);
      && HooksOf(r.trace) == Copies(h, |r.trace|)
      && (r.outcome.Success? ==> |r.trace| == |c.interceptors|)
  {
    if h.IsModify() {
      ModifyCheckpointHooks(c, h, ctx, attrs);
    } else {
      ReadCheckpointHooks(c, h, ctx, attrs);
    }
  }

  lemma ModifyCheckpointHooks(c: Chain.Chain, h: Hook, ctx: Context, attrs: Attributes)
    requires h.IsModify()
    ensures var r := Checkpoint(c, h, ctx, attrs);
      && HooksOf(r.trace) == Copies(h, |r.trace|)
      && (r.outcome.Success? ==> |r.trace| == |c.interceptors|)
  {
    var n := |c.interceptors|;
    match h
    case ModifyRequest =>
      ModifiedHooks(Chain.RequestSlot, c.interceptors, Chain.Forward(n), ctx, attrs, ctx, Chain.ModifyRequest(c, ctx, attrs), true);
    case ModifyHttpRequest =>
      ModifiedHooks(Chain.HttpRequestSlot, c.interceptors, Chain.Forward(n), ctx, attrs, ctx, Chain.ModifyHttpRequest(c, ctx, attrs), true);
    case ModifyHttpResponse =>
      ModifiedHooks(Chain.HttpResponseSlot, c.interceptors, Chain.Reverse(n), ctx, attrs, ctx, Chain.ModifyHttpResponse(c, ctx, attrs), true);
    case ModifyResponse =>
      ModifiedHooks(Chain.ResponseSlot, c.interceptors, Chain.Reverse(n), ctx, attrs, ctx, Chain.ModifyResponse(c, ctx, attrs), true);
  }

  lemma ReadCheckpointHooks(c: Chain.Chain, h: Hook, ctx: Context, attrs: Attributes)
    requires h.ReadsContext()
    ensures var r := Checkpoint(c, h, ctx, attrs);
      && HooksOf(r.trace) == Copies(h, |r.trace|)
      && (r.outcome.Success? ==> |r.trace| == |c.interceptors|)
  {
    var n := |c.interceptors|;
    var r: Run<()> := match h
      case BeforeExecution => Chain.BeforeExecution(c, ctx, attrs)
      case BeforeMarshalling => Chain.BeforeMarshalling(c, ctx, attrs)
      case AfterMarshalling => Chain.AfterMarshalling(c, ctx, attrs)
      case BeforeTransmission => Chain.BeforeTransmission(c, ctx, attrs)
      case AfterTransmission => Chain.AfterTransmission(c, ctx, attrs)
      case BeforeUnmarshalling => Chain.BeforeUnmarshalling(c, ctx, attrs)
      case AfterUnmarshalling => Chain.AfterUnmarshalling(c, ctx, attrs)
      case AfterExecution => Chain.AfterExecution(c, ctx, attrs);
    assert Checkpoint(c, h, ctx, attrs) == Lift(r, ctx);
    ObservedHooks(c.interceptors, OrderOf(h, n), h, Plain(ctx), attrs, r, !h.AfterUnmarshalling?);
  }

  /** The failure hooks call only `onExecutionFailure`, once per
      interceptor when they pass. */
  lemma FailureCheckpointHooks(c: Chain.Chain, f: Failed, attrs: Attributes)
    ensures var r := Chain.OnExecutionFailure(c, f, attrs);
      && HooksOf(r.trace) == Copies(OnExecutionFailure, |r.trace|)
      && (r.outcome.Success? ==> |r.trace| == |c.interceptors|)
  {
    ObservedHooks(c.interceptors, Chain.Forward(|c.interceptors|), OnExecutionFailure, Failing(f), attrs,
                  Chain.OnExecutionFailure(c, f, attrs), true);
  }

  // ---------------------------------------------------------------------
  // Which steps can run

  /** The context fields present. */
  function Present(ctx: Context): set<Field>
  {
    (if ctx.httpRequest.Some? then {HttpRequestField} else {})
    + (if ctx.httpResponse.Some? then {HttpResponseField} else {})
    + (if ctx.response.Some? then {ResponseField} else {})
  }

  lemma PresentHas(ctx: Context)
    ensures forall f :: f in Present(ctx) <==> Has(ctx, f)
  {
  }

  /** The fields the steps fill in. */
  function FillsOf(steps: seq<Step>): set<Field>
  {
    if steps == [] then {}
    else (if steps[0].Fill? then {Fills(steps[0].stage)} else {}) + FillsOf(steps[1..])
  }

  /** Starting with the fields `present`, no step finds the field it
      replaces or reads missing. */
  predicate Ready(steps: seq<Step>, present: set<Field>)
    decreases |steps|
  {
    steps == []
    || match steps[0]
       case Check(h) => (Replaces(h).Some? ==> Replaces(h).value in present) && Ready(steps[1..], present)
       case Fill(s) => Source(s) in present && Ready(steps[1..], present + {Fills(s)})
  }

  /** The stage never fails. */
  ghost predicate Reliable(st: Stages, s: Stage)
  {
    match s
    case Transmit => forall w :: st.transmit(w).Success?
    case Unmarshal => forall m :: st.unmarshal(m).Success?
  }

  ghost predicate FillsReliable(steps: seq<Step>, st: Stages)
  {
    forall s :: Fills(s) in FillsOf(steps) ==> Reliable(st, s)
  }

  lemma {:induction false} ReadyAppend(a: seq<Step>, b: seq<Step>, present: set<Field>)
    ensures Ready(a + b, present) == (Ready(a, present) && Ready(b, present + FillsOf(a)))
  {
    if a == [] {
      assert a + b == b;
      assert present + FillsOf(a) == present;
    } else {
      assert (a + b)[0] == a[0] && (a + b)[1..] == a[1..] + b;
      match a[0]
      case Check(h) =>
        ReadyAppend(a[1..], b, present);
        assert FillsOf(a) == FillsOf(a[1..]);
      case Fill(s) =>
        ReadyAppend(a[1..], b, present + {Fills(s)});
        assert present + {Fills(s)} + FillsOf(a[1..]) == present + FillsOf(a);
    }
  }

  lemma FillsOfCons(s: Step, t: seq<Step>)
    ensures FillsOf([s] + t) == (if s.Fill? then {Fills(s.stage)} else {}) + FillsOf(t)
  {
    assert ([s] + t)[1..] == t;
  }

  lemma {:induction false} FillsOfAppend(a: seq<Step>, b: seq<Step>)
    ensures FillsOf(a + b) == FillsOf(a) + FillsOf(b)
  {
    if a == [] {
      assert a + b == b;
    } else {
      assert a + b == [a[0]] + (a[1..] + b);
      FillsOfCons(a[0], a[1..] + b);
      FillsOfAppend(a[1..], b);
      assert a == [a[0]] + a[1..];
      FillsOfCons(a[0], a[1..]);
    }
  }

  /** Three checkpoints in a row fill nothing in and are ready when the
      fields they replace are present. */
  lemma ReadyChecks(a: Hook, b: Hook, c: Hook, present: set<Field>)
    requires forall h :: h in [a, b, c] && Replaces(h).Some? ==> Replaces(h).value in present
    ensures Ready([Check(a), Check(b), Check(c)], present)
    ensures FillsOf([Check(a), Check(b), Check(c)]) == {}
  {
    assert Ready([Check(c)], present) by { assert [Check(c)][1..] == []; }
    assert Ready([Check(b), Check(c)], present) by { assert [Check(b), Check(c)][1..] == [Check(c)]; }
    assert [Check(a), Check(b), Check(c)][1..] == [Check(b), Check(c)];
    FillsOfCons(Check(c), []);
    FillsOfCons(Check(b), [Check(c)]);
    FillsOfCons(Check(a), [Check(b), Check(c)]);
  }

  /** A stage, then two checkpoints. */
  lemma ReadyFillChecks(s: Stage, a: Hook, b: Hook, present: set<Field>)
    requires Source(s) in present
    requires forall h :: h in [a, b] && Replaces(h).Some? ==> Replaces(h).value in present + {Fills(s)}
    ensures Ready([Fill(s), Check(a), Check(b)], present)
    ensures FillsOf([Fill(s), Check(a), Check(b)]) == {Fills(s)}
  {
    var p := present + {Fills(s)};
    assert Ready([Check(b)], p) by { assert [Check(b)][1..] == []; }
    assert Ready([Check(a), Check(b)], p) by { assert [Check(a), Check(b)][1..] == [Check(b)]; }
    assert [Fill(s), Check(a), Check(b)][1..] == [Check(a), Check(b)];
    FillsOfCons(Check(b), []);
    FillsOfCons(Check(a), [Check(b)]);
    FillsOfCons(Fill(s), [Check(a), Check(b)]);
  }

  /** From a context holding only the HTTP request, the steps up to the
      unmarshaller can run, and fill in the HTTP response. */
  lemma ReadyUntilUnmarshal()
    ensures Ready(UNTIL_UNMARSHAL, {HttpRequestField}) && FillsOf(UNTIL_UNMARSHAL) == {HttpResponseField}
  {
    var p := {HttpRequestField};
    assert Ready([Fill(Transmit)], p) by { assert [Fill(Transmit)][1..] == []; }
    assert Ready(TRANSMISSION, p) by { assert TRANSMISSION[1..] == [Fill(Transmit)]; }
    FillsOfCons(Fill(Transmit), []);
    FillsOfCons(Check(BeforeTransmission), [Fill(Transmit)]);
    ReadyChecks(AfterTransmission, ModifyHttpResponse, BeforeUnmarshalling, {HttpRequestField, HttpResponseField});
    ReadyAppend(TRANSMISSION, HTTP_RESPONSE_HOOKS, p);
    FillsOfAppend(TRANSMISSION, HTTP_RESPONSE_HOOKS);
  }

  /** The whole HTTP layer can run from a context holding only the HTTP
      request, and fills in the HTTP response and the response. */
  lemma ReadyLayer()
    ensures Ready(HTTP_LAYER, {HttpRequestField}) && FillsOf(HTTP_LAYER) == {HttpResponseField, ResponseField}
  {
    ReadyUntilUnmarshal();
    ReadyFillChecks(Unmarshal, AfterUnmarshalling, ModifyResponse, {HttpRequestField, HttpResponseField});
    ReadyAppend(UNTIL_UNMARSHAL, UNMARSHALLING, {HttpRequestField});
    FillsOfAppend(UNTIL_UNMARSHAL, UNMARSHALLING);
  }

  /** A filled-in field joins the present ones. */
  lemma FillInPresent(s: Stage, ctx: Context, st: Stages)
    requires FillIn(s, ctx, st).Success?
    ensures Present(FillIn(s, ctx, st).value) == Present(ctx) + {Fills(s)}
  {
    var next := FillIn(s, ctx, st).value;
    assert Has(next, Fills(s));
    assert forall g :: g != Fills(s) ==> (Has(next, g) <==> Has(ctx, g));
    PresentHas(next);
    PresentHas(ctx);
  }

  // ---------------------------------------------------------------------
  // Runs of any chain

  /** A checkpoint other than `modifyRequest` that passes keeps the
      request, and keeps which fields are present when the field it
      replaces is one of them. */
  lemma CheckpointFields(c: Chain.Chain, h: Hook, ctx: Context, attrs: Attributes)
    requires !h.OnExecutionFailure? && !h.ModifyRequest?
    requires Replaces(h).Some? ==> Has(ctx, Replaces(h).value)
    ensures var r := Checkpoint(c, h, ctx, attrs);
      r.outcome.Success? ==> r.outcome.value.request == ctx.request && Present(r.outcome.value) == Present(ctx)
  {
    var r := Checkpoint(c, h, ctx, attrs);
    if r.outcome.Success? {
      var v := r.outcome.value;
      match h
      case ModifyHttpRequest =>
      case ModifyHttpResponse =>
      case ModifyResponse =>
      case _ =>
    }
  }

  /** What a run of any chain achieves when it passes: the request it
      started with, the fields the steps fill in, and each checkpoint's
      hook called once per interceptor, in step order. */
  ghost predicate Passed(p: Progress, n: nat, steps: seq<Step>, ctx: Context)
  {
    p.outcome.Success? ==>
      && p.outcome.value.request == ctx.request
      && Present(p.outcome.value) == Present(ctx) + FillsOf(steps)
      && HooksOf(p.trace) == Repeat(CheckpointsOf(steps), n)
  }

  /** Any chain: a run of ready steps that passes called every
      checkpoint's hook once per interceptor, in step order. */
  lemma {:induction false} StepsPassed(c: Chain.Chain, steps: seq<Step>, ctx: Context, attrs: Attributes, st: Stages)
    requires NoFailureStep(steps) && KeepsRequest(steps) && Ready(steps, Present(ctx))
    ensures Passed(RunSteps(c, steps, ctx, attrs, st), |c.interceptors|, steps, ctx)
    decreases |steps|
  {
    var n := |c.interceptors|;
    if steps == [] {
      assert Present(ctx) + FillsOf(steps) == Present(ctx);
    } else {
      StepsTail(steps);
      match steps[0]
      case Check(h) =>
        RunStepsCheck(c, steps, h, ctx, attrs, st);
        var r := Checkpoint(c, h, ctx, attrs);
        if r.outcome.Success? {
          assert steps[0] != Check(ModifyRequest);
          PresentHas(ctx);
          CheckpointFields(c, h, ctx, attrs);
          CheckpointHooks(c, h, ctx, attrs);
          StepsPassed(c, steps[1..], r.outcome.value, r.attrs, st);
          PassedAfter(r.trace, RunSteps(c, steps[1..], r.outcome.value, r.attrs, st), n, steps, h, ctx, r.outcome.value);
        }
      case Fill(s) =>
        if FillIn(s, ctx, st).Success? {
          var next := FillIn(s, ctx, st).value;
          FillInPresent(s, ctx, st);
          StepsPassed(c, steps[1..], next, attrs, st);
          assert RunSteps(c, steps, ctx, attrs, st) == RunSteps(c, steps[1..], next, attrs, st);
          PassedFill(RunSteps(c, steps[1..], next, attrs, st), next, n, steps, s, ctx);
        }
    }
  }

  /** One checkpoint's calls ahead of a run that passes. */
  lemma PassedAfter(q: seq<Event>, rest: Progress, n: nat, steps: seq<Step>, h: Hook, ctx: Context, next: Context)
    requires steps != [] && steps[0] == Check(h)
    requires HooksOf(q) == Copies(h, n)
    requires next.request == ctx.request && Present(next) == Present(ctx)
    requires Passed(rest, n, steps[1..], next)
    ensures Passed(After(q, rest), n, steps, ctx)
  {
    HooksOfAppend(q, rest.trace);
    CheckpointsOfCons(steps[0], steps[1..]);
    assert steps == [steps[0]] + steps[1..];
    RepeatCons(h, CheckpointsOf(steps[1..]), n);
    assert FillsOf(steps) == FillsOf(steps[1..]);
  }

  /** A run that passes after a stage filled its field. */
  lemma PassedFill(rest: Progress, next: Context, n: nat, steps: seq<Step>, s: Stage, ctx: Context)
    requires steps != [] && steps[0] == Fill(s)
    requires next.request == ctx.request && Present(next) == Present(ctx) + {Fills(s)}
    requires Passed(rest, n, steps[1..], next)
    ensures Passed(rest, n, steps, ctx)
  {
    CheckpointsOfCons(steps[0], steps[1..]);
    assert steps == [steps[0]] + steps[1..];
    assert CheckpointsOf(steps) == CheckpointsOf(steps[1..]);
    assert FillsOf(steps) == {Fills(s)} + FillsOf(steps[1..]);
  }

  /** A checkpoint other than `modifyHttpRequest` that passes hands on
      the HTTP request it was given. */
  lemma CheckpointKeepsHttpRequest(c: Chain.Chain, h: Hook, ctx: Context, attrs: Attributes)
    requires !h.OnExecutionFailure? && !h.ModifyHttpRequest?
    ensures var r := Checkpoint(c, h, ctx, attrs);
      r.outcome.Success? ==> r.outcome.value.httpRequest == ctx.httpRequest
  {
    match h
    case ModifyRequest =>
    case ModifyHttpResponse =>
    case ModifyResponse =>
    case _ =>
  }

  /** Any chain: a run of steps none of which is `modifyHttpRequest`
      ends, when it passes, with the HTTP request it started with. */
  lemma {:induction false} StepsKeepHttpRequest(c: Chain.Chain, steps: seq<Step>, ctx: Context, attrs: Attributes, st: Stages)
    requires NoFailureStep(steps) && KeepsHttpRequest(steps)
    ensures var p := RunSteps(c, steps, ctx, attrs, st);
      p.outcome.Success? ==> p.outcome.value.httpRequest == ctx.httpRequest
    decreases |steps|
  {
    if steps != [] {
      StepsTail(steps);
      match steps[0]
      case Check(h) =>
        RunStepsCheck(c, steps, h, ctx, attrs, st);
        var r := Checkpoint(c, h, ctx, attrs);
        if r.outcome.Success? {
          assert steps[0] != Check(ModifyHttpRequest);
          CheckpointKeepsHttpRequest(c, h, ctx, attrs);
          StepsKeepHttpRequest(c, steps[1..], r.outcome.value, r.attrs, st);
        }
      case Fill(s) =>
        if FillIn(s, ctx, st).Success? {
          var next := FillIn(s, ctx, st).value;
          StepsKeepHttpRequest(c, steps[1..], next, attrs, st);
          assert RunSteps(c, steps, ctx, attrs, st) == RunSteps(c, steps[1..], next, attrs, st);
        }
    }
  }

  // ---------------------------------------------------------------------
  // Runs in parts

  lemma NoFailureStepParts(a: seq<Step>, b: seq<Step>)
    requires NoFailureStep(a + b)
    ensures NoFailureStep(a) && NoFailureStep(b)
  {
    forall k | 0 <= k < |a| ensures a[k] != Check(OnExecutionFailure) {
      assert a[k] == (a + b)[k];
    }
    forall k | 0 <= k < |b| ensures b[k] != Check(OnExecutionFailure) {
      assert b[k] == (a + b)[|a| + k];
    }
  }

  /** Running `a + b` runs `a`, then, if `a` succeeded, `b` from where `a`
      left off. */
  lemma {:induction false} RunStepsAppend(c: Chain.Chain, a: seq<Step>, b: seq<Step>, ctx: Context,
                                          attrs: Attributes, st: Stages)
    requires NoFailureStep(a + b)
    ensures NoFailureStep(a) && NoFailureStep(b)
    ensures var pa := RunSteps(c, a, ctx, attrs, st);
            RunSteps(c, a + b, ctx, attrs, st)
              == if pa.outcome.Failure? then pa else After(pa.trace, RunSteps(c, b, pa.outcome.value, pa.attrs, st))
    decreases |a|
  {
    NoFailureStepParts(a, b);
    if a == [] {
      assert a + b == b;
      assert [] + RunSteps(c, b, ctx, attrs, st).trace == RunSteps(c, b, ctx, attrs, st).trace;
    } else {
      assert (a + b)[0] == a[0] && (a + b)[1..] == a[1..] + b;
      NoFailureStepParts([a[0]], a[1..] + b);
      assert [a[0]] + (a[1..] + b) == a + b;
      match a[0]
      case Check(h) =>
        assert a[0] != Check(OnExecutionFailure);
        var r := Checkpoint(c, h, ctx, attrs);
        if r.outcome.Success? {
          RunStepsAppend(c, a[1..], b, r.outcome.value, r.attrs, st);
          CheckThenAppend(c, a, b, h, ctx, attrs, st);
        }
      case Fill(s) =>
        if FillIn(s, ctx, st).Success? {
          RunStepsAppend(c, a[1..], b, FillIn(s, ctx, st).value, attrs, st);
        }
    }
  }

  lemma CheckThenAppend(c: Chain.Chain, a: seq<Step>, b: seq<Step>, h: Hook, ctx: Context,
                        attrs: Attributes, st: Stages)
    requires a != [] && a[0] == Check(h) && !h.OnExecutionFailure?
    requires NoFailureStep(a) && NoFailureStep(b) && NoFailureStep(a[1..]) && NoFailureStep(a + b)
    requires (a + b)[1..] == a[1..] + b && NoFailureStep(a[1..] + b)
    requires Checkpoint(c, h, ctx, attrs).outcome.Success?
    requires var r := Checkpoint(c, h, ctx, attrs);
             var pa := RunSteps(c, a[1..], r.outcome.value, r.attrs, st);
             RunSteps(c, a[1..] + b, r.outcome.value, r.attrs, st)
               == if pa.outcome.Failure? then pa else After(pa.trace, RunSteps(c, b, pa.outcome.value, pa.attrs, st))
    ensures var pa := RunSteps(c, a, ctx, attrs, st);
            RunSteps(c, a + b, ctx, attrs, st)
              == if pa.outcome.Failure? then pa else After(pa.trace, RunSteps(c, b, pa.outcome.value, pa.attrs, st))
  {
    var r := Checkpoint(c, h, ctx, attrs);
    var tail := RunSteps(c, a[1..], r.outcome.value, r.attrs, st);
    RunStepsCheck(c, a, h, ctx, attrs, st);
    RunStepsCheck(c, a + b, h, ctx, attrs, st);
    if tail.outcome.Success? {
      var pb := RunSteps(c, b, tail.outcome.value, tail.attrs, st);
      assert r.trace + (tail.trace + pb.trace) == (r.trace + tail.trace) + pb.trace;
    }
  }

  // ---------------------------------------------------------------------
  // The caller thread, for any chain

  /** Every hook along `hs` is one of `allowed`. */
  predicate Within(hs: seq<Hook>, allowed: set<Hook>)
  {
    forall k :: 0 <= k < |hs| ==> hs[k] in allowed
  }

  lemma WithinAppend(a: seq<Hook>, b: seq<Hook>, x: set<Hook>, y: set<Hook>)
    requires Within(a, x) && Within(b, y)
    ensures Within(a + b, x + y)
  {
    forall k | |a| <= k < |a + b| ensures (a + b)[k] == b[k - |a|] {}
  }

  /** The calls of one checkpoint followed by those of the next. */
  lemma TwoCheckpoints(a: seq<Event>, b: seq<Event>, x: Hook, y: Hook)
    requires HooksOf(a) == Copies(x, |a|) && HooksOf(b) == Copies(y, |b|)
    ensures HooksOf(a + b) == Copies(x, |a|) + Copies(y, |b|)
    ensures Within(HooksOf(a + b), {x, y})
  {
    HooksOfAppend(a, b);
    var hs := Copies(x, |a|) + Copies(y, |b|);
    forall k | 0 <= k < |hs| ensures hs[k] in {x, y} {
      if k >= |a| { assert hs[k] == Copies(y, |b|)[k - |a|]; }
    }
  }

  /** The hooks `execute` may call on the caller's thread. */
  const CALLER_HOOKS: set<Hook> := {BeforeExecution, ModifyRequest, BeforeMarshalling, AfterMarshalling, ModifyHttpRequest}

  /** The first five documented hooks, once per interceptor each. */
  lemma CallerRepeat(n: nat)
    ensures Repeat(DOCUMENTED[..5], n)
              == Copies(BeforeExecution, n) + Copies(ModifyRequest, n) + Copies(BeforeMarshalling, n)
                 + Copies(AfterMarshalling, n) + Copies(ModifyHttpRequest, n)
  {
    DocumentedParts();
    RepeatCons(BeforeExecution, [ModifyRequest], n);
    RepeatOne(ModifyRequest, n);
    RepeatOne(BeforeMarshalling, n);
    RepeatCons(AfterMarshalling, [ModifyHttpRequest], n);
    RepeatOne(ModifyHttpRequest, n);
    RepeatAppend([BeforeExecution, ModifyRequest], [BeforeMarshalling], n);
    RepeatAppend([BeforeExecution, ModifyRequest] + [BeforeMarshalling], [AfterMarshalling, ModifyHttpRequest], n);
  }

  /** `beforeExecution` and `modifyRequest`: only those hooks, and each
      once per interceptor when both pass. */
  lemma PrepareHooks(c: Chain.Chain, input: Message, attrs: Attributes)
    ensures var p := AsyncHandler.Prepare(c, input, attrs);
      && Within(HooksOf(p.trace), {BeforeExecution, ModifyRequest})
      && (p.outcome.Success? ==>
            HooksOf(p.trace) == Copies(BeforeExecution, |c.interceptors|) + Copies(ModifyRequest, |c.interceptors|))
  {
    var n := |c.interceptors|;
    var ctx := AsyncHandler.Initial(input);
    var be := Chain.BeforeExecution(c, ctx, attrs);
    ObservedHooks(c.interceptors, Chain.Forward(n), BeforeExecution, Plain(ctx), attrs, be, true);
    if be.outcome.Failure? {
      TwoCheckpoints(be.trace, [], BeforeExecution, ModifyRequest);
      assert be.trace + [] == be.trace;
    } else {
      var mr := Chain.ModifyRequest(c, ctx, be.attrs);
      ModifiedHooks(Chain.RequestSlot, c.interceptors, Chain.Forward(n), ctx, be.attrs, ctx, mr, true);
      TwoCheckpoints(be.trace, mr.trace, BeforeExecution, ModifyRequest);
    }
  }

  /** The events the marshalling block records after `beforeMarshalling`
      are not interceptor calls. */
  lemma MarshalTailHooks(marshalled: Option<Message>, aborted: bool)
    ensures HooksOf(AsyncHandler.MarshalTail(marshalled, aborted)) == []
  {
    var a: seq<Event> := if marshalled.Some? then [Marshalled(marshalled.value)] else [];
    var b: seq<Event> := if aborted then [ClientExecutionEnded(None, None)] else [];
    HooksOfThree(a, b, [Ended(RequestMarshallTime)]);
    if marshalled.Some? { HooksOfOne(Marshalled(marshalled.value)); }
    if aborted { HooksOfOne(ClientExecutionEnded(None, None)); }
    HooksOfOne(Ended(RequestMarshallTime));
  }

  /** The marshalling block, with the timers started before it: only
      `beforeMarshalling`, once per interceptor when the block passes. */
  lemma MarshalHooks(c: Chain.Chain, ctx: Context, attrs: Attributes, co: AsyncHandler.Collaborators)
    ensures var m := AsyncHandler.MarshalStage(c, ctx, attrs, co);
      && HooksOf(AsyncHandler.TIMERS + m.trace) == HooksOf(Chain.BeforeMarshalling(c, ctx, attrs).trace)
      && HooksOf(AsyncHandler.TIMERS + m.trace) == Copies(BeforeMarshalling, |Chain.BeforeMarshalling(c, ctx, attrs).trace|)
      && (m.outcome.Success? ==> |Chain.BeforeMarshalling(c, ctx, attrs).trace| == |c.interceptors|)
  {
    var n := |c.interceptors|;
    var bm := Chain.BeforeMarshalling(c, ctx, attrs);
    var m := AsyncHandler.MarshalStage(c, ctx, attrs, co);
    ObservedHooks(c.interceptors, Chain.Forward(n), BeforeMarshalling, Plain(ctx), attrs, bm, true);
    var marshalled, aborted := MarshalStageSplit(c, ctx, attrs, co);
    MarshalTailHooks(marshalled, aborted);
    TimersAround(bm.trace, AsyncHandler.MarshalTail(marshalled, aborted), m.trace);
  }

  /** Calls between the timer events and events that are not calls. */
  lemma TimersAround(t: seq<Event>, tail: seq<Event>, trace: seq<Event>)
    requires trace == t + tail
    requires HooksOf(tail) == []
    ensures HooksOf(AsyncHandler.TIMERS + trace) == HooksOf(t)
  {
    HooksOfTimers();
    HooksOfAppend(AsyncHandler.TIMERS, trace);
    HooksOfAppend(t, tail);
  }

  /** The marshalling block's events: those of `beforeMarshalling`, then
      the block's own. */
  lemma MarshalStageSplit(c: Chain.Chain, ctx: Context, attrs: Attributes, co: AsyncHandler.Collaborators)
    returns (marshalled: Option<Message>, aborted: bool)
    ensures AsyncHandler.MarshalStage(c, ctx, attrs, co).trace
              == Chain.BeforeMarshalling(c, ctx, attrs).trace + AsyncHandler.MarshalTail(marshalled, aborted)
  {
    var bm := Chain.BeforeMarshalling(c, ctx, attrs);
    if bm.outcome.Failure? {
      marshalled, aborted := None, IsRuntime(bm.outcome.error);
    } else if co.marshal(ctx.request).Failure? {
      marshalled, aborted := Some(ctx.request), IsRuntime(co.marshal(ctx.request).error);
    } else {
      marshalled, aborted := Some(ctx.request), false;
    }
  }

  /** `afterMarshalling` and `modifyHttpRequest`: only those hooks, and
      each once per interceptor when both pass. */
  lemma SendHooks(c: Chain.Chain, ctx: Context, attrs: Attributes)
    ensures var s := AsyncHandler.SendStage(c, ctx, attrs);
      && Within(HooksOf(s.trace), {AfterMarshalling, ModifyHttpRequest})
      && (s.outcome.Success? ==>
            HooksOf(s.trace) == Copies(AfterMarshalling, |c.interceptors|) + Copies(ModifyHttpRequest, |c.interceptors|))
  {
    var n := |c.interceptors|;
    var am := Chain.AfterMarshalling(c, ctx, attrs);
    ObservedHooks(c.interceptors, Chain.Forward(n), AfterMarshalling, Plain(ctx), attrs, am, true);
    if am.outcome.Failure? {
      TwoCheckpoints(am.trace, [], AfterMarshalling, ModifyHttpRequest);
      assert am.trace + [] == am.trace;
    } else {
      var mh := Chain.ModifyHttpRequest(c, ctx, am.attrs);
      ModifiedHooks(Chain.HttpRequestSlot, c.interceptors, Chain.Forward(n), ctx, am.attrs, ctx, mh, true);
      TwoCheckpoints(am.trace, mh.trace, AfterMarshalling, ModifyHttpRequest);
    }
  }

  /** The caller-thread stages as `execute` runs them. */
  lemma CallerStages(c: Chain.Chain, input: Message, attrs: Attributes, co: AsyncHandler.Collaborators)
    requires Reaches(c, input, attrs, co)
    ensures var p := AsyncHandler.Prepare(c, input, attrs);
      && AsyncHandler.Marshalling(c, input, attrs, co) == AsyncHandler.MarshalStage(c, p.outcome.value, p.attrs, co)
      && AsyncHandler.Sending(c, input, attrs, co)
           == AsyncHandler.SendStage(c, AsyncHandler.Adapted(c, input, attrs, co), AsyncHandler.Marshalling(c, input, attrs, co).attrs)
  {
  }

  lemma CallerTraceParts(c: Chain.Chain, input: Message, attrs: Attributes, co: AsyncHandler.Collaborators)
    requires Reaches(c, input, attrs, co)
    ensures CallerTrace(c, input, attrs, co)
              == AsyncHandler.Prepare(c, input, attrs).trace + (AsyncHandler.TIMERS + AsyncHandler.Marshalling(c, input, attrs, co).trace)
                 + AsyncHandler.Sending(c, input, attrs, co).trace
  {
    Regroup(AsyncHandler.Prepare(c, input, attrs).trace, AsyncHandler.TIMERS,
            AsyncHandler.Marshalling(c, input, attrs, co).trace, AsyncHandler.Sending(c, input, attrs, co).trace);
  }

  lemma Regroup(a: seq<Event>, b: seq<Event>, c: seq<Event>, d: seq<Event>)
    ensures a + b + c + d == a + (b + c) + d
  {
  }

  /** When the request is handed on, each interceptor has seen the first
      five documented hooks, in order. */
  lemma CallerHooks(c: Chain.Chain, input: Message, attrs: Attributes, co: AsyncHandler.Collaborators)
    requires Reaches(c, input, attrs, co)
    ensures HooksOf(CallerTrace(c, input, attrs, co)) == Repeat(DOCUMENTED[..5], |c.interceptors|)
  {
    var p := AsyncHandler.Prepare(c, input, attrs);
    var m := AsyncHandler.Marshalling(c, input, attrs, co);
    var s := AsyncHandler.Sending(c, input, attrs, co);
    CallerStages(c, input, attrs, co);
    CallerTraceParts(c, input, attrs, co);
    PrepareHooks(c, input, attrs);
    MarshalHooks(c, p.outcome.value, p.attrs, co);
    SendHooks(c, AsyncHandler.Adapted(c, input, attrs, co), m.attrs);
    HooksOfThree(p.trace, AsyncHandler.TIMERS + m.trace, s.trace);
    CallerRepeat(|c.interceptors|);
  }

  /** A failure before transmission is thrown by `execute` itself: the
      calls made were all of the first five documented hooks, and no
      failure hook ran. */
  lemma ExecuteThrows(c: Chain.Chain, input: Message, attrs: Attributes, co: AsyncHandler.Collaborators, st: Stages)
    ensures var x := Execute(c, input, attrs, co, st);
      && (x.outcome.Thrown? <==> !Reaches(c, input, attrs, co))
      && (x.outcome.Thrown? ==> Within(HooksOf(x.trace), CALLER_HOOKS) && OnExecutionFailure !in HooksOf(x.trace))
  {
    var x := Execute(c, input, attrs, co, st);
    ExecuteAgrees(c, input, attrs, co, st);
    if x.outcome.Thrown? {
      ThrownTraceOf(c, input, attrs, co, st);
      ThrownHooks(c, input, attrs, co);
      assert OnExecutionFailure !in CALLER_HOOKS;
    }
  }

  /** The caller's events of an execution that throws, up to the stage
      that failed. */
  function ThrownTrace(c: Chain.Chain, input: Message, attrs: Attributes, co: AsyncHandler.Collaborators): seq<Event>
  {
    var p := AsyncHandler.Prepare(c, input, attrs);
    if p.outcome.Failure? then p.trace
    else
      var m := AsyncHandler.Marshalling(c, input, attrs, co);
      if m.outcome.Failure? then p.trace + AsyncHandler.TIMERS + m.trace
      else p.trace + AsyncHandler.TIMERS + m.trace + AsyncHandler.Sending(c, input, attrs, co).trace
  }

  lemma ThrownTraceOf(c: Chain.Chain, input: Message, attrs: Attributes, co: AsyncHandler.Collaborators, st: Stages)
    requires !Reaches(c, input, attrs, co)
    ensures Execute(c, input, attrs, co, st).trace == ThrownTrace(c, input, attrs, co)
  {
  }

  lemma ThrownHooks(c: Chain.Chain, input: Message, attrs: Attributes, co: AsyncHandler.Collaborators)
    ensures Within(HooksOf(ThrownTrace(c, input, attrs, co)), CALLER_HOOKS)
  {
    var p := AsyncHandler.Prepare(c, input, attrs);
    PrepareHooks(c, input, attrs);
    if p.outcome.Success? {
      var m := AsyncHandler.Marshalling(c, input, attrs, co);
      MarshalledPrefixHooks(c, input, attrs, co);
      if m.outcome.Success? {
        SentPrefixHooks(c, input, attrs, co);
      }
    }
  }

  /** The caller's events up to sending call only the first five hooks. */
  lemma SentPrefixHooks(c: Chain.Chain, input: Message, attrs: Attributes, co: AsyncHandler.Collaborators)
    requires AsyncHandler.Prepare(c, input, attrs).outcome.Success?
    requires AsyncHandler.Marshalling(c, input, attrs, co).outcome.Success?
    ensures Within(HooksOf(AsyncHandler.Prepare(c, input, attrs).trace + AsyncHandler.TIMERS
                           + AsyncHandler.Marshalling(c, input, attrs, co).trace + AsyncHandler.Sending(c, input, attrs, co).trace),
                   CALLER_HOOKS)
  {
    var p := AsyncHandler.Prepare(c, input, attrs);
    var m := AsyncHandler.Marshalling(c, input, attrs, co);
    var s := AsyncHandler.Sending(c, input, attrs, co);
    MarshalledPrefixHooks(c, input, attrs, co);
    SendHooks(c, AsyncHandler.Adapted(c, input, attrs, co), m.attrs);
    HooksOfAppend(p.trace + AsyncHandler.TIMERS + m.trace, s.trace);
    WithinAppend(HooksOf(p.trace + AsyncHandler.TIMERS + m.trace), HooksOf(s.trace),
                 {BeforeExecution, ModifyRequest} + {BeforeMarshalling}, {AfterMarshalling, ModifyHttpRequest});
  }

  /** The caller's events up to marshalling call only the first three
      hooks. */
  lemma MarshalledPrefixHooks(c: Chain.Chain, input: Message, attrs: Attributes, co: AsyncHandler.Collaborators)
    requires AsyncHandler.Prepare(c, input, attrs).outcome.Success?
    ensures var p := AsyncHandler.Prepare(c, input, attrs);
      Within(HooksOf(p.trace + AsyncHandler.TIMERS + AsyncHandler.Marshalling(c, input, attrs, co).trace),
             {BeforeExecution, ModifyRequest} + {BeforeMarshalling})
  {
    var p := AsyncHandler.Prepare(c, input, attrs);
    var m := AsyncHandler.Marshalling(c, input, attrs, co);
    PrepareHooks(c, input, attrs);
    MarshalHooks(c, p.outcome.value, p.attrs, co);
    assert Within(HooksOf(AsyncHandler.TIMERS + m.trace), {BeforeMarshalling});
    WithinAcrossTimers(p.trace, m.trace, {BeforeExecution, ModifyRequest}, {BeforeMarshalling});
  }

  /** Hooks before the timer events and after them. */
  lemma WithinAcrossTimers(a: seq<Event>, b: seq<Event>, x: set<Hook>, y: set<Hook>)
    requires Within(HooksOf(a), x) && Within(HooksOf(AsyncHandler.TIMERS + b), y)
    ensures Within(HooksOf(a + AsyncHandler.TIMERS + b), x + y)
  {
    HooksOfTimers();
    HooksOfAppend(a + AsyncHandler.TIMERS, b);
    HooksOfAppend(a, AsyncHandler.TIMERS);
    HooksOfAppend(AsyncHandler.TIMERS, b);
    assert HooksOf(a + AsyncHandler.TIMERS) == HooksOf(a);
    assert HooksOf(AsyncHandler.TIMERS + b) == HooksOf(b);
    WithinAppend(HooksOf(a), HooksOf(b), x, y);
  }

  /** The fields of the context handed to the HTTP layer: the request
      `modifyRequest` produced and the HTTP request, nothing else. */
  lemma SentFields(c: Chain.Chain, input: Message, attrs: Attributes, co: AsyncHandler.Collaborators)
    requires Reaches(c, input, attrs, co)
    ensures Present(Sent(c, input, attrs, co)) == {HttpRequestField}
    ensures Sent(c, input, attrs, co).request == Prepared(c, input, attrs)
  {
    var p := AsyncHandler.Prepare(c, input, attrs);
    var ad := AsyncHandler.Adapted(c, input, attrs, co);
    assert ad == InterceptorContext.ReplaceHttpRequest(p.outcome.value, co.toHttpFullRequest(AsyncHandler.Marshalling(c, input, attrs, co).outcome.value));
    assert ad.httpResponse.None? && ad.response.None?;
  }

  // ---------------------------------------------------------------------
  // After the hand-over, for any chain

  /** A run of the HTTP layer that passes, from a context holding only the
      HTTP request, called its six documented hooks once per interceptor. */
  lemma LayerHooks(c: Chain.Chain, ctx: Context, attrs: Attributes, st: Stages)
    requires Present(ctx) == {HttpRequestField}
    ensures var h := HttpRun(c, ctx, attrs, st);
      h.outcome.Success? ==> HooksOf(h.trace) == Repeat(DOCUMENTED[5..11], |c.interceptors|)
  {
    LayerSteps();
    ReadyLayer();
    LayerFollowsDocumentation();
    StepsPassed(c, HTTP_LAYER, ctx, attrs, st);
  }

  /** The continuation completes normally only on a response, and then it
      called `afterExecution` once per interceptor and nothing else. */
  lemma HandleCompleted(c: Chain.Chain, request: MarshalledRequest, done: AsyncHandler.Completion,
                        failure: Exception -> Exception)
    ensures var k := AsyncHandler.Handle(c, request, done, failure);
      k.outcome.Completed? ==>
        && done.result.Success?
        && HooksOf(k.trace) == Copies(AfterExecution, |c.interceptors|)
  {
    var k := AsyncHandler.Handle(c, request, done, failure);
    var t := AsyncHandler.TryBlock(c, done, failure);
    AsyncHandler.TryBlockShape(c, done, failure);
    if k.outcome.Completed? {
      assert t.outcome.Success?;
      var ae := Chain.AfterExecution(c, done.context, done.attrs);
      assert t.trace == ae.trace;
      ObservedHooks(c.interceptors, Chain.Reverse(|c.interceptors|), AfterExecution, Plain(done.context), done.attrs, ae, true);
      var end := AsyncHandler.EndOf(request, done);
      assert k.trace == ae.trace + [end];
      HooksOfAppend(ae.trace, [end]);
      HooksOfOne(end);
      assert HooksOf(k.trace) == HooksOf(ae.trace) + [];
    }
  }

  /** When the future completes normally, the HTTP layer called the sixth
      to eleventh documented hooks and the continuation `afterExecution`,
      each once per interceptor. */
  lemma RemoteHooks(c: Chain.Chain, request: MarshalledRequest, wire: WireRequest, ctx: Context, attrs: Attributes,
                    st: Stages, failure: Exception -> Exception)
    requires Present(ctx) == {HttpRequestField}
    ensures var r := Remote(c, request, wire, ctx, attrs, st, failure);
      r.outcome.Completed? ==>
        HooksOf(r.trace) == Repeat(DOCUMENTED[5..11], |c.interceptors|) + Copies(AfterExecution, |c.interceptors|)
  {
    var r := Remote(c, request, wire, ctx, attrs, st, failure);
    var done := HttpCompletion(c, ctx, attrs, st);
    var k := AsyncHandler.Handle(c, request, done, failure);
    var h := HttpRun(c, ctx, attrs, st);
    HandleCompleted(c, request, done, failure);
    if r.outcome.Completed? {
      LayerHooks(c, ctx, attrs, st);
      HooksOfOne(Transmitted(wire));
      HooksOfThree([Transmitted(wire)], h.trace, k.trace);
    }
  }

  /** The documented order as the caller thread, the HTTP layer and the
      continuation divide it, once per interceptor. */
  lemma DocumentedRepeat(n: nat)
    ensures Repeat(DOCUMENTED, n) == Repeat(DOCUMENTED[..5], n) + (Repeat(DOCUMENTED[5..11], n) + Copies(AfterExecution, n))
  {
    DocumentedParts();
    RepeatOne(AfterExecution, n);
    RepeatAppend(DOCUMENTED[..5], DOCUMENTED[5..11], n);
    RepeatAppend(DOCUMENTED[..5] + DOCUMENTED[5..11], [AfterExecution], n);
  }

  /** The first nine documented hooks, once per interceptor, then `k`
      failure calls. */
  lemma UntilUnmarshalRepeat(n: nat, k: nat)
    ensures Repeat(DOCUMENTED[..9], n) + Copies(OnExecutionFailure, k)
              == Repeat(DOCUMENTED[..5], n) + (Repeat(DOCUMENTED[5..9], n) + Copies(OnExecutionFailure, k))
  {
    DocumentedParts();
    RepeatAppend(DOCUMENTED[..5], DOCUMENTED[5..9], n);
    var a, b, f := Repeat(DOCUMENTED[..5], n), Repeat(DOCUMENTED[5..9], n), Copies(OnExecutionFailure, k);
    assert a + b + f == a + (b + f);
  }

  /** Any chain: an execution whose future completes normally called
      every documented hook once per interceptor, in the documented order,
      and nothing else. */
  lemma ExecuteHooks(c: Chain.Chain, input: Message, attrs: Attributes, co: AsyncHandler.Collaborators, st: Stages)
    ensures var x := Execute(c, input, attrs, co, st);
      x.outcome.Completed? ==> HooksOf(x.trace) == Repeat(DOCUMENTED, |c.interceptors|)
  {
    var x := Execute(c, input, attrs, co, st);
    ExecuteReaches(c, input, attrs, co, st);
    if x.outcome.Completed? {
      var r := Handover(c, input, attrs, co, st);
      CallerHooks(c, input, attrs, co);
      SentFields(c, input, attrs, co);
      RemoteHooks(c, AsyncHandler.Marshalling(c, input, attrs, co).outcome.value, AsyncHandler.Wire(c, input, attrs, co),
                  Sent(c, input, attrs, co), SentAttrs(c, input, attrs, co), st, co.failure);
      HooksOfAppend(CallerTrace(c, input, attrs, co), r.trace);
      DocumentedRepeat(|c.interceptors|);
    }
  }

  /** Any single interceptor whose execution completes normally saw the
      twelve documented hooks, each once, in the documented order. */
  lemma SingleInterceptorLifecycle(c: Chain.Chain, input: Message, attrs: Attributes, co: AsyncHandler.Collaborators, st: Stages)
    requires |c.interceptors| == 1
    ensures var x := Execute(c, input, attrs, co, st);
      x.outcome.Completed? ==> HooksOf(x.trace) == DOCUMENTED
  {
    ExecuteHooks(c, input, attrs, co, st);
    RepeatOnce(DOCUMENTED);
  }

  // ---------------------------------------------------------------------
  // The response `afterExecution` sees, for any chain

  /** Every `afterExecution` call in `t` was shown a context holding the
      response `resp`. */
  predicate SeesResponse(t: seq<Event>, resp: Message)
  {
    forall k :: 0 <= k < |t| && t[k].Called? && t[k].hook == AfterExecution ==>
      t[k].arg.Plain? && t[k].arg.ctx.response == Some(resp)
  }

  /** A call in a trace is listed among its hooks. */
  lemma {:induction false} CalledListed(t: seq<Event>, k: nat)
    requires k < |t| && t[k].Called?
    ensures t[k].hook in HooksOf(t)
    decreases k
  {
    if k > 0 {
      CalledListed(t[1..], k - 1);
      assert t[1..][k - 1] == t[k];
    }
  }

  /** Each hook of `hs` `n` times over lists no hook outside `hs`. */
  lemma {:induction false} RepeatListed(h: Hook, hs: seq<Hook>, n: nat)
    requires h in Repeat(hs, n)
    ensures h in hs
    decreases |hs|
  {
    if h !in Copies(hs[0], n) {
      RepeatListed(h, hs[1..], n);
    }
  }

  /** Calls that are not `afterExecution` calls ahead of a trace leave
      what its `afterExecution` calls see unchanged. */
  lemma SeesResponseAfter(pre: seq<Event>, t: seq<Event>, resp: Message)
    requires AfterExecution !in HooksOf(pre)
    requires SeesResponse(t, resp)
    ensures SeesResponse(pre + t, resp)
  {
    var x := pre + t;
    forall k | 0 <= k < |x| && x[k].Called? && x[k].hook == AfterExecution
      ensures x[k].arg.Plain? && x[k].arg.ctx.response == Some(resp)
    {
      if k < |pre| {
        assert x[k] == pre[k];
        CalledListed(pre, k);
        assert false;
      } else {
        assert x[k] == t[k - |pre|];
      }
    }
  }

  /** The continuation completes normally only with the response the HTTP
      layer completed with, and its `afterExecution` calls were shown the
      context that layer completed with. */
  lemma HandleSeesResponse(c: Chain.Chain, request: MarshalledRequest, done: AsyncHandler.Completion,
                           failure: Exception -> Exception)
    requires done.result.Success? ==> done.context.response == Some(done.result.value)
    ensures var k := AsyncHandler.Handle(c, request, done, failure);
      k.outcome.Completed? ==> k.outcome.response == done.result.value && SeesResponse(k.trace, k.outcome.response)
  {
    var k := AsyncHandler.Handle(c, request, done, failure);
    var t := AsyncHandler.TryBlock(c, done, failure);
    AsyncHandler.TryBlockShape(c, done, failure);
    if k.outcome.Completed? {
      var end := AsyncHandler.EndOf(request, done);
      assert k.trace == t.trace + [end];
      forall j | 0 <= j < |k.trace| && k.trace[j].Called? && k.trace[j].hook == AfterExecution
        ensures k.trace[j].arg.Plain? && k.trace[j].arg.ctx.response == Some(k.outcome.response)
      {
        assert k.trace[j] == t.trace[j];
      }
    }
  }

  /** After the hand-over, a future that completes normally completes
      with the response every `afterExecution` call was shown. */
  lemma RemoteSeesResponse(c: Chain.Chain, request: MarshalledRequest, wire: WireRequest, ctx: Context, attrs: Attributes,
                           st: Stages, failure: Exception -> Exception)
    requires Present(ctx) == {HttpRequestField}
    ensures var r := Remote(c, request, wire, ctx, attrs, st, failure);
      r.outcome.Completed? ==> SeesResponse(r.trace, r.outcome.response)
  {
    var r := Remote(c, request, wire, ctx, attrs, st, failure);
    var done := HttpCompletion(c, ctx, attrs, st);
    var h := HttpRun(c, ctx, attrs, st);
    HandleCompleted(c, request, done, failure);
    HandleSeesResponse(c, request, done, failure);
    if r.outcome.Completed? {
      LayerHooks(c, ctx, attrs, st);
      LayerThenResponse(Transmitted(wire), h.trace, AsyncHandler.Handle(c, request, done, failure).trace, |c.interceptors|,
                        r.outcome.response);
    }
  }

  /** The transmission and the HTTP layer's calls ahead of a trace whose
      `afterExecution` calls see a response. */
  lemma LayerThenResponse(tr: Event, h: seq<Event>, t: seq<Event>, n: nat, resp: Message)
    requires !tr.Called? && HooksOf(h) == Repeat(DOCUMENTED[5..11], n)
    requires SeesResponse(t, resp)
    ensures SeesResponse([tr] + h + t, resp)
  {
    DocumentedParts();
    if AfterExecution in Repeat(DOCUMENTED[5..11], n) {
      RepeatListed(AfterExecution, DOCUMENTED[5..11], n);
      assert false;
    }
    HooksOfOne(tr);
    HooksOfAppend([tr], h);
    SeesResponseAfter([tr] + h, t, resp);
  }

  /** Any chain: when the future completes normally, every
      `afterExecution` call was shown a context holding the very response
      the future completes with. */
  lemma ExecuteSeesResponse(c: Chain.Chain, input: Message, attrs: Attributes, co: AsyncHandler.Collaborators, st: Stages)
    ensures var x := Execute(c, input, attrs, co, st);
      x.outcome.Completed? ==> SeesResponse(x.trace, x.outcome.response)
  {
    var x := Execute(c, input, attrs, co, st);
    ExecuteReaches(c, input, attrs, co, st);
    if x.outcome.Completed? {
      var r := Handover(c, input, attrs, co, st);
      CallerHooks(c, input, attrs, co);
      SentFields(c, input, attrs, co);
      RemoteSeesResponse(c, AsyncHandler.Marshalling(c, input, attrs, co).outcome.value, AsyncHandler.Wire(c, input, attrs, co),
                         Sent(c, input, attrs, co), SentAttrs(c, input, attrs, co), st, co.failure);
      CallerThenResponse(CallerTrace(c, input, attrs, co), r.trace, |c.interceptors|, x.outcome.response);
    }
  }

  /** The caller's calls ahead of a trace whose `afterExecution` calls
      see a response. */
  lemma CallerThenResponse(pre: seq<Event>, t: seq<Event>, n: nat, resp: Message)
    requires HooksOf(pre) == Repeat(DOCUMENTED[..5], n)
    requires SeesResponse(t, resp)
    ensures SeesResponse(pre + t, resp)
  {
    DocumentedParts();
    if AfterExecution in Repeat(DOCUMENTED[..5], n) {
      RepeatListed(AfterExecution, DOCUMENTED[..5], n);
      assert false;
    }
    SeesResponseAfter(pre, t, resp);
  }

  // ---------------------------------------------------------------------
  // A failing unmarshaller, for any chain

  /** The HTTP layer's steps before the unmarshaller. */
  function UntilUnmarshal(c: Chain.Chain, ctx: Context, attrs: Attributes, st: Stages): Progress
  {
    LayerSteps();
    RunSteps(c, UNTIL_UNMARSHAL, ctx, attrs, st)
  }

  /** The execution reaches the HTTP layer, and every checkpoint up to
      `beforeUnmarshalling`, and the transmission, pass. */
  predicate PassesUntilUnmarshal(c: Chain.Chain, input: Message, attrs: Attributes, co: AsyncHandler.Collaborators, st: Stages)
  {
    Reaches(c, input, attrs, co)
    && UntilUnmarshal(c, Sent(c, input, attrs, co), SentAttrs(c, input, attrs, co), st).outcome.Success?
  }

  /** The `onExecutionFailure` checkpoint the continuation runs when the
      unmarshaller throws `e`. */
  function UnmarshalFailureHooks(c: Chain.Chain, ctx: Context, attrs: Attributes, st: Stages, failure: Exception -> Exception,
                                 e: Exception): Run<()>
    requires UntilUnmarshal(c, ctx, attrs, st).outcome.Success?
  {
    var pa := UntilUnmarshal(c, ctx, attrs, st);
    Chain.OnExecutionFailure(c, FailedContext.Of(pa.outcome.value, failure(e)), pa.attrs)
  }

  /** The failure the interceptors see when unmarshalling throws `e`: the
      request, the HTTP request and response given, both present, no
      response. */
  predicate FailedUnmarshalling(ev: Event, request: Message, httpRequest: Option<WireRequest>, httpResponse: Option<Message>,
                                e: Exception)
  {
    && ev.Called? && ev.arg.Failing?
    && FailedContext.Request(ev.arg.failed) == request
    && FailedContext.ExceptionOf(ev.arg.failed) == e
    && FailedContext.HttpRequest(ev.arg.failed) == httpRequest && httpRequest.Some?
    && FailedContext.HttpResponse(ev.arg.failed) == httpResponse && httpResponse.Some?
    && FailedContext.Response(ev.arg.failed).None?
  }

  /** The steps up to the unmarshaller, when they pass from a context
      holding only the HTTP request, leave the request and the HTTP
      request they were given, an HTTP response, and no response; the
      unmarshaller then stops the HTTP layer there. */
  lemma UnmarshalStops(c: Chain.Chain, ctx: Context, attrs: Attributes, st: Stages, e: Exception)
    requires Present(ctx) == {HttpRequestField}
    requires UntilUnmarshal(c, ctx, attrs, st).outcome.Success?
    requires forall m :: st.unmarshal(m) == Failure(e)
    ensures var pa := UntilUnmarshal(c, ctx, attrs, st);
      var last := pa.outcome.value;
      && last.request == ctx.request && last.httpRequest == ctx.httpRequest
      && last.httpRequest.Some? && last.httpResponse.Some? && last.response.None?
      && HooksOf(pa.trace) == Repeat(DOCUMENTED[5..9], |c.interceptors|)
      && HttpRun(c, ctx, attrs, st) == Progress(Failure(e), last, pa.attrs, pa.trace)
  {
    var pa := UntilUnmarshal(c, ctx, attrs, st);
    var last := pa.outcome.value;
    LayerSteps();
    ReadyUntilUnmarshal();
    CheckpointsUntilUnmarshal();
    StepsPassed(c, UNTIL_UNMARSHAL, ctx, attrs, st);
    StepsKeepHttpRequest(c, UNTIL_UNMARSHAL, ctx, attrs, st);
    PresentHas(last);
    assert HttpRequestField in Present(last) && HttpResponseField in Present(last) && ResponseField !in Present(last);
    RunStepsAppend(c, UNTIL_UNMARSHAL, UNMARSHALLING, ctx, attrs, st);
    assert FillIn(Unmarshal, last, st) == Failure(e);
    assert RunSteps(c, UNMARSHALLING, last, pa.attrs, st) == Progress(Failure(e), last, pa.attrs, []);
    assert pa.trace + [] == pa.trace;
  }

  /** The continuation on an error the HTTP layer completed with: the
      failure hooks run on `Throwables.failure` of it, and their exception,
      if any, replaces it. */
  lemma HandleFails(c: Chain.Chain, request: MarshalledRequest, done: AsyncHandler.Completion, failure: Exception -> Exception)
    requires done.result.Failure? && IsRuntime(failure(done.result.error))
    ensures var k := AsyncHandler.Handle(c, request, done, failure);
      var of := Chain.OnExecutionFailure(c, FailedContext.Of(done.context, failure(done.result.error)), done.attrs);
      && k.trace == of.trace + [AsyncHandler.EndOf(request, done)]
      && k.outcome == AsyncHandler.CompletedExceptionally(if of.outcome.Failure? then of.outcome.error else failure(done.result.error))
  {
    assert [] + Chain.OnExecutionFailure(c, FailedContext.Of(done.context, failure(done.result.error)), done.attrs).trace
             == Chain.OnExecutionFailure(c, FailedContext.Of(done.context, failure(done.result.error)), done.attrs).trace;
  }

  /** After the hand-over, when every checkpoint up to
      `beforeUnmarshalling` passes and the unmarshaller throws `e`: the
      hooks called are the sixth to ninth documented ones, then the failure
      hooks, whose calls, just before the end event, each see the request,
      the HTTP request and response, no response and `failure(e)`. */
  lemma RemoteUnmarshalFails(c: Chain.Chain, request: MarshalledRequest, wire: WireRequest, ctx: Context, attrs: Attributes,
                             st: Stages, failure: Exception -> Exception, e: Exception)
    requires Present(ctx) == {HttpRequestField}
    requires UntilUnmarshal(c, ctx, attrs, st).outcome.Success?
    requires forall m :: st.unmarshal(m) == Failure(e)
    requires IsRuntime(failure(e))
    ensures var r := Remote(c, request, wire, ctx, attrs, st, failure);
      var of := UnmarshalFailureHooks(c, ctx, attrs, st, failure, e);
      && r.outcome == AsyncHandler.CompletedExceptionally(if of.outcome.Failure? then of.outcome.error else failure(e))
      && HooksOf(r.trace) == Repeat(DOCUMENTED[5..9], |c.interceptors|) + Copies(OnExecutionFailure, |of.trace|)
      && (of.outcome.Success? ==> |of.trace| == |c.interceptors|)
      && |r.trace| > |of.trace|
      && forall k :: |r.trace| - 1 - |of.trace| <= k < |r.trace| - 1 ==>
           FailedUnmarshalling(r.trace[k], ctx.request, ctx.httpRequest, UntilUnmarshal(c, ctx, attrs, st).outcome.value.httpResponse,
                               failure(e))
  {
    var pa := UntilUnmarshal(c, ctx, attrs, st);
    var last := pa.outcome.value;
    var of := UnmarshalFailureHooks(c, ctx, attrs, st, failure, e);
    UnmarshalStops(c, ctx, attrs, st, e);
    var done := AsyncHandler.Completion(Failure(e), last, pa.attrs);
    assert HttpCompletion(c, ctx, attrs, st) == done;
    HandleFails(c, request, done, failure);
    UnmarshalFailureCalls(of, last, failure(e), pa.attrs, c);
    TransmittedThenFailure(Remote(c, request, wire, ctx, attrs, st, failure).trace, Transmitted(wire), pa.trace, of.trace,
                           AsyncHandler.EndOf(request, done), ctx.request, last.httpRequest, last.httpResponse, failure(e));
  }

  /** The failure hooks' calls on the context the unmarshaller failed on. */
  lemma UnmarshalFailureCalls(of: Run<()>, last: Context, err: Exception, attrs: Attributes, c: Chain.Chain)
    requires last.httpRequest.Some? && last.httpResponse.Some? && last.response.None?
    requires of == Chain.OnExecutionFailure(c, FailedContext.Of(last, err), attrs)
    ensures HooksOf(of.trace) == Copies(OnExecutionFailure, |of.trace|)
    ensures of.outcome.Success? ==> |of.trace| == |c.interceptors|
    ensures forall k :: 0 <= k < |of.trace| ==>
      FailedUnmarshalling(of.trace[k], last.request, last.httpRequest, last.httpResponse, err)
  {
    var f := FailedContext.Of(last, err);
    FailureCheckpointHooks(c, f, attrs);
    forall k | 0 <= k < |of.trace| ensures FailedUnmarshalling(of.trace[k], last.request, last.httpRequest, last.httpResponse, err) {
      assert Chain.ReadCallAt(Chain.Forward(|c.interceptors|), OnExecutionFailure, Failing(f), of.trace, k);
    }
  }

  /** The transmission event, the HTTP layer's calls up to the failing
      unmarshaller, the failure calls and the end event. */
  lemma TransmittedThenFailure(trace: seq<Event>, tr: Event, t: seq<Event>, of: seq<Event>, end: Event,
                               request: Message, hreq: Option<WireRequest>, hresp: Option<Message>, err: Exception)
    requires trace == [tr] + t + (of + [end])
    requires !tr.Called? && !end.Called?
    requires forall k :: 0 <= k < |of| ==> FailedUnmarshalling(of[k], request, hreq, hresp, err)
    ensures HooksOf(trace) == HooksOf(t) + HooksOf(of)
    ensures |trace| > |of|
    ensures forall k :: |trace| - 1 - |of| <= k < |trace| - 1 ==> FailedUnmarshalling(trace[k], request, hreq, hresp, err)
  {
    TransmittedThenFailureHooks(trace, tr, t, of, end);
    FailuresBeforeEnd([tr] + t, of, end, trace, request, hreq, hresp, err);
  }

  lemma TransmittedThenFailureHooks(trace: seq<Event>, tr: Event, t: seq<Event>, of: seq<Event>, end: Event)
    requires trace == [tr] + t + (of + [end])
    requires !tr.Called? && !end.Called?
    ensures HooksOf(trace) == HooksOf(t) + HooksOf(of)
  {
    HooksOfAppend([tr] + t, of + [end]);
    HooksOfAppend([tr], t);
    HooksOfAppend(of, [end]);
    HooksOfOne(tr);
    HooksOfOne(end);
  }

  /** Failure calls just before the end event. */
  lemma FailuresBeforeEnd(pre: seq<Event>, of: seq<Event>, end: Event, trace: seq<Event>, request: Message,
                           hreq: Option<WireRequest>, hresp: Option<Message>, err: Exception)
    requires trace == pre + (of + [end])
    requires forall k :: 0 <= k < |of| ==> FailedUnmarshalling(of[k], request, hreq, hresp, err)
    ensures |trace| > |of|
    ensures forall k :: |trace| - 1 - |of| <= k < |trace| - 1 ==> FailedUnmarshalling(trace[k], request, hreq, hresp, err)
  {
    forall k | |trace| - 1 - |of| <= k < |trace| - 1 ensures FailedUnmarshalling(trace[k], request, hreq, hresp, err) {
      assert trace[k] == of[k - |pre|];
    }
  }

  /** Events before a trace add their hooks in front and leave the
      failure calls counted from the end in place. */
  lemma FailuresAfter(pre: seq<Event>, t: seq<Event>, x: seq<Event>, m: nat, request: Message,
                      hreq: Option<WireRequest>, hresp: Option<Message>, e: Exception)
    requires x == pre + t && m < |t|
    requires forall k :: |t| - 1 - m <= k < |t| - 1 ==> FailedUnmarshalling(t[k], request, hreq, hresp, e)
    ensures HooksOf(x) == HooksOf(pre) + HooksOf(t)
    ensures |x| > m
    ensures forall k :: |x| - 1 - m <= k < |x| - 1 ==> FailedUnmarshalling(x[k], request, hreq, hresp, e)
  {
    HooksOfAppend(pre, t);
    forall k | |x| - 1 - m <= k < |x| - 1 ensures FailedUnmarshalling(x[k], request, hreq, hresp, e) {
      assert x[k] == t[k - |pre|];
    }
  }

  /** Any chain: when every checkpoint up to `beforeUnmarshalling` passes
      and the unmarshaller throws `e`, the future fails through
      `onExecutionFailure`. The hooks called are the first nine documented
      ones, once per interceptor, then the failure hooks, once per
      interceptor when none throws; each failure call sees the request
      `modifyRequest` produced, the HTTP request `modifyHttpRequest`
      produced, the HTTP response `beforeUnmarshalling` was given, no
      response and `e` as `Throwables.failure` returns it. */
  lemma UnmarshalFailure(c: Chain.Chain, input: Message, attrs: Attributes, co: AsyncHandler.Collaborators, st: Stages, e: Exception)
    requires PassesUntilUnmarshal(c, input, attrs, co, st)
    requires forall m :: st.unmarshal(m) == Failure(e)
    requires IsRuntime(co.failure(e))
    ensures var x := Execute(c, input, attrs, co, st);
      var of := UnmarshalFailureHooks(c, Sent(c, input, attrs, co), SentAttrs(c, input, attrs, co), st, co.failure, e);
      var n := |c.interceptors|;
      && x.outcome == AsyncHandler.CompletedExceptionally(if of.outcome.Failure? then of.outcome.error else co.failure(e))
      && HooksOf(x.trace) == Repeat(DOCUMENTED[..9], n) + Copies(OnExecutionFailure, |of.trace|)
      && (of.outcome.Success? ==> |of.trace| == n)
      && |x.trace| > |of.trace|
      && forall k :: |x.trace| - 1 - |of.trace| <= k < |x.trace| - 1 ==>
           FailedUnmarshalling(x.trace[k], Prepared(c, input, attrs), Sent(c, input, attrs, co).httpRequest,
                               UntilUnmarshal(c, Sent(c, input, attrs, co), SentAttrs(c, input, attrs, co), st).outcome.value.httpResponse,
                               co.failure(e))
  {
    var n := |c.interceptors|;
    var x := Execute(c, input, attrs, co, st);
    var of := UnmarshalFailureHooks(c, Sent(c, input, attrs, co), SentAttrs(c, input, attrs, co), st, co.failure, e);
    var r := Handover(c, input, attrs, co, st);
    ExecuteReaches(c, input, attrs, co, st);
    SentFields(c, input, attrs, co);
    RemoteUnmarshalFails(c, AsyncHandler.Marshalling(c, input, attrs, co).outcome.value, AsyncHandler.Wire(c, input, attrs, co),
                         Sent(c, input, attrs, co), SentAttrs(c, input, attrs, co), st, co.failure, e);
    CallerHooks(c, input, attrs, co);
    PrefixedFailure(x, r, CallerTrace(c, input, attrs, co), of, n, Prepared(c, input, attrs), Sent(c, input, attrs, co).httpRequest,
                    UntilUnmarshal(c, Sent(c, input, attrs, co), SentAttrs(c, input, attrs, co), st).outcome.value.httpResponse,
                    co.failure(e));
  }

  /** The caller's events ahead of a hand-over that failed in the
      unmarshaller. */
  lemma PrefixedFailure(x: AsyncHandler.Execution, r: AsyncHandler.Execution, pre: seq<Event>, of: Run<()>, n: nat,
                        request: Message, hreq: Option<WireRequest>, hresp: Option<Message>, err: Exception)
    requires x == AsyncHandler.Execution(r.outcome, r.attrs, pre + r.trace)
    requires HooksOf(pre) == Repeat(DOCUMENTED[..5], n)
    requires HooksOf(r.trace) == Repeat(DOCUMENTED[5..9], n) + Copies(OnExecutionFailure, |of.trace|)
    requires |r.trace| > |of.trace|
    requires forall k :: |r.trace| - 1 - |of.trace| <= k < |r.trace| - 1 ==> FailedUnmarshalling(r.trace[k], request, hreq, hresp, err)
    ensures HooksOf(x.trace) == Repeat(DOCUMENTED[..9], n) + Copies(OnExecutionFailure, |of.trace|)
    ensures |x.trace| > |of.trace|
    ensures forall k :: |x.trace| - 1 - |of.trace| <= k < |x.trace| - 1 ==> FailedUnmarshalling(x.trace[k], request, hreq, hresp, err)
  {
    UntilUnmarshalRepeat(n, |of.trace|);
    FailuresAfter(pre, r.trace, x.trace, |of.trace|, request, hreq, hresp, err);
  }

  // ---------------------------------------------------------------------
  // Default interceptors

  /** What a run of default interceptors achieves: success with the
      request it started with and the fields the steps fill in, each
      interceptor seeing each checkpoint's hook once, in step order, always
      with the attributes and the request the run started with. */
  ghost predicate Quiet(p: Progress, n: nat, steps: seq<Step>, ctx: Context, attrs: Attributes)
  {
    && p.outcome.Success? && p.attrs == attrs
    && p.outcome.value.request == ctx.request
    && Present(p.outcome.value) == Present(ctx) + FillsOf(steps)
    && HooksOf(p.trace) == Repeat(CheckpointsOf(steps), n)
    && CalledWith(p.trace, attrs) && SeesRequest(p.trace, ctx.request)
  }

  /** Default interceptors let every step through. */
  lemma {:induction false} DefaultSteps(n: nat, steps: seq<Step>, ctx: Context, attrs: Attributes, st: Stages)
    requires NoFailureStep(steps) && Ready(steps, Present(ctx)) && FillsReliable(steps, st)
    ensures Quiet(RunSteps(Chain.Chain(Defaults(n)), steps, ctx, attrs, st), n, steps, ctx, attrs)
    decreases |steps|
  {
    if steps == [] {
      assert Present(ctx) + FillsOf(steps) == Present(ctx);
    } else {
      StepsTail(steps);
      assert FillsOf(steps[1..]) <= FillsOf(steps);
      match steps[0]
      case Check(h) =>
        assert steps[0] != Check(OnExecutionFailure);
        DefaultSteps(n, steps[1..], ctx, attrs, st);
        DefaultCheckStep(n, steps, h, ctx, attrs, st);
      case Fill(s) =>
        assert Fills(s) in FillsOf(steps);
        assert FillIn(s, ctx, st).Success?;
        FillInPresent(s, ctx, st);
        DefaultSteps(n, steps[1..], FillIn(s, ctx, st).value, attrs, st);
        DefaultFillStep(n, steps, s, ctx, attrs, st);
    }
  }

  lemma DefaultCheckStep(n: nat, steps: seq<Step>, h: Hook, ctx: Context, attrs: Attributes, st: Stages)
    requires steps != [] && steps[0] == Check(h) && !h.OnExecutionFailure?
    requires NoFailureStep(steps) && NoFailureStep(steps[1..])
    requires Replaces(h).Some? ==> Has(ctx, Replaces(h).value)
    requires Quiet(RunSteps(Chain.Chain(Defaults(n)), steps[1..], ctx, attrs, st), n, steps[1..], ctx, attrs)
    ensures Quiet(RunSteps(Chain.Chain(Defaults(n)), steps, ctx, attrs, st), n, steps, ctx, attrs)
  {
    var q := ChainDefaults.QuietTrace(OrderOf(h, n), h, Plain(ctx), attrs);
    DefaultCheckUnfold(n, steps, h, ctx, attrs, st);
    HooksOfQuiet(OrderOf(h, n), h, Plain(ctx), attrs);
    QuietAfter(q, RunSteps(Chain.Chain(Defaults(n)), steps[1..], ctx, attrs, st), n, steps, h, ctx, attrs);
  }

  /** Under default interceptors a leading checkpoint only adds its quiet
      calls. */
  lemma DefaultCheckUnfold(n: nat, steps: seq<Step>, h: Hook, ctx: Context, attrs: Attributes, st: Stages)
    requires steps != [] && steps[0] == Check(h) && !h.OnExecutionFailure?
    requires NoFailureStep(steps) && NoFailureStep(steps[1..])
    requires Replaces(h).Some? ==> Has(ctx, Replaces(h).value)
    ensures RunSteps(Chain.Chain(Defaults(n)), steps, ctx, attrs, st)
              == After(ChainDefaults.QuietTrace(OrderOf(h, n), h, Plain(ctx), attrs),
                       RunSteps(Chain.Chain(Defaults(n)), steps[1..], ctx, attrs, st))
  {
    DefaultCheckpoint(n, h, ctx, attrs);
    RunStepsCheck(Chain.Chain(Defaults(n)), steps, h, ctx, attrs, st);
  }

  /** One checkpoint's quiet calls ahead of a quiet run make a quiet run. */
  lemma QuietAfter(q: seq<Event>, rest: Progress, n: nat, steps: seq<Step>, h: Hook, ctx: Context, attrs: Attributes)
    requires steps != [] && steps[0] == Check(h)
    requires HooksOf(q) == Copies(h, n) && CalledWith(q, attrs) && SeesRequest(q, ctx.request)
    requires Quiet(rest, n, steps[1..], ctx, attrs)
    ensures Quiet(After(q, rest), n, steps, ctx, attrs)
  {
    var p := After(q, rest);
    HooksOfAppend(q, rest.trace);
    CheckpointsOfCons(steps[0], steps[1..]);
    assert steps == [steps[0]] + steps[1..];
    RepeatCons(h, CheckpointsOf(steps[1..]), n);
    assert FillsOf(steps) == FillsOf(steps[1..]);
    CalledWithAppend(q, rest.trace, attrs, ctx.request);
  }

  lemma DefaultFillStep(n: nat, steps: seq<Step>, s: Stage, ctx: Context, attrs: Attributes, st: Stages)
    requires steps != [] && steps[0] == Fill(s)
    requires NoFailureStep(steps) && NoFailureStep(steps[1..])
    requires FillIn(s, ctx, st).Success?
    requires Present(FillIn(s, ctx, st).value) == Present(ctx) + {Fills(s)}
    requires Quiet(RunSteps(Chain.Chain(Defaults(n)), steps[1..], FillIn(s, ctx, st).value, attrs, st),
                   n, steps[1..], FillIn(s, ctx, st).value, attrs)
    ensures Quiet(RunSteps(Chain.Chain(Defaults(n)), steps, ctx, attrs, st), n, steps, ctx, attrs)
  {
    var c := Chain.Chain(Defaults(n));
    var next := FillIn(s, ctx, st).value;
    assert RunSteps(c, steps, ctx, attrs, st) == RunSteps(c, steps[1..], next, attrs, st);
    QuietFill(RunSteps(c, steps[1..], next, attrs, st), next, n, steps, s, ctx, attrs);
  }

  /** A quiet run after a field is filled in is quiet from before it. */
  lemma QuietFill(rest: Progress, next: Context, n: nat, steps: seq<Step>, s: Stage, ctx: Context, attrs: Attributes)
    requires steps != [] && steps[0] == Fill(s)
    requires next.request == ctx.request && Present(next) == Present(ctx) + {Fills(s)}
    requires Quiet(rest, n, steps[1..], next, attrs)
    ensures Quiet(rest, n, steps, ctx, attrs)
  {
    CheckpointsOfCons(steps[0], steps[1..]);
    assert steps == [steps[0]] + steps[1..];
    assert CheckpointsOf(steps) == CheckpointsOf(steps[1..]);
    assert FillsOf(steps) == {Fills(s)} + FillsOf(steps[1..]);
  }

  /** Default interceptors observe a failure quietly, once each. */
  lemma DefaultFailureHook(n: nat, f: Failed, attrs: Attributes)
    ensures var r := Chain.OnExecutionFailure(Chain.Chain(Defaults(n)), f, attrs);
            && r.outcome.Success? && r.attrs == attrs
            && r.trace == ChainDefaults.QuietTrace(Chain.Forward(n), OnExecutionFailure, Failing(f), attrs)
  {
    var r := Chain.OnExecutionFailure(Chain.Chain(Defaults(n)), f, attrs);
    ChainDefaults.DefaultsObserveNothing(n, Chain.Forward(n), OnExecutionFailure, Failing(f), attrs, r, true);
  }

  /** Default interceptors pass `beforeExecution` and `modifyRequest` and
      leave the context and the attributes alone. */
  lemma DefaultPrepare(n: nat, input: Message, attrs: Attributes)
    ensures var p := AsyncHandler.Prepare(Chain.Chain(Defaults(n)), input, attrs);
      p.outcome == Success(AsyncHandler.Initial(input)) && p.attrs == attrs
  {
    var c := Chain.Chain(Defaults(n));
    var ctx := AsyncHandler.Initial(input);
    DefaultCheckpoint(n, BeforeExecution, ctx, attrs);
    assert Checkpoint(c, BeforeExecution, ctx, attrs) == Lift(Chain.BeforeExecution(c, ctx, attrs), ctx);
    DefaultCheckpoint(n, ModifyRequest, ctx, attrs);
  }

  /** Default interceptors pass `beforeMarshalling`; the block then
      succeeds when the marshaller does. */
  lemma DefaultMarshal(n: nat, ctx: Context, attrs: Attributes, co: AsyncHandler.Collaborators)
    requires co.marshal(ctx.request).Success?
    ensures AsyncHandler.MarshalStage(Chain.Chain(Defaults(n)), ctx, attrs, co).outcome.Success?
  {
    var c := Chain.Chain(Defaults(n));
    DefaultCheckpoint(n, BeforeMarshalling, ctx, attrs);
    assert Checkpoint(c, BeforeMarshalling, ctx, attrs) == Lift(Chain.BeforeMarshalling(c, ctx, attrs), ctx);
  }

  /** Default interceptors pass `afterMarshalling` and `modifyHttpRequest`
      on a context holding an HTTP request. */
  lemma DefaultSend(n: nat, ctx: Context, attrs: Attributes)
    requires ctx.httpRequest.Some?
    ensures AsyncHandler.SendStage(Chain.Chain(Defaults(n)), ctx, attrs).outcome == Success(ctx)
  {
    var c := Chain.Chain(Defaults(n));
    DefaultCheckpoint(n, AfterMarshalling, ctx, attrs);
    assert Checkpoint(c, AfterMarshalling, ctx, attrs) == Lift(Chain.AfterMarshalling(c, ctx, attrs), ctx);
    DefaultCheckpoint(n, ModifyHttpRequest, ctx, attrs);
  }

  /** Default interceptors let the caller-thread stages through when the
      marshaller does not fail, and leave the caller's request alone. */
  lemma DefaultReaches(n: nat, input: Message, attrs: Attributes, co: AsyncHandler.Collaborators)
    requires forall m :: co.marshal(m).Success?
    ensures Reaches(Chain.Chain(Defaults(n)), input, attrs, co)
    ensures Prepared(Chain.Chain(Defaults(n)), input, attrs) == input
  {
    var c := Chain.Chain(Defaults(n));
    DefaultPrepare(n, input, attrs);
    var p := AsyncHandler.Prepare(c, input, attrs);
    DefaultMarshal(n, p.outcome.value, p.attrs, co);
    assert AsyncHandler.Marshalling(c, input, attrs, co) == AsyncHandler.MarshalStage(c, p.outcome.value, p.attrs, co);
    var m := AsyncHandler.Marshalling(c, input, attrs, co);
    DefaultSend(n, AsyncHandler.Adapted(c, input, attrs, co), m.attrs);
  }

  /** Default interceptors pass `afterExecution`, so a response completes
      the future normally. */
  lemma DefaultHandle(n: nat, request: MarshalledRequest, done: AsyncHandler.Completion, failure: Exception -> Exception)
    requires done.result.Success?
    ensures AsyncHandler.Handle(Chain.Chain(Defaults(n)), request, done, failure).outcome.Completed?
  {
    var c := Chain.Chain(Defaults(n));
    DefaultCheckpoint(n, AfterExecution, done.context, done.attrs);
    assert Checkpoint(c, AfterExecution, done.context, done.attrs)
             == Lift(Chain.AfterExecution(c, done.context, done.attrs), done.context);
  }

  /** With default interceptors, a marshaller and a transmission that do
      not fail, and an unmarshaller that does not fail, the future
      completes normally, and each interceptor saw every documented hook
      once, in the documented order. */
  lemma DefaultLifecycle(n: nat, input: Message, attrs: Attributes, co: AsyncHandler.Collaborators, st: Stages)
    requires forall m :: co.marshal(m).Success?
    requires Reliable(st, Transmit) && Reliable(st, Unmarshal)
    ensures var x := Execute(Chain.Chain(Defaults(n)), input, attrs, co, st);
            && x.outcome.Completed?
            && HooksOf(x.trace) == Repeat(DOCUMENTED, n)
  {
    var c := Chain.Chain(Defaults(n));
    DefaultReaches(n, input, attrs, co);
    SentFields(c, input, attrs, co);
    var ctx := Sent(c, input, attrs, co);
    var a := SentAttrs(c, input, attrs, co);
    LayerSteps();
    ReadyLayer();
    assert FillsReliable(HTTP_LAYER, st) by {
      forall s | Fills(s) in FillsOf(HTTP_LAYER) ensures Reliable(st, s) {
        match s
        case Transmit =>
        case Unmarshal =>
      }
    }
    DefaultSteps(n, HTTP_LAYER, ctx, a, st);
    DefaultHandle(n, AsyncHandler.Marshalling(c, input, attrs, co).outcome.value, HttpCompletion(c, ctx, a, st), co.failure);
    ExecuteReaches(c, input, attrs, co, st);
    ExecuteHooks(c, input, attrs, co, st);
  }

  /** With default interceptors, when the unmarshaller throws `e` (a
      service error): the nine hooks up to `beforeUnmarshalling` run for
      every interceptor, then `onExecutionFailure` once per interceptor
      with the caller's request, the HTTP request the layer was handed, the
      HTTP response `beforeUnmarshalling` was given and no response, and
      the future fails with `e` as `Throwables.failure` returns it. */
  lemma DefaultLifecycleUnmarshalFails(n: nat, input: Message, attrs: Attributes, co: AsyncHandler.Collaborators,
                                       st: Stages, e: Exception)
    requires forall m :: co.marshal(m).Success?
    requires Reliable(st, Transmit)
    requires forall m :: st.unmarshal(m) == Failure(e)
    requires IsRuntime(co.failure(e))
    ensures PassesUntilUnmarshal(Chain.Chain(Defaults(n)), input, attrs, co, st)
    ensures var c := Chain.Chain(Defaults(n));
            var x := Execute(c, input, attrs, co, st);
            var hreq := Sent(c, input, attrs, co).httpRequest;
            var hresp := UntilUnmarshal(c, Sent(c, input, attrs, co), SentAttrs(c, input, attrs, co), st).outcome.value.httpResponse;
            && x.outcome == AsyncHandler.CompletedExceptionally(co.failure(e))
            && HooksOf(x.trace) == Repeat(DOCUMENTED[..9], n) + Copies(OnExecutionFailure, n)
            && |x.trace| > n
            && forall k :: |x.trace| - 1 - n <= k < |x.trace| - 1 ==> FailedUnmarshalling(x.trace[k], input, hreq, hresp, co.failure(e))
  {
    var c := Chain.Chain(Defaults(n));
    DefaultReaches(n, input, attrs, co);
    SentFields(c, input, attrs, co);
    var ctx := Sent(c, input, attrs, co);
    var a := SentAttrs(c, input, attrs, co);
    LayerSteps();
    ReadyUntilUnmarshal();
    assert FillsReliable(UNTIL_UNMARSHAL, st) by {
      forall s | Fills(s) in FillsOf(UNTIL_UNMARSHAL) ensures Reliable(st, s) {
        match s
        case Transmit =>
        case Unmarshal =>
      }
    }
    DefaultSteps(n, UNTIL_UNMARSHAL, ctx, a, st);
    assert PassesUntilUnmarshal(c, input, attrs, co, st);
    var pa := UntilUnmarshal(c, ctx, a, st);
    DefaultFailureHook(n, FailedContext.Of(pa.outcome.value, co.failure(e)), pa.attrs);
    UnmarshalFailure(c, input, attrs, co, st, e);
  }
}
