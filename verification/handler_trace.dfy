/** The order in which `AsyncClientHandlerImpl.execute` produces events:
    each event has a phase, and a well-formed handler trace never goes back
    to an earlier phase. */
module HandlerTrace {
  import opened Wrappers
  import opened Values
  import Checkpoints
  import opened Interceptors
  import opened Events
  import Chain

  // Phases of an execution, in the order `execute` reaches them.
  const BEFORE_EXECUTION := 0
  const MODIFY_REQUEST := 1
  const CLIENT_TIMER_START := 2
  const MARSHALL_TIMER_START := 3
  const BEFORE_MARSHALLING := 4
  const MARSHAL := 5
  const MARSHAL_ABORTED := 6
  const MARSHALL_TIMER_END := 7
  const AFTER_MARSHALLING := 8
  const MODIFY_HTTP_REQUEST := 9
  const TRANSMIT := 10
  const AFTER_EXECUTION := 11
  const ON_FAILURE := 12
  const CLIENT_EXECUTION_END := 13

  /** The phase of a hook call. Hooks the transport runs share its phase. */
  function HookPhase(h: Checkpoints.Hook): nat
  {
    match h
    case BeforeExecution => BEFORE_EXECUTION
    case ModifyRequest => MODIFY_REQUEST
    case BeforeMarshalling => BEFORE_MARSHALLING
    case AfterMarshalling => AFTER_MARSHALLING
    case ModifyHttpRequest => MODIFY_HTTP_REQUEST
    case AfterExecution => AFTER_EXECUTION
    case OnExecutionFailure => ON_FAILURE
    case _ => TRANSMIT
  }

  function Phase(e: Event): nat
  {
    match e
    case Called(_, hook, _, _) => HookPhase(hook)
    case Started(f) => if f == ClientExecuteTime then CLIENT_TIMER_START else MARSHALL_TIMER_START
    case Ended(f) => if f == RequestMarshallTime then MARSHALL_TIMER_END else CLIENT_EXECUTION_END
    case Marshalled(_) => MARSHAL
    case Transmitted(_) => TRANSMIT
    case ClientExecutionEnded(req, _) => if req.None? then MARSHAL_ABORTED else CLIENT_EXECUTION_END
  }

  /** Phases never decrease along `t`, and all lie in `lo .. hi`. */
  predicate Ordered(t: seq<Event>, lo: nat, hi: nat)
  {
    && (forall k :: 0 <= k < |t| ==> lo <= Phase(t[k]) <= hi)
    && (forall i, j :: 0 <= i < j < |t| ==> Phase(t[i]) <= Phase(t[j]))
  }

  /** Two ordered traces whose phase ranges meet in order concatenate to an
      ordered trace. */
  lemma OrderedAppend(a: seq<Event>, b: seq<Event>, lo: nat, mid: nat, hi: nat)
    requires lo <= mid <= hi
    requires Ordered(a, lo, mid) && Ordered(b, mid, hi)
    ensures Ordered(a + b, lo, hi)
  {
    forall k | 0 <= k < |a + b|
      ensures lo <= Phase((a + b)[k]) <= hi
    {
      if k < |a| { assert (a + b)[k] == a[k]; } else { assert (a + b)[k] == b[k - |a|]; }
    }
    forall i, j | 0 <= i < j < |a + b|
      ensures Phase((a + b)[i]) <= Phase((a + b)[j])
    {
      if j < |a| {
        assert Phase(a[i]) <= Phase(a[j]);
      } else if i >= |a| {
        assert Phase(b[i - |a|]) <= Phase(b[j - |a|]);
      }
    }
  }

  /** The events of `t` in phase `p`, in order. */
  function InPhase(t: seq<Event>, p: nat): (r: seq<Event>)
    ensures |r| <= |t|
  {
    if t == [] then [] else (if Phase(t[0]) == p then [t[0]] else []) + InPhase(t[1..], p)
  }

  lemma {:induction false} InPhaseAppend(a: seq<Event>, b: seq<Event>)
    ensures forall p: nat :: InPhase(a + b, p) == InPhase(a, p) + InPhase(b, p)
  {
    if a == [] {
      assert a + b == b;
    } else {
      assert (a + b)[0] == a[0];
      assert (a + b)[1..] == a[1..] + b;
      InPhaseAppend(a[1..], b);
    }
  }

  /** An ordered trace followed by a trace of strictly later phases: each
      phase's events come from one side only, and the whole is ordered. */
  lemma OrderedSplit(a: seq<Event>, b: seq<Event>, lo: nat, mid: nat, hi: nat, q: nat)
    requires lo <= mid < hi
    requires Ordered(a, lo, mid) && Ordered(b, mid + 1, hi)
    ensures Ordered(a + b, lo, hi)
    ensures InPhase(a + b, q) == if q <= mid then InPhase(a, q) else InPhase(b, q)
  {
    OrderedAppend(a, b, lo, mid, hi) by {
      assert Ordered(a, lo, mid) && Ordered(b, mid, hi);
    }
    InPhaseAppend(a, b);
    InPhaseOutside(a, lo, mid);
    InPhaseOutside(b, mid + 1, hi);
  }

  /** A trace whose phases lie in `lo .. hi` has no event of any other
      phase. */
  lemma {:induction false} InPhaseOutside(t: seq<Event>, lo: nat, hi: nat)
    requires forall k :: 0 <= k < |t| ==> lo <= Phase(t[k]) <= hi
    ensures forall p: nat :: p < lo || hi < p ==> InPhase(t, p) == []
  {
    if t != [] {
      InPhaseOutside(t[1..], lo, hi);
    }
  }

  /** A trace all of whose events are in phase `p` is its own phase-`p`
      part. */
  lemma {:induction false} InPhaseAll(t: seq<Event>, p: nat)
    requires forall k :: 0 <= k < |t| ==> Phase(t[k]) == p
    ensures InPhase(t, p) == t
  {
    if t != [] {
      InPhaseAll(t[1..], p);
      assert t == [t[0]] + t[1..];
    }
  }

  lemma InPhaseThree(a: seq<Event>, b: seq<Event>, c: seq<Event>, p: nat)
    ensures InPhase(a + b + c, p) == InPhase(a, p) + InPhase(b, p) + InPhase(c, p)
  {
    InPhaseAppend(a, b);
    InPhaseAppend(a + b, c);
  }

  lemma InPhaseSingle(e: Event)
    ensures forall p: nat :: InPhase([e], p) == if Phase(e) == p then [e] else []
  {
    assert [e][1..] == [];
  }

  /** Every event of `t` is a hook call of phase `p` shown `arg`. */
  predicate Segment(t: seq<Event>, p: nat, arg: HookArg)
  {
    forall k :: 0 <= k < |t| ==> t[k].Called? && HookPhase(t[k].hook) == p && t[k].arg == arg
  }

  /** Every event of `t` is in phase `p`. */
  predicate Phased(t: seq<Event>, p: nat)
  {
    forall k :: 0 <= k < |t| ==> Phase(t[k]) == p
  }

  /** The hook calls of `t` in phase `p` were all shown `arg`. */
  predicate ShownIn(t: seq<Event>, p: nat, arg: HookArg)
  {
    forall k :: 0 <= k < |t| && Phase(t[k]) == p ==> t[k].Called? && t[k].arg == arg
  }

  /** Every event of `t` is a hook call shown `arg`. */
  predicate Shows(t: seq<Event>, arg: HookArg)
  {
    forall k :: 0 <= k < |t| ==> t[k].Called? && t[k].arg == arg
  }

  lemma {:induction false} ShownInPhase(t: seq<Event>, p: nat, arg: HookArg)
    requires ShownIn(t, p, arg)
    ensures Shows(InPhase(t, p), arg)
  {
    if t != [] {
      assert ShownIn(t[1..], p, arg) by {
        forall k | 0 <= k < |t[1..]| && Phase(t[1..][k]) == p
          ensures t[1..][k].Called? && t[1..][k].arg == arg
        {
          assert t[1..][k] == t[k + 1];
        }
      }
      ShownInPhase(t[1..], p, arg);
    }
  }

  /** What a segment contributes to a handler trace. */
  lemma SegmentFacts(t: seq<Event>, p: nat, arg: HookArg)
    requires Segment(t, p, arg)
    ensures Ordered(t, p, p) && ShownIn(t, p, arg)
    ensures forall q: nat :: InPhase(t, q) == if q == p then t else []
  {
    InPhaseAll(t, p);
    InPhaseOutside(t, p, p);
  }

  lemma ShownAppend(a: seq<Event>, b: seq<Event>, p: nat, arg: HookArg)
    requires ShownIn(a, p, arg) && ShownIn(b, p, arg)
    ensures ShownIn(a + b, p, arg)
  {
    forall k | 0 <= k < |a + b| && Phase((a + b)[k]) == p
      ensures (a + b)[k].Called? && (a + b)[k].arg == arg
    {
      if k < |a| { assert (a + b)[k] == a[k]; } else { assert (a + b)[k] == b[k - |a|]; }
    }
  }

  /** A segment followed by a trace of later phases. */
  lemma SegmentThen(a: seq<Event>, p: nat, arg: HookArg, b: seq<Event>, lo: nat, hi: nat)
    requires Segment(a, p, arg) && Ordered(b, lo, hi) && p < lo <= hi
    ensures Ordered(a + b, p, hi) && ShownIn(a + b, p, arg)
    ensures forall q: nat :: InPhase(a + b, q) == if q == p then a else InPhase(b, q)
  {
    SegmentFacts(a, p, arg);
    PhasedThen(a, p, b, lo, hi);
    assert ShownIn(b, p, arg);
    ShownAppend(a, b, p, arg);
  }

  /** A trace of one phase followed by a trace of later phases. */
  lemma PhasedThen(a: seq<Event>, p: nat, b: seq<Event>, lo: nat, hi: nat)
    requires Phased(a, p) && Ordered(b, lo, hi) && p < lo <= hi
    ensures Ordered(a + b, p, hi)
    ensures forall q: nat :: InPhase(a + b, q) == if q == p then a else InPhase(b, q)
  {
    InPhaseAll(a, p);
    InPhaseOutside(a, p, p);
    InPhaseOutside(b, lo, hi);
    InPhaseAppend(a, b);
    assert Ordered(a, p, p);
    assert Ordered(b, p, hi);
    OrderedAppend(a, b, p, p, hi);
  }

  /** A read checkpoint's trace is a segment of calls of its hook with its
      argument, one per interceptor when it passes. */
  lemma ObservedCalls(ics: seq<Interceptor>, order: seq<nat>, hook: Checkpoints.Hook, arg: HookArg,
                      attrs: Attributes, r: Run<()>, normalized: bool)
    requires Fits(hook, arg) && Chain.InRange(order, |ics|)
    requires Chain.Observed(ics, order, hook, arg, attrs, r, normalized)
    ensures Segment(r.trace, HookPhase(hook), arg)
    ensures r.outcome.Success? ==> |r.trace| == |order|
  {
    forall k | 0 <= k < |r.trace|
      ensures r.trace[k].Called? && r.trace[k].hook == hook && r.trace[k].arg == arg
    {
      assert Chain.ReadCallAt(order, hook, arg, r.trace, k);
    }
  }

  /** A modify checkpoint's trace is a segment of calls of its hook with the
      original context, one per interceptor when it passes. */
  lemma ModifiedCalls<T>(slot: Chain.Slot<T>, ics: seq<Interceptor>, order: seq<nat>, ctx: Context,
                         attrs: Attributes, acc: Context, r: Run<Context>, normalized: bool)
    requires Chain.InRange(order, |ics|)
    requires Chain.Modified(slot, ics, order, ctx, attrs, acc, r, normalized)
    ensures Segment(r.trace, HookPhase(slot.hook), Plain(ctx))
    ensures r.outcome.Success? ==> |r.trace| == |order|
  {
    forall k | 0 <= k < |r.trace|
      ensures r.trace[k].Called? && r.trace[k].hook == slot.hook && r.trace[k].arg == Plain(ctx)
    {
      assert Chain.ModifyCallAt(order, slot.hook, ctx, r.trace, k);
    }
  }
}
