/**
 * The `EventListener` component: its event gates (the nineteen `On*`
 * handlers) and `Trigger`, which marshals each stored callback and hands it to
 * the reflective call.
 */
module Listener {
  import opened Types
  import opened Marshalling

  /** The events a listener can be set to (the `ListenerMethod` enum). */
  datatype ListenerMethod =
    | OnUse
    | OnBarkStart | OnBarkEnd
    | OnConversationStart | OnConversationEnd
    | OnSequenceStart | OnSequenceEnd
    | OnTriggerStay | OnTriggerEnter | OnTriggerExit
    | OnCollisionStay | OnCollisionEnter | OnCollisionExit
    | OnTriggerStay2D | OnTriggerEnter2D | OnTriggerExit2D
    | OnCollisionStay2D | OnCollisionEnter2D | OnCollisionExit2D

  /**
   * The configuration of one listener component: the event it waits for, the
   * tag filter (empty for any actor) and its callbacks (possibly null).
   */
  datatype EventListener = EventListener(
    listener: ListenerMethod,
    tagMatch: string,
    callbacks: Option<seq<Callback>>)

  /**
   * Whatever carries the tag in an event: the actor's transform, the collider,
   * or the game object of a collision; it may be null.
   */
  datatype Actor = NullActor | Actor(tag: string)

  // ---------------------------------------------------------------------------
  // The event gates

  /**
   * The listener kind each handler compares against: its own, except that the
   * `OnTriggerExit2D` handler compares against `OnTriggerEnter2D`.
   */
  function GuardOf(handler: ListenerMethod): ListenerMethod
  {
    if handler == OnTriggerExit2D then OnTriggerEnter2D else handler
  }

  /** What a handler does: call `Trigger`, do nothing, or throw on reading the tag of a null actor. */
  datatype Decision = Fire | Ignore | NullActorFault

  /** The handler for `handler`, as a decision over the listener's configuration and the event's actor. */
  function Gate(l: EventListener, handler: ListenerMethod, actor: Actor): (r: Decision)
    ensures r == Fire <==>
      l.listener == GuardOf(handler) && (l.tagMatch == "" || (actor.Actor? && actor.tag == l.tagMatch))
    ensures r == NullActorFault <==>
      l.listener == GuardOf(handler) && l.tagMatch != "" && actor.NullActor?
  {
    if l.listener != GuardOf(handler) then Ignore
    else if l.tagMatch == "" then Fire
    else
      match actor
      case NullActor => NullActorFault
      case Actor(tag) => if tag == l.tagMatch then Fire else Ignore
  }

  /** Every handler but `OnTriggerExit2D` fires only for a listener set to its own event. */
  lemma HandlersGuardOwnEvent(l: EventListener, handler: ListenerMethod, actor: Actor)
    requires handler != OnTriggerExit2D
    ensures Gate(l, handler, actor) == Fire ==> l.listener == handler
  {
  }

  /**
   * As written, a listener set to `OnTriggerExit2D` never fires, and one set to
   * `OnTriggerEnter2D` fires on both the enter and the exit handler.
   */
  lemma TriggerExit2DGuardsEnter(l: EventListener, handler: ListenerMethod, actor: Actor)
    ensures l.listener == OnTriggerExit2D ==> Gate(l, handler, actor) != Fire
    ensures l.listener == OnTriggerEnter2D && l.tagMatch == "" ==>
      (Gate(l, handler, actor) == Fire <==> handler in {OnTriggerEnter2D, OnTriggerExit2D})
  {
  }

  // ---------------------------------------------------------------------------
  // Trigger

  /** The suffix `Trigger` appends to a callback's type name before looking the type up. */
  const AssemblySuffix: string := ",Assembly-CSharp"

  /**
   * One call handed to the reflective lookup: the type name looked up among the
   * components of the listener's game object and its children, the method name, the argument array and the type
   * array used to select the overload.
   */
  datatype Invocation = Invocation(typeName: string, methodName: string, arguments: seq<Value>, types: seq<ValueType>)

  /** Why a run of `Trigger` or a handler stopped early. */
  datatype Fault =
    | ActorWithoutTag
    | NullArgument(callback: nat, argument: nat)
    | CallFailed(callback: nat)

  /**
   * A run of `Trigger`: the calls handed to the reflective lookup, in order, and
   * the fault that ended the run early, if any.
   */
  datatype TriggerRun = TriggerRun(requests: seq<Invocation>, fault: Option<Fault>)

  /** The call `Trigger` makes for callback `c`. */
  function InvocationFor(c: Callback): Invocation
    requires Marshallable(c.arguments)
  {
    Invocation(c.assemblyName + AssemblySuffix, c.methodName, MarshalledValues(c.arguments), MarshalledTypes(c.arguments))
  }

  /**
   * `run` is what `Trigger` does with `callbacks`, where `completes(k, call)`
   * says whether the `k`-th call's component lookup, method lookup and
   * invocation finish without an exception. The outcome is indexed by position,
   * so it may depend on what the earlier calls did. Callbacks are handled in
   * order; the first one with a null argument, or whose call does not complete,
   * ends the run.
   */
  predicate IsTriggerRun(callbacks: Option<seq<Callback>>, completes: (nat, Invocation) -> bool, run: TriggerRun)
  {
    match callbacks
    case None => run == TriggerRun([], Option.None)
    case Some(cs) =>
      && |run.requests| <= |cs|
      && (forall k :: 0 <= k < |run.requests| ==>
            Marshallable(cs[k].arguments) && run.requests[k] == InvocationFor(cs[k]))
      && (forall k :: 0 <= k < |run.requests| && !(run.fault == Some(CallFailed(k))) ==> completes(k, run.requests[k]))
      && match run.fault
         case None => |run.requests| == |cs|
         case Some(NullArgument(c, j)) => c == |run.requests| < |cs| && FirstNull(cs[c].arguments, j)
         case Some(CallFailed(c)) => c == |run.requests| - 1 && !completes(c, run.requests[c])
         case Some(ActorWithoutTag) => false
  }

  /** A run is determined by the callbacks and the outcome of each call. */
  lemma {:induction false} TriggerRunUnique(callbacks: Option<seq<Callback>>, completes: (nat, Invocation) -> bool, r1: TriggerRun, r2: TriggerRun)
    requires IsTriggerRun(callbacks, completes, r1) && IsTriggerRun(callbacks, completes, r2)
    ensures r1 == r2
  {
    if callbacks.Some? {
      var cs := callbacks.value;
      var n1, n2 := |r1.requests|, |r2.requests|;
      if n1 < n2 {
        // r1 stopped at callback n1, which r2 went past
        assert false;
      } else if n2 < n1 {
        assert false;
      } else {
        assert r1.requests == r2.requests;
        match r1.fault {
          case None =>
          case Some(NullArgument(c, j)) =>
            assert FirstNull(cs[c].arguments, j);
            match r2.fault {
              case Some(NullArgument(c2, j2)) =>
                assert j == j2 by {
                  if j < j2 { assert false; }
                  if j2 < j { assert false; }
                }
            }
          case Some(CallFailed(c)) =>
            assert r1.requests[c] == r2.requests[c];
        }
      }
    }
  }

  /**
   * Outcomes are per call, not per call text: the same callback twice may
   * complete the first time and throw the second (the first call may have
   * removed the component the second one needs).
   */
  lemma RepeatedCallMayFailLater(c: Callback)
    requires Marshallable(c.arguments)
    ensures IsTriggerRun(Some([c, c]), (k: nat, call: Invocation) => k == 0,
                         TriggerRun([InvocationFor(c), InvocationFor(c)], Some(CallFailed(1))))
  {
  }

  /**
   * `Trigger`: for each callback in order, marshal its arguments and hand the
   * call on; a null argument or a call that does not complete throws out of
   * the loop, so the remaining callbacks are not called.
   */
  method Trigger(l: EventListener, completes: (nat, Invocation) -> bool) returns (run: TriggerRun)
    ensures IsTriggerRun(l.callbacks, completes, run)
  {
    if l.callbacks.None? {
      return TriggerRun([], Option.None);
    }
    var callbacks := l.callbacks.value;
    var requests: seq<Invocation> := [];
    for c := 0 to |callbacks|
      invariant |requests| == c
      invariant forall k :: 0 <= k < c ==> Marshallable(callbacks[k].arguments) && requests[k] == InvocationFor(callbacks[k])
      invariant forall k :: 0 <= k < c ==> completes(k, requests[k])
    {
      var callback := callbacks[c];
      var marshalled := MarshalArguments(callback.arguments);
      if marshalled.NullArgumentAt? {
        return TriggerRun(requests, Some(NullArgument(c, marshalled.index)));
      }
      assert marshalled.arguments == MarshalledValues(callback.arguments);
      assert marshalled.types == MarshalledTypes(callback.arguments);
      var call := Invocation(callback.assemblyName + AssemblySuffix, callback.methodName, marshalled.arguments, marshalled.types);
      requests := requests + [call];
      if !completes(c, call) {
        return TriggerRun(requests, Some(CallFailed(c)));
      }
    }
    return TriggerRun(requests, Option.None);
  }

  /**
   * A handler followed by what it starts: `Trigger` when the gate fires,
   * nothing when it does not, a fault when the actor is null.
   */
  method OnEvent(l: EventListener, handler: ListenerMethod, actor: Actor, completes: (nat, Invocation) -> bool)
    returns (run: TriggerRun)
    ensures Gate(l, handler, actor) == Fire ==> IsTriggerRun(l.callbacks, completes, run)
    ensures Gate(l, handler, actor) == Ignore ==> run == TriggerRun([], Option.None)
    ensures Gate(l, handler, actor) == NullActorFault ==> run == TriggerRun([], Some(ActorWithoutTag))
  {
    match Gate(l, handler, actor) {
      case Fire =>
        run := Trigger(l, completes);
      case Ignore =>
        run := TriggerRun([], Option.None);
      case NullActorFault =>
        run := TriggerRun([], Some(ActorWithoutTag));
    }
  }
}
