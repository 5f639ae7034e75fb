/**
 What both provider kinds share: the shape check a constructor must pass
 (it is a function returning one value, or one value and an error), and the
 final step of Provide, which calls the constructor and turns a returned
 error into a failure.
 */
module Constructor {
  import opened Reflect
  import opened Trace
  import opened ErrorHandler

  /** The input types of a function-typed constructor, in position order. */
  function Ins(c: Any): seq<Type>
    requires IsFunc(c)
  {
    c.value.typ.shape.ins
  }

  /** The output types of a function-typed constructor, in position order. */
  function Outs(c: Any): seq<Type>
    requires IsFunc(c)
  {
    c.value.typ.shape.outs
  }

  /** The return-arity rule: exactly one result, or two results of which the
      second prints as "error". */
  predicate ReturnsOk(outs: seq<Type>) {
    || |outs| == 1
    || (|outs| == 2 && outs[1].name == "error")
  }

  /** The constructor is a function that obeys the return-arity rule. */
  predicate WellShaped(c: Any) {
    IsFunc(c) && ReturnsOk(Outs(c))
  }

  /** The checks both NewProvider and NewAutoProvider make first: the kind
      of the constructor, then the switch on its number of results. */
  function CheckShape(c: Any): (v: Verdict)
    ensures v.Accept? <==> WellShaped(c)
    ensures !v.Crash?
    ensures !IsFunc(c) ==> v == Reject(NotAFunction(ValueKind(c)))
    ensures IsFunc(c) && |Outs(c)| == 2 && Outs(c)[1].name != "error" ==>
              v == Reject(SecondReturnNotError(Outs(c)[1]))
    ensures IsFunc(c) && |Outs(c)| != 1 && |Outs(c)| != 2 ==>
              v == Reject(BadReturnCount(|Outs(c)|))
  {
    if ValueKind(c) != Func then
      Reject(NotAFunction(ValueKind(c)))
    else
      var outs := c.value.typ.shape.outs;
      if |outs| == 1 then Accept
      else if |outs| == 2 then
        if outs[1].name != "error" then Reject(SecondReturnNotError(outs[1])) else Accept
      else Reject(BadReturnCount(|outs|))
  }

  /** The constructor call returns normally and reports no error that the
      provider looks at: with a single result there is nothing to look at. */
  predicate CallSucceeds(rt: Runtime, c: Any, args: seq<Value>)
    requires IsFunc(c)
  {
    && c.value.payload.Datum?
    && rt.call(c.value, args).Returns?
    && (|Outs(c)| == 1 || rt.call(c.value, args).second.NoError?)
  }

  /** The end of Provide: call the constructor with args; with two results a
      non-nil error fails through the error handler; otherwise the first
      result, of the constructor's first output type, is the value. */
  function Invoke(hook: ErrorHook, rt: Runtime, c: Any, args: seq<Value>): (r: Run<Value>)
    requires WellShaped(c)
    ensures |r.trace| >= 1 && r.trace[0] == Call(args)
    ensures r.outcome.Done? <==> CallSucceeds(rt, c, args)
    ensures r.outcome.Done? ==>
              && r.trace == [Call(args)]
              && r.outcome.value == Value(Outs(c)[0], rt.call(c.value, args).first)
    ensures && |Outs(c)| == 2 && c.value.payload.Datum?
            && rt.call(c.value, args).Returns? && rt.call(c.value, args).second.ErrorOf? ==>
              var cause := rt.call(c.value, args).second.message;
              && r.outcome == Panicked(ConstructorFailed(cause))
              && r.trace == [Call(args)] + Notice(hook, ConstructorFailed(cause))
    ensures r.outcome.Panicked? && !r.outcome.err.ConstructorFailed? ==> r.trace == [Call(args)]
    ensures c.value.payload.Nil? ==> r == Run([Call(args)], Panicked(RuntimePanic(NilFunctionCall)))
    ensures c.value.payload.Datum? && rt.call(c.value, args).Raises? ==>
              r == Run([Call(args)], Panicked(RuntimePanic(rt.call(c.value, args).panicText)))
    ensures Observed(hook, r)
  {
    var called := [Call(args)];
    if c.value.payload.Nil? then
      Run(called, Panicked(RuntimePanic(NilFunctionCall)))
    else
      match rt.call(c.value, args)
      case Raises(w) => Run(called, Panicked(RuntimePanic(w)))
      case Returns(first, second) =>
        if |Outs(c)| > 1 && second.ErrorOf? then
          Fail(hook, called, ConstructorFailed(second.message))
        else
          Run(called, Done(Value(Outs(c)[0], first)))
  }

  /** The hook does not change how the constructor call ends; it only adds
      its notification. */
  lemma InvokeHookObserver(rt: Runtime, c: Any, args: seq<Value>)
    requires WellShaped(c)
    ensures Invoke(Installed, rt, c, args).outcome == Invoke(Unset, rt, c, args).outcome
    ensures Erase(Invoke(Installed, rt, c, args).trace) == Invoke(Unset, rt, c, args).trace
  {
    var called := [Call(args)];
    assert Erase(called) == called;
    var b := Invoke(Installed, rt, c, args);
    assert b.trace == called + b.trace[1..];
    EraseConcat(called, b.trace[1..]);
  }
}
