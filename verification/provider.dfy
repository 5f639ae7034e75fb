/**
 The manual provider (provider.go): a constructor together with one argument
 pointer per constructor input. Provide resolves argument i from the graph by
 the i-th pointer, assigns or converts it to the input type, and calls the
 constructor.
 */
module ManualProvider {
  import opened Reflect
  import opened Trace
  import opened ErrorHandler
  import opened GraphOracle
  import opened Constructor

  /** What NewProvider stores: the constructor and the argument pointers. */
  datatype Provider = Provider(ctor: Any, argPtrs: seq<Any>)
  {
    /** The provider is one NewProvider accepts. */
    predicate Valid() {
      Acceptable(ctor, argPtrs)
    }

    /** What Provide needs: a well-shaped constructor and one pointer per
        input. The pointers themselves may have changed since NewProvider,
        through the caller's variadic slice, which the provider shares. */
    predicate Callable() {
      WellShaped(ctor) && |argPtrs| == |Ins(ctor)|
    }
  }

  /** The argument pointer is a non-nil pointer whose element has the kind
      of the matching constructor input (only the kinds are compared). */
  predicate ArgPtrOk(p: Any, inType: Type) {
    && p.Boxed?
    && p.value.typ.shape.PtrShape?
    && ElemKind(p.value) == KindOf(inType)
  }

  /** Everything NewProvider demands of its arguments. */
  predicate Acceptable(c: Any, argPtrs: seq<Any>) {
    && WellShaped(c)
    && |argPtrs| == |Ins(c)|
    && forall i :: 0 <= i < |argPtrs| ==> ArgPtrOk(argPtrs[i], Ins(c)[i])
  }

  /** j is the first position in [lo, |ins|) whose pointer is not acceptable. */
  predicate FirstBadPtr(ins: seq<Type>, argPtrs: seq<Any>, lo: nat, j: int)
    requires |ins| == |argPtrs|
  {
    && lo <= j < |ins|
    && !ArgPtrOk(argPtrs[j], ins[j])
    && forall k :: lo <= k < j ==> ArgPtrOk(argPtrs[k], ins[k])
  }

  /** One round of the loop over argPtrs. reflect.TypeOf of the nil interface
      is a nil reflect.Type, and asking it for its kind crashes. */
  function CheckArgPtr(p: Any, inType: Type): (v: Verdict)
    ensures v.Accept? <==> ArgPtrOk(p, inType)
    ensures v.Crash? <==> p.NilAny?
    ensures p.Boxed? && !p.value.typ.shape.PtrShape? ==> v == Reject(ArgNotPointer(p.value.typ))
    ensures p.Boxed? && p.value.typ.shape.PtrShape? && ElemKind(p.value) != KindOf(inType) ==>
              v == Reject(ArgKindMismatch)
  {
    if p.NilAny? then Crash(NilDereference)
    else if KindOf(p.value.typ) != Ptr then Reject(ArgNotPointer(p.value.typ))
    else if ElemKind(p.value) != KindOf(inType) then Reject(ArgKindMismatch)
    else Accept
  }

  /** The loop over argPtrs from position lo on: the first failing round
      decides. */
  function CheckArgPtrs(ins: seq<Type>, argPtrs: seq<Any>, lo: nat): (v: Verdict)
    requires |ins| == |argPtrs| && lo <= |ins|
    decreases |ins| - lo
    ensures v.Accept? <==> forall j :: lo <= j < |ins| ==> ArgPtrOk(argPtrs[j], ins[j])
    ensures forall j :: FirstBadPtr(ins, argPtrs, lo, j) ==> v == CheckArgPtr(argPtrs[j], ins[j])
    ensures (forall j :: lo <= j < |ins| ==> argPtrs[j].Boxed?) ==> !v.Crash?
  {
    if lo == |ins| then Accept
    else
      var v := CheckArgPtr(argPtrs[lo], ins[lo]);
      if !v.Accept? then v else CheckArgPtrs(ins, argPtrs, lo + 1)
  }

  /** The checks of NewProvider in the order it makes them: the shape of
      the constructor, then the count of argument pointers, then each pointer
      in position order. The first failing check decides. */
  function Validate(ctor: Any, argPtrs: seq<Any>): (v: Verdict)
    ensures v.Accept? <==> Acceptable(ctor, argPtrs)
    ensures !IsFunc(ctor) ==> v == Reject(NotAFunction(ValueKind(ctor)))
    ensures IsFunc(ctor) && |Outs(ctor)| == 2 && Outs(ctor)[1].name != "error" ==>
              v == Reject(SecondReturnNotError(Outs(ctor)[1]))
    ensures IsFunc(ctor) && |Outs(ctor)| != 1 && |Outs(ctor)| != 2 ==>
              v == Reject(BadReturnCount(|Outs(ctor)|))
    ensures WellShaped(ctor) && |argPtrs| != |Ins(ctor)| ==>
              v == Reject(ArgCountMismatch(|argPtrs|, |Ins(ctor)|))
    ensures WellShaped(ctor) && |argPtrs| == |Ins(ctor)| ==>
              forall j :: FirstBadPtr(Ins(ctor), argPtrs, 0, j) ==> v == CheckArgPtr(argPtrs[j], Ins(ctor)[j])
    ensures (forall j :: 0 <= j < |argPtrs| ==> argPtrs[j].Boxed?) ==> !v.Crash?
  {
    var shape := CheckShape(ctor);
    if !shape.Accept? then shape
    else
      var ins := ctor.value.typ.shape.ins;
      if |ins| != |argPtrs| then Reject(ArgCountMismatch(|argPtrs|, |ins|))
      else CheckArgPtrs(ins, argPtrs, 0)
  }

  /** NewProvider: on success the provider holds the constructor and the
      argument pointers unchanged and nothing else happens; a failing check
      goes through the error handler, except a crash in the Go runtime. */
  function NewProvider(hook: ErrorHook, ctor: Any, argPtrs: seq<Any>): (r: Run<Provider>)
    ensures r.outcome.Done? <==> Acceptable(ctor, argPtrs)
    ensures r.outcome.Done? ==>
              r.outcome.value == Provider(ctor, argPtrs) && r.outcome.value.Valid() && r.trace == []
    ensures r.outcome.Panicked? ==> r.outcome.err == Validate(ctor, argPtrs).Fault()
    ensures r.outcome.Panicked? ==>
              r.trace == (if Validate(ctor, argPtrs).Crash? then [] else Notice(hook, r.outcome.err))
    ensures Observed(hook, r)
  {
    match Validate(ctor, argPtrs)
    case Accept => Run([], Done(Provider(ctor, argPtrs)))
    case Reject(e) => Fail(hook, [], e)
    case Crash(w) => Run([], Panicked(RuntimePanic(w)))
  }

  /** provider.ReturnType: the constructor's first output type. */
  function ReturnType(p: Provider): Type
    requires WellShaped(p.ctor)
  {
    Outs(p.ctor)[0]
  }

  /** The graph resolves the pointer and its value's type is assignable or
      convertible to the input type. */
  predicate ArgAdmitted(rt: Runtime, g: Graph, argPtr: Any, inType: Type) {
    && g.resolve(argPtr).Done?
    && (|| rt.assignableTo(g.resolve(argPtr).value.typ, inType)
        || rt.convertibleTo(g.resolve(argPtr).value.typ, inType))
  }

  /** The value passed for an admitted argument: the resolved value itself
      when assignable, its conversion to the input type otherwise. */
  function AdmittedValue(rt: Runtime, g: Graph, argPtr: Any, inType: Type): Value
    requires g.resolve(argPtr).Done?
  {
    var v := g.resolve(argPtr).value;
    if rt.assignableTo(v.typ, inType) then v else Value(inType, rt.convert(v, inType))
  }

  /** The error a non-admitted argument at position i fails with: the
      graph's own panic, or the assignment error naming position i. */
  function ArgFault(rt: Runtime, g: Graph, i: nat, argPtr: Any, inType: Type): Error
    requires !ArgAdmitted(rt, g, argPtr, inType)
  {
    match g.resolve(argPtr)
    case Panicked(e) => e
    case Done(v) => NotAssignable(i, v.typ, inType)
  }

  /** j is the first position in [lo, |ins|) whose argument is not admitted. */
  predicate FirstRejected(rt: Runtime, g: Graph, ins: seq<Type>, argPtrs: seq<Any>, lo: nat, j: int)
    requires |ins| == |argPtrs|
  {
    && lo <= j < |ins|
    && !ArgAdmitted(rt, g, argPtrs[j], ins[j])
    && forall k :: lo <= k < j ==> ArgAdmitted(rt, g, argPtrs[k], ins[k])
  }

  /** The Resolve queries for positions lo .. hi-1, in that order. */
  function ResolveEvents(argPtrs: seq<Any>, lo: nat, hi: nat): (evs: seq<Event>)
    requires lo <= hi <= |argPtrs|
    decreases hi - lo
  {
    if lo == hi then [] else [Resolve(argPtrs[lo])] + ResolveEvents(argPtrs, lo + 1, hi)
  }

  /** The actions for a non-admitted argument at position i: its Resolve
      query, then the hook's notification unless the graph itself panicked. */
  function FailedResolve(hook: ErrorHook, rt: Runtime, g: Graph, i: nat, argPtr: Any, inType: Type): seq<Event>
    requires !ArgAdmitted(rt, g, argPtr, inType)
  {
    [Resolve(argPtr)] + (if g.resolve(argPtr).Done? then Notice(hook, ArgFault(rt, g, i, argPtr, inType)) else [])
  }

  /** One round of the argument loop of Provide: resolve the pointer, then
      pass the value through if assignable, convert it if convertible, and
      fail naming position i otherwise. */
  function AdmitArg(hook: ErrorHook, rt: Runtime, g: Graph, i: nat, argPtr: Any, inType: Type): (r: Run<Value>)
    ensures r.outcome.Done? <==> ArgAdmitted(rt, g, argPtr, inType)
    ensures Observed(hook, r)
  {
    var asked := [Resolve(argPtr)];
    match g.resolve(argPtr)
    case Panicked(e) => Run(asked, Panicked(e))
    case Done(arg) =>
      var argType := arg.typ;
      if !rt.assignableTo(argType, inType) then
        if !rt.convertibleTo(argType, inType) then
          Fail(hook, asked, NotAssignable(i, argType, inType))
        else
          Run(asked, Done(Value(inType, rt.convert(arg, inType))))
      else
        Run(asked, Done(arg))
  }

  /** What one round ends with: an admitted argument is resolved once and
      passed on; any other fails with ArgFault after its Resolve query. */
  lemma AdmitArgEnds(hook: ErrorHook, rt: Runtime, g: Graph, i: nat, argPtr: Any, inType: Type)
    ensures var r := AdmitArg(hook, rt, g, i, argPtr, inType);
            && (r.outcome.Done? ==>
                  r == Run([Resolve(argPtr)], Done(AdmittedValue(rt, g, argPtr, inType))))
            && (r.outcome.Panicked? ==>
                  && r.outcome.err == ArgFault(rt, g, i, argPtr, inType)
                  && r.trace == FailedResolve(hook, rt, g, i, argPtr, inType))
  {
  }

  /** The argument loop of Provide from position lo on. */
  function ResolveArgs(hook: ErrorHook, rt: Runtime, g: Graph, ins: seq<Type>, argPtrs: seq<Any>, lo: nat)
    : (r: Run<seq<Value>>)
    requires |ins| == |argPtrs| && lo <= |ins|
    decreases |ins| - lo
    ensures r.outcome.Done? <==> forall j :: lo <= j < |ins| ==> ArgAdmitted(rt, g, argPtrs[j], ins[j])
    ensures Observed(hook, r)
  {
    if lo == |ins| then Run([], Done([]))
    else
      var s := AdmitArg(hook, rt, g, lo, argPtrs[lo], ins[lo]);
      var rest := ResolveArgs(hook, rt, g, ins, argPtrs, lo + 1);
      ThenObserved(hook, s, rest);
      Then(s, rest)
  }

  /** When every argument from lo on is admitted, the loop resolves them all
      in position order and yields exactly the admitted values. */
  lemma {:induction false} ResolveArgsSucceed(hook: ErrorHook, rt: Runtime, g: Graph, ins: seq<Type>, argPtrs: seq<Any>, lo: nat)
    requires |ins| == |argPtrs| && lo <= |ins|
    requires forall j :: lo <= j < |ins| ==> ArgAdmitted(rt, g, argPtrs[j], ins[j])
    ensures var r := ResolveArgs(hook, rt, g, ins, argPtrs, lo);
            && r.outcome.Done?
            && |r.outcome.value| == |ins| - lo
            && (forall j :: lo <= j < |ins| ==>
                  r.outcome.value[j - lo] == AdmittedValue(rt, g, argPtrs[j], ins[j]))
            && r.trace == ResolveEvents(argPtrs, lo, |ins|)
    decreases |ins| - lo
  {
    if lo < |ins| {
      AdmitArgEnds(hook, rt, g, lo, argPtrs[lo], ins[lo]);
      ResolveArgsSucceed(hook, rt, g, ins, argPtrs, lo + 1);
      var rest := ResolveArgs(hook, rt, g, ins, argPtrs, lo + 1);
      var more := rest.outcome.value;
      var v := AdmittedValue(rt, g, argPtrs[lo], ins[lo]);
      assert ResolveArgs(hook, rt, g, ins, argPtrs, lo) == Run([Resolve(argPtrs[lo])] + rest.trace, Done([v] + more));
      forall j | lo < j < |ins|
        ensures ([v] + more)[j - lo] == AdmittedValue(rt, g, argPtrs[j], ins[j])
      {
        assert ([v] + more)[j - lo] == more[j - (lo + 1)];
      }
    }
  }

  /** The first argument that is not admitted ends the loop: the pointers
      up to and including it were resolved, in order, and none after it; the
      failure is the graph's own panic or, through the error handler, the
      assignment error naming its position. */
  lemma {:induction false} ResolveArgsStopAtFirst(hook: ErrorHook, rt: Runtime, g: Graph, ins: seq<Type>, argPtrs: seq<Any>, lo: nat, j: int)
    requires |ins| == |argPtrs| && lo <= |ins|
    requires FirstRejected(rt, g, ins, argPtrs, lo, j)
    ensures var r := ResolveArgs(hook, rt, g, ins, argPtrs, lo);
            && r.outcome == Panicked(ArgFault(rt, g, j, argPtrs[j], ins[j]))
            && r.trace == ResolveEvents(argPtrs, lo, j) + FailedResolve(hook, rt, g, j, argPtrs[j], ins[j])
    decreases |ins| - lo
  {
    AdmitArgEnds(hook, rt, g, lo, argPtrs[lo], ins[lo]);
    var s := AdmitArg(hook, rt, g, lo, argPtrs[lo], ins[lo]);
    if j == lo {
      assert ResolveArgs(hook, rt, g, ins, argPtrs, lo) == Run(s.trace, Panicked(s.outcome.err));
    } else {
      ResolveArgsStopAtFirst(hook, rt, g, ins, argPtrs, lo + 1, j);
      var rest := ResolveArgs(hook, rt, g, ins, argPtrs, lo + 1);
      var tail := FailedResolve(hook, rt, g, j, argPtrs[j], ins[j]);
      assert ResolveArgs(hook, rt, g, ins, argPtrs, lo) == Run(s.trace + rest.trace, rest.outcome);
      calc {
        s.trace + rest.trace;
        [Resolve(argPtrs[lo])] + (ResolveEvents(argPtrs, lo + 1, j) + tail);
        ([Resolve(argPtrs[lo])] + ResolveEvents(argPtrs, lo + 1, j)) + tail;
        ResolveEvents(argPtrs, lo, j) + tail;
      }
    }
  }

  /** ResolveArgsStopAtFirst at every first rejected position, counted from 0. */
  lemma ResolveArgsStopAtFirstAll(hook: ErrorHook, rt: Runtime, g: Graph, ins: seq<Type>, argPtrs: seq<Any>)
    requires |ins| == |argPtrs|
    ensures var r := ResolveArgs(hook, rt, g, ins, argPtrs, 0);
            forall j :: FirstRejected(rt, g, ins, argPtrs, 0, j) ==>
              && r.outcome == Panicked(ArgFault(rt, g, j, argPtrs[j], ins[j]))
              && r.trace == ResolveEvents(argPtrs, 0, j) + FailedResolve(hook, rt, g, j, argPtrs[j], ins[j])
  {
    forall j | FirstRejected(rt, g, ins, argPtrs, 0, j) {
      ResolveArgsStopAtFirst(hook, rt, g, ins, argPtrs, 0, j);
    }
  }

  /** Every argument of the provider is admitted. */
  predicate AllAdmitted(rt: Runtime, g: Graph, p: Provider)
    requires p.Callable()
  {
    forall j :: 0 <= j < |p.argPtrs| ==> ArgAdmitted(rt, g, p.argPtrs[j], Ins(p.ctor)[j])
  }

  /** The values Provide passes to the constructor when every argument is
      admitted. */
  function Admitted(rt: Runtime, g: Graph, p: Provider): (args: seq<Value>)
    requires p.Callable()
    requires AllAdmitted(rt, g, p)
  {
    seq(|p.argPtrs|, j requires 0 <= j < |p.argPtrs| && ArgAdmitted(rt, g, p.argPtrs[j], Ins(p.ctor)[j]) =>
      AdmittedValue(rt, g, p.argPtrs[j], Ins(p.ctor)[j]))
  }

  /** provider.Provide. */
  function Provide(hook: ErrorHook, rt: Runtime, g: Graph, p: Provider): (r: Run<Value>)
    requires p.Callable()
    ensures r.outcome.Done? <==>
              && AllAdmitted(rt, g, p)
              && CallSucceeds(rt, p.ctor, Admitted(rt, g, p))
    ensures r.outcome.Done? ==>
              && r.outcome.value.typ == ReturnType(p)
              && r.trace == ResolveEvents(p.argPtrs, 0, |p.argPtrs|) + [Call(Admitted(rt, g, p))]
    ensures forall j :: FirstRejected(rt, g, Ins(p.ctor), p.argPtrs, 0, j) ==>
              && r.outcome == Panicked(ArgFault(rt, g, j, p.argPtrs[j], Ins(p.ctor)[j]))
              && r.trace == ResolveEvents(p.argPtrs, 0, j) + FailedResolve(hook, rt, g, j, p.argPtrs[j], Ins(p.ctor)[j])
    ensures AllAdmitted(rt, g, p) ==>
              var c := Invoke(hook, rt, p.ctor, Admitted(rt, g, p));
              r == Run(ResolveEvents(p.argPtrs, 0, |p.argPtrs|) + c.trace, c.outcome)
    ensures Observed(hook, r)
  {
    var ins := p.ctor.value.typ.shape.ins;
    var a := ResolveArgs(hook, rt, g, ins, p.argPtrs, 0);
    ResolveArgsStopAtFirstAll(hook, rt, g, ins, p.argPtrs);
    match a.outcome
    case Panicked(e) => Run(a.trace, Panicked(e))
    case Done(args) =>
      ResolveArgsSucceed(hook, rt, g, ins, p.argPtrs, 0);
      assert args == Admitted(rt, g, p);
      var c := Invoke(hook, rt, p.ctor, args);
      ObservedAfter(hook, a.trace, c);
      Run(a.trace + c.trace, c.outcome)
  }

  /** The hook is only an observer of one round. */
  lemma AdmitArgHookObserver(rt: Runtime, g: Graph, i: nat, argPtr: Any, inType: Type)
    ensures AdmitArg(Installed, rt, g, i, argPtr, inType).outcome == AdmitArg(Unset, rt, g, i, argPtr, inType).outcome
    ensures Erase(AdmitArg(Installed, rt, g, i, argPtr, inType).trace) == AdmitArg(Unset, rt, g, i, argPtr, inType).trace
  {
    var asked := [Resolve(argPtr)];
    assert Erase(asked) == asked;
    var b := AdmitArg(Installed, rt, g, i, argPtr, inType);
    assert b.trace == asked + b.trace[1..];
    EraseConcat(asked, b.trace[1..]);
  }

  /** The hook is only an observer of the argument loop. */
  lemma {:induction false} ResolveArgsHookObserver(rt: Runtime, g: Graph, ins: seq<Type>, argPtrs: seq<Any>, lo: nat)
    requires |ins| == |argPtrs| && lo <= |ins|
    ensures ResolveArgs(Installed, rt, g, ins, argPtrs, lo).outcome == ResolveArgs(Unset, rt, g, ins, argPtrs, lo).outcome
    ensures Erase(ResolveArgs(Installed, rt, g, ins, argPtrs, lo).trace) == ResolveArgs(Unset, rt, g, ins, argPtrs, lo).trace
    decreases |ins| - lo
  {
    if lo < |ins| {
      AdmitArgHookObserver(rt, g, lo, argPtrs[lo], ins[lo]);
      ResolveArgsHookObserver(rt, g, ins, argPtrs, lo + 1);
      ThenHookObserver(AdmitArg(Installed, rt, g, lo, argPtrs[lo], ins[lo]), AdmitArg(Unset, rt, g, lo, argPtrs[lo], ins[lo]),
                       ResolveArgs(Installed, rt, g, ins, argPtrs, lo + 1), ResolveArgs(Unset, rt, g, ins, argPtrs, lo + 1));
    }
  }

  /** Whether or not HandleError is set, NewProvider and Provide end the same
      way and take the same actions; an installed hook only adds its single
      notification. */
  lemma HookIsObserver(rt: Runtime, g: Graph, ctor: Any, argPtrs: seq<Any>)
    ensures NewProvider(Installed, ctor, argPtrs).outcome == NewProvider(Unset, ctor, argPtrs).outcome
    ensures Erase(NewProvider(Installed, ctor, argPtrs).trace) == NewProvider(Unset, ctor, argPtrs).trace
    ensures Provider(ctor, argPtrs).Callable() ==>
              var p := Provider(ctor, argPtrs);
              && Provide(Installed, rt, g, p).outcome == Provide(Unset, rt, g, p).outcome
              && Erase(Provide(Installed, rt, g, p).trace) == Provide(Unset, rt, g, p).trace
  {
    if Provider(ctor, argPtrs).Callable() {
      var ins := Ins(ctor);
      ResolveArgsHookObserver(rt, g, ins, argPtrs, 0);
      var a := ResolveArgs(Installed, rt, g, ins, argPtrs, 0);
      if a.outcome.Done? {
        InvokeHookObserver(rt, ctor, a.outcome.value);
        EraseConcat(a.trace, Invoke(Installed, rt, ctor, a.outcome.value).trace);
      }
    }
  }

  /** Only kinds are compared: replacing each argument pointer by one of the
      same nil-ness and element kind, whatever its types, never changes
      whether NewProvider accepts. */
  lemma OnlyKindsCompared(ctor: Any, argPtrs: seq<Any>, others: seq<Any>)
    requires |argPtrs| == |others|
    requires forall i :: 0 <= i < |argPtrs| ==>
               && argPtrs[i].Boxed? == others[i].Boxed?
               && (argPtrs[i].Boxed? ==>
                     && argPtrs[i].value.typ.shape.PtrShape? == others[i].value.typ.shape.PtrShape?
                     && (argPtrs[i].value.typ.shape.PtrShape? ==> ElemKind(argPtrs[i].value) == ElemKind(others[i].value)))
    ensures NewProvider(Unset, ctor, argPtrs).outcome.Done? <==> NewProvider(Unset, ctor, others).outcome.Done?
  {
  }
}
