/**
 The auto provider (auto_provider.go): a constructor only. Provide picks
 each argument by the type of the matching constructor input, asking the
 graph for exact-type candidates first and for assignable-type candidates
 only when there is no exact one, and demands exactly one candidate.
 */
module AutoProvider {
  import opened Reflect
  import opened Trace
  import opened ErrorHandler
  import opened GraphOracle
  import opened Constructor

  /** What NewAutoProvider stores: the constructor alone. */
  datatype AutoProvider = AutoProvider(ctor: Any)
  {
    /** The provider is one NewAutoProvider accepts. */
    predicate Valid() {
      WellShaped(ctor)
    }
  }

  /** NewAutoProvider: the same shape checks as NewProvider and nothing
      more; in particular the constructor may take any number of inputs. */
  function NewAutoProvider(hook: ErrorHook, ctor: Any): (r: Run<AutoProvider>)
    ensures r.outcome.Done? <==> WellShaped(ctor)
    ensures r.outcome.Done? ==>
              r.outcome.value == AutoProvider(ctor) && r.outcome.value.Valid() && r.trace == []
    ensures r.outcome.Panicked? ==> r.trace == Notice(hook, r.outcome.err)
    ensures !IsFunc(ctor) ==> r.outcome == Panicked(BareNotAFunction)
    ensures IsFunc(ctor) && |Outs(ctor)| == 2 && Outs(ctor)[1].name != "error" ==>
              r.outcome == Panicked(SecondReturnNotError(Outs(ctor)[1]))
    ensures IsFunc(ctor) && |Outs(ctor)| != 1 && |Outs(ctor)| != 2 ==>
              r.outcome == Panicked(BadReturnCount(|Outs(ctor)|))
    ensures Observed(hook, r)
  {
    if !IsFunc(ctor) then Fail(hook, [], BareNotAFunction)
    else
      var v := CheckShape(ctor);
      if v.Accept? then Run([], Done(AutoProvider(ctor))) else Fail(hook, [], v.err)
  }

  /** autoProvider.ReturnType: the constructor's first output type. */
  function ReturnType(p: AutoProvider): Type
    requires p.Valid()
  {
    Outs(p.ctor)[0]
  }

  /** v is the only candidate of its tier for type t: the only exact-type
      candidate, or, when there is no exact-type candidate at all, the only
      assignable-type candidate. */
  predicate UniqueCandidate(g: Graph, t: Type, v: Value) {
    || g.resolveByType(t) == Done([v])
    || (g.resolveByType(t) == Done([]) && g.resolveByAssignableType(t) == Done([v]))
  }

  /** Exactly one candidate is found for type t. */
  predicate Selectable(g: Graph, t: Type) {
    || (g.resolveByType(t).Done? && |g.resolveByType(t).value| == 1)
    || (&& g.resolveByType(t) == Done([])
        && g.resolveByAssignableType(t).Done?
        && |g.resolveByAssignableType(t).value| == 1)
  }

  /** The candidate chosen for a selectable type. */
  function Selected(g: Graph, t: Type): (v: Value)
    requires Selectable(g, t)
    ensures UniqueCandidate(g, t, v)
  {
    var found :=
      if g.resolveByType(t).Done? && |g.resolveByType(t).value| == 1 then g.resolveByType(t).value
      else g.resolveByAssignableType(t).value;
    assert found == [found[0]];
    found[0]
  }

  /** The failure comes from the graph itself rather than from counting. */
  predicate FromGraph(g: Graph, t: Type) {
    || g.resolveByType(t).Panicked?
    || (g.resolveByType(t) == Done([]) && g.resolveByAssignableType(t).Panicked?)
  }

  /** The queries made for an argument of type t, in order. */
  function Queries(g: Graph, t: Type): (evs: seq<Event>)
    ensures |evs| >= 1 && evs[0] == ResolveByType(t)
  {
    if g.resolveByType(t) == Done([]) then [ResolveByType(t), ResolveByAssignableType(t)]
    else [ResolveByType(t)]
  }

  /** The error a non-selectable argument at position i fails with. */
  function SelectFault(g: Graph, i: nat, t: Type): Error
    requires !Selectable(g, t)
  {
    var found := if g.resolveByType(t) == Done([]) then g.resolveByAssignableType(t) else g.resolveByType(t);
    match found
    case Panicked(e) => e
    case Done(vs) => if |vs| > 1 then Ambiguous(i, t) else NoCandidate(i, t)
  }

  /** One round of the argument loop of Provide: the exact-type query, the
      assignable-type query when that found nothing, and the exactly-one rule. */
  function SelectArg(hook: ErrorHook, g: Graph, i: nat, t: Type): (r: Run<Value>)
    ensures |r.trace| >= 1 && r.trace[0] == ResolveByType(t)
    ensures ResolveByAssignableType(t) in r.trace <==> g.resolveByType(t) == Done([])
    ensures r.outcome.Done? <==> Selectable(g, t)
    ensures Observed(hook, r)
  {
    var asked := [ResolveByType(t)];
    match g.resolveByType(t)
    case Panicked(e) => Run(asked, Panicked(e))
    case Done(exact) =>
      if |exact| == 0 then
        var asked2 := asked + [ResolveByAssignableType(t)];
        match g.resolveByAssignableType(t)
        case Panicked(e) => Run(asked2, Panicked(e))
        case Done(assignable) => Pick(hook, asked2, i, t, assignable)
      else
        Pick(hook, asked, i, t, exact)
  }

  /** How one round ends: v is chosen iff it is the unique candidate of the
      tier consulted; more than one candidate is ambiguous and none is
      absent, both naming the position and type; the round's actions are its
      queries, then the hook's notification unless the graph itself panicked. */
  lemma SelectArgEnds(hook: ErrorHook, g: Graph, i: nat, t: Type)
    ensures var r := SelectArg(hook, g, i, t);
            && (forall v :: r.outcome == Done(v) <==> UniqueCandidate(g, t, v))
            && (g.resolveByType(t).Done? && |g.resolveByType(t).value| > 1 ==>
                  r.outcome == Panicked(Ambiguous(i, t)))
            && (g.resolveByType(t) == Done([]) && g.resolveByAssignableType(t).Done? ==>
                  && (|g.resolveByAssignableType(t).value| > 1 ==> r.outcome == Panicked(Ambiguous(i, t)))
                  && (|g.resolveByAssignableType(t).value| == 0 ==> r.outcome == Panicked(NoCandidate(i, t))))
            && (r.outcome.Panicked? ==> r.outcome.err == SelectFault(g, i, t))
            && r.trace == Queries(g, t) +
                 (if r.outcome.Panicked? && !FromGraph(g, t) then Notice(hook, r.outcome.err) else [])
  {
  }

  /** The exactly-one rule applied to the candidates found. */
  function Pick(hook: ErrorHook, asked: seq<Event>, i: nat, t: Type, values: seq<Value>): (r: Run<Value>)
    requires forall k :: 0 <= k < |asked| ==> !asked[k].HandleError?
    ensures r.outcome.Done? <==> |values| == 1
    ensures r.outcome.Done? ==> r == Run(asked, Done(values[0]))
    ensures forall v :: r.outcome == Done(v) <==> values == [v]
    ensures |values| > 1 ==> r.outcome == Panicked(Ambiguous(i, t))
    ensures |values| == 0 ==> r.outcome == Panicked(NoCandidate(i, t))
    ensures r.outcome.Panicked? ==> r.trace == asked + Notice(hook, r.outcome.err)
    ensures Observed(hook, r)
  {
    if |values| > 1 then
      Fail(hook, asked, Ambiguous(i, t))
    else if |values| == 0 then
      Fail(hook, asked, NoCandidate(i, t))
    else
      assert values == [values[0]];
      Run(asked, Done(values[0]))
  }

  /** The actions for an argument of type t at position i that has no
      single candidate: its queries, then the hook's notification unless the
      graph itself panicked. */
  function FailedQueries(hook: ErrorHook, g: Graph, i: nat, t: Type): seq<Event>
    requires !Selectable(g, t)
  {
    Queries(g, t) + (if FromGraph(g, t) then [] else Notice(hook, SelectFault(g, i, t)))
  }

  /** A selectable argument is chosen after exactly its queries. */
  lemma SelectArgChooses(hook: ErrorHook, g: Graph, i: nat, t: Type)
    requires Selectable(g, t)
    ensures SelectArg(hook, g, i, t) == Run(Queries(g, t), Done(Selected(g, t)))
  {
  }

  /** The hook is only an observer of one round. */
  lemma SelectArgHookObserver(g: Graph, i: nat, t: Type)
    ensures SelectArg(Installed, g, i, t).outcome == SelectArg(Unset, g, i, t).outcome
    ensures Erase(SelectArg(Installed, g, i, t).trace) == SelectArg(Unset, g, i, t).trace
  {
    var q := Queries(g, t);
    EraseQuiet(q);
    var b := SelectArg(Installed, g, i, t);
    EraseConcat(q, b.trace[|q|..]);
    assert b.trace == q + b.trace[|q|..];
  }

  /** j is the first position in [lo, |ins|) without exactly one candidate. */
  predicate FirstUnselectable(g: Graph, ins: seq<Type>, lo: nat, j: int) {
    && lo <= j < |ins|
    && !Selectable(g, ins[j])
    && forall k :: lo <= k < j ==> Selectable(g, ins[k])
  }

  /** The queries for positions lo .. hi-1, in that order. */
  function QueryEvents(g: Graph, ins: seq<Type>, lo: nat, hi: nat): seq<Event>
    requires lo <= hi <= |ins|
    decreases hi - lo
  {
    if lo == hi then [] else Queries(g, ins[lo]) + QueryEvents(g, ins, lo + 1, hi)
  }

  /** The argument loop of Provide from position lo on. */
  function SelectArgs(hook: ErrorHook, g: Graph, ins: seq<Type>, lo: nat): (r: Run<seq<Value>>)
    requires lo <= |ins|
    decreases |ins| - lo
    ensures r.outcome.Done? <==> forall j :: lo <= j < |ins| ==> Selectable(g, ins[j])
    ensures Observed(hook, r)
  {
    if lo == |ins| then Run([], Done([]))
    else
      var s := SelectArg(hook, g, lo, ins[lo]);
      var rest := SelectArgs(hook, g, ins, lo + 1);
      ThenObserved(hook, s, rest);
      Then(s, rest)
  }

  /** When every argument from lo on has exactly one candidate, the loop
      queries them all in position order and yields those candidates. */
  lemma {:induction false} SelectArgsSucceed(hook: ErrorHook, g: Graph, ins: seq<Type>, lo: nat)
    requires lo <= |ins|
    requires forall j :: lo <= j < |ins| ==> Selectable(g, ins[j])
    ensures var r := SelectArgs(hook, g, ins, lo);
            && r.outcome.Done?
            && |r.outcome.value| == |ins| - lo
            && (forall j :: lo <= j < |ins| ==> r.outcome.value[j - lo] == Selected(g, ins[j]))
            && r.trace == QueryEvents(g, ins, lo, |ins|)
    decreases |ins| - lo
  {
    if lo < |ins| {
      SelectArgsSucceed(hook, g, ins, lo + 1);
      SelectArgChooses(hook, g, lo, ins[lo]);
      var rest := SelectArgs(hook, g, ins, lo + 1);
      var more := rest.outcome.value;
      var v := Selected(g, ins[lo]);
      assert SelectArgs(hook, g, ins, lo) == Run(Queries(g, ins[lo]) + rest.trace, Done([v] + more));
      forall j | lo < j < |ins|
        ensures ([v] + more)[j - lo] == Selected(g, ins[j])
      {
        assert ([v] + more)[j - lo] == more[j - (lo + 1)];
      }
    }
  }

  /** The first argument without exactly one candidate ends the loop: its
      queries are the last ones made, and the failure is the graph's own
      panic or, through the error handler, the ambiguity or absence naming
      its position. */
  lemma {:induction false} SelectArgsStopAtFirst(hook: ErrorHook, g: Graph, ins: seq<Type>, lo: nat, j: int)
    requires lo <= |ins|
    requires FirstUnselectable(g, ins, lo, j)
    ensures var r := SelectArgs(hook, g, ins, lo);
            && r.outcome == Panicked(SelectFault(g, j, ins[j]))
            && r.trace == QueryEvents(g, ins, lo, j) + FailedQueries(hook, g, j, ins[j])
    decreases |ins| - lo
  {
    var s := SelectArg(hook, g, lo, ins[lo]);
    var rest := SelectArgs(hook, g, ins, lo + 1);
    assert SelectArgs(hook, g, ins, lo) == Then(s, rest);
    if j == lo {
      SelectArgEnds(hook, g, lo, ins[lo]);
    } else {
      SelectArgChooses(hook, g, lo, ins[lo]);
      SelectArgsStopAtFirst(hook, g, ins, lo + 1, j);
      var tail := FailedQueries(hook, g, j, ins[j]);
      calc {
        Then(s, rest).trace;
        Queries(g, ins[lo]) + (QueryEvents(g, ins, lo + 1, j) + tail);
        (Queries(g, ins[lo]) + QueryEvents(g, ins, lo + 1, j)) + tail;
      }
    }
  }

  /** SelectArgsStopAtFirst at every first unselectable position, counted from 0. */
  lemma SelectArgsStopAtFirstAll(hook: ErrorHook, g: Graph, ins: seq<Type>)
    ensures var r := SelectArgs(hook, g, ins, 0);
            forall j :: FirstUnselectable(g, ins, 0, j) ==>
              && r.outcome == Panicked(SelectFault(g, j, ins[j]))
              && r.trace == QueryEvents(g, ins, 0, j) + FailedQueries(hook, g, j, ins[j])
  {
    forall j | FirstUnselectable(g, ins, 0, j) {
      SelectArgsStopAtFirst(hook, g, ins, 0, j);
    }
  }

  /** Every input type of the provider has exactly one candidate. */
  predicate AllSelectable(g: Graph, p: AutoProvider)
    requires p.Valid()
  {
    forall j :: 0 <= j < |Ins(p.ctor)| ==> Selectable(g, Ins(p.ctor)[j])
  }

  /** The values Provide passes to the constructor when every argument has
      exactly one candidate. */
  function Chosen(g: Graph, p: AutoProvider): seq<Value>
    requires p.Valid()
    requires AllSelectable(g, p)
  {
    var ins := Ins(p.ctor);
    seq(|ins|, j requires 0 <= j < |ins| && Selectable(g, ins[j]) => Selected(g, ins[j]))
  }

  /** autoProvider.Provide. */
  function Provide(hook: ErrorHook, rt: Runtime, g: Graph, p: AutoProvider): (r: Run<Value>)
    requires p.Valid()
    ensures r.outcome.Done? <==>
              && AllSelectable(g, p)
              && CallSucceeds(rt, p.ctor, Chosen(g, p))
    ensures r.outcome.Done? ==>
              && r.outcome.value.typ == ReturnType(p)
              && r.trace == QueryEvents(g, Ins(p.ctor), 0, |Ins(p.ctor)|) + [Call(Chosen(g, p))]
    ensures forall j :: FirstUnselectable(g, Ins(p.ctor), 0, j) ==>
              && r.outcome == Panicked(SelectFault(g, j, Ins(p.ctor)[j]))
              && r.trace == QueryEvents(g, Ins(p.ctor), 0, j) + FailedQueries(hook, g, j, Ins(p.ctor)[j])
    ensures AllSelectable(g, p) ==>
              var c := Invoke(hook, rt, p.ctor, Chosen(g, p));
              r == Run(QueryEvents(g, Ins(p.ctor), 0, |Ins(p.ctor)|) + c.trace, c.outcome)
    ensures Observed(hook, r)
  {
    var ins := p.ctor.value.typ.shape.ins;
    var a := SelectArgs(hook, g, ins, 0);
    SelectArgsStopAtFirstAll(hook, g, ins);
    match a.outcome
    case Panicked(e) => Run(a.trace, Panicked(e))
    case Done(args) =>
      SelectArgsSucceed(hook, g, ins, 0);
      assert args == Chosen(g, p);
      var c := Invoke(hook, rt, p.ctor, args);
      ObservedAfter(hook, a.trace, c);
      Run(a.trace + c.trace, c.outcome)
  }

  /** Exact-type candidates shadow assignable ones: two graphs that agree on
      the exact-type answer for t, when that answer is not "none", lead to
      the same selection, whatever their assignable-type answers. */
  lemma ExactBeforeAssignable(hook: ErrorHook, g1: Graph, g2: Graph, i: nat, t: Type)
    requires g1.resolveByType(t) == g2.resolveByType(t) != Done([])
    ensures SelectArg(hook, g1, i, t) == SelectArg(hook, g2, i, t)
  {
  }

  /** The same, for the whole argument loop. */
  lemma {:induction false} SelectArgsExactBeforeAssignable(hook: ErrorHook, g1: Graph, g2: Graph, ins: seq<Type>, lo: nat)
    requires lo <= |ins|
    requires forall j :: lo <= j < |ins| ==> g1.resolveByType(ins[j]) == g2.resolveByType(ins[j]) != Done([])
    ensures SelectArgs(hook, g1, ins, lo) == SelectArgs(hook, g2, ins, lo)
    decreases |ins| - lo
  {
    if lo < |ins| {
      ExactBeforeAssignable(hook, g1, g2, lo, ins[lo]);
      SelectArgsExactBeforeAssignable(hook, g1, g2, ins, lo + 1);
    }
  }

  /** When every input type has exact-type candidates (or the exact query
      panics), Provide never consults the assignable-type query: changing
      its answers changes nothing. */
  lemma ProvideExactBeforeAssignable(hook: ErrorHook, rt: Runtime, g1: Graph, g2: Graph, p: AutoProvider)
    requires p.Valid()
    requires g1.resolveByType == g2.resolveByType
    requires forall j :: 0 <= j < |Ins(p.ctor)| ==> g1.resolveByType(Ins(p.ctor)[j]) != Done([])
    ensures Provide(hook, rt, g1, p) == Provide(hook, rt, g2, p)
  {
    SelectArgsExactBeforeAssignable(hook, g1, g2, Ins(p.ctor), 0);
  }

  /** The hook is only an observer of the argument loop. */
  lemma {:induction false} SelectArgsHookObserver(g: Graph, ins: seq<Type>, lo: nat)
    requires lo <= |ins|
    ensures SelectArgs(Installed, g, ins, lo).outcome == SelectArgs(Unset, g, ins, lo).outcome
    ensures Erase(SelectArgs(Installed, g, ins, lo).trace) == SelectArgs(Unset, g, ins, lo).trace
    decreases |ins| - lo
  {
    if lo < |ins| {
      SelectArgHookObserver(g, lo, ins[lo]);
      SelectArgsHookObserver(g, ins, lo + 1);
      ThenHookObserver(SelectArg(Installed, g, lo, ins[lo]), SelectArg(Unset, g, lo, ins[lo]),
                       SelectArgs(Installed, g, ins, lo + 1), SelectArgs(Unset, g, ins, lo + 1));
    }
  }

  /** Whether or not HandleError is set, NewAutoProvider and Provide end the
      same way and take the same actions; an installed hook only adds its
      single notification. */
  lemma HookIsObserver(rt: Runtime, g: Graph, ctor: Any)
    ensures NewAutoProvider(Installed, ctor).outcome == NewAutoProvider(Unset, ctor).outcome
    ensures Erase(NewAutoProvider(Installed, ctor).trace) == NewAutoProvider(Unset, ctor).trace
    ensures WellShaped(ctor) ==>
              var p := AutoProvider(ctor);
              && Provide(Installed, rt, g, p).outcome == Provide(Unset, rt, g, p).outcome
              && Erase(Provide(Installed, rt, g, p).trace) == Provide(Unset, rt, g, p).trace
  {
    if WellShaped(ctor) {
      var ins := Ins(ctor);
      SelectArgsHookObserver(g, ins, 0);
      var a := SelectArgs(Installed, g, ins, 0);
      if a.outcome.Done? {
        InvokeHookObserver(rt, ctor, a.outcome.value);
        EraseConcat(a.trace, Invoke(Installed, rt, ctor, a.outcome.value).trace);
      }
    }
  }
}
