/**
 The package's error path (errorhandler.go): every failure the providers
 detect goes through `PanicSafe`, which first notifies the optional hook
 `HandleError` and then panics with the error. The hook is an observer: the
 model records its notification in the trace and gives it no way to alter the
 outcome.
 */
module ErrorHandler {
  import opened Trace

  /** The package variable HandleError: nil, or a function installed by the
      program. */
  datatype ErrorHook = Unset | Installed

  /** The notifications the hook receives when err is reported. */
  function Notice(hook: ErrorHook, err: Error): (n: seq<Event>)
    ensures |n| <= 1
    ensures |n| == 1 <==> hook.Installed?
    ensures forall k :: 0 <= k < |n| ==> n[k] == HandleError(err)
  {
    if hook.Installed? then [HandleError(err)] else []
  }

  /** The hook notifications in a run occur only when the hook is installed,
      only as the run's very last action, and only with the error the run
      panics with: at most one notification, strictly before the panic. */
  predicate Observed<T>(hook: ErrorHook, r: Run<T>) {
    forall k :: 0 <= k < |r.trace| && r.trace[k].HandleError? ==>
      && hook.Installed?
      && k == |r.trace| - 1
      && r.outcome == Panicked(r.trace[k].err)
  }

  /** What a call of panicSafe leaves behind. It has no normal return: only
      the notifications the hook received and the error it panics with. */
  datatype Panic = Panic(notices: seq<Event>, err: Error)

  /** panicSafe: notifies an installed hook exactly once with err, then
      panics with err; with no hook it only panics. */
  function PanicSafe(hook: ErrorHook, err: Error): (p: Panic)
    ensures p.err == err
    ensures hook.Installed? ==> p.notices == [HandleError(err)]
    ensures hook.Unset? ==> p.notices == []
  {
    Panic(Notice(hook, err), err)
  }

  /** An operation that, after the actions before, reports err through
      panicSafe: its run ends with the panic and keeps the hook discipline. */
  function Fail<T>(hook: ErrorHook, before: seq<Event>, err: Error): (r: Run<T>)
    requires forall k :: 0 <= k < |before| ==> !before[k].HandleError?
    ensures r.outcome == Panicked(err)
    ensures r.trace == before + Notice(hook, err)
    ensures Observed(hook, r)
  {
    var p := PanicSafe(hook, err);
    var raised: Run<T> := Run(p.notices, Panicked(p.err));
    ObservedAfter(hook, before, raised);
    Run(before + raised.trace, raised.outcome)
  }

  /** A trace with the hook notifications removed. */
  function Erase(trace: seq<Event>): seq<Event>
  {
    if trace == [] then []
    else (if trace[0].HandleError? then [] else [trace[0]]) + Erase(trace[1..])
  }

  lemma {:induction false} EraseConcat(a: seq<Event>, b: seq<Event>)
    ensures Erase(a + b) == Erase(a) + Erase(b)
    decreases |a|
  {
    if a == [] {
      assert a + b == b;
    } else {
      assert (a + b)[0] == a[0];
      assert (a + b)[1..] == a[1..] + b;
      EraseConcat(a[1..], b);
    }
  }

  /** Erasing keeps exactly the events that are not notifications. */
  lemma {:induction false} EraseKeepsOthers(trace: seq<Event>)
    ensures forall ev :: ev in Erase(trace) <==> ev in trace && !ev.HandleError?
    decreases |trace|
  {
    if trace != [] {
      EraseKeepsOthers(trace[1..]);
      assert trace == [trace[0]] + trace[1..];
    }
  }

  /** Erasing a trace that holds no notification changes nothing. */
  lemma {:induction false} EraseQuiet(trace: seq<Event>)
    requires forall k :: 0 <= k < |trace| ==> !trace[k].HandleError?
    ensures Erase(trace) == trace
    decreases |trace|
  {
    if trace != [] {
      EraseQuiet(trace[1..]);
    }
  }

  /** Whether or not a hook is installed, panicSafe panics with the same
      error; the hook only adds its notification. */
  lemma HookCannotChangeOutcome(err: Error)
    ensures PanicSafe(Installed, err).err == PanicSafe(Unset, err).err
    ensures Erase(PanicSafe(Installed, err).notices) == PanicSafe(Unset, err).notices
  {
  }

  /** Prefixing actions that are not notifications keeps the hook discipline. */
  lemma ObservedAfter<T>(hook: ErrorHook, before: seq<Event>, r: Run<T>)
    requires forall k :: 0 <= k < |before| ==> !before[k].HandleError?
    requires Observed(hook, r)
    ensures Observed(hook, Run(before + r.trace, r.outcome))
  {
    var t := before + r.trace;
    forall k | 0 <= k < |t| && t[k].HandleError?
      ensures hook.Installed? && k == |t| - 1 && r.outcome == Panicked(t[k].err)
    {
      assert k >= |before|;
      assert t[k] == r.trace[k - |before|];
    }
  }

  /** Chaining two runs that keep the hook discipline keeps it: a round
      that completes holds no notification. */
  lemma ThenObserved<T>(hook: ErrorHook, s: Run<T>, rest: Run<seq<T>>)
    requires Observed(hook, s) && Observed(hook, rest)
    ensures Observed(hook, Then(s, rest))
  {
    if s.outcome.Done? {
      ObservedAfter(hook, s.trace, rest);
    }
  }

  /** If the hook is only an observer of one round and of the rounds after
      it, it is only an observer of the two chained. */
  lemma ThenHookObserver<T>(s1: Run<T>, s2: Run<T>, rest1: Run<seq<T>>, rest2: Run<seq<T>>)
    requires s1.outcome == s2.outcome && Erase(s1.trace) == s2.trace
    requires s1.outcome.Done? ==> rest1.outcome == rest2.outcome && Erase(rest1.trace) == rest2.trace
    ensures Then(s1, rest1).outcome == Then(s2, rest2).outcome
    ensures Erase(Then(s1, rest1).trace) == Then(s2, rest2).trace
  {
    if s1.outcome.Done? {
      EraseConcat(s1.trace, rest1.trace);
    }
  }
}
