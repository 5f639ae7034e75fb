/**
 What a provider operation can end with, and what it does on the way.
 A Go panic is modelled as a `Panicked` outcome carrying the error; the
 visible actions of an operation (queries to the graph, the constructor call,
 notifications of the error hook) are recorded, in order, in the trace of a
 `Run`.
 */
module Trace {
  import opened Reflect

  /** The errors the providers raise, one variant per failure site. The
      human-readable text of each is not modelled, only what it identifies. */
  datatype Error =
    | NotAFunction(foundKind: Kind)
      /** the auto provider's non-function error, which names no kind */
    | BareNotAFunction
    | SecondReturnNotError(secondType: Type)
    | BadReturnCount(outCount: nat)
    | ArgCountMismatch(given: nat, expected: nat)
    | ArgNotPointer(ptrType: Type)
    | ArgKindMismatch
    | NotAssignable(index: nat, from: Type, to: Type)
    | ConstructorFailed(cause: string)
    | Ambiguous(index: nat, argType: Type)
    | NoCandidate(index: nat, argType: Type)
      /** a panic raised by the Go runtime or by code outside the providers */
    | RuntimePanic(what: string)

  /** One visible action of an operation. */
  datatype Event =
    | Resolve(argPtr: Any)
    | ResolveByType(typ: Type)
    | ResolveByAssignableType(typ: Type)
    | Call(args: seq<Value>)
    | HandleError(err: Error)

  /** Normal return with a value, or a panic carrying an error. */
  datatype Outcome<+T> = Done(value: T) | Panicked(err: Error)

  /** The trace of an operation together with how it ended. */
  datatype Run<+T> = Run(trace: seq<Event>, outcome: Outcome<T>)

  /** The verdict of one validation step: pass, fail through the error
      handler, or crash in the Go runtime without reaching it. */
  datatype Verdict = Accept | Reject(err: Error) | Crash(what: string)
  {
    /** The error a failing verdict ends the operation with. */
    function Fault(): (e: Error)
      requires !Accept?
      ensures Reject? ==> e == err
      ensures Crash? ==> e == RuntimePanic(what)
    {
      match this
      case Reject(e) => e
      case Crash(w) => RuntimePanic(w)
    }
  }

  /** One round of an argument loop followed by the rounds after it: a
      round that panics ends the loop there; otherwise its actions precede
      the later rounds' actions and its value precedes their values. The
      later rounds are consulted only when this one completes. */
  function Then<T>(s: Run<T>, rest: Run<seq<T>>): (r: Run<seq<T>>)
    ensures r.outcome.Done? <==> s.outcome.Done? && rest.outcome.Done?
  {
    match s.outcome
    case Panicked(e) => Run(s.trace, Panicked(e))
    case Done(v) =>
      match rest.outcome
      case Panicked(e) => Run(s.trace + rest.trace, Panicked(e))
      case Done(more) => Run(s.trace + rest.trace, Done([v] + more))
  }
}
