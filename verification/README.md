# inject providers in Dafny

This project models the two provider kinds of the Go dependency-injection
package `inject`, together with the error path they share.

- The **manual provider** (`NewProvider`, `provider.Provide`) takes a constructor and one argument pointer per constructor input. It resolves each argument from the graph by its pointer, then assigns or converts it to the input type.
- The **auto provider** (`NewAutoProvider`, `autoProvider.Provide`) takes only a constructor. It picks each argument by type: exact-type candidates first, and assignable-type candidates only when there is no exact one. Each argument needs exactly one candidate.
- **`panicSafe`** notifies the optional `HandleError` hook, then always panics with the error.

Modules follow the source files:

| module | file | models |
|---|---|---|
| `Reflect` | reflect.dfy | kinds, types, values and the `interface{}` box. Assignability, convertibility, conversion and calling a function are left uninterpreted, as fields of a `Runtime` record. |
| `Trace` | trace.dfy | the errors, the visible actions of an operation (`Event`), and how it ends (`Outcome`: `Done` or `Panicked`) |
| `ErrorHandler` | errorhandler.dfy | `HandleError` (`Unset` or `Installed`), `PanicSafe`, and the hook discipline `Observed` |
| `GraphOracle` | graph.dfy | the three graph queries the providers make, as functions from query to answer |
| `Constructor` | constructor.dfy | what both providers share: the shape check and the constructor call |
| `ManualProvider` | provider.dfy | provider.go |
| `AutoProvider` | auto_provider.dfy | auto_provider.go |

Each provider operation (`NewProvider`, `NewAutoProvider`, `Provide`) returns a `Run`: the ordered trace of its actions plus its outcome. Trace events are graph queries, the constructor call, and the hook's `HandleError(err)` notification.

A Go panic is a `Panicked(err)` outcome. The model keeps two kinds of panic apart:
- Failures the providers detect go through `PanicSafe`. Its result type `Panic` has no normal return.
- Crashes in the Go runtime do not reach the hook and are reported as `RuntimePanic`.

The model keeps three such crashes:
- `reflect.TypeOf(nil).Kind()` for a nil argument pointer.
- Calling a nil function value.
- A panic raised inside the constructor.

The hook is called only on failures that go through `panicSafe`; a runtime crash does not reach it.

Other edge cases the code has and the model keeps:
- A typed nil pointer has an `Invalid` element kind, so it fails the kind check.
- A nil function value of function type passes `NewProvider`. It panics only when `Provide` calls it.
- With a single result, no error is looked at.
- `NewProvider` stores the caller's variadic slice itself, so the caller can change the pointers afterwards. `Provide` therefore asks only that the constructor be well shaped and that there be one pointer per input (`Provider.Callable`). It does not ask that the pointers still pass `NewProvider`'s checks.

## Model

| member | source | states |
|---|---|---|
| ErrorHandler.PanicSafe | errorhandler.go:6-12 | panicSafe never returns normally: its result is only the hook's notifications and the error it panics with, which is err. An installed hook is notified exactly once, with err. With no hook there is no notification. |
| ErrorHandler.Fail | errorhandler.go:6-12 | an operation that reports err through panicSafe after some other actions ends by panicking with err. The notification, if any, is its last action. |
| ErrorHandler.HookCannotChangeOutcome | errorhandler.go:7-11 | with or without the hook, panicSafe panics with the same error. Removing the hook's notification from the trace gives the hookless trace. |
| Constructor.CheckShape | provider.go:16-30 | the constructor passes iff it is a function with one result, or with two results whose second prints as "error". Otherwise it fails, in this order: a non-function is rejected first with the kind found; two results with a non-error second report that second type; any other result count is reported. |
| Constructor.Invoke | provider.go:74-82 | the constructor is called with exactly the given arguments. The call succeeds iff it returns normally and, when there are two results, the error is nil. Its value is the first result, typed with the first output type. A non-nil error fails through the hook with the error's message. A single-result constructor's error part is never looked at. A nil function value and a panic inside the constructor end in a runtime panic after the call, with no notification. |
| Constructor.InvokeHookObserver | provider.go:75-79 | the hook does not change how the constructor call ends. It only adds its notification. |
| ManualProvider.CheckArgPtr | provider.go:37-44 | one argument pointer passes iff it is a non-nil pointer whose element kind equals the kind of the matching input. A nil interface crashes without reaching the hook. A non-pointer is reported with its type. A pointer whose element kind differs is reported as a kind mismatch. |
| ManualProvider.CheckArgPtrs | provider.go:37-44 | the loop accepts iff every pointer passes. Otherwise the verdict is that of the first failing pointer. |
| ManualProvider.Validate | provider.go:15-44 | NewProvider accepts iff the constructor is well shaped, the pointer count equals the input count, and every pointer passes. The non-function check comes first, then the result-arity checks, then the count (reported as given and expected), then the first failing pointer. |
| ManualProvider.NewProvider | provider.go:15-50 | succeeds iff the arguments are acceptable. It then stores the constructor and pointers unchanged and takes no other action. A failure is Validate's first failure. It is notified to an installed hook unless it is a runtime crash. |
| ManualProvider.OnlyKindsCompared | provider.go:37-44 | NewProvider compares kinds only. Pointers with the same nil-ness and element kinds are accepted alike, whatever their exact types. |
| ManualProvider.AdmitArg | provider.go:59-71 | one round of the argument loop completes iff the graph resolves the pointer and the value's type is assignable or convertible to the input type. The hook sees at most one notification, as the last action. |
| ManualProvider.AdmitArgEnds | provider.go:59-71 | an admitted argument is resolved once and passed on: the value itself if assignable, else its conversion to a value of the input type. Any other fails after its Resolve query, with the graph's own panic (no notification) or with the assignment error naming the position and both types (notified). |
| ManualProvider.ResolveArgs | provider.go:56-72 | the argument loop completes iff every argument resolves and is assignable or convertible to its input type. It respects the hook discipline. |
| ManualProvider.ResolveArgsSucceed | provider.go:58-71 | when every argument is admitted, argument j is resolved by pointer j, in position order. The value passed is the resolved value if assignable, otherwise its conversion, which has the input type. |
| ManualProvider.ResolveArgsStopAtFirst | provider.go:58-68 | the first argument that is not admitted ends the loop. Pointers up to and including it were resolved in order, and none after it. A graph panic propagates without a hook call. Otherwise the failure names that position and both types, and goes through the hook. |
| ManualProvider.Provide | provider.go:53-88 | for any provider with a well-shaped constructor and one pointer per input (the pointers may have changed since NewProvider), succeeds iff every argument is admitted and the constructor call succeeds on the admitted values. The value's type is ReturnType. On success the trace is the resolutions in order, then the call. On failure the first rejected argument decides. The hook sees at most one notification, as the last action. |
| ManualProvider.ResolveArgsHookObserver | provider.go:56-72 | the hook does not change how the argument loop ends or which queries it makes. |
| ManualProvider.HookIsObserver | provider.go:15-83 | with or without HandleError, NewProvider (on any arguments) and Provide (on any callable provider) end the same way and take the same actions. The hook only adds its notification. |
| AutoProvider.NewAutoProvider | auto_provider.go:15-35 | succeeds iff the constructor is well shaped, with any number of inputs (there is no count check). The failures come in the same order as NewProvider's and go through the hook. Its non-function error names no kind, unlike NewProvider's. On success only the constructor is stored. |
| AutoProvider.Pick | auto_provider.go:50-55 | the exactly-one rule: more than one candidate is "ambiguous", none is "no candidate", and exactly one becomes the argument. |
| AutoProvider.SelectArg | auto_provider.go:44-55 | the exact-type query always comes first. The assignable-type query is made iff the exact query returned none. The round completes iff the consulted tier has exactly one candidate. The hook sees at most one notification, as the last action. |
| AutoProvider.SelectArgEnds | auto_provider.go:44-55 | the round's result is v iff v is the unique candidate of the tier that was consulted. Ambiguity and absence are separate failures naming the position and type. The round's actions are its queries, then a notification only when the failure is not the graph's own panic. |
| AutoProvider.ExactBeforeAssignable | auto_provider.go:45-48 | two graphs that give the same non-empty exact answer give the same selection, whatever their assignable answers. |
| AutoProvider.SelectArgs | auto_provider.go:43-56 | the argument loop completes iff every input type has exactly one candidate. It respects the hook discipline. |
| AutoProvider.SelectArgsSucceed | auto_provider.go:43-56 | when every input has one candidate, the types are queried in position order and the candidates are the arguments. |
| AutoProvider.SelectArgsStopAtFirst | auto_provider.go:43-56 | the first input without exactly one candidate ends the loop. Its queries are the last ones made, and its failure is the outcome. |
| AutoProvider.SelectArgsExactBeforeAssignable | auto_provider.go:43-56 | the loop's result does not depend on the assignable answers when every exact answer is non-empty. |
| AutoProvider.Provide | auto_provider.go:38-72 | succeeds iff every input has exactly one candidate and the call succeeds on those candidates. The value's type is ReturnType. On success the trace is the queries in order, then the call. On failure the first input without a single candidate decides. |
| AutoProvider.ProvideExactBeforeAssignable | auto_provider.go:38-67 | when every input type has exact-type candidates, the assignable-type query's answers cannot change Provide. |
| AutoProvider.SelectArgsHookObserver | auto_provider.go:43-56 | the hook does not change how the auto argument loop ends or which queries it makes. |
| AutoProvider.HookIsObserver | auto_provider.go:15-67 | with or without HandleError, NewAutoProvider and Provide end the same way and take the same actions. The hook only adds its notification. |

## Left out

- The graph (`Graph.Resolve`, `ResolveByType`, `ResolveByAssignableType`) is not part of this model. Its answers are a fixed function of the query. Answers that change with earlier queries, memoization, cycle detection, and hook calls made inside the graph are not modelled.
- Reflection semantics are not modelled. `AssignableTo`, `ConvertibleTo`, `Convert` and `Call` on a non-nil function are uninterpreted fields of `Runtime`. `Convert`'s result has the target type, and only its payload is left open. Type names stand for what `reflect.Type.String` prints.
- Variadic constructors: how `reflect.Value.Call` spreads a variadic final argument lies inside the uninterpreted `call`.
- Diagnostic text is not modelled (`String`, `fmtArgPtrs`, `indent`, `ptrString`, `arrayString`, and the wording of each error message). Errors are variants that carry the positions, counts, kinds, types and error message that the text names. The constructor value and the provider description that some messages also print are left out. panicSafe panics with the string `err.Error()`; the model's panic carries the error variant, which stands for that string.
- A `HandleError` that itself panics or exits is not modelled. The hook is an observer that returns.
- ManualProvider.AdmitArg: `Convert` is assumed not to panic once `ConvertibleTo` holds. Go's `reflect.Value.Convert` can still panic then, for example when a slice is converted to a longer array. `convert` is an uninterpreted total function of `Runtime`.
- Constructor.Invoke: a non-nil error's `Error` method is assumed to return. User code there that panics would crash before `panicSafe` is reached, and the hook would not be notified.
- Concurrency is not modelled. The code makes no thread-safety promises.
- `ManualProvider.ReturnType` and `AutoProvider.ReturnType` have no contract of their own. `Provide`'s contract ties its value's type to them.
