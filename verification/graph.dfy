/**
 The dependency graph as the providers see it: the three queries they make,
 given as functions from the query to its answer. How the graph finds,
 builds or caches those answers is not part of this model; a failing answer
 is a panic raised inside the graph, which the provider lets propagate.
 */
module GraphOracle {
  import opened Reflect
  import opened Trace

  datatype Graph = Graph(
    /** Graph.Resolve(ptr): the value bound to an argument pointer */
    resolve: Any -> Outcome<Value>,
    /** Graph.ResolveByType(t): the values whose type is exactly t */
    resolveByType: Type -> Outcome<seq<Value>>,
    /** Graph.ResolveByAssignableType(t): the values assignable to t */
    resolveByAssignableType: Type -> Outcome<seq<Value>>)
}
