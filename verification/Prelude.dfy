/** Vocabulary shared by every component of the model. */
module Prelude {

  datatype Option<+T> = None | Some(value: T)

  /** `order` lists every element of `s` exactly once: how a query hands rows to a loop. */
  ghost predicate Enumerates<T(!new)>(order: seq<T>, s: set<T>)
  {
    && (forall x :: x in s <==> x in order)
    && forall i, j :: 0 <= i < j < |order| ==> order[i] != order[j]
  }

  // --- Calls that may fail ---

  /** How one call to a store or the door system ends. `TimedOut`: it took effect, but the caller only
      sees an error. */
  datatype Answer = Ok | Refused | TimedOut

  /** A script answers the calls of a job one by one. When it is used up the process is dead and no
      further call does anything. */
  predicate Takes(script: seq<Answer>) {
    script != [] && !script[0].Refused?
  }

  predicate Succeeds(script: seq<Answer>) {
    script != [] && script[0].Ok?
  }

  function Rest(script: seq<Answer>): seq<Answer> {
    if script == [] then [] else script[1..]
  }

  ghost predicate AllOk(script: seq<Answer>) {
    forall a :: a in script ==> a.Ok?
  }
}
