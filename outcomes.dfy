/** What a wrapped action does when it is invoked, and how a wrapper completes.
    Exceptions become values: `Failed(e)` is an action that threw `e`, and
    `Threw(e)` is a wrapper that let `e` propagate to its caller. */
module Outcomes {

  datatype Option<+T> = None | Some(value: T)

  /** The result of invoking a user action once. */
  datatype Outcome<+E> = Succeeded | Failed(error: E)

  /** How a wrapper call ends: it returns normally or rethrows an exception. */
  datatype Completion<+E> = Returned | Threw(error: E)

  /** The completion of a wrapper that passes the action's own outcome through
      unchanged (a success returns, a failure is rethrown as it was thrown). */
  function PassThrough<E>(o: Outcome<E>): (c: Completion<E>)
    ensures c.Returned? <==> o.Succeeded?
    ensures c.Threw? ==> o == Failed(c.error)
  {
    match o
    case Succeeded => Returned
    case Failed(e) => Threw(e)
  }
}
