/**
 * Java exceptions as far as the breaker looks at them: the class of the
 * exception object and the exception it wraps, as `Throwable.getCause()`
 * returns it.
 */
module Throwables {
  import opened Wrappers
  import opened Classes

  /** An exception and its cause; a chain of causes always ends, so a cyclic chain cannot be built. */
  datatype Throwable = Throwable(cls: ClassRef, cause: Option<Throwable>)

  /** The exception followed by its causes, outermost first, following `getCause()`. */
  function ThrowableList(t: Throwable): (list: seq<Throwable>)
    ensures |list| >= 1 && list[0] == t
    ensures forall k :: 0 <= k < |list| - 1 ==> list[k].cause == Some(list[k + 1])
    ensures list[|list| - 1].cause.None?
    ensures |list| >= 2 <==> t.cause.Some?
  {
    match t.cause
    case None => [t]
    case Some(c) => [t] + ThrowableList(c)
  }

  /** The innermost exception reached by following causes from `t`. */
  function Innermost(t: Throwable): (r: Throwable)
    ensures r.cause.None?
    ensures r == ThrowableList(t)[|ThrowableList(t)| - 1]
  {
    match t.cause
    case None => t
    case Some(c) => Innermost(c)
  }

  /**
   * The root cause as `ExceptionUtils.getRootCause` reports it, restricted to
   * `getCause()` links: the last exception of the cause chain, or null when `t`
   * has no cause at all.
   */
  function RootCause(t: Throwable): (r: Option<Throwable>)
    ensures r.None? <==> t.cause.None?
    ensures r.Some? ==> r.value.cause.None? && r.value == ThrowableList(t)[|ThrowableList(t)| - 1]
  {
    match t.cause
    case None => None
    case Some(c) => Some(Innermost(c))
  }

  /** Every exception on the chain is an instance of a class in the table. */
  predicate Loaded(table: ClassTable, t: Throwable) {
    forall k :: 0 <= k < |ThrowableList(t)| ==> ThrowableList(t)[k].cls < |table|
  }
}
