/** Option, and the outcome of a call that may raise a Python exception. */
module Wrappers {

  datatype Option<+T> = None | Some(value: T)

  /** `:-` propagates `Raised` to the caller, as an uncaught exception does. */
  datatype Call<+T> = Returned(value: T) | Raised {

    predicate IsFailure() {
      Raised?
    }

    function PropagateFailure<U>(): Call<U>
      requires Raised?
    {
      Raised
    }

    function Extract(): T
      requires Returned?
    {
      value
    }
  }

  /** Some element: where Python walks a dict, in whatever order. */
  method AnyOf<T>(items: set<T>) returns (item: T)
    requires items != {}
    ensures item in items
  {
    item :| item in items;
  }
}
