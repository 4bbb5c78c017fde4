/**
 * Shared vocabulary of the curried utility library.
 *
 * Every exported operation counts the arguments it was actually given and
 * either hands back a callable (itself, when given none, or a continuation
 * holding the arguments so far) or runs its final computation.
 */
module Curry {

  /**
   * What a call of a curried callable returns: a callable of the same family
   * (`fn` is the callee itself when no argument was passed) or a final value.
   */
  datatype Returned<F, R> = Callable(fn: F) | Value(value: R)

  /** A possibly absent value; `None` stands for JavaScript's `undefined`. */
  datatype Option<T> = None | Some(value: T)
}
