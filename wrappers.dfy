/** The optional value the model uses for Python's `None`-or-value results. */
module Wrappers {

  datatype Option<+T> = None | Some(value: T)

  /** Some element of a non-empty set, for loops that visit a set one element at a time. */
  method Pick<T>(s: set<T>) returns (x: T)
    requires s != {}
    ensures x in s
  {
    x :| x in s;
  }

  function Min(a: int, b: int): int
  {
    if a <= b then a else b
  }
}
