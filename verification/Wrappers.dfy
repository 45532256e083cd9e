/** What the other modules share: optional values, which are Ruby's nil-or-value and C's NULL-or-pointer,
    and Ruby exceptions. */
module Wrappers {

  datatype Option<+T> = None | Some(value: T)

  /** A Ruby exception. `loop` rescues those that are a StopIteration. */
  datatype Exn = Exn(id: int, stopIteration: bool)
}
