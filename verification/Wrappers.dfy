/** What several of the modules say in the same words. */
module Wrappers {

  datatype Option<+T> = None | Some(value: T)

  /** What one call of a message Handler came to. Both consumers turn a panic into an error
      (kafka/kafka.go:375-380, rabbit/rabbit.go:310-315), so only a nil return is a success. */
  datatype CallResult = ReturnedNil | ReturnedError | Panicked

  predicate Success(r: CallResult) {
    r == ReturnedNil
  }
}
