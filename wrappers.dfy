/** Option and Result: the absent values (Go nil pointers) and the fatal outcomes
    (fatalf / fatalOnError, which panic) of the importer. */
module Wrappers {

  datatype Option<+T> = None | Some(value: T)

  /** A computation that either yields a value or aborts the whole run with a reason. */
  datatype Result<+T> = Ok(value: T) | Fatal(reason: string)
}
