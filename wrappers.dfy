/** PHP functions in this model answer either with a value or with `false`/`null`;
    both "no answer" results are written as `None`. */
module Wrappers {

  datatype Option<+T> = None | Some(value: T)
}
