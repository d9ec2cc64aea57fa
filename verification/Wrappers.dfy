/** Result types shared by the modules of this project. */
module Wrappers {

  datatype Option<+T> = None | Some(value: T)

  datatype Outcome = Pass | Fail(error: string)
}
