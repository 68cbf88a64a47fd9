/** The usual optional value: `None` stands for a null pointer or a failed query. */
module Wrappers {

  datatype Option<+T> = None | Some(value: T)

}
