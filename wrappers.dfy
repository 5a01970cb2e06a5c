/** The source's nullable references and "not found" results. */
module Wrappers {

  datatype Option<T> = None | Some(value: T)
}
