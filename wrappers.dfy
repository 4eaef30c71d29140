/** The optional value used for "a corner was found" / "no corner fits". */
module Wrappers {

  datatype Option<T> = None | Some(value: T)

}
