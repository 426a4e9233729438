/** Java's nullable references, modelled as an option: `None` is `null`. */
module Wrappers {

  datatype Option<+T> = None | Some(value: T)

}
