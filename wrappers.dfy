/** The optional value the recognizer returns where Python returns `None`. */
module Wrappers {

  datatype Option<+T> = None | Some(value: T)
}
