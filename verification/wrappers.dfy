/** A minimal optional-value datatype, used where GraphSearchAI.py returns `None`. */
module Wrappers {

  datatype Option<+T> = None | Some(value: T)

}
