/** An optional value: `None` stands for a result the source cannot represent as a finite number. */
module Wrappers {
  datatype Option<+T> = None | Some(value: T)
}
