/** Java references that may be null: `None` is null, `Some(v)` a present value. */
module Nullable {
  datatype Option<+T> = None | Some(value: T)
}
