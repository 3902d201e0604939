/** Swift's `Optional`, as the model uses it: `nil` is `None`. */
module Wrappers {

  datatype Option<+T> = None | Some(value: T) {

    /** Swift's `??`: the wrapped value, or `fallback` for `nil`. */
    function UnwrapOr(fallback: T): T {
      if this.Some? then this.value else fallback
    }
  }
}
