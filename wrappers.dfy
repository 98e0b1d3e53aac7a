/** Optional values: `None` stands for a JavaScript `undefined` (an absent body field)
    or, for a stored number, a value that did not parse. */
module Wrappers {

  datatype Option<+T> = None | Some(value: T)
}
