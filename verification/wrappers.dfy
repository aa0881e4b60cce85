/** An optional value: the search, the parsers and the page's fields use it
    where the source has `undefined` or no result. */
module Wrappers {

  datatype Option<T> = None | Some(value: T)
}
