/** The optional value the source writes as `null`, `undefined` or a thrown URIError. */
module Wrappers {

  datatype Option<+T> = None | Some(value: T)

}
