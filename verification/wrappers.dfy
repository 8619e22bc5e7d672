/** The JavaScript `undefined` that the chart code can produce, as an Option. */
module Wrappers {

  datatype Option<+T> = None | Some(value: T)
}
