/** The nullable results of the repositories (`FirstOrDefault`, `QuerySingleOrDefault`,
    a nullable column) are modelled as an Option. */
module Wrappers {

  datatype Option<+T> = None | Some(value: T)
}
