/** The Some/None datatype used for every value that Python leaves as `None` or
    pandas leaves as `NaN`: the model does not tell the two apart. */
module Wrappers {

  datatype Option<+T> = None | Some(value: T)
}
