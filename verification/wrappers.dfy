/** The optional-value datatype used for pandas' missing values (NaN) and
    for the Day column, which exists only in the daily layout. */
module Wrappers {

  datatype Option<+T> = None | Some(value: T)
}
