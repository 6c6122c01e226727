/** The optional value used throughout the model for "the syscall or decoder found nothing"
    and for "the validator aborts". */
module Wrappers {

  datatype Option<+T> = None | Some(value: T)
}
