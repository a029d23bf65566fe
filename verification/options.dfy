/** The optional value used wherever the script can come back with nothing:
    a missing dictionary key, a failed parse, a Python exception. */
module Options {

  datatype Option<+T> = None | Some(value: T)
}
