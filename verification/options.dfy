/** The optional value used wherever the tracker returns `null` for "nothing found". */
module Options {

  datatype Option<+T> = None | Some(value: T)

}
