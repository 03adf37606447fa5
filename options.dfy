/** The optional value the script uses for "no response" (Python's None). */
module Options {

  datatype Option<+T> = None | Some(value: T)
}
