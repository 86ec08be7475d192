/** The usual optional value, standing for the source's std::optional and null pointers. */
module Options {

  datatype Option<+T> = None | Some(value: T)
}
