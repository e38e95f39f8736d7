/** The optional value returned by `project()`: either no handle, or one. */
module Optional {

  datatype Option<+T> = None | Some(value: T)
}
