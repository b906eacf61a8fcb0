/** The nullable value of the component's state: `null` or a string. */
module Options {
  datatype Option<+T> = None | Some(value: T)
}
