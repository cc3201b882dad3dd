/** Swift's optionals. */
module Optional {
  datatype Option<+T> = Nothing | Some(value: T)
}
