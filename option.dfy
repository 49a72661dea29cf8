/** The optional value used for nullable references and unset fields. */
module Optional {
  datatype Option<T> = None | Some(value: T)
}
