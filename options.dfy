/** An optional value, used for attributes a resource record may lack. */
module Options {

  datatype Option<+T> = None | Some(value: T)
}
