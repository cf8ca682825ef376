/** An optional value: a notification payload, a decoded command. */
module Options {

  datatype Option<T> = None | Some(value: T)
}
