/** An optional value: JavaScript's "argument given or not". */
module Options {

  datatype Option<T> = None | Some(value: T)
}
