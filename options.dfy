/** The optional value used wherever the source has an optional property or a
    nullable state (`label?`, `innerRadius?`, `number | null`). */
module Options {

  datatype Option<T> = None | Some(value: T)
}
