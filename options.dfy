/** The optional value of the pages' nullable state (`Contributor | null`,
    `number | null`). */
module Options {

  datatype Option<T> = None | Some(value: T)
}
