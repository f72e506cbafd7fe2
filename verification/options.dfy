/** The optional result used where a declaration has no matching overload (TypeScript's `never`). */
module Options {

  datatype Option<+T> = None | Some(value: T)

}
