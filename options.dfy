/** The optional value the TypeScript code writes as `T | undefined` (an absent field of a row). */
module Options {
  datatype Option<+T> = None | Some(value: T)
}
