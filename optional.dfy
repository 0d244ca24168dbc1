/** The absent-or-present value that JavaScript writes as `undefined` or `null`. */
module Optional {

  datatype Option<+T> = None | Some(value: T)

}
