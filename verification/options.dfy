/** The optional value used for the ledger's `null`, `undefined` and
    falsy fields: a missing shift, a missing endpoint, an absent draft. */
module Options {

  datatype Option<+T> = None | Some(value: T)
}
