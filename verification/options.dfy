/** The optional value used wherever the source has `undefined`, an optional
    field (`link?: string`) or a search that may find nothing. */
module Options {

  datatype Option<+T> = None | Some(value: T)
}
