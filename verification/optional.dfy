/** A small optional-value datatype used by the searches of the model. */
module Optional {

  datatype Option<T> = None | Some(value: T)
}
