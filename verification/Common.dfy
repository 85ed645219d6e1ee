/** What every part of the model uses. */
module Common {

  datatype Option<T> = None | Some(value: T)
}
