/** Nullable values of the Kotlin source (`T?`) become `Option<T>`. */
module Options {

  datatype Option<+T> = None | Some(value: T)
}
